/**
 The credential table's own constraints, spelled out, and that every run of transactions keeps
 them: unique subject bindings, holders that exist with the right type, and column checks.
 */
module TableConstraints {
  import opened Options
  import opened Runs
  import opened Identifiers
  import opened CredentialTables
  import LocalAccess
  import ProductionBootstrap
  import AgentCredentials
  import PrincipalAgent
  import opened CredentialRuns

  /** People sign in with a wallet on a host session, workloads with neither. */
  predicate MethodsOfType(c: Credential) {
    if c.actorType == Human || c.actorType == RiskOperator || c.actorType == OperationsOperator ||
       c.actorType == Auditor
    then c.clientMethod == Siwe && c.senderMethod == HostSession
    else c.clientMethod != Siwe && c.senderMethod != HostSession
  }

  /** A stored credential: its lists, its methods, its lifetime and its holder. */
  predicate RowConstrained(t: Tables, c: Credential) {
    && |c.roles| <= 16 && Distinct(c.roles) && |c.capabilities| <= 64 && Distinct(c.capabilities)
    && MethodsOfType(c) && (c.expiresAt.Some? ==> c.createdAt < c.expiresAt.value) && c.version == 1
    && c.actor in t.actors && t.actors[c.actor].actorType == c.actorType && c.actor in t.memberships
  }

  /** No two credentials have the same issuer, client and subject, and each is as it should be. */
  ghost predicate Constrained(t: Tables) {
    && (forall x, y :: x in t.credentials && y in t.credentials && x != y ==>
          var c, d := t.credentials[x], t.credentials[y];
          c.issuer != d.issuer || c.clientId != d.clientId || c.subject != d.subject)
    && (forall x :: x in t.credentials ==> RowConstrained(t, t.credentials[x]))
  }

  /** A transaction step under which the constraints stand. */
  ghost predicate Keeps(t: Tables, u: Tables) {
    Constrained(t) ==> Constrained(u)
  }

  // ---------------------------------------------------------------------------------------
  // Statements

  /** Actors and members stay who they are. */
  predicate PeopleStay(t: Tables, u: Tables) {
    (forall a :: a in t.actors ==> a in u.actors && u.actors[a] == t.actors[a]) &&
    t.memberships.Keys <= u.memberships.Keys
  }

  lemma PeopleKeep(t: Tables, u: Tables)
    requires u.credentials == t.credentials && PeopleStay(t, u)
    ensures Keeps(t, u)
  {
  }

  lemma RegisterKeeps(t: Tables, id: CredentialId, c: Credential, invitation: Option<Hash>)
    requires Register(t, id, c, invitation).Some?
    ensures Keeps(t, Register(t, id, c, invitation).value)
    ensures PeopleStay(t, Register(t, id, c, invitation).value)
  {
    hide Origin, SafeId;
    var u := Register(t, id, c, invitation).value;
    assert RowConstrained(u, c);
    if Constrained(t) {
      forall x | x in u.credentials ensures RowConstrained(u, u.credentials[x]) {
        if x != id { assert RowConstrained(t, t.credentials[x]); }
      }
      hide RowConstrained, CredentialRow;
      forall x, y | x in u.credentials && y in u.credentials && x != y
        ensures var c, d := u.credentials[x], u.credentials[y];
                c.issuer != d.issuer || c.clientId != d.clientId || c.subject != d.subject
      {
        if x == id { assert !SameBinding(t.credentials[y], c); }
        if y == id { assert !SameBinding(t.credentials[x], c); }
      }
    }
  }

  lemma RevokeKeeps(t: Tables, id: CredentialId, now: int)
    requires Revoke(t, id, now).Some?
    ensures Keeps(t, Revoke(t, id, now).value) && PeopleStay(t, Revoke(t, id, now).value)
  {
    var u := Revoke(t, id, now).value;
    if Constrained(t) {
      forall x | x in u.credentials ensures RowConstrained(u, u.credentials[x]) {
        assert RowConstrained(t, t.credentials[x]);
      }
    }
  }

  lemma {:induction false} RevokeEachKeeps(t: Tables, ids: seq<CredentialId>, now: int)
    requires RevokeEach(t, ids, now).Some?
    ensures Keeps(t, RevokeEach(t, ids, now).value)
    decreases |ids|
  {
    hide Keeps;
    if ids == [] {
      PeopleKeep(t, t);
    } else {
      RevokeKeeps(t, ids[0], now);
      var u := Revoke(t, ids[0], now).value;
      RevokeEachKeeps(u, ids[1..], now);
      Both(t, u, RevokeEach(t, ids, now).value);
    }
  }

  lemma Both(t: Tables, u: Tables, v: Tables)
    requires Keeps(t, u) && Keeps(u, v)
    ensures Keeps(t, v)
  {
    hide Constrained;
  }

  // ---------------------------------------------------------------------------------------
  // Transactions

  lemma IdentityKeeps(t: Tables, s: ProductionBootstrap.Seed, policy: string, now: int)
    requires ProductionBootstrap.SeedIdentity(t, s, policy, now).Some?
    ensures Keeps(t, ProductionBootstrap.SeedIdentity(t, s, policy, now).value)
  {
    hide ProductionBootstrap.Bound, ProductionBootstrap.Proposable, Keeps;
    PeopleKeep(t, ProductionBootstrap.SeedIdentity(t, s, policy, now).value);
  }

  lemma {:induction false} IdentitiesKeep(t: Tables, entries: seq<ProductionBootstrap.Entry>, policy: string, now: int)
    requires ProductionBootstrap.SeedIdentities(t, entries, policy, now).Some?
    ensures Keeps(t, ProductionBootstrap.SeedIdentities(t, entries, policy, now).value)
    decreases |entries|
  {
    hide Keeps, ProductionBootstrap.SeedIdentity;
    if entries == [] {
      PeopleKeep(t, t);
    } else {
      var s := ProductionBootstrap.EntrySeed(entries[0]);
      IdentityKeeps(t, s, policy, now);
      var u := ProductionBootstrap.SeedIdentity(t, s, policy, now).value;
      IdentitiesKeep(u, entries[1..], policy, now);
      Both(t, u, ProductionBootstrap.SeedIdentities(t, entries, policy, now).value);
    }
  }

  predicate OnlyOthers(t: Tables, u: Tables) {
    u.credentials == t.credentials && u.actors == t.actors && u.memberships == t.memberships
  }

  lemma OthersKeep(t: Tables, u: Tables)
    requires OnlyOthers(t, u)
    ensures Keeps(t, u)
  {
    PeopleKeep(t, u);
  }

  lemma {:induction false} PartnersKeep(t: Tables, entries: seq<ProductionBootstrap.Entry>, tenant: Tenant)
    requires ProductionBootstrap.SeedPartners(t, entries, tenant).Some?
    ensures OnlyOthers(t, ProductionBootstrap.SeedPartners(t, entries, tenant).value)
    decreases |entries|
  {
    if entries != [] {
      PartnersKeep(ProductionBootstrap.SeedPartner(t, entries[0], tenant).value, entries[1..], tenant);
    }
  }

  lemma {:induction false} EnrollmentsKeep(t: Tables, entries: seq<ProductionBootstrap.Entry>, policy: string)
    requires ProductionBootstrap.SeedEnrollments(t, entries, policy).Some?
    ensures OnlyOthers(t, ProductionBootstrap.SeedEnrollments(t, entries, policy).value)
    decreases |entries|
  {
    hide ProductionBootstrap.Holds, ProductionBootstrap.NewEnrollment, EnrollmentRow;
    if entries != [] {
      EnrollmentsKeep(ProductionBootstrap.SeedEnrollment(t, entries[0], policy).value, entries[1..], policy);
    }
  }

  lemma EntryKeeps(t: Tables, e: ProductionBootstrap.Entry, policy: string, now: int)
    requires ProductionBootstrap.SeedCredential(t, e, policy, now).Some?
    ensures Keeps(t, ProductionBootstrap.SeedCredential(t, e, policy, now).value.0)
  {
    hide Keeps, ProductionBootstrap.Holders, ProductionBootstrap.StoredMatches, ProductionBootstrap.SenderFree,
         ProductionBootstrap.Binds, Register;
    if ProductionBootstrap.SeedCredential(t, e, policy, now).value.0 == t {
      PeopleKeep(t, t);
    } else {
      RegisterKeeps(t, FreshId(t), ProductionBootstrap.NewRow(e, policy, now),
                    Some(ProductionBootstrap.InvitationRef(e)));
    }
  }

  lemma {:induction false} EntriesKeep(t: Tables, entries: seq<ProductionBootstrap.Entry>, policy: string, now: int)
    requires ProductionBootstrap.SeedCredentials(t, entries, policy, now).Some?
    ensures Keeps(t, ProductionBootstrap.SeedCredentials(t, entries, policy, now).value.0)
    decreases |entries|
  {
    hide Keeps, ProductionBootstrap.SeedCredential;
    if entries == [] {
      PeopleKeep(t, t);
    } else {
      EntryKeeps(t, entries[0], policy, now);
      var u := ProductionBootstrap.SeedCredential(t, entries[0], policy, now).value.0;
      EntriesKeep(u, entries[1..], policy, now);
      Both(t, u, ProductionBootstrap.SeedCredentials(t, entries, policy, now).value.0);
    }
  }

  lemma BootstrapKeeps(t: Tables, c: ProductionBootstrap.Config, now: int)
    requires ProductionBootstrap.SeedAll(t, c, now).Some?
    ensures Keeps(t, ProductionBootstrap.SeedAll(t, c, now).value.0)
  {
    hide Keeps, ProductionBootstrap.SeedIdentity, ProductionBootstrap.SeedIdentities,
         ProductionBootstrap.SeedPartners, ProductionBootstrap.SeedCredentials, ProductionBootstrap.SeedEnrollments;
    var t1 := ProductionBootstrap.SeedTenant(t, c.tenant).value;
    OthersKeep(t, t1);
    var t2 := ProductionBootstrap.SeedIdentity(t1, ProductionBootstrap.SystemSeed(c), c.policy, now).value;
    IdentityKeeps(t1, ProductionBootstrap.SystemSeed(c), c.policy, now);
    Both(t, t1, t2);
    var t3 := ProductionBootstrap.SeedIdentities(t2, c.entries, c.policy, now).value;
    IdentitiesKeep(t2, c.entries, c.policy, now);
    Both(t, t2, t3);
    var t4 := ProductionBootstrap.SeedPartners(t3, c.entries, c.tenant).value;
    PartnersKeep(t3, c.entries, c.tenant);
    OthersKeep(t3, t4);
    Both(t, t3, t4);
    var t5 := ProductionBootstrap.SeedCredentials(t4, c.entries, c.policy, now).value.0;
    EntriesKeep(t4, c.entries, c.policy, now);
    Both(t, t4, t5);
    var t6 := ProductionBootstrap.SeedEnrollments(t5, c.entries, c.policy).value;
    EnrollmentsKeep(t5, c.entries, c.policy);
    OthersKeep(t5, t6);
    Both(t, t5, t6);
  }

  lemma ProvisionKeeps(t: Tables, r: AgentCredentials.Request, g: AgentCredentials.Grant, now: int)
    requires AgentCredentials.Provision(t, r, g, now).Some?
    ensures Keeps(t, AgentCredentials.Provision(t, r, g, now).value.tables)
  {
    hide Keeps, AgentCredentials.Authority, AgentCredentials.RequestText, ProductionBootstrap.SeedIdentity,
         ProductionBootstrap.Bound, AgentCredentials.ProvisionedFor, ProductionBootstrap.Holders, Register,
         AgentCredentials.AgentRow, SafeId;
    var t1 := AgentCredentials.WithAgent(t, r, g, now).value;
    if g.existingOnly {
      PeopleKeep(t, t1);
    } else {
      IdentityKeeps(t, AgentCredentials.AgentSeed(r, g.controller, g.capabilities), g.policy, now);
    }
    var o := AgentCredentials.IssueAgent(t1, r, g, now).value;
    if o.replayed {
      PeopleKeep(t1, o.tables);
    } else {
      RegisterKeeps(t1, FreshId(t1), AgentCredentials.AgentRow(r, g.capabilities, g.policy, Some(g.expiresAt), now),
                    Some(AgentCredentials.InvitationOf(r)));
    }
    Both(t, t1, o.tables);
  }

  lemma ReissueKeeps(t: Tables, r: AgentCredentials.Request, prior: CredentialId, now: int)
    requires prior in t.credentials && AgentCredentials.Reissue(t, r, prior, now).Some?
    ensures Keeps(t, AgentCredentials.Reissue(t, r, prior, now).value.tables)
  {
    hide Keeps, Revoke, Register, AgentCredentials.Mentions, AgentCredentials.AgentRow;
    var c := t.credentials[prior];
    var t1 := Revoke(t, prior, now).value;
    RevokeKeeps(t, prior, now);
    var row := AgentCredentials.AgentRow(r, c.capabilities, c.policy, c.expiresAt, now).(roles := c.roles);
    RegisterKeeps(t1, FreshId(t), row, Some(AgentCredentials.InvitationOf(r)));
    var t2 := Register(t1, FreshId(t), row, Some(AgentCredentials.InvitationOf(r))).value;
    Both(t, t1, t2);
    OthersKeep(t2, NoteRebound(t2, FreshId(t)));
    Both(t, t2, NoteRebound(t2, FreshId(t)));
  }

  lemma ReprovisionKeeps(t: Tables, r: AgentCredentials.Request, prior: CredentialId, now: int)
    requires AgentCredentials.Reprovision(t, r, prior, now).Some?
    ensures Keeps(t, AgentCredentials.Reprovision(t, r, prior, now).value.tables)
  {
    hide Keeps, AgentCredentials.Reissue, AgentCredentials.Reissued, AgentCredentials.RequestText;
    if AgentCredentials.Reprovision(t, r, prior, now).value.tables == t {
      PeopleKeep(t, t);
    } else {
      ReissueKeeps(t, r, prior, now);
    }
  }

  lemma RevokeAgentKeeps(t: Tables, a: ActorId, performer: ActorId, now: int)
    requires AgentCredentials.RevokeAgent(t, a, performer, now).Some?
    ensures Keeps(t, AgentCredentials.RevokeAgent(t, a, performer, now).value)
  {
    hide Keeps, Revoke, AgentCredentials.KeyCredential, SafeId;
    if AgentCredentials.AllRevoked(t, a) {
      PeopleKeep(t, t);
    } else {
      var id :| AgentCredentials.SoleRevocable(t, a, id) &&
                AgentCredentials.RevokeAgent(t, a, performer, now) == Revoke(t, id, now);
      RevokeKeeps(t, id, now);
    }
  }

  lemma SeedIdentityKeeps(t: Tables, who: LocalAccess.Identity, now: int)
    requires LocalAccess.SeedIdentity(t, who, now).Some?
    ensures Keeps(t, LocalAccess.SeedIdentity(t, who, now).value)
  {
    hide Keeps, LocalAccess.SeedIdentity;
    LocalAccess.SeedIdentityAdds(t, who, now);
    PeopleKeep(t, LocalAccess.SeedIdentity(t, who, now).value);
  }

  lemma EnrollKeeps(t: Tables, who: LocalAccess.Identity, id: CredentialId)
    requires id in t.credentials && LocalAccess.SeedEnrollment(t, who, id).Some?
    ensures Keeps(t, LocalAccess.SeedEnrollment(t, who, id).value)
  {
    hide Keeps, EnrollmentRow, LocalAccess.Enrollable, LocalAccess.EnrollmentMatches;
    OthersKeep(t, LocalAccess.SeedEnrollment(t, who, id).value);
  }

  lemma InsertKeeps(t: Tables, who: LocalAccess.Identity, b: LocalAccess.Binding, now: int)
    requires LocalAccess.InsertSeeded(t, who, b, now).Some?
    ensures Keeps(t, LocalAccess.InsertSeeded(t, who, b, now).value)
  {
    hide Keeps, CanInsert, LocalAccess.SeedEnrollment;
    var id := if who.durable.Some? then Durable(who.durable.value) else FreshId(t);
    var invitation := Some(InvitationHash(V1, b.invitation));
    RegisterKeeps(t, id, LocalAccess.SeededCredential(who, b, now), invitation);
    var t1 := Register(t, id, LocalAccess.SeededCredential(who, b, now), invitation).value;
    EnrollKeeps(t1, who, id);
    Both(t, t1, LocalAccess.InsertSeeded(t, who, b, now).value);
  }

  lemma SeedCredentialKeeps(t: Tables, who: LocalAccess.Identity, b: LocalAccess.Binding, retired: seq<CredentialId>,
                            now: int)
    requires LocalAccess.MayHold(t, who.actor, now) ==> LocalAccess.ListsRetired(t, who, b.issuer, retired)
    requires LocalAccess.SeedCredential(t, who, b, retired, now).Some?
    ensures Keeps(t, LocalAccess.SeedCredential(t, who, b, retired, now).value)
  {
    hide Keeps, RevokeEach, LocalAccess.Matches, LocalAccess.ListsRetired, LocalAccess.MayHold,
         LocalAccess.Historical, LocalAccess.SeedEnrollment, LocalAccess.InsertSeeded;
    if !LocalAccess.MayHold(t, who.actor, now) {
      PeopleKeep(t, t);
    } else {
      RevokeEachKeeps(t, retired, now);
      var t1 := LocalAccess.RevokeRetired(t, retired, now).value;
      var u := LocalAccess.SeedCredential(t, who, b, retired, now).value;
      if exists id :: LocalAccess.First(t1, who, b, id) {
        var id :| LocalAccess.First(t1, who, b, id) && LocalAccess.SeedEnrollment(t1, who, id) == Some(u);
        EnrollKeeps(t1, who, id);
      } else if LocalAccess.NewerGeneration(who.clientId) &&
                exists id :: LocalAccess.Historical(t1, who, b.issuer, id) {
        PeopleKeep(t1, t1);
      } else {
        InsertKeeps(t1, who, b, now);
      }
      Both(t, t1, u);
    }
  }

  lemma RotateOneKeeps(t: Tables, selected: map<ActorId, Membership>, id: CredentialId, to: ClientId, now: int)
    requires LocalAccess.RotateOne(t, selected, id, to, now).Some?
    ensures Keeps(t, LocalAccess.RotateOne(t, selected, id, to, now).value)
  {
    hide Keeps, CanInsert, LocalAccess.RotatedEnrollments, LocalAccess.EndSessions, LocalAccess.RenewedMembership,
         LocalAccess.WritableRows, LocalAccess.Rotatable;
    if LocalAccess.Rotatable(t, id, now) {
      var c, next := t.credentials[id], FreshId(t);
      var renewed := LocalAccess.RenewedMembership(t.memberships[c.actor], selected[c.actor], c.clientId, to);
      var t1 := t.(memberships := t.memberships[c.actor := renewed],
                   enrollments := LocalAccess.RotatedEnrollments(t.enrollments, id, c.actor, next, to, now),
                   sessions := LocalAccess.EndSessions(t.sessions, id));
      PeopleKeep(t, t1);
      RevokeKeeps(t1, id, now);
      var t2 := Revoke(t1, id, now).value;
      RegisterKeeps(t2, next, LocalAccess.Replacement(c, to, now), None);
      Both(t, t1, t2);
      Both(t, t2, Register(t2, next, LocalAccess.Replacement(c, to, now), None).value);
    } else {
      PeopleKeep(t, t);
    }
  }

  lemma {:induction false} RotateRowsKeep(t: Tables, selected: map<ActorId, Membership>, ids: seq<CredentialId>,
                                          to: ClientId, now: int)
    requires LocalAccess.RotateRows(t, selected, ids, to, now).Some?
    ensures Keeps(t, LocalAccess.RotateRows(t, selected, ids, to, now).value)
    decreases |ids|
  {
    hide Keeps, LocalAccess.RotateOne;
    if ids == [] {
      PeopleKeep(t, t);
    } else {
      RotateOneKeeps(t, selected, ids[0], to, now);
      var u := LocalAccess.RotateOne(t, selected, ids[0], to, now).value;
      RotateRowsKeep(u, selected, ids[1..], to, now);
      Both(t, u, LocalAccess.RotateRows(t, selected, ids, to, now).value);
    }
  }

  lemma {:induction false} RotateAllKeeps(t: Tables, turns: seq<LocalAccess.Turn>, now: int)
    requires LocalAccess.RotateAll(t, turns, now).Some?
    ensures Keeps(t, LocalAccess.RotateAll(t, turns, now).value)
    decreases |turns|
  {
    hide Keeps, LocalAccess.RotateRows;
    if turns == [] {
      PeopleKeep(t, t);
    } else {
      var to := LocalAccess.WEB027K + turns[0].base;
      RotateRowsKeep(t, t.memberships, turns[0].ids, to, now);
      var u := LocalAccess.RotateRows(t, t.memberships, turns[0].ids, to, now).value;
      RotateAllKeeps(u, turns[1..], now);
      Both(t, u, LocalAccess.RotateAll(t, turns, now).value);
    }
  }

  lemma CreateKeeps(t: Tables, who: PrincipalAgent.Caller, s: PrincipalAgent.Service, d: PrincipalAgent.Draw, now: int)
    requires PrincipalAgent.Create(t, who, s, d, now).Some?
    ensures Keeps(t, PrincipalAgent.Create(t, who, s, d, now).value.0)
  {
    hide Keeps, PrincipalAgent.Allowed, CanInsert, MembershipRow, PrincipalAgent.NewMembership, PrincipalAgent.AgentRow;
    var u := PrincipalAgent.Create(t, who, s, d, now).value.0;
    if who.actor in t.runtimes {
      PeopleKeep(t, u);
    } else {
      var t1 := PrincipalAgent.NewAgent(t, who, s, d, now);
      PeopleKeep(t, t1);
      RegisterKeeps(t1, FreshId(t), PrincipalAgent.AgentRow(who, s, d, now), None);
      var t2 := Register(t1, FreshId(t), PrincipalAgent.AgentRow(who, s, d, now), None).value;
      Both(t, t1, t2);
      OthersKeep(t2, u);
      Both(t, t2, u);
    }
  }

  lemma RevokeRuntimeKeeps(t: Tables, who: PrincipalAgent.Caller, agent: ActorId, now: int)
    requires PrincipalAgent.RevokeRuntime(t, who, agent, now).Some?
    ensures Keeps(t, PrincipalAgent.RevokeRuntime(t, who, agent, now).value)
  {
    hide Keeps, PrincipalAgent.Allowed;
    var u := PrincipalAgent.RevokeRuntime(t, who, agent, now).value;
    if t.runtimes[who.actor].active {
      var id := t.runtimes[who.actor].credential;
      if id in t.credentials && t.credentials[id].status == Active {
        RevokeKeeps(t, id, now);
        var t1 := Revoke(t, id, now).value;
        OthersKeep(t1, u);
        Both(t, t1, u);
      } else {
        OthersKeep(t, u);
      }
    } else {
      PeopleKeep(t, u);
    }
  }

  lemma CommitKeeps(t: Tables, s: Step)
    requires Commit(t, s).Some?
    ensures Keeps(t, Commit(t, s).value)
  {
    hide Keeps, ProductionBootstrap.SeedAll, AgentCredentials.Provision, AgentCredentials.Reprovision,
         AgentCredentials.RevokeAgent, LocalAccess.SeedIdentity, LocalAccess.SeedCredential, LocalAccess.RotateAll,
         LocalAccess.ListsRetired, LocalAccess.QueryAnswers, PrincipalAgent.Create, PrincipalAgent.RevokeRuntime;
    match s.action {
      case Bootstrap(c, checkedAt) => BootstrapKeeps(t, c, s.now);
      case Provision(r, g) => ProvisionKeeps(t, r, g, s.now);
      case Reprovision(r, prior) => ReprovisionKeeps(t, r, prior, s.now);
      case RevokeAgent(a, performer) => RevokeAgentKeeps(t, a, performer, s.now);
      case SeedTenant(synthetic) => OthersKeep(t, LocalAccess.SeedTenant(t, synthetic));
      case SeedIdentity(who) => SeedIdentityKeeps(t, who, s.now);
      case SeedCredential(who, b, retired) => SeedCredentialKeeps(t, who, b, retired, s.now);
      case Rotate(turns) => RotateAllKeeps(t, turns, s.now);
      case CreateRuntime(who, service, d) => CreateKeeps(t, who, service, d, s.now);
      case RevokeRuntime(who, a) => RevokeRuntimeKeeps(t, who, a, s.now);
    }
  }

  lemma {:induction false} RunKeeps(t: Tables, steps: seq<Step>)
    ensures Keeps(t, Run(t, steps))
    decreases |steps|
  {
    hide Keeps, Commit;
    if steps == [] {
      PeopleKeep(t, t);
    } else {
      var u := After(t, steps[0]);
      if Commit(t, steps[0]).Some? { CommitKeeps(t, steps[0]); } else { PeopleKeep(t, t); }
      RunKeeps(u, steps[1..]);
      Both(t, u, Run(t, steps));
    }
  }

  /** In every run of transactions, rolled back ones included, no two credentials share a
      subject binding, and every credential has its holder, methods, lists and lifetime. */
  lemma EveryRunConstrained(steps: seq<Step>)
    ensures Constrained(Run(Empty, steps))
  {
    RunKeeps(Empty, steps);
    assert Constrained(Empty);
    hide Run;
  }
}

/**
 What the production bootstrap demands of a configuration and what it writes, column by
 column, and what the rows are good for: every controller may then provision Agents.
 */
module BootstrapRows {
  import opened Options
  import opened Identifiers
  import opened CredentialTables
  import opened ProductionBootstrap
  import opened BootstrapFirstRun
  import AgentCredentials

  // ---------------------------------------------------------------------------------------
  // What a configuration must be

  predicate ForAgent(e: Entry) {
    e.kind == AgentMtls || e.kind == AgentDpop
  }

  /** An entry of its own: an Agent with a controller and a thumbprint, or a person with an
      approved account and neither. */
  predicate EntryDemanded(e: Entry) {
    && SafeId(e.actor) && SafeId(e.clientId) && Origin(e.issuer) && InvitationId(e.invitation)
    && if ForAgent(e)
       then e.profile == AgentProfile && BoundedText(e.subject, 512) &&
            e.controller.Some? && SafeId(e.controller.value) && e.thumbprint.Some? && ThumbprintText(e.thumbprint.value)
       else e.profile != AgentProfile && ApprovedAccount(e.subject) && e.controller.None? && e.thumbprint.None?
  }

  predicate TenantDemanded(t: Tenant) {
    && t.active && BoundedText(t.organization, 512) && BoundedText(t.name, 160) && BoundedText(t.jurisdiction, 64)
    && BoundedText(t.retention, 512)
  }

  /** Between the entries: nothing that must be unique repeats, and controllers are entries. */
  ghost predicate EntriesDemanded(entries: seq<Entry>) {
    && 1 <= |entries| <= 32
    && (forall i :: 0 <= i < |entries| ==> EntryDemanded(entries[i]))
    && (forall i, j :: 0 <= i < j < |entries| ==>
          entries[i].actor != entries[j].actor && entries[i].invitation != entries[j].invitation)
    && (forall i, j :: 0 <= i < j < |entries| ==>
          entries[i].issuer != entries[j].issuer || entries[i].clientId != entries[j].clientId ||
          entries[i].subject != entries[j].subject)
    && (forall i, j :: 0 <= i < j < |entries| && ForAgent(entries[i]) && ForAgent(entries[j]) ==>
          entries[i].thumbprint != entries[j].thumbprint)
    && (forall i :: 0 <= i < |entries| && ForAgent(entries[i]) ==>
          exists j :: 0 <= j < |entries| && Some(entries[j].actor) == entries[i].controller &&
                      entries[j].profile == ControllerProfile)
  }

  /** What the bootstrap demands before it opens a transaction. */
  ghost predicate Demanded(c: Config, checkedAt: int) {
    && TenantDemanded(c.tenant) && SafeId(c.systemActor) && SafeId(c.systemClient) && SafeId(c.policy)
    && EntriesDemanded(c.entries)
    && (forall i :: 0 <= i < |c.entries| ==> 0 < c.entries[i].expiresAt - checkedAt <= 7_776_000_000)
  }

  /** What the tables demand beyond that. */
  ghost predicate Plantable(c: Config, now: int) {
    && |c.policy| <= 128
    && (forall i :: 0 <= i < |c.entries| ==> c.entries[i].actor != c.systemActor)
    && (forall i :: 0 <= i < |c.entries| && c.entries[i].controller.Some? ==>
          exists j :: 0 <= j < i && c.entries[j].actor == c.entries[i].controller.value)
    && (forall i :: 0 <= i < |c.entries| && c.entries[i].profile == PartnerProfile ==> |c.tenant.organization| <= 227)
    && (forall i :: 0 <= i < |c.entries| ==> c.entries[i].expiresAt > now && StringList(c.entries[i].capabilities, 64))
    && (forall i :: 0 <= i < |c.entries| &&
                    (c.entries[i].profile == BorrowerProfile || c.entries[i].profile == ControllerProfile) ==>
          ListItem(c.entries[i].clientId))
  }

  lemma EntryOkDemanded(e: Entry, entries: seq<Entry>)
    ensures EntryOk(e, entries) <==>
              && EntryDemanded(e)
              && (ForAgent(e) ==>
                    exists j :: 0 <= j < |entries| && Some(entries[j].actor) == e.controller &&
                                entries[j].profile == ControllerProfile)
  {
    hide SafeId, Origin, InvitationId, ApprovedAccount, BoundedText, ThumbprintText;
    if e.controller.Some? && ForAgent(e) {
      assert (exists i :: 0 <= i < |entries| && entries[i].actor == e.controller.value &&
                          entries[i].profile == ControllerProfile) <==>
             (exists j :: 0 <= j < |entries| && Some(entries[j].actor) == e.controller &&
                          entries[j].profile == ControllerProfile);
    }
  }

  lemma ClashDemanded(e: Entry, f: Entry)
    ensures !Clash(e, f) <==>
              && e.actor != f.actor && e.invitation != f.invitation
              && (e.issuer == f.issuer && e.clientId == f.clientId ==> e.subject != f.subject)
              && (ForAgent(e) && ForAgent(f) ==> e.thumbprint != f.thumbprint)
  {
  }

  lemma AcceptsDemanded(c: Config, checkedAt: int)
    ensures Accepts(c) && InWindow(c, checkedAt) <==> Demanded(c, checkedAt)
  {
    forall i | 0 <= i < |c.entries|
      ensures EntryOk(c.entries[i], c.entries) <==>
                && EntryDemanded(c.entries[i])
                && (ForAgent(c.entries[i]) ==>
                      exists j :: 0 <= j < |c.entries| && Some(c.entries[j].actor) == c.entries[i].controller &&
                                  c.entries[j].profile == ControllerProfile)
    {
      EntryOkDemanded(c.entries[i], c.entries);
    }
    forall i, j | 0 <= i < j < |c.entries|
      ensures var e, f := c.entries[i], c.entries[j];
              !Clash(e, f) <==>
                && e.actor != f.actor && e.invitation != f.invitation
                && (e.issuer == f.issuer && e.clientId == f.clientId ==> e.subject != f.subject)
                && (ForAgent(e) && ForAgent(f) ==> e.thumbprint != f.thumbprint)
    {
      ClashDemanded(c.entries[i], c.entries[j]);
    }
    hide EntryOk, EntryDemanded, Clash, SafeId, BoundedText, ForAgent;
  }

  lemma ListedIs(c: Config, a: ActorId, k: nat)
    requires k <= |c.entries|
    ensures ListedBefore(c, a, k) <==> exists j :: 0 <= j < k && c.entries[j].actor == a
  {
  }

  lemma SeedableIs(c: Config, now: int)
    ensures Seedable(c, now) <==> Plantable(c, now)
  {
    ListedIs(c, c.systemActor, |c.entries|);
    forall i | 0 <= i < |c.entries| && c.entries[i].controller.Some?
      ensures ControllerListed(c, i) <==> exists j :: 0 <= j < i && c.entries[j].actor == c.entries[i].controller.value
    {
      ListedIs(c, c.entries[i].controller.value, i);
    }
    hide ListedBefore, StringList, ListItem;
  }

  /** The first bootstrap of a deployment succeeds exactly when the configuration is what was
      demanded and fits the tables. */
  lemma BootstrapExactly(c: Config, checkedAt: int, now: int)
    ensures Bootstrap(Empty, c, checkedAt, now).Some? <==> Demanded(c, checkedAt) && Plantable(c, now)
  {
    hide Accepts, InWindow, SeedAll, Demanded, Plantable, Seedable;
    AcceptsDemanded(c, checkedAt);
    SeedableIs(c, now);
    if Accepts(c) { SeedsExactly(c, now); }
  }

  // ---------------------------------------------------------------------------------------
  // What the first bootstrap writes

  predicate TypeFits(actorType: ActorType, p: Profile) {
    match p
    case BorrowerProfile => actorType == Human
    case ControllerProfile => actorType == Human
    case PartnerProfile => actorType == Human
    case AgentProfile => actorType == Agent
    case RiskProfile => actorType == RiskOperator
  }

  predicate RoleFits(role: Role, p: Profile) {
    match p
    case BorrowerProfile => role == HumanBorrower
    case ControllerProfile => role == PrincipalController
    case PartnerProfile => role == CapitalPartnerOperator
    case AgentProfile => role == AgentRuntime
    case RiskProfile => role == RiskRole
  }

  predicate MethodsFit(c: Credential, e: Entry) {
    match e.kind
    case HumanWallet =>
      c.clientMethod == Siwe && c.senderMethod == HostSession &&
      c.sender == SenderHash(V1, SessionThumbprint(e.actor, ""))
    case AgentMtls =>
      c.clientMethod == MutualTls && c.senderMethod == MutualTlsSender && e.thumbprint.Some? &&
      c.sender == SenderHash(V1, KeyThumbprint(e.thumbprint.value))
    case AgentDpop =>
      c.clientMethod == PrivateKeyJwt && c.senderMethod == Dpop && e.thumbprint.Some? &&
      c.sender == SenderHash(V1, KeyThumbprint(e.thumbprint.value))
  }

  /** An active actor of the profile's type, and a membership with the profile's role. */
  predicate IdentityRows(t: Tables, e: Entry, policy: string) {
    && e.actor in t.actors && TypeFits(t.actors[e.actor].actorType, e.profile) && t.actors[e.actor].active
    && e.actor in t.memberships
    && var m := t.memberships[e.actor];
    && RoleFits(m.role, e.profile) && m.capabilities == e.capabilities && m.clientIds == [e.clientId]
    && m.policy == policy && m.controller == e.controller && m.status == Active
  }

  predicate CredentialFor(c: Credential, e: Entry, policy: string, now: int) {
    && c.actor == e.actor && TypeFits(c.actorType, e.profile) && c.issuer == e.issuer
    && c.subject == SubjectHash(V1, e.issuer, e.subject) && c.clientId == e.clientId && MethodsFit(c, e)
    && |c.roles| == 1 && RoleFits(c.roles[0], e.profile) && c.capabilities == e.capabilities && c.policy == policy
    && c.status == Active && c.version == 1 && c.expiresAt == Some(e.expiresAt) && c.createdAt == now
    && c.updatedAt == now && c.keyVersion == V1
  }

  predicate EnrollmentFor(n: Enrollment, e: Entry, policy: string, now: int) {
    && n.actor == e.actor && n.capabilities == e.capabilities && n.clientIds == [e.clientId] && n.policy == policy
    && n.status == Active && n.validFrom == now && n.expiresAt == Some(e.expiresAt) && n.version == 1
  }

  /** All rows of one entry: borrowers and controllers are enrolled in their role, partners have
      a profile, and nobody has more. */
  ghost predicate EntryRows(u: Tables, c: Config, i: nat, now: int)
    requires i < |c.entries|
  {
    var e, id := c.entries[i], Generated(i);
    && IdentityRows(u, e, c.policy)
    && id in u.credentials && CredentialFor(u.credentials[id], e, c.policy, now)
    && i < |u.events| && u.events[i] == Event(CredentialRegistered, id, Some(InvitationHash(V1, e.invitation)))
    && (forall role :: (id, role) in u.enrollments <==>
          RoleFits(role, e.profile) && (e.profile == BorrowerProfile || e.profile == ControllerProfile))
    && (forall role :: (id, role) in u.enrollments ==> EnrollmentFor(u.enrollments[(id, role)], e, c.policy, now))
    && (e.actor in u.partners <==> e.profile == PartnerProfile)
  }

  /** The system actor's rows. */
  predicate SystemRows(u: Tables, c: Config) {
    && c.systemActor in u.actors && u.actors[c.systemActor] == Actor(SystemWorker, true)
    && c.systemActor in u.memberships
    && var m := u.memberships[c.systemActor];
    && m.role == SystemRole && m.capabilities == c.systemCapabilities && m.clientIds == [c.systemClient]
    && m.policy == c.policy && m.controller == None && m.status == Active
  }

  /** Nothing else is in the tables. */
  ghost predicate NothingElse(u: Tables, c: Config, now: int) {
    && |u.events| == |c.entries| && u.sessions == map[] && u.runtimes == map[]
    && (forall x :: x in u.credentials <==> x.Generated? && x.n < |c.entries|)
    && (forall k :: k in u.enrollments ==> k.0 in u.credentials)
    && (forall a :: a in u.actors || a in u.memberships ==>
          a == c.systemActor || exists i :: 0 <= i < |c.entries| && c.entries[i].actor == a)
    && (forall a :: a in u.memberships ==>
          u.memberships[a].validFrom == now && u.memberships[a].expiresAt == None && u.memberships[a].version == 1)
  }

  lemma CredentialWritten(c: Config, i: nat, now: int)
    requires Accepts(c) && i < |c.entries|
    ensures CredentialFor(NewRow(c.entries[i], c.policy, now), c.entries[i], c.policy, now)
  {
    assert EntryOk(c.entries[i], c.entries);
    hide Accepts, EntryText;
  }

  lemma EnrollmentsWritten(c: Config, i: nat, now: int)
    requires i < |c.entries|
    ensures var e, n, id := c.entries[i], Enrolled(c, |c.entries|, now), Generated(i);
            && (forall role :: (id, role) in n <==>
                  RoleFits(role, e.profile) && (e.profile == BorrowerProfile || e.profile == ControllerProfile))
            && (forall role :: (id, role) in n ==> EnrollmentFor(n[(id, role)], e, c.policy, now))
  {
    var e, n, id := c.entries[i], Enrolled(c, |c.entries|, now), Generated(i);
    forall role ensures (id, role) in n <==> SelfService(e.profile) && role == RoleOf(e.profile) {
      assert (id, role).0 == id;
    }
  }

  lemma CompleteParts(u: Tables, c: Config, now: int)
    requires Complete(u, c, now)
    ensures Introduced(u, c, |c.entries|) && Issued(u, c, |c.entries|, now) &&
            u.enrollments == Enrolled(c, |c.entries|, now)
  {
    hide Introduced, Issued, Enrolled;
  }

  lemma IdentityWritten(u: Tables, e: Entry, policy: string)
    requires Bound(u, EntrySeed(e), policy)
    ensures IdentityRows(u, e, policy)
  {
  }

  lemma IssuedAt(u: Tables, c: Config, i: nat, now: int)
    requires i < |c.entries| && Issued(u, c, |c.entries|, now)
    ensures Generated(i) in u.credentials && u.credentials[Generated(i)] == NewRow(c.entries[i], c.policy, now)
    ensures |u.events| == |c.entries|
    ensures u.events[i] == Event(CredentialRegistered, Generated(i), Some(InvitationHash(V1, c.entries[i].invitation)))
    ensures forall x :: x in u.credentials <==> x.Generated? && x.n < |c.entries|
  {
    hide NewRow;
  }

  lemma PartnerHeld(u: Tables, c: Config, i: nat)
    requires Holding(u, c) && i < |c.entries| && c.entries[i].profile == PartnerProfile
    ensures c.entries[i].actor in u.partners
  {
    assert HoldingEntry(u, c.entries[i], c.policy);
  }

  lemma EntryWrites(u: Tables, c: Config, i: nat, now: int)
    requires Accepts(c) && i < |c.entries| && Complete(u, c, now) && Holding(u, c) && OnlyPartners(u, c)
    ensures EntryRows(u, c, i, now)
  {
    hide Accepts, Holding, Complete, Introduced, Issued, Enrolled, CredentialFor, EnrollmentFor, NewRow, OnlyPartners,
         Bound, IdentityRows, RoleFits;
    var e := c.entries[i];
    CompleteParts(u, c, now);
    IntroducedAt(u, c, i);
    IdentityWritten(u, e, c.policy);
    IssuedAt(u, c, i, now);
    CredentialWritten(c, i, now);
    EnrollmentsWritten(c, i, now);
    if e.profile == PartnerProfile { PartnerHeld(u, c, i); }
    if e.actor in u.partners { PartnerIs(u, c, i); }
  }

  lemma PartnerIs(u: Tables, c: Config, i: nat)
    requires Accepts(c) && i < |c.entries| && OnlyPartners(u, c) && c.entries[i].actor in u.partners
    ensures c.entries[i].profile == PartnerProfile
  {
    hide Accepts;
    var j :| 0 <= j < |c.entries| && c.entries[j].profile == PartnerProfile && c.entries[j].actor == c.entries[i].actor;
    if j != i { Distinguished(c, i, j); }
  }

  lemma People(u: Tables, c: Config)
    requires Introduced(u, c, |c.entries|)
    ensures SystemRows(u, c)
    ensures forall a :: a in u.actors || a in u.memberships ==>
              a == c.systemActor || exists i :: 0 <= i < |c.entries| && c.entries[i].actor == a
  {
    forall a | a in u.actors || a in u.memberships
      ensures a == c.systemActor || exists i :: 0 <= i < |c.entries| && c.entries[i].actor == a
    {
      ListedIs(c, a, |c.entries|);
    }
  }

  lemma EnrolledKeys(c: Config, now: int)
    ensures forall k :: k in Enrolled(c, |c.entries|, now) ==> k.0.Generated? && k.0.n < |c.entries|
  {
    hide EnrollmentOf, RoleOf;
  }

  lemma NothingMore(u: Tables, c: Config, now: int)
    requires Accepts(c) && Complete(u, c, now) && MembersSince(u, now)
    ensures NothingElse(u, c, now) && SystemRows(u, c)
  {
    hide Accepts, Complete, Introduced, Issued, Enrolled, SystemRows, NewRow;
    CompleteParts(u, c, now);
    People(u, c);
    EnrolledKeys(c, now);
    assert |c.entries| >= 1 by { SomeEntry(c); }
    IssuedAt(u, c, 0, now);
  }

  lemma SomeEntry(c: Config)
    requires Accepts(c)
    ensures |c.entries| >= 1
  {
  }

  /** What the first bootstrap leaves: for each entry its actor, membership, credential, event,
      enrollment and profile, for the system actor its own, and nothing else. */
  lemma BootstrapWrites(c: Config, checkedAt: int, now: int)
    requires Bootstrap(Empty, c, checkedAt, now).Some?
    ensures var r := Bootstrap(Empty, c, checkedAt, now).value;
            && r.1 == |c.entries| && r.0.tenant == Some(c.tenant)
            && SystemRows(r.0, c) && NothingElse(r.0, c, now)
            && forall i :: 0 <= i < |c.entries| ==> EntryRows(r.0, c, i, now)
  {
    hide InWindow, SeedAll, Accepts, Complete, Holding, EntryRows, OnlyPartners, MembersSince, NothingElse, SystemRows;
    SeedsExactly(c, now);
    SeededTables(c, now);
    var u := Bootstrap(Empty, c, checkedAt, now).value.0;
    NothingMore(u, c, now);
    assert u.tenant == Some(c.tenant) by { TenantIs(u, c); }
    forall i | 0 <= i < |c.entries| ensures EntryRows(u, c, i, now) { EntryWrites(u, c, i, now); }
  }

  lemma TenantIs(u: Tables, c: Config)
    requires Holding(u, c)
    ensures u.tenant == Some(c.tenant) && c.tenant.active
  {
  }

  // ---------------------------------------------------------------------------------------
  // What it is for

  /** From the bootstrap on, every controller of the configuration has the authority to have
      Agents provisioned by the system actor. */
  lemma ControllersAuthorized(c: Config, checkedAt: int, now: int, i: nat, later: int)
    requires Bootstrap(Empty, c, checkedAt, now).Some? && now <= later
    requires i < |c.entries| && c.entries[i].profile == ControllerProfile
    ensures AgentCredentials.Authority(Bootstrap(Empty, c, checkedAt, now).value.0, c.entries[i].actor, c.systemActor,
                                       c.policy, later)
  {
    hide Bootstrap, CredentialFor, EnrollmentFor;
    BootstrapWrites(c, checkedAt, now);
    assert c.tenant.active by { DemandsTenant(c, checkedAt, now); }
    var u := Bootstrap(Empty, c, checkedAt, now).value.0;
    assert EntryRows(u, c, i, now);
  }

  lemma DemandsTenant(c: Config, checkedAt: int, now: int)
    requires Bootstrap(Empty, c, checkedAt, now).Some?
    ensures c.tenant.active
  {
  }

  // ---------------------------------------------------------------------------------------
  // What any successful bootstrap guarantees, whatever the tables held before

  /** Event `k` registers a credential with this invitation. */
  predicate Registers(events: seq<Event>, k: int, invitation: Hash) {
    0 <= k < |events| && events[k].kind == CredentialRegistered && events[k].invitation == Some(invitation)
  }

  predicate SameSender(c: Credential, d: Credential) {
    c.clientMethod == d.clientMethod && c.sender == d.sender
  }

  /** A stored credential as the entry describes it, and the only one its invitation made. */
  ghost predicate StoredFor(t: Tables, id: CredentialId, e: Entry, policy: string) {
    && id in t.credentials
    && var c := t.credentials[id];
    && c.issuer == e.issuer && c.clientId == e.clientId && c.subject == SubjectHash(V1, e.issuer, e.subject)
    && c.actor == e.actor && TypeFits(c.actorType, e.profile) && c.status == Active && c.policy == policy
    && c.expiresAt == Some(e.expiresAt) && MethodsFit(c.(senderMethod := SenderMethodFor(e.kind)), e)
    && (exists k :: Registers(t.events, k, InvitationHash(V1, e.invitation)))
    && (forall k :: Registers(t.events, k, InvitationHash(V1, e.invitation)) ==> t.events[k].credential == id)
    && (ForAgent(e) ==>
          forall x :: x in t.credentials && SameSender(t.credentials[x], c) ==> t.credentials[x].actor == e.actor)
  }

  /** The sender method of an existing row is not compared. */
  function SenderMethodFor(k: Kind): SenderMethod {
    match k
    case HumanWallet => HostSession
    case AgentMtls => MutualTlsSender
    case AgentDpop => Dpop
  }

  lemma {:induction false} HoldersAre(events: seq<Event>, h: Hash)
    ensures forall k :: Registers(events, k, h) ==> events[k].credential in Holders(events, h)
    ensures Holders(events, h) != [] ==> exists k :: Registers(events, k, h)
  {
    if events != [] {
      var n := |events| - 1;
      HoldersAre(events[..n], h);
      assert events == events[..n] + [events[n]];
      HoldersAppend(events[..n], events[n], h);
      hide Holders;
      forall k | Registers(events, k, h) ensures events[k].credential in Holders(events, h) {
        if k < n { assert Registers(events[..n], k, h); }
      }
      if Holders(events[..n], h) != [] {
        var k :| Registers(events[..n], k, h);
        assert Registers(events, k, h);
      } else if Holders(events, h) != [] {
        assert Registers(events, n, h);
      }
    }
  }

  ghost predicate SenderOwn(t: Tables, e: Entry) {
    AgentKind(e.kind) ==> forall x :: SharesSender(t, x, e) ==> t.credentials[x].actor == e.actor
  }

  ghost predicate Stored(t: Tables, id: CredentialId, e: Entry, policy: string) {
    Binds(t, id, e) && StoredMatches(t, id, e, policy) && SenderOwn(t, e)
  }

  /** Different invitations, and for Agents different senders. */
  predicate Separate(e: Entry, f: Entry) {
    && e.invitation != f.invitation && (AgentKind(e.kind) ==> e.thumbprint.Some?)
    && (AgentKind(f.kind) ==> f.thumbprint.Some?)
    && (AgentKind(e.kind) && AgentKind(f.kind) ==> e.thumbprint != f.thumbprint)
  }

  lemma StoredIsFor(t: Tables, id: CredentialId, e: Entry, policy: string)
    requires Stored(t, id, e, policy) && EntryDemanded(e)
    ensures StoredFor(t, id, e, policy)
  {
    HoldersAre(t.events, InvitationRef(e));
    hide Holders, InvitationsOf, SafeId, Origin, InvitationId, ApprovedAccount, BoundedText, ThumbprintText;
  }

  lemma EntryStored(t: Tables, e: Entry, policy: string, now: int)
    requires SeedCredential(t, e, policy, now).Some? && AgentKind(e.kind) == (e.profile == AgentProfile)
    requires forall n :: n >= t.nextId ==> InvitationsOf(t.events, Generated(n)) == []
    ensures var u := SeedCredential(t, e, policy, now).value.0;
            exists id :: Stored(u, id, e, policy)
  {
    hide Holders, InvitationsOf;
    var u := SeedCredential(t, e, policy, now).value.0;
    if exists id :: Binds(t, id, e) {
      var id :| Binds(t, id, e) && StoredMatches(t, id, e, policy);
      assert Stored(u, id, e, policy);
    } else {
      var id, event := FreshId(t), Event(CredentialRegistered, FreshId(t), Some(InvitationRef(e)));
      assert u.events == t.events + [event];
      HoldersAppend(t.events, event, InvitationRef(e));
      InvitationsAppend(t.events, event, id);
      assert Stored(u, id, e, policy);
    }
  }

  lemma StoredStays(t: Tables, id: CredentialId, e: Entry, f: Entry, policy: string, now: int)
    requires Stored(t, id, e, policy) && SeedCredential(t, f, policy, now).Some? && Separate(e, f)
    ensures Stored(SeedCredential(t, f, policy, now).value.0, id, e, policy)
  {
    hide Holders, InvitationsOf;
    var u := SeedCredential(t, f, policy, now).value.0;
    if u != t {
      var event := Event(CredentialRegistered, FreshId(t), Some(InvitationRef(f)));
      assert u.events == t.events + [event] && FreshId(t) !in t.credentials;
      HoldersAppend(t.events, event, InvitationRef(e));
      InvitationsAppend(t.events, event, id);
    }
  }

  lemma {:induction false} StoredStaysAll(t: Tables, id: CredentialId, e: Entry, entries: seq<Entry>, policy: string,
                                          now: int)
    requires Stored(t, id, e, policy) && SeedCredentials(t, entries, policy, now).Some?
    requires forall i :: 0 <= i < |entries| ==> Separate(e, entries[i])
    ensures Stored(SeedCredentials(t, entries, policy, now).value.0, id, e, policy)
    decreases |entries|
  {
    hide Stored, SeedCredential, Separate;
    if entries != [] {
      StoredStays(t, id, e, entries[0], policy, now);
      StoredStaysAll(SeedCredential(t, entries[0], policy, now).value.0, id, e, entries[1..], policy, now);
    }
  }

  /** Ids not given out yet have no record. */
  ghost predicate Unrecorded(t: Tables) {
    forall n :: n >= t.nextId ==> InvitationsOf(t.events, Generated(n)) == []
  }

  lemma {:induction false} RecordedRegistered(events: seq<Event>, id: CredentialId)
    ensures Registrations(events, id) == 0 ==> InvitationsOf(events, id) == []
  {
    if events != [] { RecordedRegistered(events[..|events| - 1], id); }
  }

  lemma AgreesUnrecorded(t: Tables)
    requires LogAgrees(t)
    ensures Unrecorded(t)
  {
    hide LoggedStatus, Registrations, InvitationsOf;
    forall n | n >= t.nextId ensures InvitationsOf(t.events, Generated(n)) == [] {
      assert Generated(n) !in t.credentials;
      RecordedRegistered(t.events, Generated(n));
    }
  }

  lemma {:induction false} EntriesStored(t: Tables, entries: seq<Entry>, policy: string, now: int, i: nat)
    requires SeedCredentials(t, entries, policy, now).Some? && i < |entries| && LogAgrees(t)
    requires AgentKind(entries[i].kind) == (entries[i].profile == AgentProfile)
    requires forall j :: i < j < |entries| ==> Separate(entries[i], entries[j])
    ensures var u := SeedCredentials(t, entries, policy, now).value.0;
            exists id :: Stored(u, id, entries[i], policy)
    decreases |entries|
  {
    hide Stored, SeedCredential, LogAgrees, AgentKind, Separate;
    var t1 := SeedCredential(t, entries[0], policy, now).value.0;
    if i > 0 {
      CredentialSound(t, entries[0], policy, now);
      SoundAgrees(t, t1);
      assert entries[1..][i - 1] == entries[i];
      EntriesStored(t1, entries[1..], policy, now, i - 1);
    } else {
      AgreesUnrecorded(t);
      EntryStored(t, entries[0], policy, now);
      var id :| Stored(t1, id, entries[0], policy);
      StoredStaysAll(t1, id, entries[0], entries[1..], policy, now);
    }
  }

  lemma BoundStays(t: Tables, s: Seed, o: Seed, policy: string, now: int)
    requires Bound(t, s, policy) && SeedIdentity(t, o, policy, now).Some?
    ensures Bound(SeedIdentity(t, o, policy, now).value, s, policy)
  {
  }

  lemma {:induction false} BoundStaysAll(t: Tables, s: Seed, entries: seq<Entry>, policy: string, now: int)
    requires Bound(t, s, policy) && SeedIdentities(t, entries, policy, now).Some?
    ensures Bound(SeedIdentities(t, entries, policy, now).value, s, policy)
    decreases |entries|
  {
    hide Bound, SeedIdentity;
    if entries != [] {
      BoundStays(t, s, EntrySeed(entries[0]), policy, now);
      BoundStaysAll(SeedIdentity(t, EntrySeed(entries[0]), policy, now).value, s, entries[1..], policy, now);
    }
  }

  lemma SeedBinds(t: Tables, s: Seed, policy: string, now: int)
    requires SeedIdentity(t, s, policy, now).Some?
    ensures Bound(SeedIdentity(t, s, policy, now).value, s, policy)
  {
    hide Bound;
  }

  lemma {:induction false} EntriesBound(t: Tables, entries: seq<Entry>, policy: string, now: int, i: nat)
    requires SeedIdentities(t, entries, policy, now).Some? && i < |entries|
    ensures Bound(SeedIdentities(t, entries, policy, now).value, EntrySeed(entries[i]), policy)
    decreases |entries|
  {
    hide Bound, SeedIdentity;
    var t1 := SeedIdentity(t, EntrySeed(entries[0]), policy, now).value;
    if i > 0 {
      EntriesBound(t1, entries[1..], policy, now, i - 1);
    } else {
      SeedBinds(t, EntrySeed(entries[0]), policy, now);
      BoundStaysAll(t1, EntrySeed(entries[0]), entries[1..], policy, now);
    }
  }

  predicate SamePeople(t: Tables, u: Tables) {
    u.tenant == t.tenant && u.actors == t.actors && u.memberships == t.memberships
  }

  lemma {:induction false} PartnersKeep(t: Tables, entries: seq<Entry>, tenant: Tenant)
    requires SeedPartners(t, entries, tenant).Some?
    ensures SamePeople(t, SeedPartners(t, entries, tenant).value)
    decreases |entries|
  {
    if entries != [] { PartnersKeep(SeedPartner(t, entries[0], tenant).value, entries[1..], tenant); }
  }

  lemma {:induction false} CredentialsKeep(t: Tables, entries: seq<Entry>, policy: string, now: int)
    requires SeedCredentials(t, entries, policy, now).Some?
    ensures SamePeople(t, SeedCredentials(t, entries, policy, now).value.0)
    decreases |entries|
  {
    hide Holders, NewRow, SenderFree, Binds, StoredMatches;
    if entries != [] { CredentialsKeep(SeedCredential(t, entries[0], policy, now).value.0, entries[1..], policy, now); }
  }

  /** Enrollments are only added. */
  ghost predicate OnlyEnrolls(t: Tables, u: Tables) {
    u == t.(enrollments := u.enrollments) && forall k :: k in t.enrollments ==> k in u.enrollments
  }

  lemma {:induction false} EnrollmentsKeep(t: Tables, entries: seq<Entry>, policy: string)
    requires SeedEnrollments(t, entries, policy).Some?
    ensures OnlyEnrolls(t, SeedEnrollments(t, entries, policy).value)
    decreases |entries|
  {
    hide Holds, EnrollmentRow, NewEnrollment;
    if entries != [] { EnrollmentsKeep(SeedEnrollment(t, entries[0], policy).value, entries[1..], policy); }
  }

  predicate ActiveUnder(c: Credential, e: Entry) {
    c.actor == e.actor && c.clientId == e.clientId && c.status == Active
  }

  /** The actor has exactly one active credential under the client, enrolled in its role. */
  ghost predicate EnrolledFor(t: Tables, e: Entry) {
    exists id, role ::
      && RoleFits(role, e.profile) && (id, role) in t.enrollments && id in t.credentials
      && (forall x :: x in t.credentials ==> (ActiveUnder(t.credentials[x], e) <==> x == id))
  }

  lemma EntryEnrolled(t: Tables, e: Entry, policy: string)
    requires SeedEnrollment(t, e, policy).Some? && (e.profile == BorrowerProfile || e.profile == ControllerProfile)
    ensures EnrolledFor(SeedEnrollment(t, e, policy).value, e)
  {
    hide EnrollmentRow, NewEnrollment;
    var u := SeedEnrollment(t, e, policy).value;
    var id :| Holds(t, id, e) && (id, RoleOf(e.profile)) in u.enrollments;
    assert forall x :: x in u.credentials ==> (Holds(t, x, e) <==> x == id);
    assert RoleFits(RoleOf(e.profile), e.profile);
  }

  lemma {:induction false} EntriesEnrolled(t: Tables, entries: seq<Entry>, policy: string, i: nat)
    requires SeedEnrollments(t, entries, policy).Some? && i < |entries|
    requires entries[i].profile == BorrowerProfile || entries[i].profile == ControllerProfile
    ensures EnrolledFor(SeedEnrollments(t, entries, policy).value, entries[i])
    decreases |entries|
  {
    hide SeedEnrollment, EnrolledFor, OnlyEnrolls;
    var t1 := SeedEnrollment(t, entries[0], policy).value;
    if i > 0 {
      EntriesEnrolled(t1, entries[1..], policy, i - 1);
    } else {
      EntryEnrolled(t, entries[0], policy);
      EnrollmentsKeep(t1, entries[1..], policy);
      StillEnrolled(t1, SeedEnrollments(t1, entries[1..], policy).value, entries[0]);
    }
  }

  lemma StillEnrolled(t: Tables, u: Tables, e: Entry)
    requires EnrolledFor(t, e) && OnlyEnrolls(t, u)
    ensures EnrolledFor(u, e)
  {
  }

  lemma StoredSame(t: Tables, u: Tables, id: CredentialId, e: Entry, policy: string)
    requires Stored(t, id, e, policy) && u.credentials == t.credentials && u.events == t.events
    ensures Stored(u, id, e, policy)
  {
    hide Holders, InvitationsOf;
  }

  lemma BoundSame(t: Tables, u: Tables, s: Seed, policy: string)
    requires Bound(t, s, policy) && SamePeople(t, u)
    ensures Bound(u, s, policy)
  {
  }

  /** What holds of an entry after any successful bootstrap. */
  ghost predicate Ensured(u: Tables, e: Entry, policy: string) {
    && IdentityRows(u, e, policy) && (exists id :: StoredFor(u, id, e, policy))
    && (e.profile == BorrowerProfile || e.profile == ControllerProfile ==> EnrolledFor(u, e))
  }

  lemma EntryParts(c: Config, checkedAt: int, i: nat)
    requires Demanded(c, checkedAt) && i < |c.entries|
    ensures EntryDemanded(c.entries[i]) && AgentKind(c.entries[i].kind) == (c.entries[i].profile == AgentProfile)
    ensures forall j :: i < j < |c.entries| ==> Separate(c.entries[i], c.entries[j])
  {
    hide SafeId, Origin, InvitationId, ApprovedAccount, BoundedText, ThumbprintText;
    assert EntryDemanded(c.entries[i]);
    assert forall j :: i < j < |c.entries| ==> EntryDemanded(c.entries[j]);
  }

  lemma EntryEnsured(t2: Tables, c: Config, checkedAt: int, now: int, i: nat)
    requires Demanded(c, checkedAt) && i < |c.entries| && LogAgrees(t2)
    requires SeedIdentities(t2, c.entries, c.policy, now).Some?
    requires Finish(SeedIdentities(t2, c.entries, c.policy, now).value, c, now).Some?
    ensures Ensured(Finish(SeedIdentities(t2, c.entries, c.policy, now).value, c, now).value.0, c.entries[i], c.policy)
  {
    hide Demanded, LogAgrees, SeedIdentities, SeedPartners, SeedCredentials, SeedEnrollments, Bound, IdentityRows,
         Stored, StoredFor, EnrolledFor, AgentKind, EntryDemanded;
    var e := c.entries[i];
    EntryParts(c, checkedAt, i);
    var t3 := SeedIdentities(t2, c.entries, c.policy, now).value;
    EntriesBound(t2, c.entries, c.policy, now, i);
    IdentitiesSound(t2, c.entries, c.policy, now);
    var t4 := SeedPartners(t3, c.entries, c.tenant).value;
    PartnersKeep(t3, c.entries, c.tenant);
    PartnersSound(t3, c.entries, c.tenant);
    SameAccountSound(t2, t4);
    SoundAgrees(t2, t4);
    var t5 := SeedCredentials(t4, c.entries, c.policy, now).value.0;
    CredentialsKeep(t4, c.entries, c.policy, now);
    EntriesStored(t4, c.entries, c.policy, now, i);
    var u := SeedEnrollments(t5, c.entries, c.policy).value;
    EnrollmentsKeep(t5, c.entries, c.policy);
    BoundSame(t3, u, EntrySeed(e), c.policy);
    IdentityWritten(u, e, c.policy);
    var id :| Stored(t5, id, e, c.policy);
    StoredSame(t5, u, id, e, c.policy);
    StoredIsFor(u, id, e, c.policy);
    if e.profile == BorrowerProfile || e.profile == ControllerProfile { EntriesEnrolled(t5, c.entries, c.policy, i); }
  }

  /** Whatever the tables held, a bootstrap that succeeds leaves them with the configuration:
      rows that were there already and differ from it make it fail. */
  lemma BootstrapEnsures(t: Tables, c: Config, checkedAt: int, now: int)
    requires LogAgrees(t) && Bootstrap(t, c, checkedAt, now).Some?
    ensures var u := Bootstrap(t, c, checkedAt, now).value.0;
            && Demanded(c, checkedAt) && u.tenant == Some(c.tenant) && SystemRows(u, c)
            && forall i :: 0 <= i < |c.entries| ==> Ensured(u, c.entries[i], c.policy)
  {
    hide LogAgrees, SeedIdentities, SeedPartners, SeedCredentials, SeedEnrollments, Accepts, InWindow,
         Demanded, Ensured, SeedIdentity, Bound, SystemRows;
    AcceptsDemanded(c, checkedAt);
    var t1 := SeedTenant(t, c.tenant).value;
    var t2 := SeedIdentity(t1, SystemSeed(c), c.policy, now).value;
    var t3 := SeedIdentities(t2, c.entries, c.policy, now).value;
    var u := Finish(t3, c, now).value.0;
    assert SameAccount(t, t1);
    IdentitySound(t1, SystemSeed(c), c.policy, now);
    SameAccountSound(t, t2);
    SoundAgrees(t, t2);
    SystemEnsured(t1, c, now);
    TenantKept(t, c, now);
    forall i | 0 <= i < |c.entries| ensures Ensured(u, c.entries[i], c.policy) {
      EntryEnsured(t2, c, checkedAt, now, i);
    }
  }

  lemma {:induction false} IdentitiesKeepTenant(t: Tables, entries: seq<Entry>, policy: string, now: int)
    requires SeedIdentities(t, entries, policy, now).Some?
    ensures SeedIdentities(t, entries, policy, now).value.tenant == t.tenant
    decreases |entries|
  {
    hide Bound, Proposable;
    if entries != [] {
      IdentitiesKeepTenant(SeedIdentity(t, EntrySeed(entries[0]), policy, now).value, entries[1..], policy, now);
    }
  }

  lemma FinishKeeps(t: Tables, c: Config, now: int)
    requires Finish(t, c, now).Some?
    ensures SamePeople(t, Finish(t, c, now).value.0)
  {
    hide SeedPartners, SeedCredentials, SeedEnrollments;
    var t4 := SeedPartners(t, c.entries, c.tenant).value;
    PartnersKeep(t, c.entries, c.tenant);
    var t5 := SeedCredentials(t4, c.entries, c.policy, now).value.0;
    CredentialsKeep(t4, c.entries, c.policy, now);
    EnrollmentsKeep(t5, c.entries, c.policy);
  }

  lemma TenantKept(t: Tables, c: Config, now: int)
    requires SeedAll(t, c, now).Some?
    ensures SeedAll(t, c, now).value.0.tenant == Some(c.tenant)
  {
    hide SeedIdentities, SeedPartners, SeedCredentials, SeedEnrollments, Bound, Proposable;
    var t2 := SeedIdentity(SeedTenant(t, c.tenant).value, SystemSeed(c), c.policy, now).value;
    IdentitiesKeepTenant(t2, c.entries, c.policy, now);
    FinishKeeps(SeedIdentities(t2, c.entries, c.policy, now).value, c, now);
  }

  lemma SystemEnsured(t1: Tables, c: Config, now: int)
    requires SeedIdentity(t1, SystemSeed(c), c.policy, now).Some?
    requires var t2 := SeedIdentity(t1, SystemSeed(c), c.policy, now).value;
             SeedIdentities(t2, c.entries, c.policy, now).Some? &&
             Finish(SeedIdentities(t2, c.entries, c.policy, now).value, c, now).Some?
    ensures var t2 := SeedIdentity(t1, SystemSeed(c), c.policy, now).value;
            SystemRows(Finish(SeedIdentities(t2, c.entries, c.policy, now).value, c, now).value.0, c)
  {
    hide SeedIdentities, Finish, SeedIdentity, Bound;
    var t2 := SeedIdentity(t1, SystemSeed(c), c.policy, now).value;
    SeedBinds(t1, SystemSeed(c), c.policy, now);
    BoundStaysAll(t2, SystemSeed(c), c.entries, c.policy, now);
    var t3 := SeedIdentities(t2, c.entries, c.policy, now).value;
    FinishKeeps(t3, c, now);
    BoundSame(t3, Finish(t3, c, now).value.0, SystemSeed(c), c.policy);
    SystemIs(Finish(t3, c, now).value.0, c);
  }

  lemma SystemIs(u: Tables, c: Config)
    requires Bound(u, SystemSeed(c), c.policy)
    ensures SystemRows(u, c)
  {
  }
}

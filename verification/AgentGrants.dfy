/**
 What the Agent credential transactions demand and what they leave, column by column: who may
 have an Agent provisioned, exactly when a first request succeeds, and which rows it writes.
 */
module AgentGrants {
  import opened Options
  import opened Identifiers
  import opened CredentialTables
  import opened ProductionBootstrap
  import opened AgentCredentials

  /** A request whose fields read as they should. */
  predicate Worded(r: Request) {
    && SafeId(r.actor) && SafeId(r.clientId) && Origin(r.issuer) && BoundedText(r.subject, 512)
    && InvitationId(r.invitation) && ThumbprintText(r.thumbprint) && SafeId(r.performer)
  }

  // ---------------------------------------------------------------------------------------
  // Authority

  /** A live enrollment of the actor as controller, under a live credential of its own. */
  predicate StandingEnrollment(t: Tables, a: ActorId, id: CredentialId, now: int) {
    && (id, PrincipalController) in t.enrollments && id in t.credentials && a in t.memberships
    && var e, c, m := t.enrollments[(id, PrincipalController)], t.credentials[id], t.memberships[a];
    && e.actor == a && e.status == Active && e.policy == m.policy && e.validFrom <= now && Unexpired(e.expiresAt, now)
    && c.actor == a && c.actorType == Human && c.status == Active && c.policy == m.policy
    && Unexpired(c.expiresAt, now) && c.clientId in e.clientIds && c.clientId in m.clientIds
  }

  /** An active person with a membership of the policy in force, who is a controller by role or
      by enrollment. */
  ghost predicate ControllerStands(t: Tables, a: ActorId, policy: string, now: int) {
    && a in t.actors && t.actors[a] == Actor(Human, true) && a in t.memberships
    && var m := t.memberships[a];
    && m.status == Active && m.validFrom <= now && Unexpired(m.expiresAt, now) && m.policy == policy
    && (m.role == PrincipalController || exists id :: StandingEnrollment(t, a, id, now))
  }

  /** An active system worker. */
  predicate PerformerStands(t: Tables, a: ActorId) {
    && a in t.actors && t.actors[a] == Actor(SystemWorker, true)
    && a in t.memberships && t.memberships[a].role == SystemRole && t.memberships[a].status == Active
  }

  predicate TenantStands(t: Tables) {
    t.tenant.Some? && t.tenant.value.active
  }

  lemma AuthorityExactly(t: Tables, controller: ActorId, performer: ActorId, policy: string, now: int)
    ensures Authority(t, controller, performer, policy, now) <==>
              TenantStands(t) && ControllerStands(t, controller, policy, now) && PerformerStands(t, performer)
  {
    if controller in t.memberships { EnrollmentExactly(t, controller, now); }
    hide ControlsByEnrollment;
  }

  lemma EnrollmentExactly(t: Tables, a: ActorId, now: int)
    requires a in t.memberships
    ensures ControlsByEnrollment(t, a, t.memberships[a], now) <==> exists id :: StandingEnrollment(t, a, id, now)
  {
    if id :| StandingEnrollment(t, a, id, now) {
      assert EnrolledController(t.enrollments[(id, PrincipalController)], t.credentials[id], a, t.memberships[a], now);
    }
    if ControlsByEnrollment(t, a, t.memberships[a], now) {
      var id :| (id, PrincipalController) in t.enrollments && id in t.credentials &&
        EnrolledController(t.enrollments[(id, PrincipalController)], t.credentials[id], a, t.memberships[a], now);
      assert StandingEnrollment(t, a, id, now);
    }
  }

  // ---------------------------------------------------------------------------------------
  // Provisioning

  predicate AgentMember(m: Membership, r: Request, g: Grant) {
    && m.role == AgentRuntime && m.status == Active && m.policy == g.policy && m.controller == Some(g.controller)
    && m.capabilities == g.capabilities && m.clientIds == [r.clientId]
  }

  /** The Agent's own actor and membership, as a provisioning leaves or expects them. */
  predicate AgentIdentity(t: Tables, r: Request, g: Grant) {
    && r.actor in t.actors && t.actors[r.actor] == Actor(Agent, true)
    && r.actor in t.memberships && AgentMember(t.memberships[r.actor], r, g)
  }

  /** The Agent is known as such, or is not known and may be created. */
  predicate IdentityReady(t: Tables, r: Request, g: Grant) {
    if g.existingOnly then AgentIdentity(t, r, g)
    else
      && r.actor != g.controller && |g.policy| <= 128
      && (r.actor in t.actors ==> t.actors[r.actor] == Actor(Agent, true))
      && (r.actor in t.memberships ==> AgentMember(t.memberships[r.actor], r, g))
  }

  /** The credential of a provisioned Agent, apart from its grants. */
  predicate AgentCredential(c: Credential, r: Request, g: Grant) {
    && c.actor == r.actor && c.actorType == Agent && c.issuer == r.issuer && c.clientId == r.clientId
    && c.subject == SubjectHash(r.key, r.issuer, r.subject) && c.clientMethod == PrivateKeyJwt
    && c.senderMethod == Dpop && c.sender == SenderHash(r.key, KeyThumbprint(r.thumbprint)) && c.keyVersion == r.key
    && c.status == Active && c.policy == g.policy && c.expiresAt == Some(g.expiresAt)
  }

  predicate NewAgentCredential(c: Credential, r: Request, g: Grant, now: int) {
    && AgentCredential(c, r, g) && c.roles == [AgentRuntime] && c.capabilities == g.capabilities && c.version == 1
    && c.createdAt == now && c.updatedAt == now
  }

  /** A registration with the request's invitation. */
  predicate Registers(e: Event, r: Request) {
    e.kind == CredentialRegistered && e.invitation == Some(InvitationHash(r.key, r.invitation))
  }

  predicate SenderTaken(c: Credential, r: Request) {
    c.clientMethod == PrivateKeyJwt && c.sender == SenderHash(r.key, KeyThumbprint(r.thumbprint))
  }

  predicate BindingTaken(c: Credential, r: Request) {
    c.issuer == r.issuer && c.clientId == r.clientId && c.subject == SubjectHash(r.key, r.issuer, r.subject)
  }

  /** Nothing in the tables was made for the request or is in its way. */
  ghost predicate Fresh(t: Tables, r: Request) {
    && (forall x :: x in t.credentials ==> !BindingTaken(t.credentials[x], r) && !SenderTaken(t.credentials[x], r))
    && (forall i :: 0 <= i < |t.events| ==> !Registers(t.events[i], r))
  }

  /** What any provisioning needs. */
  ghost predicate MayProvision(t: Tables, r: Request, g: Grant, now: int) {
    && Worded(r) && SafeId(g.controller) && SafeId(g.policy) && 0 < g.expiresAt - now <= 7_776_000_000
    && TenantStands(t) && ControllerStands(t, g.controller, g.policy, now) && PerformerStands(t, r.performer)
  }

  lemma MayProvisionExactly(t: Tables, r: Request, g: Grant, now: int)
    ensures !MayProvision(t, r, g, now) ==> Provision(t, r, g, now) == None
    ensures MayProvision(t, r, g, now) ==>
              Provision(t, r, g, now) ==
                match WithAgent(t, r, g, now) { case None => None case Some(u) => IssueAgent(u, r, g, now) }
  {
    AuthorityExactly(t, g.controller, r.performer, g.policy, now);
    hide Authority, ControllerStands, PerformerStands, TenantStands, WithAgent, IssueAgent, SafeId, Origin,
         InvitationId, BoundedText, ThumbprintText;
  }

  lemma IdentityExactly(t: Tables, r: Request, g: Grant, now: int)
    requires g.controller in t.memberships && 1 <= |g.policy|
    ensures WithAgent(t, r, g, now).Some? <==> IdentityReady(t, r, g)
  {
  }

  /** A membership that dates from `now` and has no end. */
  predicate Dates(m: Membership, now: int) {
    m.validFrom == now && m.expiresAt == None && m.version == 1
  }

  /** The Agent's own rows may be new; nobody else's change. */
  predicate OnlyAgentAdded(t: Tables, u: Tables, a: ActorId) {
    && u == t.(actors := u.actors, memberships := u.memberships)
    && a in u.actors && u.actors == (if a in t.actors then t.actors else t.actors[a := u.actors[a]])
    && a in u.memberships
    && u.memberships == (if a in t.memberships then t.memberships else t.memberships[a := u.memberships[a]])
  }

  lemma IdentityLeft(t: Tables, r: Request, g: Grant, now: int)
    requires WithAgent(t, r, g, now).Some?
    ensures OnlyAgentAdded(t, WithAgent(t, r, g, now).value, r.actor)
    ensures AgentIdentity(WithAgent(t, r, g, now).value, r, g)
    ensures r.actor !in t.memberships ==> Dates(WithAgent(t, r, g, now).value.memberships[r.actor], now)
  {
    var s := AgentSeed(r, g.controller, g.capabilities);
    BoundAgent(WithAgent(t, r, g, now).value, r, g);
    if !g.existingOnly { SeedAdds(t, s, g.policy, now); }
    hide SeedIdentity, AgentMember, Dates;
  }

  lemma BoundAgent(u: Tables, r: Request, g: Grant)
    ensures Bound(u, AgentSeed(r, g.controller, g.capabilities), g.policy) <==> AgentIdentity(u, r, g)
  {
  }

  lemma SeedAdds(t: Tables, s: Seed, policy: string, now: int)
    requires SeedIdentity(t, s, policy, now).Some?
    ensures OnlyAgentAdded(t, SeedIdentity(t, s, policy, now).value, s.actor)
    ensures Bound(SeedIdentity(t, s, policy, now).value, s, policy)
    ensures s.actor !in t.memberships ==> Dates(SeedIdentity(t, s, policy, now).value.memberships[s.actor], now)
  {
    hide Proposable, ControllerKnown, Bound;
  }

  lemma {:induction false} NoHolders(events: seq<Event>, r: Request)
    ensures Holders(events, InvitationOf(r)) == [] <==> forall i :: 0 <= i < |events| ==> !Registers(events[i], r)
  {
    if events != [] {
      var n := |events| - 1;
      assert events == events[..n] + [events[n]];
      HoldersAppend(events[..n], events[n], InvitationOf(r));
      hide Holders;
      NoHolders(events[..n], r);
      assert forall i :: 0 <= i < n ==> events[..n][i] == events[i];
    }
  }

  lemma {:induction false} HoldersAre(events: seq<Event>, r: Request, id: CredentialId)
    requires forall x :: x in Holders(events, InvitationOf(r)) ==> x == id
    ensures forall i :: 0 <= i < |events| && Registers(events[i], r) ==> events[i].credential == id
  {
    if events != [] {
      var n := |events| - 1;
      assert events == events[..n] + [events[n]];
      HoldersAppend(events[..n], events[n], InvitationOf(r));
      hide Holders;
      var front, all := Holders(events[..n], InvitationOf(r)), Holders(events, InvitationOf(r));
      assert forall x :: x in front ==> x in all;
      if Registers(events[n], r) { assert all[|front|] == events[n].credential && all[|front|] in all; }
      HoldersAre(events[..n], r, id);
      assert forall i :: 0 <= i < n ==> events[..n][i] == events[i];
    }
  }

  lemma FreshIs(t: Tables, r: Request)
    ensures Fresh(t, r) <==>
              && (forall id :: !HasBinding(t, r, id)) && (forall id :: !HasSender(t, r, id))
              && Holders(t.events, InvitationOf(r)) == []
  {
    NoHolders(t.events, r);
    hide Holders, Registers;
    forall id ensures HasBinding(t, r, id) <==> id in t.credentials && BindingTaken(t.credentials[id], r) {
    }
    forall id ensures HasSender(t, r, id) <==> id in t.credentials && SenderTaken(t.credentials[id], r) {
    }
    hide HasBinding, HasSender, BindingTaken, SenderTaken;
  }

  /** A fresh request is registered as it stands. */
  lemma IssueFresh(t: Tables, r: Request, g: Grant, now: int)
    requires Fresh(t, r)
    ensures IssueAgent(t, r, g, now) ==
              match Register(t, FreshId(t), AgentRow(r, g.capabilities, g.policy, Some(g.expiresAt), now),
                             Some(InvitationOf(r)))
              case None => None
              case Some(u) => Some(Outcome(u, FreshId(t), false))
  {
    FreshIs(t, r);
    hide Fresh, HasBinding, HasSender, Holders, Register, AgentRow, InvitationOf, ProvisionedFor;
  }

  lemma RegisterFresh(t: Tables, r: Request, g: Grant, now: int)
    requires Fresh(t, r) && LogAgrees(t) && AgentIdentity(t, r, g) && Worded(r) && SafeId(g.policy) && now < g.expiresAt
    ensures CanInsert(t, FreshId(t), AgentRow(r, g.capabilities, g.policy, Some(g.expiresAt), now)) <==>
              StringList(g.capabilities, 64)
  {
    hide LogAgrees, SafeId, Origin, InvitationId, BoundedText, ThumbprintText, StringList, Registers, SenderTaken;
    FreshUnused(t);
    var c := AgentRow(r, g.capabilities, g.policy, Some(g.expiresAt), now);
    forall x | x in t.credentials ensures !SameBinding(t.credentials[x], c) {
      assert !BindingTaken(t.credentials[x], r);
    }
  }

  /** A request that nothing was made for yet succeeds exactly when its fields, its window and
      its authority are in order, the Agent is known as such or may be created, and its
      capabilities fit the column. */
  lemma FirstProvisionExactly(t: Tables, r: Request, g: Grant, now: int)
    requires LogAgrees(t) && Fresh(t, r)
    ensures Provision(t, r, g, now).Some? <==>
              MayProvision(t, r, g, now) && IdentityReady(t, r, g) && StringList(g.capabilities, 64)
  {
    hide LogAgrees, Fresh, Provision, WithAgent, IssueAgent, Register, IdentityReady, StringList, AgentIdentity,
         CanInsert, ControllerStands, MayProvision;
    MayProvisionExactly(t, r, g, now);
    if MayProvision(t, r, g, now) {
      MayProvisionParts(t, r, g, now);
      IdentityExactly(t, r, g, now);
      if WithAgent(t, r, g, now).Some? {
        var u := WithAgent(t, r, g, now).value;
        IdentityLeft(t, r, g, now);
        WithAgentSame(t, r, g, now);
        SameAccountSound(t, u);
        SoundAgrees(t, u);
        FreshStill(t, u, r);
        IssueFresh(u, r, g, now);
        RegisterFresh(u, r, g, now);
        RegisterWhen(u, FreshId(u), AgentRow(r, g.capabilities, g.policy, Some(g.expiresAt), now),
                     Some(InvitationOf(r)));
      }
    }
  }

  lemma RegisterWhen(t: Tables, id: CredentialId, c: Credential, invitation: Option<Hash>)
    ensures Register(t, id, c, invitation).Some? <==> CanInsert(t, id, c)
  {
    hide CanInsert;
  }

  lemma MayProvisionParts(t: Tables, r: Request, g: Grant, now: int)
    requires MayProvision(t, r, g, now)
    ensures g.controller in t.memberships && 1 <= |g.policy| && Worded(r) && SafeId(g.policy) && now < g.expiresAt
  {
    hide Worded;
  }

  lemma FreshStill(t: Tables, u: Tables, r: Request)
    requires Fresh(t, r) && u.credentials == t.credentials && u.events == t.events
    ensures Fresh(u, r)
  {
  }

  /** The rows of a provisioned Agent: a repeated answer changes no credential and no event; a
      new one adds one credential with the grant, and its registration. */
  ghost predicate Provisioned(t: Tables, o: Outcome, r: Request, g: Grant, now: int) {
    var u := o.tables;
    && OnlyAgentAdded(t.(credentials := u.credentials, events := u.events, nextId := u.nextId), u, r.actor)
    && AgentIdentity(u, r, g) && (r.actor !in t.memberships ==> Dates(u.memberships[r.actor], now))
    && o.credential in u.credentials && AgentCredential(u.credentials[o.credential], r, g)
    && (forall i :: 0 <= i < |u.events| && Registers(u.events[i], r) ==> u.events[i].credential == o.credential)
    && (forall x :: x in u.credentials && SenderTaken(u.credentials[x], r) ==> x == o.credential)
    && if o.replayed then u.credentials == t.credentials && u.events == t.events && u.nextId == t.nextId
       else
         && o.credential !in t.credentials && NewAgentCredential(u.credentials[o.credential], r, g, now)
         && u.credentials == t.credentials[o.credential := u.credentials[o.credential]]
         && u.events == t.events + [Event(CredentialRegistered, o.credential,
                                          Some(InvitationHash(r.key, r.invitation)))]
  }

  /** Whoever gets an Agent provisioned was allowed to, and these are the rows. */
  lemma ProvisionLeaves(t: Tables, r: Request, g: Grant, now: int)
    requires Provision(t, r, g, now).Some?
    ensures MayProvision(t, r, g, now) && Provisioned(t, Provision(t, r, g, now).value, r, g, now)
  {
    hide Provision, WithAgent, IssueAgent, MayProvision, AgentIdentity, AgentCredential, NewAgentCredential, Registers,
         SenderTaken;
    MayProvisionExactly(t, r, g, now);
    var t1 := WithAgent(t, r, g, now).value;
    IdentityLeft(t, r, g, now);
    IssueLeaves(t1, r, g, now);
    SameIdentity(t1, IssueAgent(t1, r, g, now).value.tables, r, g);
  }

  lemma SameIdentity(t: Tables, u: Tables, r: Request, g: Grant)
    requires AgentIdentity(t, r, g) && u.actors == t.actors && u.memberships == t.memberships
    ensures AgentIdentity(u, r, g)
  {
  }

  lemma IssueLeaves(t: Tables, r: Request, g: Grant, now: int)
    requires IssueAgent(t, r, g, now).Some?
    ensures var o := IssueAgent(t, r, g, now).value;
            var u := o.tables;
            && u == t.(credentials := u.credentials, events := u.events, nextId := u.nextId)
            && o.credential in u.credentials && AgentCredential(u.credentials[o.credential], r, g)
            && (forall i :: 0 <= i < |u.events| && Registers(u.events[i], r) ==> u.events[i].credential == o.credential)
            && (forall x :: x in u.credentials && SenderTaken(u.credentials[x], r) ==> x == o.credential)
            && if o.replayed then u == t
               else
                 && o.credential !in t.credentials && NewAgentCredential(u.credentials[o.credential], r, g, now)
                 && u.credentials == t.credentials[o.credential := u.credentials[o.credential]]
                 && u.events == t.events + [Event(CredentialRegistered, o.credential,
                                                  Some(InvitationHash(r.key, r.invitation)))]
  {
    hide Holders, CanInsert;
    var o := IssueAgent(t, r, g, now).value;
    if o.replayed {
      assert HasBinding(t, r, o.credential) && ProvisionedFor(t, r, o.credential, g.policy, g.expiresAt);
      HoldersAre(t.events, r, o.credential);
      forall x | x in t.credentials && SenderTaken(t.credentials[x], r) ensures x == o.credential {
        assert HasSender(t, r, x);
      }
    } else {
      assert o.credential !in t.credentials by { RegisteredNew(t, r, g, now); }
      NoHolders(t.events, r);
      forall x | x in t.credentials ensures !SenderTaken(t.credentials[x], r) {
        assert !HasSender(t, r, x);
      }
    }
  }

  lemma RegisteredNew(t: Tables, r: Request, g: Grant, now: int)
    requires Register(t, FreshId(t), AgentRow(r, g.capabilities, g.policy, Some(g.expiresAt), now),
                      Some(InvitationOf(r))).Some?
    ensures FreshId(t) !in t.credentials
  {
  }

  // ---------------------------------------------------------------------------------------
  // Reprovisioning

  /** The Agent whose credential may be moved to the second key: active, with its membership's
      policy, capabilities and client, and not expired. */
  predicate WorkloadStands(t: Tables, r: Request, prior: CredentialId, now: int) {
    && TenantStands(t) && prior in t.credentials
    && r.actor in t.actors && t.actors[r.actor] == Actor(Agent, true) && r.actor in t.memberships
    && var c, m := t.credentials[prior], t.memberships[r.actor];
    && m.role == AgentRuntime && m.status == Active && r.clientId in m.clientIds
    && c.actor == r.actor && c.actorType == Agent && c.issuer == r.issuer && c.clientId == r.clientId
    && c.clientMethod == PrivateKeyJwt && c.senderMethod == Dpop && c.keyVersion == V1 && c.roles == [AgentRuntime]
    && c.policy == m.policy && c.capabilities == m.capabilities && c.expiresAt.Some? && now < c.expiresAt.value
  }

  lemma ReviewedExactly(t: Tables, r: Request, prior: CredentialId, now: int)
    ensures Reviewed(t, r, prior, now) <==> WorkloadStands(t, r, prior, now)
  {
  }

  /** A credential of the Agent under the second key. */
  predicate Rebound(c: Credential, a: ActorId) {
    c.actor == a && c.keyVersion == V2
  }

  /** An event of any kind with the request's invitation. */
  predicate Names(e: Event, r: Request) {
    e.invitation == Some(InvitationHash(r.key, r.invitation))
  }

  /** No successor yet, no event with the invitation, and the new binding is free. */
  ghost predicate Unmoved(t: Tables, r: Request) {
    && (forall x :: x in t.credentials ==>
          !Rebound(t.credentials[x], r.actor) && !BindingTaken(t.credentials[x], r))
    && (forall i :: 0 <= i < |t.events| ==> !Names(t.events[i], r))
  }

  lemma {:induction false} NoMentions(events: seq<Event>, r: Request)
    ensures Mentions(events, InvitationOf(r)) == [] <==> forall i :: 0 <= i < |events| ==> !Names(events[i], r)
  {
    if events != [] {
      var n := |events| - 1;
      assert Mentions(events, InvitationOf(r)) ==
             Mentions(events[..n], InvitationOf(r)) + if Names(events[n], r) then [events[n].credential] else [];
      hide Mentions;
      NoMentions(events[..n], r);
      assert forall i :: 0 <= i < n ==> events[..n][i] == events[i];
    }
  }

  /** A successor: the prior credential's grants under the request's references. */
  predicate Successor(c: Credential, d: Credential, r: Request, now: int) {
    && d.actor == c.actor && d.actorType == Agent && d.issuer == c.issuer && d.clientId == c.clientId
    && d.subject == SubjectHash(V2, r.issuer, r.subject) && d.sender == SenderHash(V2, KeyThumbprint(r.thumbprint))
    && d.clientMethod == PrivateKeyJwt && d.senderMethod == Dpop && d.keyVersion == V2 && d.roles == c.roles
    && d.capabilities == c.capabilities && d.policy == c.policy && d.expiresAt == c.expiresAt
    && d.status == Active && d.version == 1 && d.createdAt == now && d.updatedAt == now
  }

  /** The prior credential is out and its successor in, with their three events. */
  ghost predicate Moved(t: Tables, o: Outcome, r: Request, prior: CredentialId, now: int)
    requires prior in t.credentials
  {
    var u, c := o.tables, t.credentials[prior];
    && u == t.(credentials := u.credentials, events := u.events, nextId := u.nextId)
    && !o.replayed && o.credential !in t.credentials && o.credential in u.credentials
    && Successor(c, u.credentials[o.credential], r, now)
    && u.credentials == t.credentials[prior := c.(status := Revoked, updatedAt := now)]
                                     [o.credential := u.credentials[o.credential]]
    && u.events == t.events + [Event(CredentialRevoked, prior, None),
                               Event(CredentialRegistered, o.credential, Some(InvitationHash(V2, r.invitation))),
                               Event(ReferenceRebound, o.credential, None)]
  }

  lemma ReissueExactly(t: Tables, r: Request, prior: CredentialId, now: int)
    requires LogAgrees(t) && Unmoved(t, r) && r.key == V2 && Worded(r) && WorkloadStands(t, r, prior, now)
    requires CredentialRow(t.credentials[prior])
    ensures var x := Reissue(t, r, prior, now);
            && (x.Some? <==> t.credentials[prior].status == Active && t.credentials[prior].updatedAt <= now &&
                             r.performer in t.memberships)
            && (x.Some? ==> Moved(t, x.value, r, prior, now))
  {
    hide LogAgrees, Mentions, SafeId, Origin, InvitationId, BoundedText, ThumbprintText, StringList, Names, Rebound;
    FreshUnused(t);
    NoMentions(t.events, r);
    var c := t.credentials[prior];
    if c.status == Active && c.updatedAt <= now && r.performer in t.memberships {
      var t1 := Revoke(t, prior, now).value;
      var row := AgentRow(r, c.capabilities, c.policy, c.expiresAt, now).(roles := c.roles);
      forall x | x in t1.credentials ensures !SameBinding(t1.credentials[x], row) {
        assert !BindingTaken(t.credentials[x], r);
      }
      assert CanInsert(t1, FreshId(t), row);
    }
  }

  lemma NoneRebound(t: Tables, r: Request)
    requires Unmoved(t, r)
    ensures forall id :: !SecondKey(t, r.actor, id)
  {
    forall id ensures !SecondKey(t, r.actor, id) {
      if id in t.credentials { assert !Rebound(t.credentials[id], r.actor); }
    }
  }

  /** A first reprovisioning succeeds exactly when the request reads well, the workload stands,
      its credential is active and the performer is a member; it moves the grants over. */
  lemma FirstReprovisionExactly(t: Tables, r: Request, prior: CredentialId, now: int)
    requires LogAgrees(t) && Unmoved(t, r) && (prior in t.credentials ==> CredentialRow(t.credentials[prior]))
    ensures var x := Reprovision(t, r, prior, now);
            && (x.Some? <==>
                  Worded(r) && r.key == V2 && WorkloadStands(t, r, prior, now) &&
                  t.credentials[prior].status == Active && t.credentials[prior].updatedAt <= now &&
                  r.performer in t.memberships)
            && (x.Some? ==> Moved(t, x.value, r, prior, now))
  {
    hide LogAgrees, Unmoved, Reviewed, Reissue, Moved, CredentialRow, SecondKey, SafeId, Origin, InvitationId,
         BoundedText, ThumbprintText;
    ReviewedExactly(t, r, prior, now);
    NoneRebound(t, r);
    if Worded(r) && r.key == V2 && WorkloadStands(t, r, prior, now) { ReissueExactly(t, r, prior, now); }
  }

  /** Nobody gets past the review: every success, repeats included, has the workload stand. */
  lemma ReprovisionDemands(t: Tables, r: Request, prior: CredentialId, now: int)
    requires Reprovision(t, r, prior, now).Some?
    ensures Worded(r) && r.key == V2 && WorkloadStands(t, r, prior, now)
  {
    ReviewedExactly(t, r, prior, now);
    hide Reviewed, Reissue, Reissued, SafeId, Origin, InvitationId, BoundedText, ThumbprintText;
  }

  // ---------------------------------------------------------------------------------------
  // Revocation

  /** A credential of the Agent that signs with a private key. */
  predicate SigningKey(c: Credential, a: ActorId) {
    c.actor == a && c.actorType == Agent && c.clientMethod == PrivateKeyJwt
  }

  /** The one signing credential that is not out yet. */
  ghost predicate OnlyUsable(t: Tables, a: ActorId, id: CredentialId) {
    && id in t.credentials && SigningKey(t.credentials[id], a)
    && (t.credentials[id].status == Active || t.credentials[id].status == Suspended)
    && (forall x :: x in t.credentials && SigningKey(t.credentials[x], a) && x != id ==>
          t.credentials[x].status != Active && t.credentials[x].status != Suspended)
  }

  ghost predicate NoneUsable(t: Tables, a: ActorId) {
    && (exists x :: x in t.credentials && SigningKey(t.credentials[x], a))
    && (forall x :: x in t.credentials && SigningKey(t.credentials[x], a) ==> t.credentials[x].status == Revoked)
  }

  lemma OnlyUsableIs(t: Tables, a: ActorId, id: CredentialId)
    ensures OnlyUsable(t, a, id) <==> SoleRevocable(t, a, id)
  {
    if OnlyUsable(t, a, id) {
      forall x | Revocable(t, a, x) ensures x == id {
      }
    }
    if SoleRevocable(t, a, id) {
      forall x | x in t.credentials && SigningKey(t.credentials[x], a) && x != id
        ensures t.credentials[x].status != Active && t.credentials[x].status != Suspended
      {
        assert !Revocable(t, a, x);
      }
    }
  }

  /** A revocation succeeds exactly when all the Agent's signing credentials are out already, and
      then changes nothing, or when one is left, which it revokes with its event if the clock has
      not gone back and the performer is a member. */
  lemma RevocationExactly(t: Tables, a: ActorId, performer: ActorId, now: int)
    ensures SafeId(a) && SafeId(performer) && NoneUsable(t, a) ==> RevokeAgent(t, a, performer, now) == Some(t)
    ensures forall id :: SafeId(a) && SafeId(performer) && OnlyUsable(t, a, id) ==>
              var out := t.credentials[id].(status := Revoked, updatedAt := now);
              RevokeAgent(t, a, performer, now) ==
                if performer in t.memberships && t.credentials[id].updatedAt <= now
                then Some(t.(credentials := t.credentials[id := out],
                             events := t.events + [Event(CredentialRevoked, id, None)]))
                else None
    ensures !(SafeId(a) && SafeId(performer)) || (!NoneUsable(t, a) && forall id :: !OnlyUsable(t, a, id)) ==>
              RevokeAgent(t, a, performer, now) == None
  {
    forall id ensures OnlyUsable(t, a, id) <==> SoleRevocable(t, a, id) { OnlyUsableIs(t, a, id); }
    NoneUsableIs(t, a);
    hide SafeId, OnlyUsable, NoneUsable, AllRevoked;
    if exists id :: KeyCredential(t, a, id) { hide KeyCredential; }
  }

  lemma NoneUsableIs(t: Tables, a: ActorId)
    ensures NoneUsable(t, a) <==> (exists id :: KeyCredential(t, a, id)) && AllRevoked(t, a)
    ensures (exists id :: OnlyUsable(t, a, id)) ==> (exists id :: KeyCredential(t, a, id)) && !AllRevoked(t, a)
  {
    if id :| OnlyUsable(t, a, id) { assert KeyCredential(t, a, id); }
    if x :| x in t.credentials && SigningKey(t.credentials[x], a) { assert KeyCredential(t, a, x); }
    if id :| KeyCredential(t, a, id) { assert SigningKey(t.credentials[id], a); }
    forall x | x in t.credentials ensures SigningKey(t.credentials[x], a) <==> KeyCredential(t, a, x) {
    }
  }
}

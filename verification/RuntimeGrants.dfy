/**
 What the principal's own Agent demands and leaves, column by column: who may create or revoke
 it, exactly when each succeeds, and which rows it writes.
 */
module RuntimeGrants {
  import opened Options
  import opened Identifiers
  import opened CredentialTables
  import opened PrincipalAgent

  predicate MayManage(capabilities: seq<Capability>) {
    "agent.create" in capabilities && "agent.manage.owned" in capabilities
  }

  /** A principal controller and nothing else, whose own credential, membership and enrollment
      are live, for this client and policy, and carry both capabilities. */
  predicate PrincipalStands(t: Tables, who: Caller, now: int) {
    && who.actorType == Human && |who.roles| == 1 && who.roles[0] == PrincipalController
    && MayManage(who.capabilities) && t.tenant.Some? && t.tenant.value.active
    && who.actor in t.actors && t.actors[who.actor].active
    && who.actor in t.memberships && who.credential in t.credentials
    && (who.credential, PrincipalController) in t.enrollments
    && var m, c := t.memberships[who.actor], t.credentials[who.credential];
    && m.status == Active && m.validFrom <= now && Unexpired(m.expiresAt, now) && who.clientId in m.clientIds
    && c.actor == who.actor && c.clientId == who.clientId && c.version == who.version && c.status == Active
    && Unexpired(c.expiresAt, now)
    && var e := t.enrollments[(who.credential, PrincipalController)];
    && e.actor == who.actor && e.status == Active && e.validFrom <= now && Unexpired(e.expiresAt, now)
    && e.policy == who.policy && who.clientId in e.clientIds && MayManage(e.capabilities)
  }

  lemma AllowedExactly(t: Tables, who: Caller, now: int)
    ensures Allowed(t, who, now) <==> PrincipalStands(t, who, now)
  {
  }

  // ---------------------------------------------------------------------------------------
  // Create

  /** The new Agent's membership, under its principal. */
  predicate RuntimeMember(m: Membership, who: Caller, s: Service, d: Draw, now: int) {
    && m.role == AgentRuntime && m.capabilities == s.capabilities && m.clientIds == ["client_" + d.agent]
    && m.policy == who.policy && m.controller == Some(who.actor) && m.status == Active && m.validFrom == now
    && m.expiresAt == Some(s.expiresAt) && m.version == 1
  }

  predicate RuntimeCredential(c: Credential, who: Caller, s: Service, d: Draw, now: int) {
    && c.actor == d.agent && c.actorType == Agent && c.issuer == s.issuer
    && c.subject == SubjectHash(V1, s.issuer, s.subject) && c.clientId == "client_" + d.agent
    && c.clientMethod == PrivateKeyJwt && c.senderMethod == Dpop
    && c.sender == SenderHash(V1, KeyThumbprint(d.thumbprint)) && c.keyVersion == V1 && c.roles == [AgentRuntime]
    && c.capabilities == s.capabilities && c.policy == who.policy && c.status == Active && c.version == 1
    && c.expiresAt == Some(s.expiresAt) && c.createdAt == now && c.updatedAt == now
  }

  /** What a new Agent needs: a principal that controls nobody, a service that has not expired,
      an actor id and a binding that nobody has, and texts that fit their columns. */
  ghost predicate RoomFor(t: Tables, who: Caller, s: Service, d: Draw, now: int) {
    && (forall a :: a in t.memberships ==> t.memberships[a].controller != Some(who.actor))
    && now < s.expiresAt && d.agent !in t.actors && d.agent !in t.memberships
    && Origin(s.issuer) && SafeId("client_" + d.agent) && SafeId(who.policy) && |who.policy| <= 128
    && StringList(s.capabilities, 64)
    && (forall x :: x in t.credentials ==>
          t.credentials[x].issuer != s.issuer || t.credentials[x].clientId != "client_" + d.agent ||
          t.credentials[x].subject != SubjectHash(V1, s.issuer, s.subject))
  }

  /** The rows of a new Agent; nothing else changes. */
  ghost predicate CreatedRows(t: Tables, u: Tables, row: Runtime, who: Caller, s: Service, d: Draw, now: int) {
    && row.credential !in t.credentials && row == Runtime(d.agent, row.credential, "client_" + d.agent, true)
    && d.agent in u.memberships && RuntimeMember(u.memberships[d.agent], who, s, d, now)
    && row.credential in u.credentials && RuntimeCredential(u.credentials[row.credential], who, s, d, now)
    && u == t.(actors := t.actors[d.agent := Actor(Agent, true)],
               memberships := t.memberships[d.agent := u.memberships[d.agent]],
               credentials := t.credentials[row.credential := u.credentials[row.credential]],
               events := t.events + [Event(CredentialRegistered, row.credential, None)],
               runtimes := t.runtimes[who.actor := row], nextId := u.nextId)
  }

  lemma RegisterExactly(t: Tables, who: Caller, s: Service, d: Draw, now: int)
    requires LogAgrees(t) && d.agent !in t.actors && d.agent !in t.memberships && now < s.expiresAt
    requires MembershipRow(PrincipalAgent.NewMembership(who, s, d, now))
    ensures CanInsert(NewAgent(t, who, s, d, now), FreshId(t), AgentRow(who, s, d, now)) <==>
              && Origin(s.issuer) && SafeId("client_" + d.agent) && SafeId(who.policy) && StringList(s.capabilities, 64)
              && (forall x :: x in t.credentials ==>
                    t.credentials[x].issuer != s.issuer || t.credentials[x].clientId != "client_" + d.agent ||
                    t.credentials[x].subject != SubjectHash(V1, s.issuer, s.subject))
  {
    FreshUnused(t);
    hide LogAgrees, SafeId, Origin, StringList;
    var c := AgentRow(who, s, d, now);
    assert forall x :: x in t.credentials ==>
      (SameBinding(t.credentials[x], c) <==>
       t.credentials[x].issuer == s.issuer && t.credentials[x].clientId == "client_" + d.agent &&
       t.credentials[x].subject == SubjectHash(V1, s.issuer, s.subject));
  }

  lemma PolicyRow(who: Caller, s: Service, d: Draw, now: int)
    requires now < s.expiresAt
    ensures MembershipRow(PrincipalAgent.NewMembership(who, s, d, now)) <==> 1 <= |who.policy| <= 128
  {
  }

  lemma NewAgentExactly(t: Tables, who: Caller, s: Service, d: Draw, now: int)
    requires LogAgrees(t) && Allowed(t, who, now) && who.actor !in t.runtimes
    ensures var r := Create(t, who, s, d, now);
            && (r.Some? <==> RoomFor(t, who, s, d, now))
            && (r.Some? ==> CreatedRows(t, r.value.0, r.value.1, who, s, d, now))
  {
    hide LogAgrees, Allowed, CanInsert, Origin, StringList, MembershipRow, Controls;
    ControlsNobody(t, who.actor);
    if now < s.expiresAt && d.agent !in t.actors && d.agent !in t.memberships {
      PolicyRow(who, s, d, now);
      FreshUnused(t);
      if 1 <= |who.policy| <= 128 { RegisterExactly(t, who, s, d, now); }
    }
  }

  lemma ControlsNobody(t: Tables, controller: ActorId)
    ensures (exists a :: Controls(t, controller, a)) <==>
              exists a :: a in t.memberships && t.memberships[a].controller == Some(controller)
  {
    if a :| a in t.memberships && t.memberships[a].controller == Some(controller) { assert Controls(t, controller, a); }
  }

  /** Create succeeds exactly for a principal that stands and either has an active runtime, which
      it gets back with no change, or has room for a first one. */
  lemma CreateExactly(t: Tables, who: Caller, s: Service, d: Draw, now: int)
    requires LogAgrees(t)
    ensures var r := Create(t, who, s, d, now);
            && (r.Some? <==>
                  PrincipalStands(t, who, now) &&
                  if who.actor in t.runtimes then t.runtimes[who.actor].active else RoomFor(t, who, s, d, now))
            && (r.Some? ==>
                  if who.actor in t.runtimes then r.value == (t, t.runtimes[who.actor])
                  else CreatedRows(t, r.value.0, r.value.1, who, s, d, now))
  {
    AllowedExactly(t, who, now);
    hide LogAgrees, PrincipalStands, Allowed, RoomFor, CreatedRows, Register, MembershipRow, Controls;
    if Allowed(t, who, now) && who.actor !in t.runtimes { NewAgentExactly(t, who, s, d, now); }
  }

  // ---------------------------------------------------------------------------------------
  // Revoke

  /** Revoking succeeds exactly for a principal that stands and names its own Agent, unless the
      clock has gone back. It ends the runtime, and the credential with its event if that was
      still active; once ended it changes nothing. */
  lemma RevokeExactly(t: Tables, who: Caller, agent: ActorId, now: int)
    ensures var r := RevokeRuntime(t, who, agent, now);
            && (r.Some? <==>
                  && PrincipalStands(t, who, now) && who.actor in t.runtimes && t.runtimes[who.actor].agent == agent
                  && (t.runtimes[who.actor].active && HasActive(t, t.runtimes[who.actor].credential) ==>
                        t.credentials[t.runtimes[who.actor].credential].updatedAt <= now))
            && (r.Some? ==> EndedRows(t, r.value, who.actor, now))
  {
    AllowedExactly(t, who, now);
    hide PrincipalStands, Allowed;
  }

  predicate HasActive(t: Tables, id: CredentialId) {
    id in t.credentials && t.credentials[id].status == Active
  }

  predicate EndedRows(t: Tables, u: Tables, a: ActorId, now: int)
    requires a in t.runtimes
  {
    var row := t.runtimes[a];
    if !row.active then u == t
    else if !HasActive(t, row.credential) then u == t.(runtimes := t.runtimes[a := row.(active := false)])
    else
      var out := t.credentials[row.credential].(status := Revoked, updatedAt := now);
      u == t.(credentials := t.credentials[row.credential := out],
              events := t.events + [Event(CredentialRevoked, row.credential, None)],
              runtimes := t.runtimes[a := row.(active := false)])
  }

  // ---------------------------------------------------------------------------------------
  // Accepting a client id

  /** A live runtime with the client id, of a live principal and with a live credential. */
  predicate LiveRuntime(t: Tables, k: ActorId, client: ClientId, now: int) {
    && k in t.runtimes && t.runtimes[k].active && t.runtimes[k].clientId == client
    && k in t.actors && t.actors[k].active
    && t.runtimes[k].credential in t.credentials
    && t.credentials[t.runtimes[k].credential].status == Active
    && Unexpired(t.credentials[t.runtimes[k].credential].expiresAt, now)
  }

  /** A client id is accepted exactly when one live runtime has it. */
  lemma AcceptsExactly(t: Tables, client: ClientId, now: int)
    ensures AcceptsClientId(t, client, now) <==>
              exists k :: LiveRuntime(t, k, client, now) && forall x :: LiveRuntime(t, x, client, now) ==> x == k
  {
    forall k ensures Serves(t, k, client, now) <==> LiveRuntime(t, k, client, now) {
    }
    hide Serves, LiveRuntime;
    if AcceptsClientId(t, client, now) {
      var k :| Serves(t, k, client, now) && forall x :: Serves(t, x, client, now) ==> x == k;
      assert LiveRuntime(t, k, client, now);
    }
    if k :| LiveRuntime(t, k, client, now) && forall x :: LiveRuntime(t, x, client, now) ==> x == k {
      assert Serves(t, k, client, now);
    }
  }
}

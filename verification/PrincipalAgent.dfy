/**
 The Agent a principal sets up for itself in the local sandbox: create, revoke, and the test
 whether a client id is accepted. Every transaction first checks the principal's live
 credential, membership and enrollment.
 */
module PrincipalAgent {
  import opened Options
  import opened CredentialTables

  const AGENT_CREATE: Capability := "agent.create"
  const AGENT_MANAGE: Capability := "agent.manage.owned"

  /** The authenticated caller. */
  datatype Caller = Caller(
    actor: ActorId, actorType: ActorType, roles: seq<Role>, capabilities: seq<Capability>,
    credential: CredentialId, version: nat, clientId: ClientId, policy: string)

  /** `assertPrincipal` and the row the transaction locks. */
  predicate Allowed(t: Tables, who: Caller, now: int) {
    && who.actorType == Human && who.roles == [PrincipalController]
    && AGENT_CREATE in who.capabilities && AGENT_MANAGE in who.capabilities
    && t.tenant.Some? && t.tenant.value.active && ActorActive(t, who.actor)
    && who.credential in t.credentials && who.actor in t.memberships
    && (who.credential, PrincipalController) in t.enrollments
    && var c, m := t.credentials[who.credential], t.memberships[who.actor];
    && var e := t.enrollments[(who.credential, PrincipalController)];
    && c.actor == who.actor && c.clientId == who.clientId && c.version == who.version
    && c.status == Active && Unexpired(c.expiresAt, now)
    && Valid(m, now) && who.clientId in m.clientIds
    && e.actor == who.actor && e.status == Active && who.clientId in e.clientIds && e.policy == who.policy
    && AGENT_CREATE in e.capabilities && AGENT_MANAGE in e.capabilities
    && e.validFrom <= now && Unexpired(e.expiresAt, now)
  }

  /** What the runtime service is configured with. */
  datatype Service = Service(issuer: string, subject: string, capabilities: seq<Capability>, expiresAt: int)

  /** What a new Agent gets at random: its actor id and its key. */
  datatype Draw = Draw(agent: ActorId, thumbprint: string)

  predicate Controls(t: Tables, controller: ActorId, a: ActorId) {
    a in t.memberships && t.memberships[a].controller == Some(controller)
  }

  function NewMembership(who: Caller, s: Service, d: Draw, now: int): Membership {
    Membership(AgentRuntime, s.capabilities, [CLIENT + d.agent], who.policy, Some(who.actor), Active, now,
               Some(s.expiresAt), 1)
  }

  function NewAgent(t: Tables, who: Caller, s: Service, d: Draw, now: int): Tables {
    t.(actors := t.actors[d.agent := Actor(Agent, true)],
       memberships := t.memberships[d.agent := NewMembership(who, s, d, now)])
  }

  function AgentRow(who: Caller, s: Service, d: Draw, now: int): Credential {
    Credential(d.agent, Agent, s.issuer, SubjectHash(V1, s.issuer, s.subject), CLIENT + d.agent, PrivateKeyJwt, Dpop,
               SenderHash(V1, KeyThumbprint(d.thumbprint)), [AgentRuntime], s.capabilities, who.policy,
               Active, 1, Some(s.expiresAt), now, now, V1)
  }

  /** `create`: an active runtime is returned as it is, a revoked one is never replaced, and a
      principal that already controls somebody gets none. */
  ghost function Create(t: Tables, who: Caller, s: Service, d: Draw, now: int): Option<(Tables, Runtime)> {
    if !Allowed(t, who, now) then None
    else if who.actor in t.runtimes then
      if t.runtimes[who.actor].active then Some((t, t.runtimes[who.actor])) else None
    else if exists a :: Controls(t, who.actor, a) then None
    else if s.expiresAt <= now || d.agent in t.actors || d.agent in t.memberships then None
    else if !MembershipRow(NewMembership(who, s, d, now)) then None
    else
      var id := FreshId(t);
      var t1 :- Register(NewAgent(t, who, s, d, now), id, AgentRow(who, s, d, now), None);
      var row := Runtime(d.agent, id, CLIENT + d.agent, true);
      Some((t1.(runtimes := t1.runtimes[who.actor := row]), row))
  }

  /** `revoke`: the credential if it is still active, then the runtime. */
  function RevokeRuntime(t: Tables, who: Caller, agent: ActorId, now: int): Option<Tables> {
    if !Allowed(t, who, now) || who.actor !in t.runtimes || t.runtimes[who.actor].agent != agent then None
    else if !t.runtimes[who.actor].active then Some(t)
    else
      var row := t.runtimes[who.actor];
      var t1 :- if row.credential in t.credentials && t.credentials[row.credential].status == Active
                then Revoke(t, row.credential, now) else Some(t);
      Some(t1.(runtimes := t1.runtimes[who.actor := row.(active := false)]))
  }

  /** A live runtime with this client id, its credential active and its principal too. */
  predicate Serves(t: Tables, controller: ActorId, client: ClientId, now: int) {
    && controller in t.runtimes && t.runtimes[controller].clientId == client && t.runtimes[controller].active
    && t.runtimes[controller].credential in t.credentials && ActorActive(t, controller)
    && var c := t.credentials[t.runtimes[controller].credential];
    c.status == Active && Unexpired(c.expiresAt, now)
  }

  /** `acceptsClientId`: exactly one row qualifies. */
  ghost predicate AcceptsClientId(t: Tables, client: ClientId, now: int) {
    exists k :: Serves(t, k, client, now) && forall x :: Serves(t, x, client, now) ==> x == k
  }

  // ---------------------------------------------------------------------------------------
  // What every transaction keeps

  lemma CreateChanges(t: Tables, who: Caller, s: Service, d: Draw, now: int)
    requires Create(t, who, s, d, now).Some? && who.actor !in t.runtimes
    ensures var u, id := Create(t, who, s, d, now).value.0, FreshId(t);
            && d.agent !in t.actors && id !in t.credentials
            && u.runtimes == t.runtimes[who.actor := Runtime(d.agent, id, CLIENT + d.agent, true)]
            && u.actors == t.actors[d.agent := Actor(Agent, true)]
            && u.credentials == t.credentials[id := AgentRow(who, s, d, now)]
  {
    hide Allowed, SameBinding;
  }

  /** One runtime is added for a new Agent. */
  lemma AddedOk(t: Tables, u: Tables, k: ActorId, row: Runtime)
    requires k !in t.runtimes && u.runtimes == t.runtimes[k := row] && row.clientId == CLIENT + row.agent
    requires row.agent !in t.actors && t.actors.Keys <= u.actors.Keys && row.agent in u.actors
    requires forall x :: x in t.credentials ==> x in u.credentials && u.credentials[x].actor == t.credentials[x].actor
    requires row.credential in u.credentials && u.credentials[row.credential].actor == row.agent
    ensures RuntimesKept(t, u) && (RuntimesOk(t) ==> RuntimesOk(u))
  {
  }

  /** One runtime changes its state only. */
  lemma EndedOk(t: Tables, u: Tables, k: ActorId)
    requires k in t.runtimes && u.runtimes == t.runtimes[k := t.runtimes[k].(active := false)] && u.actors == t.actors
    requires forall x :: x in t.credentials ==> x in u.credentials && u.credentials[x].actor == t.credentials[x].actor
    ensures RuntimesKept(t, u) && (RuntimesOk(t) ==> RuntimesOk(u))
  {
    assert forall x :: x in u.runtimes ==>
      x in t.runtimes && u.runtimes[x] == t.runtimes[x].(active := u.runtimes[x].active);
  }

  lemma CreateKept(t: Tables, who: Caller, s: Service, d: Draw, now: int)
    requires Create(t, who, s, d, now).Some?
    ensures RuntimesKept(t, Create(t, who, s, d, now).value.0)
    ensures RuntimesOk(t) ==> RuntimesOk(Create(t, who, s, d, now).value.0)
  {
    if who.actor !in t.runtimes {
      CreateChanges(t, who, s, d, now);
      hide Create, RuntimesOk, RuntimesKept;
      AddedOk(t, Create(t, who, s, d, now).value.0, who.actor, Runtime(d.agent, FreshId(t), CLIENT + d.agent, true));
    }
  }

  lemma RevokeRuntimeKept(t: Tables, who: Caller, agent: ActorId, now: int)
    requires RevokeRuntime(t, who, agent, now).Some?
    ensures RuntimesKept(t, RevokeRuntime(t, who, agent, now).value)
    ensures RuntimesOk(t) ==> RuntimesOk(RevokeRuntime(t, who, agent, now).value)
  {
    hide RevokeRuntime, RuntimesOk, RuntimesKept;
    RevokeRuntimeChanges(t, who, agent, now);
    EndedOk(t, RevokeRuntime(t, who, agent, now).value, who.actor);
  }

  lemma RevokeRuntimeChanges(t: Tables, who: Caller, agent: ActorId, now: int)
    requires RevokeRuntime(t, who, agent, now).Some?
    ensures var u := RevokeRuntime(t, who, agent, now).value;
            && who.actor in t.runtimes && u.actors == t.actors
            && u.runtimes == t.runtimes[who.actor := t.runtimes[who.actor].(active := false)]
            && u.credentials.Keys == t.credentials.Keys
            && forall x :: x in t.credentials ==> u.credentials[x].actor == t.credentials[x].actor
  {
    hide Allowed;
  }

  lemma CreateSound(t: Tables, who: Caller, s: Service, d: Draw, now: int)
    requires Create(t, who, s, d, now).Some?
    ensures Sound(t, Create(t, who, s, d, now).value.0)
  {
    hide LogAgrees, Preserves, Sound, Allowed, CanInsert;
    var u := Create(t, who, s, d, now).value.0;
    if who.actor in t.runtimes {
      SameAccountSound(t, t);
    } else {
      var t0 := NewAgent(t, who, s, d, now);
      SameAccountSound(t, t0);
      RegisterSound(t0, FreshId(t), AgentRow(who, s, d, now), None);
      var t1 := Register(t0, FreshId(t), AgentRow(who, s, d, now), None).value;
      SoundTrans(t, t0, t1);
      CreateKept(t, who, s, d, now);
      SameLogSound(t, t1, u);
    }
  }

  lemma RevokeRuntimeSound(t: Tables, who: Caller, agent: ActorId, now: int)
    requires RevokeRuntime(t, who, agent, now).Some?
    ensures Sound(t, RevokeRuntime(t, who, agent, now).value)
  {
    hide LogAgrees, Preserves, Sound, Allowed;
    var u := RevokeRuntime(t, who, agent, now).value;
    var row := t.runtimes[who.actor];
    RevokeRuntimeKept(t, who, agent, now);
    if t.credentials == u.credentials {
      SameAccountSound(t, t);
      SameLogSound(t, t, u);
    } else {
      RevokeSound(t, row.credential, now);
      var t1 := Revoke(t, row.credential, now).value;
      SameLogSound(t, t1, u);
    }
  }

  // ---------------------------------------------------------------------------------------
  // What the principal gets

  /** While the caller is still allowed, a second create answers with the same runtime and
      changes nothing, whatever it would have drawn. */
  lemma CreateTwice(t: Tables, who: Caller, s: Service, d: Draw, now: int, e: Draw, later: int)
    requires Create(t, who, s, d, now).Some? && Allowed(Create(t, who, s, d, now).value.0, who, later)
    ensures var o := Create(t, who, s, d, now).value;
            Create(o.0, who, s, e, later) == Some(o) && o.1.active
  {
    hide Allowed, CanInsert;
  }

  /** A principal ends up controlling exactly the Agent it created, and nobody else's rows
      change. */
  lemma ControlsExactlyOne(t: Tables, who: Caller, s: Service, d: Draw, now: int)
    requires Create(t, who, s, d, now).Some? && who.actor !in t.runtimes
    ensures var u, row := Create(t, who, s, d, now).value.0, Create(t, who, s, d, now).value.1;
            && (forall a :: Controls(u, who.actor, a) <==> a == row.agent)
            && (forall a :: a in t.memberships ==> a in u.memberships && u.memberships[a] == t.memberships[a])
            && (forall x :: x in t.credentials ==> x in u.credentials && u.credentials[x] == t.credentials[x])
            && row.credential in u.credentials && u.credentials[row.credential].actor == row.agent
            && u.credentials[row.credential].capabilities == u.memberships[row.agent].capabilities == s.capabilities
            && row.clientId == u.credentials[row.credential].clientId &&
                u.memberships[row.agent].clientIds == [row.clientId]
  {
    hide Allowed, SameBinding;
    forall a ensures Controls(Create(t, who, s, d, now).value.0, who.actor, a) <==> a == d.agent {
      assert !Controls(t, who.actor, a);
    }
  }

  /** A created runtime's client id is accepted until the service's expiry. */
  lemma CreatedIsAccepted(t: Tables, who: Caller, s: Service, d: Draw, now: int, later: int)
    requires RuntimesOk(t) && Create(t, who, s, d, now).Some? && who.actor !in t.runtimes
    ensures var o := Create(t, who, s, d, now).value;
            AcceptsClientId(o.0, o.1.clientId, later) <==> s.expiresAt > later
  {
    CreateKept(t, who, s, d, now);
    var o := Create(t, who, s, d, now).value;
    assert o.0.credentials[o.1.credential] == AgentRow(who, s, d, now);
    SoleServer(o.0, who.actor, later);
  }

  /** Client ids tell runtimes apart. */
  lemma SoleServer(t: Tables, k: ActorId, now: int)
    requires RuntimesOk(t) && k in t.runtimes
    ensures forall x :: Serves(t, x, t.runtimes[k].clientId, now) ==> x == k
    ensures AcceptsClientId(t, t.runtimes[k].clientId, now) <==> Serves(t, k, t.runtimes[k].clientId, now)
  {
    forall x | Serves(t, x, t.runtimes[k].clientId, now) ensures x == k {
      Unprefixed(CLIENT, t.runtimes[x].agent, t.runtimes[k].agent);
    }
  }

  lemma Unprefixed(p: string, a: string, b: string)
    requires p + a == p + b
    ensures a == b
  {
    assert (p + a)[|p|..] == a && (p + b)[|p|..] == b;
  }

  /** After a revocation the client id is refused for good: in all tables later transactions
      can lead to, at any time. */
  lemma RevokedIsRefused(t: Tables, who: Caller, agent: ActorId, now: int, u: Tables, later: int)
    requires RuntimesOk(t) && RevokeRuntime(t, who, agent, now).Some?
    requires RuntimesOk(u) && RuntimesKept(RevokeRuntime(t, who, agent, now).value, u)
    ensures !AcceptsClientId(u, t.runtimes[who.actor].clientId, later)
    ensures forall s: Service, d: Draw :: Create(u, who, s, d, later).None?
  {
    hide Allowed;
    RevokeRuntimeKept(t, who, agent, now);
    var v := RevokeRuntime(t, who, agent, now).value;
    assert !v.runtimes[who.actor].active;
    assert !u.runtimes[who.actor].active;
    SoleServer(u, who.actor, later);
  }

  // ---------------------------------------------------------------------------------------
  // The transactions as they run

  class RuntimeDatabase {
    var tables: Tables

    constructor ()
      ensures tables == Empty
    {
      tables := Empty;
    }

    /** The rows of a new Agent go in one after another; a failing insert takes them all out. */
    method CreateRuntime(who: Caller, s: Service, d: Draw, now: int) returns (row: Option<Runtime>)
      modifies this
      ensures row.Some? <==> Create(old(tables), who, s, d, now).Some?
      ensures row.Some? ==> Create(old(tables), who, s, d, now) == Some((tables, row.value))
      ensures row.None? ==> tables == old(tables)
    {
      if !Allowed(tables, who, now) { return None; }
      if who.actor in tables.runtimes {
        return if tables.runtimes[who.actor].active then Some(tables.runtimes[who.actor]) else None;
      }
      var controlled := set a | a in tables.memberships && Controls(tables, who.actor, a);
      assert controlled == {} <==> !exists a :: Controls(tables, who.actor, a) by {
        assert forall a :: Controls(tables, who.actor, a) <==> a in controlled;
      }
      if controlled != {} || s.expiresAt <= now || d.agent in tables.actors || d.agent in tables.memberships {
        return None;
      }
      var m := NewMembership(who, s, d, now);
      if !MembershipRow(m) { return None; }
      hide Allowed, Controls;
      var saved, id := tables, FreshId(tables);
      tables := tables.(actors := tables.actors[d.agent := Actor(Agent, true)]);
      tables := tables.(memberships := tables.memberships[d.agent := m]);
      assert tables == NewAgent(saved, who, s, d, now);
      var inserted := Register(tables, id, AgentRow(who, s, d, now), None);
      if inserted.None? {
        tables := saved;
        return None;
      }
      var runtime := Runtime(d.agent, id, CLIENT + d.agent, true);
      tables := inserted.value.(runtimes := inserted.value.runtimes[who.actor := runtime]);
      return Some(runtime);
    }

    /** The credential first, then the runtime row. */
    method Revoke(who: Caller, agent: ActorId, now: int) returns (ok: bool)
      modifies this
      ensures ok <==> RevokeRuntime(old(tables), who, agent, now).Some?
      ensures tables == if ok then RevokeRuntime(old(tables), who, agent, now).value else old(tables)
    {
      if !Allowed(tables, who, now) || who.actor !in tables.runtimes { return false; }
      if tables.runtimes[who.actor].agent != agent { return false; }
      hide Allowed;
      var row := tables.runtimes[who.actor];
      if !row.active { return true; }
      if row.credential in tables.credentials && tables.credentials[row.credential].status == Active {
        var revoked := CredentialTables.Revoke(tables, row.credential, now);
        if revoked.None? { return false; }
        tables := revoked.value;
      }
      tables := tables.(runtimes := tables.runtimes[who.actor := row.(active := false)]);
      return true;
    }
  }
}

/**
 The authentication tables of one tenant, the constraints and triggers the migrations put on
 them, and the event log that runs beside them.

 A transaction is a function from tables to optional tables: `None` means that a statement or
 a check raised and everything was rolled back.
 */
module CredentialTables {
  import opened Options
  import opened Identifiers

  type ActorId = string
  type ClientId = string
  type Capability = string

  datatype ActorType = Human | Agent | RiskOperator | OperationsOperator | Auditor | SystemWorker
  datatype Role =
    | HumanBorrower | PrincipalController | CapitalPartnerOperator | AgentRuntime
    | RiskRole | OperationsRole | AuditorRole | SystemRole
  datatype Status = Active | Suspended | Expired | Revoked
  datatype KeyVersion = V1 | V2
  datatype ClientMethod = Siwe | PrivateKeyJwt | MutualTls
  datatype SenderMethod = HostSession | Dpop | MutualTlsSender

  /** A keyed reference hash, injective in the key version and in what it is taken over. */
  datatype Hash =
    | SubjectHash(key: KeyVersion, issuer: string, subject: string)
    | InvitationHash(key: KeyVersion, invitation: string)
    | SenderHash(key: KeyVersion, thumbprint: Thumbprint)

  /** What a sender constraint is bound to: a key, or the host session of an actor. */
  datatype Thumbprint = KeyThumbprint(text: string) | SessionThumbprint(actor: ActorId, issuer: string)

  /** Ids made by `createOperationalId` never repeat; a few credentials have a reviewed id. */
  datatype CredentialId = Generated(n: nat) | Durable(name: string)

  datatype Actor = Actor(actorType: ActorType, active: bool)

  datatype Membership = Membership(
    role: Role, capabilities: seq<Capability>, clientIds: seq<ClientId>, policy: string,
    controller: Option<ActorId>, status: Status, validFrom: int, expiresAt: Option<int>, version: nat)

  datatype Credential = Credential(
    actor: ActorId, actorType: ActorType, issuer: string, subject: Hash, clientId: ClientId,
    clientMethod: ClientMethod, senderMethod: SenderMethod, sender: Hash,
    roles: seq<Role>, capabilities: seq<Capability>, policy: string,
    status: Status, version: nat, expiresAt: Option<int>, createdAt: int, updatedAt: int, keyVersion: KeyVersion)

  datatype Enrollment = Enrollment(
    actor: ActorId, capabilities: seq<Capability>, clientIds: seq<ClientId>, policy: string,
    status: Status, validFrom: int, expiresAt: Option<int>, version: nat)

  datatype Session = Session(credential: CredentialId, active: bool)

  /** An Agent a principal set up for itself. */
  datatype Runtime = Runtime(agent: ActorId, credential: CredentialId, clientId: ClientId, active: bool)

  datatype Tenant = Tenant(active: bool, organization: string, name: string, jurisdiction: string, retention: string)

  datatype EventKind = CredentialRegistered | CredentialRevoked | ReferenceRebound

  datatype Event = Event(kind: EventKind, credential: CredentialId, invitation: Option<Hash>)

  /** One tenant's rows. A tenant has at most one membership per actor, and at most one
      enrollment per credential and role. */
  datatype Tables = Tables(
    tenant: Option<Tenant>,
    actors: map<ActorId, Actor>,
    memberships: map<ActorId, Membership>,
    credentials: map<CredentialId, Credential>,
    enrollments: map<(CredentialId, Role), Enrollment>,
    sessions: map<string, Session>,
    runtimes: map<ActorId, Runtime>,
    partners: set<ActorId>,
    events: seq<Event>,
    nextId: nat)

  const CLIENT: string := "client_"

  const Empty: Tables := Tables(None, map[], map[], map[], map[], map[], map[], {}, [], 0)

  predicate Unexpired(at: Option<int>, now: int) {
    at.Some? ==> at.value > now
  }

  predicate Valid(m: Membership, now: int) {
    m.status == Active && m.validFrom <= now && Unexpired(m.expiresAt, now)
  }

  predicate ActorActive(t: Tables, a: ActorId) {
    a in t.actors && t.actors[a].active
  }

  /** The membership constraints on a controller: not oneself, and already a member. The
      foreign key is checked by the insert itself, not at commit. */
  predicate ControllerKnown(t: Tables, actor: ActorId, controller: Option<ActorId>) {
    controller.Some? ==> controller.value != actor && controller.value in t.memberships
  }

  // ---------------------------------------------------------------------------------------
  // Column checks. They are applied to a proposed row before any conflict is looked for.

  predicate MembershipRow(m: Membership) {
    |m.clientIds| <= 16 && 1 <= |m.policy| <= 128 && Unexpired(m.expiresAt, m.validFrom)
  }

  predicate CredentialRow(c: Credential) {
    && Origin(c.issuer) && SafeId(c.clientId) && SafeId(c.policy)
    && |c.roles| <= 16 && Distinct(c.roles) && StringList(c.capabilities, 64)
    && (if c.actorType in {Human, RiskOperator, OperationsOperator, Auditor}
        then c.clientMethod == Siwe && c.senderMethod == HostSession
        else c.clientMethod != Siwe && c.senderMethod != HostSession)
  }

  predicate EnrollmentRow(role: Role, e: Enrollment) {
    && role in {HumanBorrower, PrincipalController, CapitalPartnerOperator, RiskRole, OperationsRole, AuditorRole}
    && StringList(e.capabilities, 64) && StringList(e.clientIds, 16) && SafeId(e.policy)
    && Unexpired(e.expiresAt, e.validFrom)
  }

  // ---------------------------------------------------------------------------------------
  // Writes to the credential table, each with its event

  /** Column checks, key, foreign keys, unique subject binding, and the insert trigger. */
  predicate CanInsert(t: Tables, id: CredentialId, c: Credential) {
    && CredentialRow(c)
    && id !in t.credentials
    && c.actor in t.memberships
    && ActorActive(t, c.actor) && t.actors[c.actor].actorType == c.actorType
    && c.status == Active && c.version == 1
    && Unexpired(c.expiresAt, c.createdAt)
    && forall x :: x in t.credentials ==> !SameBinding(t.credentials[x], c)
  }

  predicate SameBinding(c: Credential, d: Credential) {
    c.issuer == d.issuer && c.clientId == d.clientId && c.subject == d.subject
  }

  /** The unique constraint on subject bindings. */
  ghost predicate UniqueBindings(t: Tables) {
    forall x, y :: x in t.credentials && y in t.credentials && x != y ==>
        !SameBinding(t.credentials[x], t.credentials[y])
  }

  function FreshId(t: Tables): CredentialId {
    Generated(t.nextId)
  }

  /** INSERT of a credential and of its registration event. */
  function Register(t: Tables, id: CredentialId, c: Credential, invitation: Option<Hash>): Option<Tables> {
    if !CanInsert(t, id, c) then None
    else Some(t.(credentials := t.credentials[id := c],
                 events := t.events + [Event(CredentialRegistered, id, invitation)],
                 nextId := if id == FreshId(t) then t.nextId + 1 else t.nextId))
  }

  /** The update trigger's view of a revocation. */
  predicate CanRevoke(t: Tables, id: CredentialId, now: int) {
    && id in t.credentials && t.credentials[id].status in {Active, Suspended}
    && t.credentials[id].updatedAt <= now
  }

  /** UPDATE ... SET status = 'revoked' and its event. */
  function Revoke(t: Tables, id: CredentialId, now: int): Option<Tables> {
    if !CanRevoke(t, id, now) then None
    else Some(t.(credentials := t.credentials[id := t.credentials[id].(status := Revoked, updatedAt := now)],
                 events := t.events + [Event(CredentialRevoked, id, None)]))
  }

  /** Revoke a list of credentials one after another. */
  function RevokeEach(t: Tables, ids: seq<CredentialId>, now: int): Option<Tables>
    decreases |ids|
  {
    if ids == [] then Some(t)
    else
      var t1 :- Revoke(t, ids[0], now);
      RevokeEach(t1, ids[1..], now)
  }

  // ---------------------------------------------------------------------------------------
  // The event log as a second account of the credential table

  /** A credential's status as the log tells it. */
  function LoggedStatus(events: seq<Event>, id: CredentialId): Option<Status> {
    if events == [] then None
    else
      var e := events[|events| - 1];
      if e.credential == id && e.kind == CredentialRegistered then Some(Active)
      else if e.credential == id && e.kind == CredentialRevoked then Some(Revoked)
      else LoggedStatus(events[..|events| - 1], id)
  }

  function Registrations(events: seq<Event>, id: CredentialId): nat {
    if events == [] then 0
    else
      var e := events[|events| - 1];
      Registrations(events[..|events| - 1], id) + if e.credential == id && e.kind == CredentialRegistered then 1 else 0
  }

  /** The log and the table agree: every credential has one registration on record and the
      status the log gives it, nothing else is on record, and only registrations name an
      invitation. */
  ghost predicate LogAgrees(t: Tables) {
    && (forall id :: id in t.credentials ==>
          LoggedStatus(t.events, id) == Some(t.credentials[id].status) && Registrations(t.events, id) == 1)
    && (forall id :: id !in t.credentials ==> LoggedStatus(t.events, id) == None && Registrations(t.events, id) == 0)
    && (forall n :: n >= t.nextId ==> Generated(n) !in t.credentials)
    && (forall i :: 0 <= i < |t.events| && t.events[i].kind != CredentialRegistered ==> t.events[i].invitation.None?)
  }

  /** What no transaction may undo: credentials stay, their bindings and grants are immutable,
      a revoked one stays revoked, runtimes and actors stay, and the log only grows. */
  ghost predicate Preserves(t: Tables, u: Tables) {
    && t.nextId <= u.nextId && RuntimesKept(t, u)
    && |t.events| <= |u.events| && u.events[..|t.events|] == t.events
    && forall id :: id in t.credentials ==>
         id in u.credentials && SameGrant(t.credentials[id], u.credentials[id]) &&
         (t.credentials[id].status == Revoked ==> u.credentials[id].status == Revoked)
  }

  predicate SameGrant(c: Credential, d: Credential) {
    d == c.(status := d.status, updatedAt := d.updatedAt)
  }

  /** Each runtime has an Agent of its own, registered as an actor. */
  ghost predicate RuntimesOk(t: Tables) {
    && (forall k :: k in t.runtimes ==>
          t.runtimes[k].clientId == CLIENT + t.runtimes[k].agent && t.runtimes[k].agent in t.actors &&
          t.runtimes[k].credential in t.credentials &&
              t.credentials[t.runtimes[k].credential].actor == t.runtimes[k].agent)
    && (forall k, l :: k in t.runtimes && l in t.runtimes && t.runtimes[k].agent == t.runtimes[l].agent ==> k == l)
  }

  /** Runtimes are never dropped, never change hands and never come back; actors stay. */
  ghost predicate RuntimesKept(t: Tables, u: Tables) {
    && t.actors.Keys <= u.actors.Keys
    && forall k :: k in t.runtimes ==>
         k in u.runtimes && u.runtimes[k] == t.runtimes[k].(active := u.runtimes[k].active) &&
         (u.runtimes[k].active ==> t.runtimes[k].active)
  }

  /** A transaction step that keeps the account straight. */
  ghost predicate Sound(t: Tables, u: Tables) {
    LogAgrees(t) ==> LogAgrees(u) && Preserves(t, u) && (RuntimesOk(t) ==> RuntimesOk(u))
  }

  lemma SoundTrans(t: Tables, u: Tables, v: Tables)
    requires Sound(t, u) && Sound(u, v)
    ensures Sound(t, v)
  {
    if LogAgrees(t) {
      assert v.events[..|t.events|] == v.events[..|u.events|][..|t.events|];
    }
  }

  lemma FreshUnused(t: Tables)
    requires LogAgrees(t)
    ensures FreshId(t) !in t.credentials
  {
  }

  lemma SoundAgrees(t: Tables, u: Tables)
    requires LogAgrees(t) && Sound(t, u)
    ensures LogAgrees(u)
  {
  }

  lemma LogAppend(events: seq<Event>, e: Event, id: CredentialId)
    ensures LoggedStatus(events + [e], id) ==
              if e.credential == id && e.kind == CredentialRegistered then Some(Active)
              else if e.credential == id && e.kind == CredentialRevoked then Some(Revoked)
              else LoggedStatus(events, id)
    ensures Registrations(events + [e], id) ==
              Registrations(events, id) + if e.credential == id && e.kind == CredentialRegistered then 1 else 0
  {
    assert (events + [e])[..|events|] == events;
  }

  /** The event a reference rebinding adds says nothing about a status. */
  function NoteRebound(t: Tables, id: CredentialId): Tables {
    t.(events := t.events + [Event(ReferenceRebound, id, None)])
  }

  lemma NoteReboundSound(t: Tables, id: CredentialId)
    ensures Sound(t, NoteRebound(t, id))
  {
    var u := NoteRebound(t, id);
    assert u.events[..|t.events|] == t.events;
    if LogAgrees(t) {
      forall x ensures LoggedStatus(u.events, x) == LoggedStatus(t.events, x) &&
          Registrations(u.events, x) == Registrations(t.events, x) {
        LogAppend(t.events, Event(ReferenceRebound, id, None), x);
      }
    }
  }

  predicate SameLog(t: Tables, u: Tables) {
    t.credentials == u.credentials && t.events == u.events && t.nextId == u.nextId
  }

  /** Statements that leave credentials, log, id supply and runtimes alone. */
  predicate SameAccount(t: Tables, u: Tables) {
    SameLog(t, u) && t.runtimes == u.runtimes && t.actors.Keys <= u.actors.Keys
  }

  /** A last statement that changes runtimes only, as long as they are kept. */
  lemma SameLogSound(t: Tables, u: Tables, v: Tables)
    requires Sound(t, u) && SameLog(u, v) && RuntimesKept(t, v)
    requires RuntimesOk(t) ==> RuntimesOk(v)
    ensures Sound(t, v)
  {
  }

  lemma SameAccountSound(t: Tables, u: Tables)
    requires SameAccount(t, u)
    ensures Sound(t, u)
  {
    assert u.events[..|t.events|] == t.events;
  }

  /** Statements that leave runtimes alone and no credential without its actor. */
  lemma SameRuntimes(t: Tables, u: Tables)
    requires u.runtimes == t.runtimes && u.actors == t.actors
    requires forall x :: x in t.credentials ==> x in u.credentials && u.credentials[x].actor == t.credentials[x].actor
    ensures RuntimesKept(t, u) && (RuntimesOk(t) ==> RuntimesOk(u))
  {
  }

  /** A new event for `id` and the row it reports keep the log in agreement. */
  lemma AppendAgrees(t: Tables, u: Tables, e: Event)
    requires LogAgrees(t) && u.events == t.events + [e] && t.nextId <= u.nextId
    requires e.kind != CredentialRegistered ==> e.invitation.None?
    requires forall x :: x in u.credentials <==> x in t.credentials || x == e.credential
    requires forall x :: x in t.credentials && x != e.credential ==> u.credentials[x] == t.credentials[x]
    requires e.credential in u.credentials
    requires e.kind == CredentialRegistered || e.kind == CredentialRevoked
    requires e.credential in t.credentials <==> e.kind == CredentialRevoked
    requires u.credentials[e.credential].status == if e.kind == CredentialRevoked then Revoked else Active
    requires forall n :: n >= u.nextId ==> Generated(n) !in u.credentials
    ensures LogAgrees(u)
  {
    forall x
      ensures LoggedStatus(u.events, x) == if x in u.credentials then Some(u.credentials[x].status) else None
      ensures Registrations(u.events, x) == if x in u.credentials then 1 else 0
    {
      LogAppend(t.events, e, x);
    }
  }

  lemma RegisterSound(t: Tables, id: CredentialId, c: Credential, invitation: Option<Hash>)
    requires Register(t, id, c, invitation).Some?
    requires id.Generated? ==> id == FreshId(t)
    ensures Sound(t, Register(t, id, c, invitation).value)
  {
    hide LoggedStatus, Registrations, SameBinding, RuntimesOk, RuntimesKept;
    var u := Register(t, id, c, invitation).value;
    assert u.events[..|t.events|] == t.events;
    SameRuntimes(t, u);
    if LogAgrees(t) {
      AppendAgrees(t, u, Event(CredentialRegistered, id, invitation));
    }
  }

  lemma RevokeSound(t: Tables, id: CredentialId, now: int)
    requires Revoke(t, id, now).Some?
    ensures Sound(t, Revoke(t, id, now).value)
  {
    hide LoggedStatus, Registrations, RuntimesOk, RuntimesKept;
    var u := Revoke(t, id, now).value;
    assert u.events[..|t.events|] == t.events;
    SameRuntimes(t, u);
    if LogAgrees(t) {
      AppendAgrees(t, u, Event(CredentialRevoked, id, None));
    }
  }

  lemma {:induction false} RevokeEachSound(t: Tables, ids: seq<CredentialId>, now: int)
    requires RevokeEach(t, ids, now).Some?
    ensures Sound(t, RevokeEach(t, ids, now).value)
    decreases |ids|
  {
    if ids == [] {
      SameAccountSound(t, t);
    } else {
      RevokeSound(t, ids[0], now);
      var t1 := Revoke(t, ids[0], now).value;
      RevokeEachSound(t1, ids[1..], now);
      SoundTrans(t, t1, RevokeEach(t, ids, now).value);
    }
  }

  lemma EmptyAgrees()
    ensures LogAgrees(Empty)
  {
  }
}

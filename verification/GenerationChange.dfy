/**
 The life of one local identity: seeded into a deployment by a startup of an older client
 generation, rotated, and seeded again by every later startup.
 */
module GenerationChange {
  import opened Options
  import opened Identifiers
  import opened CredentialTables
  import opened LocalAccess
  import opened AccessGenerations

  /** The identity as an older startup configured it. */
  function Earlier(who: Identity, from: ClientId, capabilities: seq<Capability>): Identity {
    who.(clientId := from, capabilities := capabilities)
  }

  /** An identity of the new generation, what it extends, its binding, and the client and
      capabilities an older startup configured it with. */
  datatype Entrant = Entrant(who: Identity, template: seq<Capability>, b: Binding, from: ClientId,
                             capabilities: seq<Capability>)

  function Prior(e: Entrant): Identity {
    Earlier(e.who, e.from, e.capabilities)
  }

  function SeatOf(e: Entrant, id: CredentialId): Seat {
    Seat(e.who, e.template, e.b, e.from, id, [id])
  }

  /** A wallet identity of the new generation without a controller, and its binding. */
  predicate Wallet(who: Identity, template: seq<Capability>, b: Binding) {
    NewGeneration(who, template) && who.controller == None && b.clientMethod == Siwe && b.senderMethod == HostSession
  }

  /** Nobody knows the actor yet, and its host has neither its rows nor its clients. */
  ghost predicate Newcomer(t: Tables, who: Identity, issuer: string) {
    && who.actor !in t.actors && who.actor !in t.memberships
    && forall x :: x in t.credentials && t.credentials[x].issuer == issuer ==>
         t.credentials[x].actor != who.actor && t.credentials[x].clientId != who.clientId &&
         !OlderClient(t.credentials[x].clientId, who.actor)
  }

  /** The rows of a first seeding pass their column checks. */
  predicate Insertable(prior: Identity, b: Binding, at: int) {
    var c := SeededCredential(prior, b, at);
    at < b.expiresAt && CredentialRow(c) && EnrollmentRow(prior.role, SeededEnrollment(prior, c))
  }

  /** An active tenant whose local system actor has been seeded. */
  predicate Deployed(t: Tables) {
    t.tenant.Some? && t.tenant.value.active && CanLog(t)
  }

  /** An older startup that seeds the identity into tables that do not know it. */
  ghost predicate OlderStartup(t: Tables, e: Entrant, at: int)
  {
    && TableOk(t) && Deployed(t) && Newcomer(t, e.who, e.b.issuer) && Wallet(e.who, e.template, e.b)
    && OlderClient(e.from, e.who.actor) && Granted(e.capabilities, e.template)
    && Insertable(Prior(e), e.b, at)
  }

  // ---------------------------------------------------------------------------------------
  // What the older startup leaves

  function Introduced(t: Tables, prior: Identity, at: int): Tables {
    t.(actors := t.actors[prior.actor := Actor(prior.actorType, true)],
       memberships := t.memberships[prior.actor :=
         Membership(prior.role, prior.capabilities, [prior.clientId], POLICY, None, Active, at, None, 1)])
  }

  function Registered(t: Tables, prior: Identity, b: Binding, at: int): Tables {
    Introduced(t, prior, at).(
      credentials := t.credentials[FreshId(t) := SeededCredential(prior, b, at)],
      events := t.events + [Event(CredentialRegistered, FreshId(t), Some(InvitationHash(V1, b.invitation)))],
      nextId := t.nextId + 1)
  }

  function Seeded(t: Tables, prior: Identity, b: Binding, at: int): Tables {
    Registered(t, prior, b, at).(
      enrollments := t.enrollments[(FreshId(t), prior.role) := SeededEnrollment(prior, SeededCredential(prior, b, at))])
  }

  lemma NobodyThere(t: Tables, who: Identity, b: Binding, from: ClientId, prior: Identity)
    requires Newcomer(t, who, b.issuer) && OlderClient(from, who.actor) && prior.actor == who.actor &&
             prior.clientId == from
    ensures forall x ::
              !Existing(t, prior, b, x) && !Historical(t, prior, b.issuer, x) && !Retired(t, prior, b.issuer, x)
  {
  }

  lemma RegistersNewcomer(t: Tables, e: Entrant, at: int)
    requires OlderStartup(t, e, at)
    ensures var prior := Prior(e);
            && FreshId(t) !in t.credentials
            && Register(Introduced(t, prior, at), FreshId(t), SeededCredential(prior, e.b, at),
                        Some(InvitationHash(V1, e.b.invitation)))
                 == Some(Registered(t, prior, e.b, at))
  {
    hide LogAgrees, UniqueBindings, RowsOk, EnrollmentRow, Granted, NewGeneration, CredentialRow, Extended;
    FreshUnused(t);
    var prior := Prior(e);
    var c := SeededCredential(prior, e.b, at);
    forall x | x in t.credentials ensures !SameBinding(t.credentials[x], c) {
    }
    assert CanInsert(Introduced(t, prior, at), FreshId(t), c);
  }

  /** The insert of the newcomer's credential, event and enrollment. */
  lemma InsertsNewcomer(t: Tables, e: Entrant, at: int)
    requires OlderStartup(t, e, at)
    ensures InsertSeeded(Introduced(t, Prior(e), at), Prior(e), e.b, at) == Some(Seeded(t, Prior(e), e.b, at))
  {
    var prior, id := Prior(e), FreshId(t);
    RegistersNewcomer(t, e, at);
    assert prior.durable == None && Enrollable(prior) && CanLog(Introduced(t, prior, at));
    assert EnrollmentRow(prior.role, SeededEnrollment(prior, SeededCredential(prior, e.b, at)));
    assert forall k :: k in t.enrollments ==> k.0 in t.credentials;
    hide OlderStartup, CredentialRow, EnrollmentRow, Register, CanLog;
    assert (id, prior.role) !in t.enrollments by {
      assert (id, prior.role).0 == id;
    }
  }

  lemma IntroducesNewcomer(t: Tables, e: Entrant, at: int)
    requires OlderStartup(t, e, at)
    ensures SeedIdentity(t, Prior(e), at) == Some(Introduced(t, Prior(e), at))
    ensures MayHold(Introduced(t, Prior(e), at), e.who.actor, at)
  {
    hide TableOk, CredentialRow, EnrollmentRow, Granted, OlderClient;
  }

  /** The older startup commits, and these are its tables. */
  lemma FirstSeeding(t: Tables, e: Entrant, at: int)
    requires OlderStartup(t, e, at)
    ensures var prior := Prior(e);
            && SeedIdentity(t, prior, at) == Some(Introduced(t, prior, at))
            && ListsRetired(Introduced(t, prior, at), prior, e.b.issuer, [])
            && SeedCredential(Introduced(t, prior, at), prior, e.b, [], at) == Some(Seeded(t, prior, e.b, at))
  {
    var prior := Prior(e);
    var u := Introduced(t, prior, at);
    IntroducesNewcomer(t, e, at);
    InsertsNewcomer(t, e, at);
    NobodyThere(t, e.who, e.b, e.from, prior);
    SameRows(t, u, prior, e.b);
    hide OlderStartup, SeedIdentity, InsertSeeded, Introduced, Seeded, Existing, Historical, Retired, MayHold, CanLog;
    assert RevokeEach(u, [], at) == Some(u);
  }

  lemma SameRows(t: Tables, u: Tables, prior: Identity, b: Binding)
    requires t.credentials == u.credentials
    ensures forall x ::
              && Existing(u, prior, b, x) == Existing(t, prior, b, x)
              && Historical(u, prior, b.issuer, x) == Historical(t, prior, b.issuer, x)
              && Retired(u, prior, b.issuer, x) == Retired(t, prior, b.issuer, x)
  {
  }

  // ---------------------------------------------------------------------------------------
  // It is what rotation starts from

  lemma SeededAgrees(t: Tables, e: Entrant, at: int)
    requires OlderStartup(t, e, at)
    ensures LogAgrees(Seeded(t, Prior(e), e.b, at))
  {
    var prior := Prior(e);
    FirstSeeding(t, e, at);
    assert LogAgrees(t);
    SeedIdentitySound(t, prior, at);
    var u := Introduced(t, prior, at);
    SeedCredentialSound(u, prior, e.b, [], at);
    hide *;
    SoundAgrees(t, u);
    SoundAgrees(u, Seeded(t, prior, e.b, at));
  }

  lemma PolicyFits()
    ensures |POLICY| == 15
  {
  }

  lemma SeededRowsOk(t: Tables, e: Entrant, at: int)
    requires OlderStartup(t, e, at)
    ensures RowsOk(Seeded(t, Prior(e), e.b, at))
  {
    PolicyFits();
    hide LogAgrees, UniqueBindings, CredentialRow, EnrollmentRow, POLICY, Newcomer, OlderClient, Granted, NewGeneration;
    var u := Seeded(t, Prior(e), e.b, at);
    assert forall x :: x in u.credentials ==> CredentialRow(u.credentials[x]);
    assert forall k :: k in u.enrollments ==> EnrollmentRow(k.1, u.enrollments[k]);
  }

  lemma SeededUnique(t: Tables, e: Entrant, at: int)
    requires OlderStartup(t, e, at)
    ensures UniqueBindings(Seeded(t, Prior(e), e.b, at))
  {
    RegistersNewcomer(t, e, at);
    assert UniqueBindings(t);
    hide LogAgrees, RowsOk, CredentialRow, EnrollmentRow, OlderClient, Granted, NewGeneration;
  }

  /** Keys and foreign keys of the new rows. */
  lemma SeededKeys(t: Tables, e: Entrant, at: int)
    requires OlderStartup(t, e, at)
    ensures var u := Seeded(t, Prior(e), e.b, at);
            && (forall k :: k in u.enrollments ==> k.0 in u.credentials)
            && (forall x :: x in u.credentials ==>
                  u.credentials[x].actor in u.memberships && u.credentials[x].actor in u.actors &&
                  u.actors[u.credentials[x].actor].actorType == u.credentials[x].actorType)
  {
    hide LogAgrees, UniqueBindings, RowsOk, Wallet, OlderClient, Granted, Insertable, Deployed;
    var u, prior := Seeded(t, Prior(e), e.b, at), Prior(e);
    assert u.credentials == t.credentials[FreshId(t) := SeededCredential(prior, e.b, at)];
  }

  lemma SeededTableOk(t: Tables, e: Entrant, at: int)
    requires OlderStartup(t, e, at)
    ensures TableOk(Seeded(t, Prior(e), e.b, at))
  {
    hide LogAgrees, UniqueBindings, RowsOk, Seeded, OlderStartup;
    SeededAgrees(t, e, at);
    SeededRowsOk(t, e, at);
    SeededUnique(t, e, at);
    SeededKeys(t, e, at);
  }

  lemma EnrolledOnce(t: Tables, prior: Identity, b: Binding, at: int)
    requires FreshId(t) !in t.credentials && forall k :: k in t.enrollments ==> k.0 in t.credentials
    ensures forall role :: (FreshId(t), role) in Seeded(t, prior, b, at).enrollments <==> role == prior.role
  {
    assert forall role: Role :: (FreshId(t), role).0 == FreshId(t);
  }

  lemma SeededIsLive(t: Tables, prior: Identity, b: Binding, at: int, now: int)
    requires FreshId(t) !in t.credentials && forall k :: k in t.enrollments ==> k.0 in t.credentials
    requires prior.role in {HumanBorrower, PrincipalController} && at <= now < b.expiresAt
    ensures var u, id := Seeded(t, prior, b, at), FreshId(t);
            && Movable(u, id, b.issuer, now) && Rotatable(u, id, now)
            && (forall role :: (id, role) in u.enrollments <==> role == prior.role)
  {
    EnrolledOnce(t, prior, b, at);
    assert (FreshId(t), prior.role) in Seeded(t, prior, b, at).enrollments;
  }

  /** At its host, only the seeded row is of an older client of the identity. */
  ghost predicate OnlyOlder(t: Tables, actor: ActorId, issuer: string, id: CredentialId) {
    forall x :: x in t.credentials && t.credentials[x].issuer == issuer ==>
      OlderClient(t.credentials[x].clientId, actor) ==> x == id
  }

  lemma SeededOnlyOlder(t: Tables, e: Entrant, at: int)
    requires OlderStartup(t, e, at)
    ensures OnlyOlder(Seeded(t, Prior(e), e.b, at), e.who.actor, e.b.issuer, FreshId(t))
  {
    hide TableOk, Wallet, Insertable, OlderClient, Granted, Deployed, SeededEnrollment;
  }

  lemma SeededChosen(t: Tables, e: Entrant, at: int, now: int)
    requires OlderStartup(t, e, at) && at <= now < e.b.expiresAt
    ensures Selected(Seeded(t, Prior(e), e.b, at), e.who.actor, e.b.issuer, FreshId(t), now)
  {
    hide TableOk, Insertable, OlderClient, Granted, SeededEnrollment;
  }

  /** The seeded row is the one rotation selects, alone, and its enrollments are live. */
  lemma SelectsSeeded(t: Tables, e: Entrant, at: int, now: int)
    requires OlderStartup(t, e, at) && at <= now < e.b.expiresAt
    ensures var u, id := Seeded(t, Prior(e), e.b, at), FreshId(t);
            && id !in t.credentials
            && ListsSelected(u, e.who.actor, e.b.issuer, [id], now) && Movable(u, id, e.b.issuer, now)
            && Rotatable(u, id, now) && ToMove(u, [id], now) == {id}
            && (forall role :: (id, role) in u.enrollments <==> role == e.who.role)
  {
    hide OlderStartup, OlderClient, Rotatable, Movable, Seeded;
    SeededRole(t, e, at);
    RegistersNewcomer(t, e, at);
    SeededIsLive(t, Prior(e), e.b, at, now);
    SeededOnlyOlder(t, e, at);
    SeededChosen(t, e, at, now);
  }

  lemma SeededRole(t: Tables, e: Entrant, at: int)
    requires OlderStartup(t, e, at)
    ensures e.who.role in {HumanBorrower, PrincipalController}
    ensures forall k :: k in t.enrollments ==> k.0 in t.credentials
  {
    hide LogAgrees, UniqueBindings, RowsOk, Insertable, OlderClient, Granted;
  }

  lemma FitsExactly(t: Tables, e: Entrant, at: int)
    requires OlderStartup(t, e, at)
    requires forall role :: (FreshId(t), role) in Seeded(t, Prior(e), e.b, at).enrollments <==>
               role == e.who.role
    ensures Fits(Seeded(t, Prior(e), e.b, at), FreshId(t), e.who.clientId) <==>
              ListItem(e.who.clientId) && |Extended(e.template)| <= 64
  {
    GrantedExtends(e.capabilities, e.template);
    hide TableOk, CredentialRow, EnrollmentRow, OlderClient, Granted, Extended, ListItem;
  }

  lemma SeededCanMove(t: Tables, e: Entrant, at: int, now: int)
    requires OlderStartup(t, e, at) && at <= now < e.b.expiresAt
    requires ListItem(e.who.clientId) && |Extended(e.template)| <= 64
    ensures CanMove(Seeded(t, Prior(e), e.b, at), e.b.issuer, e.who.clientId, [FreshId(t)], now)
  {
    var u, id := Seeded(t, Prior(e), e.b, at), FreshId(t);
    SelectsSeeded(t, e, at, now);
    SeededTableOk(t, e, at);
    FitsExactly(t, e, at);
    NewClientUnused(t, e, at);
    hide OlderStartup, TableOk, Fits, Rotatable, Movable, Seeded, ListsSelected, ToMove, Extended, ListItem, FreshId,
         Earlier;
    OnlyOneMoves(u, e.b.issuer, e.who.clientId, id, now);
  }

  lemma OnlyOneMoves(u: Tables, issuer: string, to: ClientId, id: CredentialId, now: int)
    requires TableOk(u) && Movable(u, id, issuer, now) && Fits(u, id, to)
    requires forall x :: x in u.credentials && u.credentials[x].issuer == issuer ==> u.credentials[x].clientId != to
    ensures CanMove(u, issuer, to, [id], now)
  {
    hide TableOk, Movable, Fits, Rotatable;
  }

  lemma NewClientUnused(t: Tables, e: Entrant, at: int)
    requires OlderStartup(t, e, at)
    ensures var u := Seeded(t, Prior(e), e.b, at);
            forall x :: x in u.credentials && u.credentials[x].issuer == e.b.issuer ==>
                u.credentials[x].clientId != e.who.clientId
  {
    NewClientNotOlder(e.who.actor);
    hide TableOk, OlderClient, Granted, Extended, CredentialRow, EnrollmentRow;
  }

  lemma SeededIsBefore(t: Tables, e: Entrant, at: int, now: int)
    requires OlderStartup(t, e, at) && FreshId(t) !in t.credentials
    ensures SeededBefore(Seeded(t, Prior(e), e.b, at), e.who, e.template, e.b, e.from, FreshId(t),
                         {FreshId(t)}, now)
  {
    hide TableOk, OlderClient, Granted, Extended, CredentialRow, EnrollmentRow;
    var u, id := Seeded(t, Prior(e), e.b, at), FreshId(t);
    assert MemberSince(u, e.who, e.template, e.from, now);
    assert SeededRow(u.credentials[id], e.who, e.template, e.b, e.from);
  }

  lemma SeededReady(t: Tables, e: Entrant, at: int, now: int)
    requires OlderStartup(t, e, at) && at <= now < e.b.expiresAt
    requires ListItem(e.who.clientId) && |Extended(e.template)| <= 64
    ensures var u, id := Seeded(t, Prior(e), e.b, at), FreshId(t);
            Ready(u, SeatOf(e, id), now)
  {
    assert NewGeneration(e.who, e.template);
    hide OlderStartup, CanMove, SeededBefore, ListsSelected, Movable, Rotatable, Seeded, ToMove, NewGeneration,
         Extended, ListItem;
    SelectsSeeded(t, e, at, now);
    SeededCanMove(t, e, at, now);
    SeededIsBefore(t, e, at, now);
  }

  /** A change of generation from start to finish, in tables that did not know the identity:
      the older startup seeds it; rotation then commits exactly when the new client id and the
      extended template fit their columns. If it does, the seeded credential is revoked, one
      credential is there for the identity to find, and every later startup, with any clock,
      leaves the tables as they are. */
  lemma ChangeOfGeneration(t: Tables, e: Entrant, at: int, now: int, retired: seq<CredentialId>, later: int)
    requires OlderStartup(t, e, at) && at <= now < e.b.expiresAt
    ensures var prior, id := Prior(e), FreshId(t);
            var t1 := SeedIdentity(t, prior, at);
            && t1.Some? && ListsRetired(t1.value, prior, e.b.issuer, [])
            && var t2 := SeedCredential(t1.value, prior, e.b, [], at);
            && t2.Some? && ListsSelected(t2.value, e.who.actor, e.b.issuer, [id], now)
            && var r := Rotate(t2.value, e.who.actor, e.b.issuer, [id], now);
            && (r.Some? <==> ListItem(e.who.clientId) && |Extended(e.template)| <= 64)
            && (r.Some? ==>
                  && id in r.value.credentials && r.value.credentials[id].status == Revoked
                  && (exists x :: Existing(r.value, e.who, e.b, x))
                  && (forall x, y :: Existing(r.value, e.who, e.b, x) && Existing(r.value, e.who, e.b, y) ==> x == y)
                  && SeedIdentity(r.value, e.who, later) == Some(r.value)
                  && (ListsRetired(r.value, e.who, e.b.issuer, retired) ==>
                        SeedCredential(r.value, e.who, e.b, retired, later) == Some(r.value)))
  {
    FirstSeeding(t, e, at);
    SelectsSeeded(t, e, at, now);
    var u, id := Seeded(t, Prior(e), e.b, at), FreshId(t);
    if ListItem(e.who.clientId) && |Extended(e.template)| <= 64 {
      SeededReady(t, e, at, now);
      Afterwards(u, SeatOf(e, id), now, retired, later);
    } else {
      SeededAgrees(t, e, at);
      FitsExactly(t, e, at);
      BlockedFails(u, u.memberships, [id], e.who.clientId, now, id);
    }
  }

  /** Rotation of a ready identity, and every startup after it. */
  lemma Afterwards(t: Tables, s: Seat, now: int, retired: seq<CredentialId>, later: int)
    requires Ready(t, s, now)
    ensures var r := RotateRows(t, t.memberships, s.ids, s.who.clientId, now);
            && r.Some? && s.id in r.value.credentials && r.value.credentials[s.id].status == Revoked
            && (exists x :: Existing(r.value, s.who, s.b, x))
            && (forall x, y :: Existing(r.value, s.who, s.b, x) && Existing(r.value, s.who, s.b, y) ==> x == y)
            && SeedIdentity(r.value, s.who, later) == Some(r.value)
            && (ListsRetired(r.value, s.who, s.b.issuer, retired) ==>
                  SeedCredential(r.value, s.who, s.b, retired, later) == Some(r.value))
  {
    RotationSettles(t, s.who, s.template, s.b, s.from, s.id, s.ids, now);
    var u := RotateRows(t, t.memberships, s.ids, s.who.clientId, now).value;
    assert CurrentMember(u, s.who) && exists x :: Existing(u, s.who, s.b, x);
    CurrentMemberFixed(u, s.who, later);
    hide Ready, Settled, RotateRows, ListsRetired, SeedCredential, SeedIdentity, Existing;
    if ListsRetired(u, s.who, s.b.issuer, retired) { SettledIsFixed(u, s.who, s.b, retired, later); }
  }

  // ---------------------------------------------------------------------------------------
  // Two identities of one deployment

  /** Different actors on different hosts. */
  predicate Neighbours(e: Entrant, f: Entrant) {
    e.who.actor != f.who.actor && e.b.issuer != f.b.issuer
  }

  lemma Symmetric(e: Entrant, f: Entrant)
    requires Neighbours(e, f)
    ensures Neighbours(f, e)
  {
  }

  lemma EnrollmentsElsewhere(t: Tables, prior: Identity, b: Binding, at: int, x: CredentialId, role: Role)
    requires FreshId(t) !in t.credentials && x in t.credentials
    ensures var u := Seeded(t, prior, b, at);
            && ((x, role) in u.enrollments <==> (x, role) in t.enrollments)
            && ((x, role) in t.enrollments ==> u.enrollments[(x, role)] == t.enrollments[(x, role)])
  {
    assert (x, role) != (FreshId(t), prior.role);
  }

  /** Seeding one identity leaves the other's host and rows alone. */
  lemma RowsElsewhere(t: Tables, prior: Identity, b: Binding, at: int, issuer: string, actor: ActorId)
    requires FreshId(t) !in t.credentials && prior.actor !in t.actors && b.issuer != issuer && prior.actor != actor
    ensures SameElsewhere(t, Seeded(t, prior, b, at), issuer, actor)
  {
    var u := Seeded(t, prior, b, at);
    forall x, role: Role | x in t.credentials
      ensures (x, role) in u.enrollments <==> (x, role) in t.enrollments
      ensures (x, role) in t.enrollments ==> u.enrollments[(x, role)] == t.enrollments[(x, role)]
    {
      EnrollmentsElsewhere(t, prior, b, at, x, role);
    }
    assert u.credentials == t.credentials[FreshId(t) := SeededCredential(prior, b, at)];
    hide SeededEnrollment;
  }

  lemma SeedingElsewhere(t: Tables, e: Entrant, at: int, other: Entrant)
    requires OlderStartup(t, e, at) && Neighbours(e, other)
    ensures SameElsewhere(t, Seeded(t, Prior(e), e.b, at), other.b.issuer, other.who.actor)
  {
    hide Seeded, SameElsewhere, TableOk, Wallet, Insertable, OlderClient, Granted, Deployed;
    RegistersNewcomer(t, e, at);
    RowsElsewhere(t, Prior(e), e.b, at, other.b.issuer, other.who.actor);
  }

  lemma NewcomerKept(t: Tables, prior: Identity, b: Binding, at: int, who: Identity, issuer: string)
    requires Newcomer(t, who, issuer) && b.issuer != issuer && prior.actor != who.actor
    requires FreshId(t) !in t.credentials
    ensures Newcomer(Seeded(t, prior, b, at), who, issuer)
  {
    hide OlderClient, SeededEnrollment;
  }

  lemma DeployedKept(t: Tables, prior: Identity, b: Binding, at: int)
    requires Deployed(t)
    ensures Deployed(Seeded(t, prior, b, at))
  {
  }

  /** Whom the first seeding did not know is still a newcomer after it. */
  lemma StillNewcomer(t: Tables, e: Entrant, f: Entrant, at: int, next: int)
    requires OlderStartup(t, e, at) && OlderStartup(t, f, next) && Neighbours(e, f)
    ensures OlderStartup(Seeded(t, Prior(e), e.b, at), f, next)
  {
    hide TableOk, Deployed, Newcomer, Wallet, Insertable, OlderClient, Granted, Seeded;
    SeededTableOk(t, e, at);
    RegistersNewcomer(t, e, at);
    DeployedKept(t, Prior(e), e.b, at);
    NewcomerKept(t, Prior(e), e.b, at, f.who, f.b.issuer);
  }

  /** Both older startups leave what a later startup needs for both. */
  lemma BothReady(t: Tables, e: Entrant, f: Entrant, at: int, next: int, now: int)
    requires OlderStartup(t, e, at) && OlderStartup(t, f, next) && Neighbours(e, f)
    requires at <= now < e.b.expiresAt && next <= now < f.b.expiresAt
    requires ListItem(e.who.clientId) && |Extended(e.template)| <= 64
    requires ListItem(f.who.clientId) && |Extended(f.template)| <= 64
    ensures var u := Seeded(t, Prior(e), e.b, at);
            var v, a, c := Seeded(u, Prior(f), f.b, next), SeatOf(e, FreshId(t)), SeatOf(f, FreshId(u));
            && OlderStartup(u, f, next)
            && Ready(v, a, now) && Ready(v, c, now) && Apart(v, a, c) && Apart(v, c, a)
  {
    hide *;
    var u := Seeded(t, Prior(e), e.b, at);
    var v := Seeded(u, Prior(f), f.b, next);
    StillNewcomer(t, e, f, at, next);
    SeatsApart(t, e, f, at, next);
    SeededReady(t, e, at, now);
    SeededReady(u, f, next, now);
    SeededTableOk(u, f, next);
    Symmetric(e, f);
    SeedingElsewhere(u, f, next, e);
    SeatParts(e, FreshId(t));
    ReadyKept(u, v, SeatOf(e, FreshId(t)), now);
  }

  lemma SeatsApart(t: Tables, e: Entrant, f: Entrant, at: int, next: int)
    requires OlderStartup(t, e, at) && OlderStartup(Seeded(t, Prior(e), e.b, at), f, next) && Neighbours(e, f)
    ensures var u := Seeded(t, Prior(e), e.b, at);
            var v, a, c := Seeded(u, Prior(f), f.b, next), SeatOf(e, FreshId(t)), SeatOf(f, FreshId(u));
            Apart(v, a, c) && Apart(v, c, a)
  {
    hide OlderStartup;
    RegistersNewcomer(t, e, at);
    var u := Seeded(t, Prior(e), e.b, at);
    RegistersNewcomer(u, f, next);
    var v := Seeded(u, Prior(f), f.b, next);
    assert v.credentials[FreshId(u)] == SeededCredential(Prior(f), f.b, next);
    assert v.credentials[FreshId(t)] == SeededCredential(Prior(e), e.b, at);
  }

  /** A startup's seeding of one identity, its query returning `retired`, leaves `u`. */
  ghost predicate SeedsTo(t: Tables, who: Identity, b: Binding, retired: seq<CredentialId>, now: int, u: Tables) {
    var t1 := SeedIdentity(t, who, now);
    && t1.Some? && ListsRetired(t1.value, who, b.issuer, retired)
    && SeedCredential(t1.value, who, b, retired, now) == Some(u)
  }

  /** Two identities from start to finish: both older startups commit, the later startup's
      rotations of both commit, and from then on no startup changes anything for either. */
  lemma BothGenerations(t: Tables, e: Entrant, f: Entrant, at: int, next: int, now: int, later: int)
    requires OlderStartup(t, e, at) && OlderStartup(t, f, next) && Neighbours(e, f)
    requires at <= now < e.b.expiresAt && next <= now < f.b.expiresAt
    requires ListItem(e.who.clientId) && |Extended(e.template)| <= 64
    requires ListItem(f.who.clientId) && |Extended(f.template)| <= 64
    ensures var u := Seeded(t, Prior(e), e.b, at);
            var v := Seeded(u, Prior(f), f.b, next);
            var turns := [Turn(e.who.actor, e.b.issuer, [FreshId(t)]), Turn(f.who.actor, f.b.issuer, [FreshId(u)])];
            && SeedsTo(t, Prior(e), e.b, [], at, u) && SeedsTo(u, Prior(f), f.b, [], next, v)
            && QueryAnswers(v, turns, now)
            && var r := RotateAll(v, turns, now);
            && r.Some? && Settled(r.value, e.who, e.b) && Settled(r.value, f.who, f.b)
            && SeedsTo(r.value, e.who, e.b, [], later, r.value) && SeedsTo(r.value, f.who, f.b, [], later, r.value)
  {
    hide *;
    var u := Seeded(t, Prior(e), e.b, at);
    var v := Seeded(u, Prior(f), f.b, next);
    var a, c := SeatOf(e, FreshId(t)), SeatOf(f, FreshId(u));
    BothReady(t, e, f, at, next, now);
    SeedsToSeeded(t, e, at);
    SeedsToSeeded(u, f, next);
    StartupSettlesBoth(v, a, c, now);
    var w := RotateRows(v, v.memberships, a.ids, a.who.clientId, now).value;
    var x := RotateRows(w, w.memberships, c.ids, c.who.clientId, now).value;
    BothSelected(t, e, f, at, next, now);
    ClientOf(t, e, at);
    ClientOf(t, f, next);
    SeatParts(e, FreshId(t));
    SeatParts(f, FreshId(u));
    TwoTurns(v, w, x, a, c, now);
    SettledMember(x, e.who, e.b, later);
    SettledMember(x, f.who, f.b, later);
  }

  lemma ClientOf(t: Tables, e: Entrant, at: int)
    requires OlderStartup(t, e, at)
    ensures e.who.clientId == WEB027K + e.who.actor
  {
    hide TableOk, Newcomer, Insertable, OlderClient, Granted, Deployed, Extended;
  }

  lemma SeatParts(e: Entrant, id: CredentialId)
    ensures SeatOf(e, id) == Seat(e.who, e.template, e.b, e.from, id, [id])
  {
  }

  lemma SeedsToSeeded(t: Tables, e: Entrant, at: int)
    requires OlderStartup(t, e, at)
    ensures SeedsTo(t, Prior(e), e.b, [], at, Seeded(t, Prior(e), e.b, at))
  {
    hide OlderStartup, SeedIdentity, SeedCredential, ListsRetired, Seeded, Introduced;
    FirstSeeding(t, e, at);
  }

  lemma SelectedElsewhere(t: Tables, u: Tables, actor: ActorId, issuer: string, id: CredentialId, now: int)
    requires Selected(t, actor, issuer, id, now) && OnlyOlder(t, actor, issuer, id)
    requires t.credentials[id].actor == actor && SameElsewhere(t, u, issuer, actor)
    ensures ListsSelected(u, actor, issuer, [id], now)
    ensures Selected(u, actor, issuer, id, now) && OnlyOlder(u, actor, issuer, id) && u.credentials[id].actor == actor
  {
    hide OlderClient;
  }

  /** Each rotation's query returns the row its older startup made. */
  lemma BothSelected(t: Tables, e: Entrant, f: Entrant, at: int, next: int, now: int)
    requires OlderStartup(t, e, at) && OlderStartup(Seeded(t, Prior(e), e.b, at), f, next) && Neighbours(e, f)
    requires at <= now < e.b.expiresAt && next <= now < f.b.expiresAt
    requires var u := Seeded(t, Prior(e), e.b, at);
             var v, a, c := Seeded(u, Prior(f), f.b, next), SeatOf(e, FreshId(t)), SeatOf(f, FreshId(u));
             Ready(v, a, now) && Ready(v, c, now) && Apart(v, a, c)
    ensures var u := Seeded(t, Prior(e), e.b, at);
            var v, a := Seeded(u, Prior(f), f.b, next), SeatOf(e, FreshId(t));
            && ListsSelected(v, e.who.actor, e.b.issuer, [FreshId(t)], now)
            && var r := RotateRows(v, v.memberships, a.ids, a.who.clientId, now);
            && r.Some? && ListsSelected(r.value, f.who.actor, f.b.issuer, [FreshId(u)], now)
  {
    hide *;
    var u := Seeded(t, Prior(e), e.b, at);
    var v := Seeded(u, Prior(f), f.b, next);
    var a, c := SeatOf(e, FreshId(t)), SeatOf(f, FreshId(u));
    SeatParts(e, FreshId(t));
    SeatParts(f, FreshId(u));
    Symmetric(e, f);
    SeedingElsewhere(u, f, next, e);
    SeededSelected(t, e, at, now);
    SelectedElsewhere(u, v, e.who.actor, e.b.issuer, FreshId(t), now);
    FirstTurnElsewhere(v, a, c, now);
    SeededSelected(u, f, next, now);
    SelectedElsewhere(v, RotateRows(v, v.memberships, a.ids, a.who.clientId, now).value, f.who.actor, f.b.issuer,
                      FreshId(u), now);
  }

  lemma SeededSelected(t: Tables, e: Entrant, at: int, now: int)
    requires OlderStartup(t, e, at) && at <= now < e.b.expiresAt
    ensures var u, id := Seeded(t, Prior(e), e.b, at), FreshId(t);
            && Selected(u, e.who.actor, e.b.issuer, id, now) && OnlyOlder(u, e.who.actor, e.b.issuer, id)
            && u.credentials[id].actor == e.who.actor
  {
    hide OlderStartup, OnlyOlder, Selected;
    SeededChosen(t, e, at, now);
    SeededOnlyOlder(t, e, at);
  }

  /** The first turn leaves the other identity's host and rows alone. */
  lemma FirstTurnElsewhere(t: Tables, a: Seat, c: Seat, now: int)
    requires Ready(t, a, now) && Ready(t, c, now) && Apart(t, a, c)
    ensures var r := RotateRows(t, t.memberships, a.ids, a.who.clientId, now);
            r.Some? && SameElsewhere(t, r.value, c.b.issuer, c.who.actor)
  {
    hide Apart, CanMove, SeededBefore, Rotated, SameElsewhere, RotateRows, ToMove, NewGeneration;
    RotationReplacesEach(t, a.b.issuer, a.who.clientId, a.ids, now);
    ReadyElsewhere(t, RotateRows(t, t.memberships, a.ids, a.who.clientId, now).value, a, c, now);
  }

  lemma TwoTurns(t: Tables, u: Tables, v: Tables, a: Seat, c: Seat, now: int)
    requires RotateRows(t, t.memberships, a.ids, WEB027K + a.who.actor, now) == Some(u)
    requires RotateRows(u, u.memberships, c.ids, WEB027K + c.who.actor, now) == Some(v)
    requires ListsSelected(t, a.who.actor, a.b.issuer, a.ids, now)
    requires ListsSelected(u, c.who.actor, c.b.issuer, c.ids, now)
    ensures var turns := [Turn(a.who.actor, a.b.issuer, a.ids), Turn(c.who.actor, c.b.issuer, c.ids)];
            RotateAll(t, turns, now) == Some(v) && QueryAnswers(t, turns, now)
  {
    hide RotateRows, ListsSelected;
    var first, second := Turn(a.who.actor, a.b.issuer, a.ids), Turn(c.who.actor, c.b.issuer, c.ids);
    assert [first, second][1..] == [second] && [second][1..] == [];
    assert RotateAll(v, [], now) == Some(v) && QueryAnswers(v, [], now);
    assert RotateAll(u, [second], now) == Some(v) && QueryAnswers(u, [second], now);
  }

  lemma SettledMember(t: Tables, who: Identity, b: Binding, later: int)
    requires Settled(t, who, b)
    ensures SeedsTo(t, who, b, [], later, t)
  {
    assert ListsRetired(t, who, b.issuer, []);
    hide Settled, SeedIdentity, SeedCredential, ListsRetired;
    SettledIsFixed(t, who, b, [], later);
  }

  // ---------------------------------------------------------------------------------------
  // A lapsed enrollment

  function Suspending(t: Tables, key: (CredentialId, Role)): Tables
    requires key in t.enrollments
  {
    t.(enrollments := t.enrollments[key := t.enrollments[key].(status := Suspended)])
  }

  lemma SuspendingRow(t: Tables, key: (CredentialId, Role), k: (CredentialId, Role))
    requires RowsOk(t) && key in t.enrollments && k in t.enrollments
    ensures EnrollmentRow(k.1, Suspending(t, key).enrollments[k])
  {
    hide CredentialRow, StringList, SafeId, MembershipRow;
    assert EnrollmentRow(k.1, t.enrollments[k]);
  }

  lemma SuspendingRows(t: Tables, key: (CredentialId, Role))
    requires RowsOk(t) && key in t.enrollments
    ensures RowsOk(Suspending(t, key))
  {
    hide CredentialRow, EnrollmentRow, MembershipRow;
    forall k | k in t.enrollments ensures EnrollmentRow(k.1, Suspending(t, key).enrollments[k]) {
      SuspendingRow(t, key, k);
    }
  }

  lemma SuspendingLog(t: Tables, key: (CredentialId, Role))
    requires LogAgrees(t) && UniqueBindings(t) && key in t.enrollments
    ensures LogAgrees(Suspending(t, key)) && UniqueBindings(Suspending(t, key))
  {
    SameAccountSound(t, Suspending(t, key));
  }

  lemma SuspendingTableOk(t: Tables, key: (CredentialId, Role))
    requires TableOk(t) && key in t.enrollments
    ensures TableOk(Suspending(t, key))
  {
    hide LogAgrees, UniqueBindings, RowsOk;
    SuspendingRows(t, key);
    SuspendingLog(t, key);
  }

  /** The older startup's tables once the enrollment it made has been suspended. */
  function Lapsed(t: Tables, e: Entrant, at: int): Tables {
    Suspending(Seeded(t, Prior(e), e.b, at), (FreshId(t), e.who.role))
  }

  lemma SuspendedStays(v: Tables, id: CredentialId, role: Role, issuer: string, now: int)
    requires (id, role) in v.enrollments && Movable(v, id, issuer, now)
    ensures var u := Suspending(v, (id, role));
            Movable(u, id, issuer, now) && !Rotatable(u, id, now)
  {
    assert (id, role) in Suspending(v, (id, role)).enrollments;
  }

  lemma NoneMoves(u: Tables, issuer: string, to: ClientId, id: CredentialId, now: int)
    requires TableOk(u) && Movable(u, id, issuer, now) && !Rotatable(u, id, now)
    requires forall x :: x in u.credentials && u.credentials[x].issuer == issuer ==> u.credentials[x].clientId != to
    ensures CanMove(u, issuer, to, [id], now) && ToMove(u, [id], now) == {}
  {
    hide TableOk, Movable, Fits, Rotatable;
  }

  /** The identity is then one that rotation passes over. */
  lemma LapsesEntrant(t: Tables, e: Entrant, at: int, now: int)
    requires OlderStartup(t, e, at) && at <= now < e.b.expiresAt
    ensures var u, id := Lapsed(t, e, at), FreshId(t);
            && CanMove(u, e.b.issuer, e.who.clientId, [id], now) && ToMove(u, [id], now) == {}
            && LapsedBefore(u, e.who, e.b, {}, now)
            && (forall x :: Retired(u, e.who, e.b.issuer, x) <==> x == id)
  {
    var v, u, id := Seeded(t, Prior(e), e.b, at), Lapsed(t, e, at), FreshId(t);
    hide OlderStartup, Seeded, TableOk, CanMove, ToMove, LapsedBefore, Movable, Rotatable, ListsSelected, Retired;
    SelectsSeeded(t, e, at, now);
    SeededTableOk(t, e, at);
    NewClientUnused(t, e, at);
    SuspendingTableOk(v, (id, e.who.role));
    SuspendedStays(v, id, e.who.role, e.b.issuer, now);
    NoneMoves(u, e.b.issuer, e.who.clientId, id, now);
    LapsedRows(t, e, at, now);
  }

  lemma LapsedRows(t: Tables, e: Entrant, at: int, now: int)
    requires OlderStartup(t, e, at) && at <= now < e.b.expiresAt && FreshId(t) !in t.credentials
    requires forall x :: x in Lapsed(t, e, at).credentials && Lapsed(t, e, at).credentials[x].issuer == e.b.issuer ==>
               Lapsed(t, e, at).credentials[x].clientId != e.who.clientId
    ensures LapsedBefore(Lapsed(t, e, at), e.who, e.b, {}, now)
    ensures forall x :: Retired(Lapsed(t, e, at), e.who, e.b.issuer, x) <==> x == FreshId(t)
  {
    hide TableOk, CredentialRow, EnrollmentRow, Granted, Extended;
    var u, id := Lapsed(t, e, at), FreshId(t);
    assert Historical(u, e.who, e.b.issuer, id);
  }

  /** An identity seeded by an older startup whose enrollment then lapsed: the later startup
      revokes its credential, gives it no new one, and nothing is left to do for it. */
  lemma LapsedEntrantGetsNothing(t: Tables, e: Entrant, at: int, now: int)
    requires OlderStartup(t, e, at) && at <= now < e.b.expiresAt
    ensures var u, id := Lapsed(t, e, at), FreshId(t);
            && RotateRows(u, u.memberships, [id], e.who.clientId, now) == Some(u)
            && var u1 := SeedIdentity(u, e.who, now);
            && u1.Some? && ListsRetired(u1.value, e.who, e.b.issuer, [id])
            && var r := SeedCredential(u1.value, e.who, e.b, [id], now);
            && r.Some? && Retreated(r.value, e.who, e.b) && r.value.credentials.Keys == u.credentials.Keys
            && forall x :: x in r.value.credentials ==> !ActiveAt(r.value.credentials[x], e.who.actor, e.b.issuer)
  {
    hide *;
    var u, id := Lapsed(t, e, at), FreshId(t);
    LapsesEntrant(t, e, at, now);
    NewClientIsNewer(t, e, at);
    PassedOver(u, id, e.who.clientId, now);
    LapsedGetsNothing(u, e.who, e.b, [id], [id], now);
    OnlyRetired(u, e.who, e.b.issuer, id, now);
  }

  lemma PassedOver(u: Tables, id: CredentialId, to: ClientId, now: int)
    requires ToMove(u, [id], now) == {}
    ensures RotateRows(u, u.memberships, [id], to, now) == Some(u)
  {
    assert !Rotatable(u, id, now) by { assert id !in ToMove(u, [id], now); }
    hide Rotatable;
    assert [id][1..] == [];
    assert RotateOne(u, u.memberships, id, to, now) == Some(u);
  }

  lemma NewClientIsNewer(t: Tables, e: Entrant, at: int)
    requires OlderStartup(t, e, at)
    ensures NewerGeneration(e.who.clientId)
  {
    hide TableOk, Newcomer, Insertable, OlderClient, Granted, Deployed, Extended;
    assert e.who.clientId == WEB027K + e.who.actor;
  }

  lemma OnlyRetired(u: Tables, who: Identity, issuer: string, id: CredentialId, now: int)
    requires SeedIdentity(u, who, now).Some? && forall x :: Retired(u, who, issuer, x) <==> x == id
    ensures ListsRetired(SeedIdentity(u, who, now).value, who, issuer, [id])
  {
    var u1 := SeedIdentity(u, who, now).value;
    assert u1.credentials == u.credentials;
    hide SeedIdentity;
    assert forall x :: Retired(u1, who, issuer, x) == Retired(u, who, issuer, x);
  }

  // ---------------------------------------------------------------------------------------
  // A full capability list cannot be rotated

  /** Sixty-four different capabilities, none of them an addition. */
  function FullTemplate(): seq<Capability> {
    seq(64, i requires 0 <= i < 64 => ['a', ('a' as int + i / 8) as char, ('a' as int + i % 8) as char])
  }

  lemma FullTemplateFits()
    ensures |FullTemplate()| == 64 && StringList(FullTemplate(), 64)
  {
    var s := FullTemplate();
    forall i | 0 <= i < 64 ensures ListItem(s[i]) {
      assert 'a' as int <= 'a' as int + i / 8 <= 'h' as int && 'a' as int <= 'a' as int + i % 8 <= 'h' as int;
    }
    forall i, j | 0 <= i < j < 64 ensures s[i] != s[j] {
      assert i / 8 != j / 8 || i % 8 != j % 8;
      assert s[i][1] != s[j][1] || s[i][2] != s[j][2];
    }
  }

  lemma {:induction false} DedupKeeps<T>(s: seq<T>, r: seq<T>)
    requires Distinct(s)
    ensures |Dedup(s + r)| >= |s| && (|r| > 0 && r[0] !in s ==> |Dedup(s + r)| > |s|)
  {
    if r == [] {
      assert s + r == s;
      DedupDistinct(s);
    } else {
      var front := r[..|r| - 1];
      DedupKeeps(s, front);
      assert (s + r)[..|s + r| - 1] == s + front;
      if front == [] { assert s + front == s; }
    }
  }

  /** Extending it goes past the column's limit. */
  lemma FullTemplateOverflows()
    ensures |Extended(FullTemplate())| > 64
  {
    var s := FullTemplate();
    FullTemplateFits();
    assert |ADDITIONS[0]| > 3 && forall i :: 0 <= i < 64 ==> |s[i]| == 3;
    hide FullTemplate, ListItem;
    var r := ADDITIONS + if HUMAN_SUBJECT_CREATE_SELF in s then [SUBJECT_ACTIVATE_SANDBOX_SELF] else [];
    assert r[0] == ADDITIONS[0] && r[0] !in s;
    DedupKeeps(s, r);
    assert s + r == s + ADDITIONS + if HUMAN_SUBJECT_CREATE_SELF in s then [SUBJECT_ACTIVATE_SANDBOX_SELF] else [];
  }

  /** So an identity that an older startup seeded with a full list is never rotated: the whole
      transaction raises, at any time. */
  lemma FullListNeverRotates(t: Tables, who: Identity, b: Binding, from: ClientId, at: int, now: int)
    requires OlderStartup(t, Entrant(who, FullTemplate(), b, from, FullTemplate()), at) && at <= now < b.expiresAt
    ensures var u := Seeded(t, Earlier(who, from, FullTemplate()), b, at);
            && ListsSelected(u, who.actor, b.issuer, [FreshId(t)], now)
            && Rotate(u, who.actor, b.issuer, [FreshId(t)], now) == None
  {
    var e := Entrant(who, FullTemplate(), b, from, FullTemplate());
    FirstSeeding(t, e, at);
    FullTemplateOverflows();
    hide FullTemplate, OlderStartup;
    ChangeOfGeneration(t, e, at, now, [], now);
  }

  // One such deployment, literally

  const BORROWER: ActorId := "actor_b"
  const OLD_CLIENT: ClientId := "client_web027j_actor_b"

  function Host(): Binding {
    Binding("https://127.0.0.1:8935", "eip155:84532:0x" + seq(40, _ => 'a'), Siwe, HostSession,
            SessionThumbprint(BORROWER, "host"), 1000, "local-borrower")
  }

  function Borrower(): Identity {
    Identity(BORROWER, Human, HumanBorrower, Extended(FullTemplate()), WEB027K + BORROWER, None, None)
  }

  /** A tenant with its local system actor and nobody else. */
  function FreshDeployment(): Tables {
    Empty.(tenant := Some(Tenant(true, "urn:ipo.one:tenant", "tenant", "NONE", "urn:ipo.one:owner")),
           actors := map[LOCAL_SYSTEM := Actor(SystemWorker, true)],
           memberships := map[LOCAL_SYSTEM :=
             Membership(SystemRole, [], ["client_local_system"], POLICY, None, Active, 0, None, 1)])
  }

  lemma HostColumns(issuer: string, policy: string)
    requires issuer == "https://127.0.0.1:8935" && policy == "security_001.v1"
    ensures Origin(issuer) && SafeId(policy)
  {
    assert issuer[..8] == "https://";
  }

  lemma OldClientColumn(client: string)
    requires client == "client_web027j_actor_b"
    ensures ListItem(client)
  {
  }

  lemma OldClientOlder()
    ensures OlderClient(OLD_CLIENT, BORROWER)
  {
    assert WEB027J + BORROWER == OLD_CLIENT;
  }

  lemma BorrowerInsertable()
    ensures Insertable(Earlier(Borrower(), OLD_CLIENT, FullTemplate()), Host(), 0)
  {
    FullTemplateFits();
    HostColumns(Host().issuer, POLICY);
    OldClientColumn(OLD_CLIENT);
    ListItemSafe(OLD_CLIENT);
    hide FullTemplate, ListItem, SafeId, Origin, Extended;
    assert [OLD_CLIENT][0] == OLD_CLIENT;
  }

  /** A fresh deployment whose borrower was configured with the full list: the older startup
      commits and rotation does not. */
  lemma FullListExample()
    ensures OlderStartup(FreshDeployment(), Entrant(Borrower(), FullTemplate(), Host(), OLD_CLIENT, FullTemplate()), 0)
    ensures var u := Seeded(FreshDeployment(), Earlier(Borrower(), OLD_CLIENT, FullTemplate()), Host(), 0);
            && ListsSelected(u, BORROWER, Host().issuer, [FreshId(FreshDeployment())], 1)
            && Rotate(u, BORROWER, Host().issuer, [FreshId(FreshDeployment())], 1) == None
  {
    OldClientOlder();
    BorrowerInsertable();
    FreshTableOk();
    assert |BORROWER| != |LOCAL_SYSTEM|;
    hide FullTemplate, Insertable, OlderClient, Extended, TableOk;
    FullListNeverRotates(FreshDeployment(), Borrower(), Host(), OLD_CLIENT, 0, 1);
  }

  lemma FreshTableOk()
    ensures TableOk(FreshDeployment())
  {
    EmptyAgrees();
    SameAccountSound(Empty, FreshDeployment());
    PolicyFits();
  }
}

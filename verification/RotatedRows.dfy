/**
 What a rotation of local credentials writes, row by row and column by column: which
 credentials move, what their successors, enrollments and memberships hold, and what stays.
 */
module RotatedRows {
  import opened Options
  import opened Identifiers
  import opened CredentialTables
  import opened LocalAccess
  import opened AccessGenerations

  /** Not ended by an expiry at or before `now`. */
  predicate Lasting(at: Option<int>, now: int) {
    match at
    case None => true
    case Some(end) => now < end
  }

  /** An enrollment under which a credential with this client may be moved. */
  predicate LiveEnrollment(e: Enrollment, role: Role, client: ClientId, now: int) {
    && e.status == Active && e.validFrom <= now && Lasting(e.expiresAt, now)
    && (role == HumanBorrower || role == PrincipalController) && client in e.clientIds
  }

  /** The credentials a rotation for `base` at `issuer` moves. */
  ghost predicate Moves(t: Tables, base: ActorId, issuer: string, id: CredentialId, now: int) {
    && t.tenant.Some? && t.tenant.value.active && id in t.credentials
    && var c := t.credentials[id];
    && c.issuer == issuer && (c.clientId == "client_phase7_" + base || c.clientId == "client_web027j_" + base)
    && c.actorType == Human && c.clientMethod == Siwe && c.senderMethod == HostSession
    && c.status == Active && Lasting(c.expiresAt, now)
    && c.actor in t.actors && t.actors[c.actor].active && c.actor in t.memberships
    && var m := t.memberships[c.actor];
    && m.status == Active && m.validFrom <= now && Lasting(m.expiresAt, now)
    && (m.role == HumanBorrower || m.role == PrincipalController) && c.roles == [m.role]
    && (exists role :: (id, role) in t.enrollments)
    && (forall role :: (id, role) in t.enrollments ==>
          LiveEnrollment(t.enrollments[(id, role)], role, c.clientId, now))
  }

  /** A credential's successor: the same holder, binding and grants under the new client, with
      the additions. */
  ghost predicate Succeeds(c: Credential, d: Credential, to: ClientId, now: int) {
    && d.actor == c.actor && d.actorType == c.actorType && d.issuer == c.issuer && d.subject == c.subject
    && d.clientMethod == c.clientMethod && d.senderMethod == c.senderMethod && d.sender == c.sender
    && d.roles == c.roles && d.policy == c.policy && d.expiresAt == c.expiresAt && d.keyVersion == c.keyVersion
    && d.clientId == to && Grows(c.capabilities, d.capabilities)
    && d.status == Active && d.version == 1 && d.createdAt == now && d.updatedAt == now
  }

  ghost predicate EnrollmentSucceeds(e: Enrollment, f: Enrollment, actor: ActorId, to: ClientId, now: int) {
    && f.actor == actor && Grows(e.capabilities, f.capabilities) && f.clientIds == [to] && f.policy == e.policy
    && f.status == Active && f.validFrom == now && f.expiresAt == e.expiresAt && f.version == 1
  }

  /** Row `x` of `u` succeeds row `id` of `t`, with one enrollment for each of its own. */
  ghost predicate Follows(t: Tables, u: Tables, id: CredentialId, x: CredentialId, to: ClientId, now: int) {
    && id in t.credentials && x in u.credentials && x !in t.credentials
    && Succeeds(t.credentials[id], u.credentials[x], to, now)
    && (forall role :: (x, role) in u.enrollments <==> (id, role) in t.enrollments)
    && (forall role :: (id, role) in t.enrollments ==>
          (x, role) in u.enrollments &&
          EnrollmentSucceeds(t.enrollments[(id, role)], u.enrollments[(x, role)], t.credentials[id].actor, to, now))
  }

  /** A membership after `n` of its actor's credentials moved, the last from client `from`. */
  ghost predicate MembershipSucceeds(m: Membership, v: Membership, from: ClientId, to: ClientId, n: nat) {
    && v.role == m.role && v.policy == m.policy && v.controller == m.controller && v.status == m.status
    && v.validFrom == m.validFrom && v.expiresAt == m.expiresAt && v.version == m.version + n
    && Grows(m.capabilities, v.capabilities) && Distinct(v.clientIds)
    && (forall x :: x in v.clientIds <==> (x in m.clientIds && x != from) || (x == to && from in m.clientIds))
    && (m.clientIds == [from] ==> v.clientIds == [to])
  }

  ghost predicate CredentialsWritten(t: Tables, u: Tables, base: ActorId, issuer: string, now: int) {
    var to := "client_web027k_" + base;
    && (forall id :: id in t.credentials ==>
          id in u.credentials && u.credentials[id] ==
            if Moves(t, base, issuer, id, now) then t.credentials[id].(status := Revoked, updatedAt := now)
            else t.credentials[id])
    && (forall id :: Moves(t, base, issuer, id, now) ==> exists x :: Follows(t, u, id, x, to, now))
    && (forall x :: x in u.credentials && x !in t.credentials ==>
          exists id :: Moves(t, base, issuer, id, now) && Follows(t, u, id, x, to, now))
    && (forall id, x, y :: Follows(t, u, id, x, to, now) && Follows(t, u, id, y, to, now) ==> x == y)
  }

  ghost predicate EnrollmentsWritten(t: Tables, u: Tables, base: ActorId, issuer: string, now: int) {
    && (forall k :: k in t.enrollments ==>
          k in u.enrollments && u.enrollments[k] ==
            if Moves(t, base, issuer, k.0, now)
            then t.enrollments[k].(status := Revoked, version := t.enrollments[k].version + 1)
            else t.enrollments[k])
    && (forall k :: k in u.enrollments && k !in t.enrollments ==> k.0 in u.credentials && k.0 !in t.credentials)
  }

  ghost predicate MembershipWritten(t: Tables, u: Tables, base: ActorId, issuer: string, a: ActorId, now: int)
    requires a in t.memberships
  {
    var moved := set id | id in t.credentials && t.credentials[id].actor == a && Moves(t, base, issuer, id, now);
    a in u.memberships &&
    if moved == {} then u.memberships[a] == t.memberships[a]
    else exists id :: id in moved && MembershipSucceeds(t.memberships[a], u.memberships[a], t.credentials[id].clientId,
                                                        "client_web027k_" + base, |moved|)
  }

  // ---------------------------------------------------------------------------------------
  // The rotation's own rows are these

  lemma MovesExactly(t: Tables, base: ActorId, issuer: string, id: CredentialId, now: int)
    ensures Selected(t, base, issuer, id, now) && Rotatable(t, id, now) <==> Moves(t, base, issuer, id, now)
  {
    if id in t.credentials {
      EnrollmentsLive(t, id, t.credentials[id].clientId, now);
      hide EnrollmentLive, LiveEnrollment;
    }
  }

  lemma EnrollmentsLive(t: Tables, id: CredentialId, client: ClientId, now: int)
    ensures forall role :: (id, role) in t.enrollments ==>
              (EnrollmentLive(t.enrollments[(id, role)], role, client, now) <==>
               LiveEnrollment(t.enrollments[(id, role)], role, client, now))
  {
  }

  lemma ReplacementSucceeds(c: Credential, to: ClientId, now: int)
    ensures Succeeds(c, Replacement(c, to, now), to, now)
  {
    ExtendedExactly(c.capabilities);
    hide Extended, Grows;
  }

  lemma RenewalSucceeds(e: Enrollment, actor: ActorId, to: ClientId, now: int)
    ensures EnrollmentSucceeds(e, RenewedEnrollment(e, actor, to, now), actor, to, now)
  {
    ExtendedExactly(e.capabilities);
    hide Extended, Grows;
  }

  lemma ReplacedMembers(clients: seq<ClientId>, from: ClientId, to: ClientId, x: ClientId)
    ensures x in Replace(clients, from, to) <==> (x in clients && x != from) || (x == to && from in clients)
  {
    var r := Replace(clients, from, to);
    if x in clients && x != from {
      var i :| 0 <= i < |clients| && clients[i] == x;
      assert r[i] == x;
    }
    if x == to && from in clients {
      var i :| 0 <= i < |clients| && clients[i] == from;
      assert r[i] == x;
    }
  }

  lemma RenewedClients(clients: seq<ClientId>, from: ClientId, to: ClientId)
    ensures var r := Dedup(Replace(clients, from, to));
            && Distinct(r) && (clients == [from] ==> r == [to])
            && (forall x :: x in r <==> (x in clients && x != from) || (x == to && from in clients))
  {
    var s := Replace(clients, from, to);
    DedupMembers(s);
    forall x: ClientId ensures x in s <==> (x in clients && x != from) || (x == to && from in clients) {
      ReplacedMembers(clients, from, to, x);
    }
    if clients == [from] {
      assert s == [to];
      DedupDistinct(s);
    }
  }

  lemma MembershipRenewed(m: Membership, from: ClientId, to: ClientId, n: nat)
    ensures MembershipSucceeds(m, RenewedMembership(m, m, from, to).(version := m.version + n), from, to, n)
  {
    ExtendedExactly(m.capabilities);
    RenewedClients(m.clientIds, from, to);
    hide Extended, Grows, Dedup, Replace;
  }

  lemma ReplacesFollows(t: Tables, u: Tables, id: CredentialId, x: CredentialId, to: ClientId, now: int)
    requires Replaces(t, u, id, x, to, now)
    ensures Follows(t, u, id, x, to, now)
  {
    hide Replacement, RenewedEnrollment, Succeeds, EnrollmentSucceeds;
    ReplacementSucceeds(t.credentials[id], to, now);
    forall role | (id, role) in t.enrollments
      ensures EnrollmentSucceeds(t.enrollments[(id, role)], u.enrollments[(x, role)], t.credentials[id].actor, to, now)
    {
      RenewalSucceeds(t.enrollments[(id, role)], t.credentials[id].actor, to, now);
    }
  }

  /** Two rows that follow the same one would share its binding. */
  lemma OneFollows(t: Tables, u: Tables, id: CredentialId, x: CredentialId, y: CredentialId, to: ClientId, now: int)
    requires UniqueBindings(u) && Follows(t, u, id, x, to, now) && Follows(t, u, id, y, to, now)
    ensures x == y
  {
    hide Grows;
    assert SameBinding(u.credentials[x], u.credentials[y]);
  }

  ghost predicate MovesAre(t: Tables, base: ActorId, issuer: string, moving: set<CredentialId>, now: int) {
    forall id :: id in moving <==> Moves(t, base, issuer, id, now)
  }

  lemma CredentialsAre(t: Tables, u: Tables, base: ActorId, issuer: string, moving: set<CredentialId>, now: int)
    requires Rotated(t, u, moving, WEB027K + base, now) && MovesAre(t, base, issuer, moving, now)
    ensures CredentialsWritten(t, u, base, issuer, now)
  {
    hide Moves, LogAgrees, EnrollmentsMoved, MembershipsMoved, Replaces, Follows;
    var to := WEB027K + base;
    assert UniqueBindings(u);
    hide UniqueBindings;
    forall id | Moves(t, base, issuer, id, now) ensures exists x :: Follows(t, u, id, x, to, now) {
      assert HasReplacement(t, u, id, to, now);
      var x :| Replaces(t, u, id, x, to, now);
      ReplacesFollows(t, u, id, x, to, now);
    }
    forall x | x in u.credentials && x !in t.credentials
      ensures exists id :: Moves(t, base, issuer, id, now) && Follows(t, u, id, x, to, now)
    {
      assert NewRow(t, u, moving, x, to, now);
      var id :| id in moving && Replaces(t, u, id, x, to, now);
      ReplacesFollows(t, u, id, x, to, now);
    }
    forall id, x, y | Follows(t, u, id, x, to, now) && Follows(t, u, id, y, to, now) ensures x == y {
      OneFollows(t, u, id, x, y, to, now);
    }
  }

  lemma EnrollmentsAre(t: Tables, u: Tables, base: ActorId, issuer: string, moving: set<CredentialId>, now: int)
    requires EnrollmentsMoved(t, u, moving) && MovesAre(t, base, issuer, moving, now)
    ensures EnrollmentsWritten(t, u, base, issuer, now)
  {
    hide Moves;
  }

  lemma MembershipIs(t: Tables, u: Tables, base: ActorId, issuer: string, moving: set<CredentialId>, a: ActorId,
                     now: int)
    requires MembershipsMoved(t, u, moving, WEB027K + base) && MovesAre(t, base, issuer, moving, now)
    requires a in t.memberships
    ensures MembershipWritten(t, u, base, issuer, a, now)
  {
    hide Moves, RenewedMembership, MembershipSucceeds;
    var moved := set id | id in t.credentials && t.credentials[id].actor == a && Moves(t, base, issuer, id, now);
    assert moved == set id | id in moving && id in t.credentials && t.credentials[id].actor == a;
    assert MembershipMoved(t, u, moving, a, WEB027K + base) && VersionMoved(t, u, moving, a);
    var m, v := t.memberships[a], u.memberships[a];
    if moved != {} {
      var id :| id in moved;
      assert id in moving;
      var x :| x in moving && t.credentials[x].actor == a &&
               v == RenewedMembership(m, m, t.credentials[x].clientId, WEB027K + base).(version := v.version);
      MembershipRenewed(m, t.credentials[x].clientId, WEB027K + base, |moved|);
      assert x in moved;
    } else {
      forall id | id in moving ensures t.credentials[id].actor != a { assert id !in moved; }
    }
  }

  /** Nothing but these tables is written. */
  predicate OnlyRotated(t: Tables, u: Tables) {
    u == t.(credentials := u.credentials, memberships := u.memberships, enrollments := u.enrollments,
            sessions := u.sessions, events := u.events, nextId := u.nextId)
  }

  lemma {:induction false} OthersStay(t: Tables, selected: map<ActorId, Membership>, ids: seq<CredentialId>,
                                      to: ClientId, now: int)
    requires RotateRows(t, selected, ids, to, now).Some?
    ensures OnlyRotated(t, RotateRows(t, selected, ids, to, now).value)
    decreases |ids|
  {
    if ids != [] {
      OneStays(t, selected, ids[0], to, now);
      hide RotateOne;
      OthersStay(RotateOne(t, selected, ids[0], to, now).value, selected, ids[1..], to, now);
    }
  }

  lemma OneStays(t: Tables, selected: map<ActorId, Membership>, id: CredentialId, to: ClientId, now: int)
    requires RotateOne(t, selected, id, to, now).Some?
    ensures OnlyRotated(t, RotateOne(t, selected, id, to, now).value)
  {
    hide Rotatable, RotatedEnrollments, EndSessions, RenewedMembership, Replacement, CanInsert, WritableRows;
  }

  lemma SelectedMovable(t: Tables, base: ActorId, issuer: string, ids: seq<CredentialId>, now: int)
    requires TableOk(t) && ListsSelected(t, base, issuer, ids, now)
    requires forall x :: x in ids ==> x in t.credentials && t.credentials[x].updatedAt <= now
    ensures Selectable(t, issuer, ids, now)
  {
    hide TableOk, OlderClient;
    forall x | x in ids ensures Movable(t, x, issuer, now) {
      assert Selected(t, base, issuer, x, now);
    }
  }

  lemma SelectionMoves(t: Tables, base: ActorId, issuer: string, ids: seq<CredentialId>, now: int)
    requires ListsSelected(t, base, issuer, ids, now)
    ensures MovesAre(t, base, issuer, ToMove(t, ids, now), now)
  {
    hide Selected, Rotatable, Moves;
    forall id ensures id in ToMove(t, ids, now) <==> Moves(t, base, issuer, id, now) {
      MovesExactly(t, base, issuer, id, now);
    }
  }

  /** A committed rotation, in tables that meet their constraints and with a clock that has not
      gone back, revokes exactly the credentials that `Moves` describes, each with its
      enrollments, gives each exactly one successor with the additions and live enrollments,
      brings the memberships along, and leaves every other row and table as it was. */
  lemma RotationWrites(t: Tables, base: ActorId, issuer: string, ids: seq<CredentialId>, now: int)
    requires TableOk(t) && ListsSelected(t, base, issuer, ids, now)
    requires forall x :: x in ids ==> x in t.credentials && t.credentials[x].updatedAt <= now
    requires Rotate(t, base, issuer, ids, now).Some?
    ensures var u := Rotate(t, base, issuer, ids, now).value;
            && OnlyRotated(t, u) && u.memberships.Keys == t.memberships.Keys
            && CredentialsWritten(t, u, base, issuer, now) && EnrollmentsWritten(t, u, base, issuer, now)
            && (forall a :: a in t.memberships ==> MembershipWritten(t, u, base, issuer, a, now))
  {
    var to, moving := WEB027K + base, ToMove(t, ids, now);
    var u := Rotate(t, base, issuer, ids, now).value;
    assert u == RotateRows(t, t.memberships, ids, to, now).value;
    hide TableOk, ListsSelected, Rotated, RotateRows, ToMove, MovesAre, CredentialsWritten, EnrollmentsWritten,
         MembershipWritten, Rotate;
    SelectedMovable(t, base, issuer, ids, now);
    RotationCommitsExactly(t, issuer, to, ids, now);
    SelectionMoves(t, base, issuer, ids, now);
    OthersStay(t, t.memberships, ids, to, now);
    RotatedParts(t, u, moving, to, now);
    CredentialsAre(t, u, base, issuer, moving, now);
    EnrollmentsAre(t, u, base, issuer, moving, now);
    forall a | a in t.memberships ensures MembershipWritten(t, u, base, issuer, a, now) {
      MembershipIs(t, u, base, issuer, moving, a, now);
    }
  }
}

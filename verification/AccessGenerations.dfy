/**
 What a rotation does to the tables as a whole, and how it composes with the seeding that the
 same startup and every later startup run.
 */
module AccessGenerations {
  import opened Options
  import opened Identifiers
  import opened CredentialTables
  import opened LocalAccess

  /** Every stored row passes its column checks. */
  ghost predicate RowsOk(t: Tables) {
    && (forall x :: x in t.credentials ==> CredentialRow(t.credentials[x]))
    && (forall a :: a in t.memberships ==> MembershipRow(t.memberships[a]))
    && (forall k :: k in t.enrollments ==> EnrollmentRow(k.1, t.enrollments[k]))
  }

  /** What the check, key, foreign-key and trigger constraints guarantee between transactions. */
  ghost predicate TableOk(t: Tables) {
    && LogAgrees(t) && UniqueBindings(t) && RowsOk(t)
    && (forall k :: k in t.enrollments ==> k.0 in t.credentials)
    && (forall x :: x in t.credentials ==>
          t.credentials[x].actor in t.memberships && t.credentials[x].actor in t.actors &&
          t.actors[t.credentials[x].actor].actorType == t.credentials[x].actorType)
  }

  /** A row that can be revoked and copied at `now`. */
  predicate Movable(t: Tables, x: CredentialId, issuer: string, now: int) {
    x in t.credentials && t.credentials[x].issuer == issuer && t.credentials[x].status == Active &&
    t.credentials[x].updatedAt <= now && Unexpired(t.credentials[x].expiresAt, now) &&
        ActorActive(t, t.credentials[x].actor)
  }

  /** Rows of one issuer as the rotation's query returns them, the clock not having gone back. */
  ghost predicate Selectable(t: Tables, issuer: string, ids: seq<CredentialId>, now: int) {
    TableOk(t) && Distinct(ids) && forall x :: x in ids ==> Movable(t, x, issuer, now)
  }

  /** Some stored row already has the subject binding that replacing `id` would make. */
  ghost predicate Occupied(t: Tables, id: CredentialId, to: ClientId, now: int)
    requires id in t.credentials
  {
    exists x :: x in t.credentials && SameBinding(t.credentials[x], Replacement(t.credentials[id], to, now))
  }

  predicate SameSubject(t: Tables, x: CredentialId, y: CredentialId) {
    x in t.credentials && y in t.credentials && t.credentials[x].subject == t.credentials[y].subject
  }

  /** The new client is fit for an enrollment, no extended list is longer than the column
      allows, and the log's author is a member. */
  predicate Fits(t: Tables, id: CredentialId, to: ClientId) {
    && CanLog(t)
    && id in t.credentials && ListItem(to) && |Extended(t.credentials[id].capabilities)| <= 64
    && forall role :: (id, role) in t.enrollments ==> |Extended(t.enrollments[(id, role)].capabilities)| <= 64
  }

  /** Nothing is in the way of the rows to be replaced, no two of them are for one subject, and
      what is to be written fits its columns. */
  ghost predicate Clear(t: Tables, to: ClientId, ids: seq<CredentialId>, now: int) {
    && (forall id :: id in ids && Rotatable(t, id, now) ==> Fits(t, id, to))
    && (forall id :: id in ids && Rotatable(t, id, now) ==> !Occupied(t, id, to, now))
    && (forall x, y :: x in ids && y in ids && x != y && Rotatable(t, x, now) && Rotatable(t, y, now) ==>
          !SameSubject(t, x, y))
  }

  /** What a startup after the older generations finds: nobody has the new client at the issuer
      yet, no two selected rows are for the same subject, and extended lists fit. */
  ghost predicate CanMove(t: Tables, issuer: string, to: ClientId, ids: seq<CredentialId>, now: int) {
    && Selectable(t, issuer, ids, now)
    && (forall id :: id in ids && Rotatable(t, id, now) ==> Fits(t, id, to))
    && (forall x :: x in t.credentials && t.credentials[x].issuer == issuer ==> t.credentials[x].clientId != to)
    && (forall x, y :: x in ids && y in ids && x != y ==>
          x in t.credentials && y in t.credentials && t.credentials[x].subject != t.credentials[y].subject)
  }

  lemma CanMoveClear(t: Tables, issuer: string, to: ClientId, ids: seq<CredentialId>, now: int)
    requires CanMove(t, issuer, to, ids, now)
    ensures Clear(t, to, ids, now)
  {
    hide TableOk, Rotatable;
    forall id | id in ids && Rotatable(t, id, now) ensures !Occupied(t, id, to, now) {
      assert Movable(t, id, issuer, now);
    }
  }

  /** Credential `x` of `t` is the replacement of credential `id` of `t0`, enrollments included. */
  ghost predicate Replaces(t0: Tables, t: Tables, id: CredentialId, x: CredentialId, to: ClientId, now: int) {
    && id in t0.credentials && x in t.credentials && x !in t0.credentials
    && t.credentials[x] == Replacement(t0.credentials[id], to, now)
    && (forall role :: (x, role) in t.enrollments <==> (id, role) in t0.enrollments)
    && (forall role :: (id, role) in t0.enrollments ==>
          (x, role) in t.enrollments &&
          t.enrollments[(x, role)] == RenewedEnrollment(t0.enrollments[(id, role)], t0.credentials[id].actor, to, now))
  }

  /** The rows `moved` are revoked, the other rows are as they were. */
  ghost predicate RowsKept(t0: Tables, t: Tables, moved: set<CredentialId>, now: int) {
    && (forall x :: x in moved ==> x in t0.credentials)
    && (forall x :: x in t0.credentials ==>
          x in t.credentials && t.credentials[x] ==
              if x in moved then RevokedRow(t0.credentials[x], now) else t0.credentials[x])
  }

  ghost predicate NewRow(t0: Tables, t: Tables, moved: set<CredentialId>, x: CredentialId, to: ClientId, now: int) {
    exists id :: id in moved && Replaces(t0, t, id, x, to, now)
  }

  ghost predicate HasReplacement(t0: Tables, t: Tables, id: CredentialId, to: ClientId, now: int) {
    exists x :: Replaces(t0, t, id, x, to, now)
  }

  /** The credential table of `t` is that of `t0` with the rows `moved` revoked, and one new row
      in place of each. */
  ghost predicate CredentialsMoved(t0: Tables, t: Tables, moved: set<CredentialId>, to: ClientId, now: int) {
    && RowsKept(t0, t, moved, now)
    && (forall x :: x in t.credentials && x !in t0.credentials ==> NewRow(t0, t, moved, x, to, now))
    && (forall id :: id in moved ==> HasReplacement(t0, t, id, to, now))
  }

  ghost predicate EnrollmentsMoved(t0: Tables, t: Tables, moved: set<CredentialId>) {
    && (forall k :: k in t0.enrollments ==>
          k in t.enrollments && t.enrollments[k] ==
              if k.0 in moved then RevokedEnrollment(t0.enrollments[k]) else t0.enrollments[k])
    && (forall k :: k in t.enrollments && k !in t0.enrollments ==> k.0 in t.credentials && k.0 !in t0.credentials)
  }

  /** A membership changes only for the actor of a moved row, and then as the loop writes it. */
  ghost predicate MembershipMoved(t0: Tables, t: Tables, moved: set<CredentialId>, a: ActorId, to: ClientId)
    requires a in t0.memberships && a in t.memberships && forall x :: x in moved ==> x in t0.credentials
  {
    var m0, m := t0.memberships[a], t.memberships[a];
    (m == m0 && forall id :: id in moved ==> t0.credentials[id].actor != a) ||
    exists id :: id in moved && t0.credentials[id].actor == a &&
      m == RenewedMembership(m0, m0, t0.credentials[id].clientId, to).(version := m.version)
  }

  /** How many of the moved rows are the actor's. */
  function Times(t0: Tables, moved: set<CredentialId>, a: ActorId): nat {
    |set id | id in moved && id in t0.credentials && t0.credentials[id].actor == a|
  }

  /** Each moved row of the actor counts its membership's version up once. */
  predicate VersionMoved(t0: Tables, t: Tables, moved: set<CredentialId>, a: ActorId)
    requires a in t0.memberships && a in t.memberships
  {
    t.memberships[a].version == t0.memberships[a].version + Times(t0, moved, a)
  }

  ghost predicate MembershipsMoved(t0: Tables, t: Tables, moved: set<CredentialId>, to: ClientId) {
    && (forall x :: x in moved ==> x in t0.credentials)
    && t.memberships.Keys == t0.memberships.Keys
    && (forall a :: a in t0.memberships ==> MembershipMoved(t0, t, moved, a, to))
    && (forall a :: a in t0.memberships ==> VersionMoved(t0, t, moved, a))
  }

  lemma TimesNext(t0: Tables, moved: set<CredentialId>, id: CredentialId, a: ActorId)
    requires id in t0.credentials && id !in moved
    ensures Times(t0, moved + {id}, a) == Times(t0, moved, a) + if t0.credentials[id].actor == a then 1 else 0
  {
    var before := set x | x in moved && x in t0.credentials && t0.credentials[x].actor == a;
    var after := set x | x in moved + {id} && x in t0.credentials && t0.credentials[x].actor == a;
    assert after == if t0.credentials[id].actor == a then before + {id} else before;
  }

  ghost predicate Rotated(t0: Tables, t: Tables, moved: set<CredentialId>, to: ClientId, now: int) {
    && t.actors == t0.actors && t.tenant == t0.tenant && LogAgrees(t) && UniqueBindings(t)
    && CredentialsMoved(t0, t, moved, to, now) && EnrollmentsMoved(t0, t, moved) && MembershipsMoved(t0, t, moved, to)
  }

  /** Rows that have not been moved are as they were. */
  lemma Untouched(t0: Tables, t: Tables, moved: set<CredentialId>, id: CredentialId, to: ClientId, now: int)
    requires CredentialsMoved(t0, t, moved, to, now) && EnrollmentsMoved(t0, t, moved) && id in t0.credentials &&
             id !in moved
    ensures t.credentials[id] == t0.credentials[id]
    ensures forall role :: (id, role) in t.enrollments <==> (id, role) in t0.enrollments
    ensures forall role :: (id, role) in t0.enrollments ==> t.enrollments[(id, role)] == t0.enrollments[(id, role)]
  {
    forall role ensures (id, role) in t.enrollments <==> (id, role) in t0.enrollments {
      assert (id, role).0 == id;
    }
  }

  lemma RotatableStill(t0: Tables, t: Tables, moved: set<CredentialId>, id: CredentialId, to: ClientId, now: int)
    requires CredentialsMoved(t0, t, moved, to, now) && EnrollmentsMoved(t0, t, moved) && id in t0.credentials &&
             id !in moved
    ensures Rotatable(t, id, now) <==> Rotatable(t0, id, now)
  {
    Untouched(t0, t, moved, id, to, now);
  }

  /** No stored row is in the way of a replacement. */
  lemma ReplacementFits(t0: Tables, t: Tables, issuer: string, to: ClientId, ids: seq<CredentialId>,
                        moved: set<CredentialId>, id: CredentialId, now: int, x: CredentialId)
    requires Selectable(t0, issuer, ids, now) && Clear(t0, to, ids, now) && CredentialsMoved(t0, t, moved, to, now)
    requires (forall y :: y in moved ==> y in ids && Rotatable(t0, y, now)) && id in ids && id !in moved &&
             x in t.credentials
    requires Rotatable(t0, id, now)
    ensures !SameBinding(t.credentials[x], Replacement(t0.credentials[id], to, now))
  {
    hide TableOk, Rotatable, Fits, HasReplacement;
    assert Movable(t0, id, issuer, now);
    if x in t0.credentials {
      assert !Occupied(t0, id, to, now);
      assert SameBinding(t.credentials[x], t0.credentials[x]);
    } else {
      var y :| y in moved && Replaces(t0, t, y, x, to, now);
      assert !SameSubject(t0, id, y);
    }
  }

  /** The tables between the first updates and the insert of the new row. */
  function Prepared(t: Tables, selected: Membership, id: CredentialId, to: ClientId, now: int): Tables
    requires id in t.credentials && t.credentials[id].actor in t.memberships
  {
    var c := t.credentials[id];
    t.(memberships := t.memberships[c.actor := RenewedMembership(t.memberships[c.actor], selected, c.clientId, to)],
       enrollments := RotatedEnrollments(t.enrollments, id, c.actor, FreshId(t), to, now),
       sessions := EndSessions(t.sessions, id))
  }

  lemma RotateOneValue(t: Tables, selected: map<ActorId, Membership>, id: CredentialId, to: ClientId, now: int)
    requires Rotatable(t, id, now) && t.credentials[id].actor in t.memberships && t.credentials[id].actor in selected
    requires LogAgrees(t) && CanRevoke(t, id, now) && ActorActive(t, t.credentials[id].actor)
    requires t.actors[t.credentials[id].actor].actorType == t.credentials[id].actorType
    requires Unexpired(t.credentials[id].expiresAt, now)
    requires WritableRows(t, selected, id, to, now) && CredentialRow(Replacement(t.credentials[id], to, now))
    requires forall x :: x in t.credentials ==> !SameBinding(t.credentials[x], Replacement(t.credentials[id], to, now))
    ensures FreshId(t) !in t.credentials
    ensures var c, t1 := t.credentials[id], Prepared(t, selected[t.credentials[id].actor], id, to, now);
            RotateOne(t, selected, id, to, now) ==
              Some(t1.(credentials := t.credentials[id := RevokedRow(c, now)][FreshId(t) := Replacement(c, to, now)],
                       events := t.events + [Event(CredentialRevoked, id, None)]
                                   + [Event(CredentialRegistered, FreshId(t), None)],
                       nextId := t.nextId + 1))
  {
    hide CredentialRow, WritableRows, LogAgrees, Rotatable, RenewedMembership, RotatedEnrollments, EndSessions;
    FreshUnused(t);
    var c, next, t1 := t.credentials[id], FreshId(t), Prepared(t, selected[t.credentials[id].actor], id, to, now);
    var t2 := Revoke(t1, id, now).value;
    forall x | x in t2.credentials ensures !SameBinding(t2.credentials[x], Replacement(c, to, now)) {
      assert x in t.credentials && SameBinding(t2.credentials[x], t.credentials[x]);
    }
    assert CanInsert(t2, next, Replacement(c, to, now));
  }

  /** Tables `t` and `u` before and after one moved row. */
  ghost predicate MovedOne(t: Tables, u: Tables, c: Credential, m0: Membership, id: CredentialId, next: CredentialId,
                           to: ClientId, now: int)
  {
    && id in t.credentials && next !in t.credentials && c.actor in t.memberships
    && u.actors == t.actors && u.tenant == t.tenant
    && u.credentials == t.credentials[id := RevokedRow(c, now)][next := Replacement(c, to, now)]
    && u.enrollments == RotatedEnrollments(t.enrollments, id, c.actor, next, to, now)
    && u.memberships == t.memberships[c.actor := RenewedMembership(t.memberships[c.actor], m0, c.clientId, to)]
  }

  lemma {:induction false} DedupShort<T>(s: seq<T>)
    ensures |Dedup(s)| <= |s|
  {
    if s != [] { DedupShort(s[..|s| - 1]); }
  }

  /** The replacement passes its column checks exactly when the client and the list do. */
  lemma ReplacementRow(c: Credential, to: ClientId, now: int)
    requires CredentialRow(c)
    ensures CredentialRow(Replacement(c, to, now)) <==> SafeId(to) && |Extended(c.capabilities)| <= 64
  {
    ExtendedList(c.capabilities);
    hide Extended, SafeId, Origin, ListItem, Distinct;
  }

  lemma RenewedEnrollmentRow(role: Role, e: Enrollment, actor: ActorId, to: ClientId, now: int)
    requires EnrollmentRow(role, e) && Unexpired(e.expiresAt, now)
    ensures EnrollmentRow(role, RenewedEnrollment(e, actor, to, now)) <==>
              ListItem(to) && |Extended(e.capabilities)| <= 64
  {
    ExtendedList(e.capabilities);
    hide Extended, SafeId, ListItem;
    assert StringList([to], 16) <==> ListItem(to) by {
      assert [to][0] == to;
    }
  }

  lemma RenewedMembershipRow(m: Membership, selected: Membership, from: ClientId, to: ClientId)
    requires MembershipRow(m) && MembershipRow(selected)
    ensures MembershipRow(RenewedMembership(m, selected, from, to))
  {
    DedupShort(Replace(selected.clientIds, from, to));
  }

  /** A membership on its way through the loop keeps what its column checks look at. */
  lemma MovedMembershipRow(t0: Tables, t: Tables, moved: set<CredentialId>, a: ActorId, to: ClientId)
    requires RowsOk(t0) && MembershipsMoved(t0, t, moved, to) && a in t0.memberships
    ensures a in t.memberships && MembershipRow(t.memberships[a])
  {
    hide CredentialRow, EnrollmentRow, Extended, Dedup, Replace;
    assert MembershipMoved(t0, t, moved, a, to);
    var m0 := t0.memberships[a];
    forall from ensures MembershipRow(RenewedMembership(m0, m0, from, to)) { RenewedMembershipRow(m0, m0, from, to); }
  }

  /** Rows that fit pass the column checks when their turn comes. */
  lemma Writable(t0: Tables, t: Tables, moved: set<CredentialId>, id: CredentialId, to: ClientId, now: int)
    requires RowsOk(t0) && Rotated(t0, t, moved, to, now) && id in t0.credentials && id !in moved
    requires Rotatable(t0, id, now) && Fits(t0, id, to) && t0.credentials[id].actor in t0.memberships
    ensures id in t.credentials && t.credentials[id] == t0.credentials[id] && t.credentials[id].actor in t.memberships
    ensures WritableRows(t, t0.memberships, id, to, now) && CredentialRow(Replacement(t.credentials[id], to, now))
  {
    hide CredentialRow, EnrollmentRow, MembershipRow, Extended, ListItem, SafeId, LogAgrees, UniqueBindings;
    Untouched(t0, t, moved, id, to, now);
    var c := t0.credentials[id];
    ListItemSafe(to);
    ReplacementRow(c, to, now);
    MovedMembershipRow(t0, t, moved, c.actor, to);
    RenewedMembershipRow(t.memberships[c.actor], t0.memberships[c.actor], c.clientId, to);
    forall role | (id, role) in t.enrollments
      ensures EnrollmentRow(role, RenewedEnrollment(t.enrollments[(id, role)], c.actor, to, now))
    {
      assert t.enrollments[(id, role)] == t0.enrollments[(id, role)];
      assert EnrollmentRow((id, role).1, t0.enrollments[(id, role)]);
      RenewedEnrollmentRow(role, t0.enrollments[(id, role)], c.actor, to, now);
    }
  }

  lemma RotateOneCommits(t0: Tables, t: Tables, issuer: string, to: ClientId, ids: seq<CredentialId>,
                         moved: set<CredentialId>, id: CredentialId, now: int)
    requires Selectable(t0, issuer, ids, now) && Clear(t0, to, ids, now) && Rotated(t0, t, moved, to, now)
    requires (forall y :: y in moved ==> y in ids && Rotatable(t0, y, now)) && id in ids && id !in moved &&
             Rotatable(t0, id, now)
    ensures var u := RotateOne(t, t0.memberships, id, to, now);
            && u.Some? && t0.credentials[id].actor in t0.memberships
            && MovedOne(t, u.value, t0.credentials[id], t0.memberships[t0.credentials[id].actor], id, FreshId(t), to,
                        now)
            && UniqueBindings(u.value)
  {
    hide Selectable, Clear, Rotated, Rotatable, Fits, RowsOk, SameBinding, WritableRows, CredentialRow, LogAgrees,
         Replacement, UniqueBindings, CredentialsMoved, EnrollmentsMoved, MembershipsMoved;
    KnownRow(t0, issuer, ids, id, now);
    ClearFits(t0, to, ids, id, now);
    RotatedParts(t0, t, moved, to, now);
    Untouched(t0, t, moved, id, to, now);
    RotatableStill(t0, t, moved, id, to, now);
    Writable(t0, t, moved, id, to, now);
    forall x | x in t.credentials ensures !SameBinding(t.credentials[x], Replacement(t.credentials[id], to, now)) {
      ReplacementFits(t0, t, issuer, to, ids, moved, id, now, x);
    }
    RotateOneValue(t, t0.memberships, id, to, now);
    StepUnique(t, RotateOne(t, t0.memberships, id, to, now).value, t0.credentials[id],
               t0.memberships[t0.credentials[id].actor], id, FreshId(t), to, now);
  }

  /** What is known of a selected row. */
  lemma KnownRow(t: Tables, issuer: string, ids: seq<CredentialId>, id: CredentialId, now: int)
    requires Selectable(t, issuer, ids, now) && id in ids
    ensures RowsOk(t) && id in t.credentials && CanRevoke(t, id, now) && Unexpired(t.credentials[id].expiresAt, now)
    ensures var a := t.credentials[id].actor;
            a in t.memberships && ActorActive(t, a) && t.actors[a].actorType == t.credentials[id].actorType
  {
    hide LogAgrees, UniqueBindings, RowsOk;
    assert Movable(t, id, issuer, now);
  }

  lemma ClearFits(t: Tables, to: ClientId, ids: seq<CredentialId>, id: CredentialId, now: int)
    requires Clear(t, to, ids, now) && id in ids && Rotatable(t, id, now)
    ensures Fits(t, id, to)
  {
    hide Fits, Rotatable, Occupied, SameSubject;
  }

  lemma RotatedParts(t0: Tables, t: Tables, moved: set<CredentialId>, to: ClientId, now: int)
    requires Rotated(t0, t, moved, to, now)
    ensures LogAgrees(t) && UniqueBindings(t) && t.actors == t0.actors && t.tenant == t0.tenant
    ensures CredentialsMoved(t0, t, moved, to, now) && EnrollmentsMoved(t0, t, moved)
    ensures MembershipsMoved(t0, t, moved, to) && t.memberships.Keys == t0.memberships.Keys
    ensures forall x :: x in t0.credentials ==> x in t.credentials
  {
    hide LogAgrees, UniqueBindings, EnrollmentsMoved, MembershipMoved, NewRow, HasReplacement;
  }

  lemma StepUnique(t: Tables, u: Tables, c: Credential, m0: Membership, id: CredentialId, next: CredentialId,
                   to: ClientId, now: int)
    requires UniqueBindings(t) && MovedOne(t, u, c, m0, id, next, to, now) && t.credentials[id] == c
    requires forall x :: x in t.credentials ==> !SameBinding(t.credentials[x], Replacement(c, to, now))
    ensures UniqueBindings(u)
  {
    forall x | x in u.credentials && x != next ensures x in t.credentials &&
        SameBinding(u.credentials[x], t.credentials[x]) {
    }
  }

  lemma KeepsReplacement(t0: Tables, t: Tables, u: Tables, m0: Membership, id: CredentialId, next: CredentialId,
                         y: CredentialId, x: CredentialId, to: ClientId, now: int)
    requires id in t0.credentials && MovedOne(t, u, t0.credentials[id], m0, id, next, to, now) &&
             Replaces(t0, t, y, x, to, now)
    ensures Replaces(t0, u, y, x, to, now)
  {
    assert x != id && x != next;
    forall role ensures (x, role) in u.enrollments <==> (x, role) in t.enrollments {
    }
  }

  lemma CopiedEnrollments(enrollments: map<(CredentialId, Role), Enrollment>, id: CredentialId, actor: ActorId,
                          next: CredentialId, to: ClientId, now: int)
    requires forall role :: (next, role) !in enrollments
    ensures var u := RotatedEnrollments(enrollments, id, actor, next, to, now);
            && (forall role :: (next, role) in u <==> (id, role) in enrollments)
            && (forall role :: (id, role) in enrollments ==>
                  u[(next, role)] == RenewedEnrollment(enrollments[(id, role)], actor, to, now))
  {
    hide RenewedEnrollment, RevokedEnrollment;
    assert forall role: Role :: (next, role).0 == next;
  }

  lemma NextIsNew(t0: Tables, t: Tables, moved: set<CredentialId>, next: CredentialId, to: ClientId, now: int)
    requires CredentialsMoved(t0, t, moved, to, now) && EnrollmentsMoved(t0, t, moved) && next !in t.credentials
    requires forall k :: k in t0.enrollments ==> k.0 in t0.credentials
    ensures next !in t0.credentials && forall role :: (next, role) !in t.enrollments
  {
    hide HasReplacement, NewRow;
    assert forall role: Role :: (next, role).0 == next;
  }

  lemma NewReplacement(t0: Tables, t: Tables, u: Tables, moved: set<CredentialId>, m0: Membership, id: CredentialId,
                       next: CredentialId, to: ClientId, now: int)
    requires CredentialsMoved(t0, t, moved, to, now) && EnrollmentsMoved(t0, t, moved)
    requires (forall k :: k in t0.enrollments ==> k.0 in t0.credentials) && id in t0.credentials && id !in moved
    requires MovedOne(t, u, t0.credentials[id], m0, id, next, to, now)
    ensures Replaces(t0, u, id, next, to, now)
  {
    hide CredentialsMoved, EnrollmentsMoved, RotatedEnrollments, RenewedEnrollment, Replacement, RevokedRow,
         RenewedMembership;
    Untouched(t0, t, moved, id, to, now);
    NextIsNew(t0, t, moved, next, to, now);
    CopiedEnrollments(t.enrollments, id, t0.credentials[id].actor, next, to, now);
  }

  lemma StepRows(t0: Tables, t: Tables, u: Tables, moved: set<CredentialId>, m0: Membership, id: CredentialId,
                 next: CredentialId, to: ClientId, now: int)
    requires RowsKept(t0, t, moved, now) && id in t0.credentials && next !in t0.credentials
    requires MovedOne(t, u, t0.credentials[id], m0, id, next, to, now)
    ensures RowsKept(t0, u, moved + {id}, now)
  {
  }

  lemma StepNewRow(t0: Tables, t: Tables, u: Tables, moved: set<CredentialId>, m0: Membership, id: CredentialId,
                   next: CredentialId, x: CredentialId, to: ClientId, now: int)
    requires NewRow(t0, t, moved, x, to, now) && id in t0.credentials
    requires MovedOne(t, u, t0.credentials[id], m0, id, next, to, now)
    ensures NewRow(t0, u, moved + {id}, x, to, now)
  {
    var y :| y in moved && Replaces(t0, t, y, x, to, now);
    KeepsReplacement(t0, t, u, m0, id, next, y, x, to, now);
    assert y in moved + {id};
  }

  lemma StepReplaced(t0: Tables, t: Tables, u: Tables, m0: Membership, id: CredentialId,
                     next: CredentialId, y: CredentialId, to: ClientId, now: int)
    requires HasReplacement(t0, t, y, to, now) && id in t0.credentials
    requires MovedOne(t, u, t0.credentials[id], m0, id, next, to, now)
    ensures HasReplacement(t0, u, y, to, now)
  {
    var x :| Replaces(t0, t, y, x, to, now);
    KeepsReplacement(t0, t, u, m0, id, next, y, x, to, now);
  }

  lemma Introduced(t0: Tables, u: Tables, moved: set<CredentialId>, id: CredentialId, next: CredentialId,
                   to: ClientId, now: int)
    requires Replaces(t0, u, id, next, to, now)
    ensures NewRow(t0, u, moved + {id}, next, to, now) && HasReplacement(t0, u, id, to, now)
  {
    assert id in moved + {id};
  }

  lemma MovedKeys(t: Tables, u: Tables, c: Credential, m0: Membership, id: CredentialId, next: CredentialId,
                  to: ClientId, now: int)
    requires MovedOne(t, u, c, m0, id, next, to, now)
    ensures u.credentials.Keys == t.credentials.Keys + {next}
  {
  }

  lemma StepCredentials(t0: Tables, t: Tables, u: Tables, moved: set<CredentialId>, m0: Membership, id: CredentialId,
                        next: CredentialId, to: ClientId, now: int)
    requires CredentialsMoved(t0, t, moved, to, now) && id in t0.credentials && next !in t0.credentials
    requires MovedOne(t, u, t0.credentials[id], m0, id, next, to, now) && Replaces(t0, u, id, next, to, now)
    ensures CredentialsMoved(t0, u, moved + {id}, to, now)
  {
    hide RowsKept, NewRow, HasReplacement, MovedOne, Replaces;
    StepRows(t0, t, u, moved, m0, id, next, to, now);
    Introduced(t0, u, moved, id, next, to, now);
    MovedKeys(t, u, t0.credentials[id], m0, id, next, to, now);
    forall y | y in moved ensures HasReplacement(t0, u, y, to, now) {
      StepReplaced(t0, t, u, m0, id, next, y, to, now);
    }
    forall x | x in u.credentials && x !in t0.credentials && x != next ensures NewRow(t0, u, moved + {id}, x, to, now) {
      StepNewRow(t0, t, u, moved, m0, id, next, x, to, now);
    }
  }

  lemma StepEnrollments(t0: Tables, t: Tables, u: Tables, moved: set<CredentialId>, m0: Membership, id: CredentialId,
                        next: CredentialId, to: ClientId, now: int)
    requires EnrollmentsMoved(t0, t, moved) && id in t0.credentials && id !in moved
    requires (forall k :: k in t0.enrollments ==> k.0 in t0.credentials) && next !in t0.credentials
    requires MovedOne(t, u, t0.credentials[id], m0, id, next, to, now)
    ensures EnrollmentsMoved(t0, u, moved + {id})
  {
    assert forall k :: k in t0.enrollments ==> k.0 != next;
    assert forall role: Role :: (next, role).0 == next && (id, role).0 == id;
  }

  /** The moved row's own actor. */
  lemma StepMembership(t0: Tables, t: Tables, u: Tables, moved: set<CredentialId>, id: CredentialId, to: ClientId)
    requires (forall x :: x in moved ==> x in t0.credentials) && id in t0.credentials
    requires var a := t0.credentials[id].actor;
             a in t0.memberships && a in t.memberships && a in u.memberships && MembershipMoved(t0, t, moved, a, to) &&
             u.memberships[a] == RenewedMembership(t.memberships[a], t0.memberships[a], t0.credentials[id].clientId, to)
    ensures MembershipMoved(t0, u, moved + {id}, t0.credentials[id].actor, to)
  {
    hide Extended, Dedup, Replace;
    var a := t0.credentials[id].actor;
    assert id in moved + {id};
    assert u.memberships[a] ==
      RenewedMembership(t0.memberships[a], t0.memberships[a], t0.credentials[id].clientId,
                        to).(version := u.memberships[a].version);
  }

  lemma StepMemberships(t0: Tables, t: Tables, u: Tables, moved: set<CredentialId>, id: CredentialId,
                        next: CredentialId, to: ClientId, now: int)
    requires MembershipsMoved(t0, t, moved, to) && id in t0.credentials && t0.credentials[id].actor in t0.memberships
    requires MovedOne(t, u, t0.credentials[id], t0.memberships[t0.credentials[id].actor], id, next, to, now)
    requires id !in moved
    ensures MembershipsMoved(t0, u, moved + {id}, to)
  {
    hide Extended, Dedup, Replace, RotatedEnrollments, Replacement, Times;
    forall a | a in t0.memberships ensures VersionMoved(t0, u, moved + {id}, a) {
      assert VersionMoved(t0, t, moved, a);
      TimesNext(t0, moved, id, a);
    }
    forall a | a in t0.memberships ensures MembershipMoved(t0, u, moved + {id}, a, to) {
      assert MembershipMoved(t0, t, moved, a, to);
      assert id in moved + {id};
      if a == t0.credentials[id].actor {
        StepMembership(t0, t, u, moved, id, to);
      } else {
        assert u.memberships[a] == t.memberships[a];
      }
    }
  }

  lemma RotateStep(t0: Tables, t: Tables, issuer: string, to: ClientId, ids: seq<CredentialId>,
                   moved: set<CredentialId>, id: CredentialId, now: int)
    requires Selectable(t0, issuer, ids, now) && Clear(t0, to, ids, now) && Rotated(t0, t, moved, to, now)
    requires (forall y :: y in moved ==> y in ids && Rotatable(t0, y, now)) && id in ids && id !in moved
    ensures RotateOne(t, t0.memberships, id, to, now).Some?
    ensures Rotated(t0, RotateOne(t, t0.memberships, id, to, now).value,
                    if Rotatable(t0, id, now) then moved + {id} else moved, to, now)
  {
    hide Rotatable, MovedOne, Clear, Rotated, LogAgrees, UniqueBindings, RowsOk, CredentialsMoved, EnrollmentsMoved;
    KnownRow(t0, issuer, ids, id, now);
    RotatedParts(t0, t, moved, to, now);
    RotatableStill(t0, t, moved, id, to, now);
    if Rotatable(t0, id, now) {
      RotateOneCommits(t0, t, issuer, to, ids, moved, id, now);
      RotateOneSound(t, t0.memberships, id, to, now);
      var u := RotateOne(t, t0.memberships, id, to, now).value;
      SoundAgrees(t, u);
      StepMoves(t0, t, u, moved, id, FreshId(t), to, now);
    }
  }

  /** One more row moved. */
  lemma StepMoves(t0: Tables, t: Tables, u: Tables, moved: set<CredentialId>, id: CredentialId, next: CredentialId,
                  to: ClientId, now: int)
    requires Rotated(t0, t, moved, to, now) && id in t0.credentials && id !in moved
    requires (forall k :: k in t0.enrollments ==> k.0 in t0.credentials) && t0.credentials[id].actor in t0.memberships
    requires MovedOne(t, u, t0.credentials[id], t0.memberships[t0.credentials[id].actor], id, next, to, now)
    requires LogAgrees(u) && UniqueBindings(u)
    ensures Rotated(t0, u, moved + {id}, to, now)
  {
    hide LogAgrees, UniqueBindings, CredentialsMoved, EnrollmentsMoved, MembershipsMoved, RotatedEnrollments,
         RenewedMembership, Replacement, RevokedRow;
    var m0 := t0.memberships[t0.credentials[id].actor];
    RotatedParts(t0, t, moved, to, now);
    NewReplacement(t0, t, u, moved, m0, id, next, to, now);
    StepCredentials(t0, t, u, moved, m0, id, next, to, now);
    StepEnrollments(t0, t, u, moved, m0, id, next, to, now);
    StepMemberships(t0, t, u, moved, id, next, to, now);
  }

  /** The rows of a list that rotation replaces. */
  ghost function ToMove(t: Tables, ids: seq<CredentialId>, now: int): set<CredentialId> {
    set id | id in ids && Rotatable(t, id, now)
  }

  lemma ToMoveCons(t: Tables, moved: set<CredentialId>, rest: seq<CredentialId>, now: int)
    requires rest != []
    ensures (if Rotatable(t, rest[0], now) then moved + {rest[0]} else moved) + ToMove(t, rest[1..], now) ==
              moved + ToMove(t, rest, now)
  {
    assert rest == [rest[0]] + rest[1..];
  }

  lemma {:induction false} RotateFrom(t0: Tables, t: Tables, issuer: string, to: ClientId, ids: seq<CredentialId>,
                                      moved: set<CredentialId>, rest: seq<CredentialId>, now: int)
    requires Selectable(t0, issuer, ids, now) && Clear(t0, to, ids, now) && Rotated(t0, t, moved, to, now)
    requires Distinct(rest) && (forall x :: x in rest ==> x in ids && x !in moved)
    requires forall x :: x in moved ==> x in ids && Rotatable(t0, x, now)
    ensures RotateRows(t, t0.memberships, rest, to, now).Some?
    ensures Rotated(t0, RotateRows(t, t0.memberships, rest, to, now).value, moved + ToMove(t0, rest, now), to, now)
    decreases |rest|
  {
    hide Selectable, Clear, Rotated, Rotatable;
    if rest == [] {
      assert moved + ToMove(t0, rest, now) == moved;
    } else {
      var id := rest[0];
      RotateStep(t0, t, issuer, to, ids, moved, id, now);
      var t1 := RotateOne(t, t0.memberships, id, to, now).value;
      var next := if Rotatable(t0, id, now) then moved + {id} else moved;
      ToMoveCons(t0, moved, rest, now);
      RotateFrom(t0, t1, issuer, to, ids, next, rest[1..], now);
    }
  }

  // ---------------------------------------------------------------------------------------
  // When rotation fails

  /** A binding is taken, or something does not fit its column. */
  ghost predicate Blocked(t: Tables, id: CredentialId, to: ClientId, now: int)
    requires id in t.credentials
  {
    Occupied(t, id, to, now) || !Fits(t, id, to)
  }

  lemma OneBlocked(t: Tables, selected: map<ActorId, Membership>, id: CredentialId, to: ClientId, now: int)
    requires Rotatable(t, id, now) && Blocked(t, id, to, now)
    ensures RotateOne(t, selected, id, to, now).None?
  {
    if Occupied(t, id, to, now) { OneOccupied(t, selected, id, to, now); } else { OneUnfit(t, selected, id, to, now); }
  }

  lemma OneUnfit(t: Tables, selected: map<ActorId, Membership>, id: CredentialId, to: ClientId, now: int)
    requires Rotatable(t, id, now) && !Fits(t, id, to)
    ensures RotateOne(t, selected, id, to, now).None?
  {
    hide RotatedEnrollments, EndSessions, RenewedMembership, Extended, ListItem, SafeId, Origin, SameBinding;
    var c := t.credentials[id];
    if !CanLog(t) {
    } else if |Extended(c.capabilities)| > 64 {
      assert !CredentialRow(Replacement(c, to, now));
    } else {
      var role :| (id, role) in t.enrollments &&
          (!ListItem(to) || |Extended(t.enrollments[(id, role)].capabilities)| > 64);
      var e := RenewedEnrollment(t.enrollments[(id, role)], c.actor, to, now);
      assert e.clientIds[0] == to;
      assert !EnrollmentRow(role, e);
    }
  }

  lemma OneOccupied(t: Tables, selected: map<ActorId, Membership>, id: CredentialId, to: ClientId, now: int)
    requires Rotatable(t, id, now) && Occupied(t, id, to, now)
    ensures RotateOne(t, selected, id, to, now).None?
  {
    var c := t.credentials[id];
    hide Rotatable, RotatedEnrollments, EndSessions, RenewedMembership, CredentialRow, WritableRows;
    var x :| x in t.credentials && SameBinding(t.credentials[x], Replacement(c, to, now));
    forall u: Tables | u.credentials == t.credentials[id := RevokedRow(c, now)]
      ensures !CanInsert(u, FreshId(t), Replacement(c, to, now))
    {
      assert SameBinding(u.credentials[x], Replacement(c, to, now));
    }
  }

  /** Rotating another row does not touch `id`, its enrollments or what blocks it. */
  lemma OthersUntouched(t: Tables, selected: map<ActorId, Membership>, other: CredentialId, id: CredentialId,
                        to: ClientId, now: int)
    requires LogAgrees(t) && RotateOne(t, selected, other, to, now).Some? && other != id && Rotatable(t, id, now)
    ensures var u := RotateOne(t, selected, other, to, now).value;
            && LogAgrees(u) && Rotatable(u, id, now) && u.credentials[id] == t.credentials[id]
            && (Blocked(t, id, to, now) ==> Blocked(u, id, to, now))
            && (forall x :: x in t.credentials ==>
                  x in u.credentials && SameBinding(t.credentials[x], u.credentials[x]))
            && (Rotatable(t, other, now) ==>
                  FreshId(t) in u.credentials &&
                  u.credentials[FreshId(t)] == Replacement(t.credentials[other], to, now))
  {
    RotateOneSound(t, selected, other, to, now);
    var u := RotateOne(t, selected, other, to, now).value;
    forall x | x in t.credentials ensures x in u.credentials && SameBinding(t.credentials[x], u.credentials[x]) {
      assert SameGrant(t.credentials[x], u.credentials[x]);
    }
    hide LogAgrees, Sound, Preserves, Extended, ListItem;
    if Rotatable(t, other, now) {
      RotatedOther(t, selected, other, id, to, now);
    }
    if Occupied(t, id, to, now) {
      var x :| x in t.credentials && SameBinding(t.credentials[x], Replacement(t.credentials[id], to, now));
      assert SameBinding(u.credentials[x], Replacement(u.credentials[id], to, now));
    }
  }

  lemma RotatedOther(t: Tables, selected: map<ActorId, Membership>, other: CredentialId, id: CredentialId,
                     to: ClientId, now: int)
    requires Rotatable(t, other, now) && RotateOne(t, selected, other, to, now).Some? && other != id &&
             Rotatable(t, id, now)
    ensures var u := RotateOne(t, selected, other, to, now).value;
            && Rotatable(u, id, now) && u.credentials[id] == t.credentials[id] && FreshId(t) !in t.credentials
            && u.memberships.Keys == t.memberships.Keys
            && (forall role :: (id, role) in u.enrollments <==> (id, role) in t.enrollments)
            && (forall role :: (id, role) in t.enrollments ==> u.enrollments[(id, role)] == t.enrollments[(id, role)])
            && FreshId(t) in u.credentials && u.credentials[FreshId(t)] == Replacement(t.credentials[other], to, now)
  {
    hide SameBinding, RenewedMembership, EndSessions, CredentialRow, WritableRows;
    var u := RotateOne(t, selected, other, to, now).value;
    assert id != FreshId(t);
    forall role
      ensures (id, role) in u.enrollments <==> (id, role) in t.enrollments
      ensures (id, role) in t.enrollments ==> u.enrollments[(id, role)] == t.enrollments[(id, role)]
    {
      assert (id, role).0 == id;
    }
  }

  /** One blocked row anywhere in the list fails the whole rotation. */
  lemma {:induction false} BlockedFails(t: Tables, selected: map<ActorId, Membership>, ids: seq<CredentialId>,
                                        to: ClientId, now: int,
                                         id: CredentialId)
    requires LogAgrees(t) && id in ids && Rotatable(t, id, now) && Blocked(t, id, to, now)
    ensures RotateRows(t, selected, ids, to, now).None?
    decreases |ids|
  {
    hide LogAgrees, Rotatable, Blocked, RotateOne;
    if ids[0] == id {
      OneBlocked(t, selected, id, to, now);
    } else if RotateOne(t, selected, ids[0], to, now).Some? {
      OthersUntouched(t, selected, ids[0], id, to, now);
      BlockedFails(RotateOne(t, selected, ids[0], to, now).value, selected, ids[1..], to, now, id);
    }
  }

  /** So do two rows of one subject: the first one's replacement occupies the second's binding. */
  lemma {:induction false} SharedSubjectFails(t: Tables, selected: map<ActorId, Membership>, ids: seq<CredentialId>,
                                              to: ClientId, now: int,
                                              x: CredentialId, y: CredentialId)
    requires LogAgrees(t) && x in ids && y in ids && x != y && Rotatable(t, x, now) && Rotatable(t, y, now)
    requires SameSubject(t, x, y) && t.credentials[x].issuer == t.credentials[y].issuer
    ensures RotateRows(t, selected, ids, to, now).None?
    decreases |ids|
  {
    hide LogAgrees, Rotatable, Blocked, RotateOne;
    var r := RotateOne(t, selected, ids[0], to, now);
    if r.Some? {
      if ids[0] == x || ids[0] == y {
        var later := if ids[0] == x then y else x;
        OthersUntouched(t, selected, ids[0], later, to, now);
        NowOccupied(r.value, FreshId(t), later, to, now);
        BlockedFails(r.value, selected, ids[1..], to, now, later);
      } else {
        OthersUntouched(t, selected, ids[0], x, to, now);
        OthersUntouched(t, selected, ids[0], y, to, now);
        SharedSubjectFails(r.value, selected, ids[1..], to, now, x, y);
      }
    }
  }

  lemma NowOccupied(t: Tables, next: CredentialId, id: CredentialId, to: ClientId, now: int)
    requires next in t.credentials && id in t.credentials && t.credentials[next].clientId == to
    requires t.credentials[next].issuer == t.credentials[id].issuer &&
             t.credentials[next].subject == t.credentials[id].subject
    ensures Blocked(t, id, to, now)
  {
    assert SameBinding(t.credentials[next], Replacement(t.credentials[id], to, now));
  }

  lemma UnclearFails(t: Tables, issuer: string, to: ClientId, ids: seq<CredentialId>, now: int)
    requires Selectable(t, issuer, ids, now) && !Clear(t, to, ids, now)
    ensures RotateRows(t, t.memberships, ids, to, now).None?
  {
    assert LogAgrees(t);
    hide Rotatable, Occupied, Fits, RotateRows, TableOk, LogAgrees;
    if id :| id in ids && Rotatable(t, id, now) && (!Fits(t, id, to) || Occupied(t, id, to, now)) {
      BlockedFails(t, t.memberships, ids, to, now, id);
    } else {
      var x, y :| x in ids && y in ids && x != y && Rotatable(t, x, now) && Rotatable(t, y, now) &&
          SameSubject(t, x, y);
      assert Movable(t, x, issuer, now) && Movable(t, y, issuer, now);
      SharedSubjectFails(t, t.memberships, ids, to, now, x, y);
    }
  }

  /** Rotation commits exactly when no replacement's binding is occupied, no two rows to be
      replaced are for one subject, and what is written fits its columns. It then replaces each
      row whose enrollments are live by exactly one new row, leaving every other row alone. */
  lemma RotationCommitsExactly(t: Tables, issuer: string, to: ClientId, ids: seq<CredentialId>, now: int)
    requires Selectable(t, issuer, ids, now)
    ensures var r := RotateRows(t, t.memberships, ids, to, now);
            && (r.Some? <==> Clear(t, to, ids, now))
            && (r.Some? ==> Rotated(t, r.value, ToMove(t, ids, now), to, now))
  {
    if Clear(t, to, ids, now) {
      assert {} + ToMove(t, ids, now) == ToMove(t, ids, now);
      NothingMoved(t, issuer, to, ids, now);
      hide Clear, Selectable, Rotated, RotateRows, ToMove;
      RotateFrom(t, t, issuer, to, ids, {}, ids, now);
    } else {
      UnclearFails(t, issuer, to, ids, now);
    }
  }

  lemma NothingMoved(t: Tables, issuer: string, to: ClientId, ids: seq<CredentialId>, now: int)
    requires Selectable(t, issuer, ids, now)
    ensures Rotated(t, t, {}, to, now) && Distinct(ids)
  {
  }

  lemma RotationReplacesEach(t: Tables, issuer: string, to: ClientId, ids: seq<CredentialId>, now: int)
    requires CanMove(t, issuer, to, ids, now)
    ensures RotateRows(t, t.memberships, ids, to, now).Some?
    ensures Rotated(t, RotateRows(t, t.memberships, ids, to, now).value, ToMove(t, ids, now), to, now)
  {
    CanMoveClear(t, issuer, to, ids, now);
    RotationCommitsExactly(t, issuer, to, ids, now);
  }

  // ---------------------------------------------------------------------------------------
  // Sessions

  /** Between `t` and `u` a session was ended exactly when its credential was revoked. */
  ghost predicate SessionsFollow(t: Tables, u: Tables) {
    u.sessions.Keys == t.sessions.Keys &&
    forall s :: s in t.sessions && t.sessions[s].credential in t.credentials ==> SessionFollows(t, u, s)
  }

  predicate SessionFollows(t: Tables, u: Tables, s: string)
    requires s in t.sessions && s in u.sessions && t.sessions[s].credential in t.credentials
  {
    var id := t.sessions[s].credential;
    id in u.credentials &&
    if t.credentials[id].status != Revoked && u.credentials[id].status == Revoked
    then u.sessions[s] == t.sessions[s].(active := false)
    else u.sessions[s] == t.sessions[s] && u.credentials[id].status == t.credentials[id].status
  }

  lemma RotateOneEndsSessions(t: Tables, selected: map<ActorId, Membership>, id: CredentialId, to: ClientId, now: int)
    requires RotateOne(t, selected, id, to, now).Some?
    ensures SessionsFollow(t, RotateOne(t, selected, id, to, now).value)
  {
    hide Rotatable, RotatedEnrollments, RenewedMembership, SameBinding;
    var u := RotateOne(t, selected, id, to, now).value;
    if Rotatable(t, id, now) {
      assert u.sessions == EndSessions(t.sessions, id);
      assert u.credentials ==
             t.credentials[id := RevokedRow(t.credentials[id], now)][FreshId(t) := u.credentials[FreshId(t)]];
      assert FreshId(t) !in t.credentials && t.credentials[id].status != Revoked;
    }
  }

  lemma SessionsFollowTrans(t: Tables, u: Tables, v: Tables)
    requires SessionsFollow(t, u) && SessionsFollow(u, v)
    ensures SessionsFollow(t, v)
  {
    forall s | s in t.sessions && t.sessions[s].credential in t.credentials ensures SessionFollows(t, v, s) {
      assert SessionFollows(t, u, s);
      assert SessionFollows(u, v, s);
    }
  }

  /** Rotation ends the sessions of the credentials it revokes, and no others. */
  lemma {:induction false} RotationEndsSessions(t: Tables, selected: map<ActorId, Membership>, ids: seq<CredentialId>,
                                                to: ClientId, now: int)
    requires RotateRows(t, selected, ids, to, now).Some?
    ensures SessionsFollow(t, RotateRows(t, selected, ids, to, now).value)
    decreases |ids|
  {
    if ids != [] {
      hide RotateOne;
      var u := RotateOne(t, selected, ids[0], to, now).value;
      RotateOneEndsSessions(t, selected, ids[0], to, now);
      RotationEndsSessions(u, selected, ids[1..], to, now);
      SessionsFollowTrans(t, u, RotateRows(t, selected, ids, to, now).value);
    }
  }

  // ---------------------------------------------------------------------------------------
  // Rotation followed by seeding

  /** Template capabilities, or capabilities that were already extended. */
  predicate Granted(capabilities: seq<Capability>, template: seq<Capability>) {
    capabilities == template || capabilities == Extended(template)
  }

  lemma GrantedExtends(capabilities: seq<Capability>, template: seq<Capability>)
    requires Granted(capabilities, template)
    ensures Extended(capabilities) == Extended(template)
  {
    ExtendedTwice(template);
  }

  /** An identity of the new generation, extended from a template. */
  predicate NewGeneration(who: Identity, template: seq<Capability>) {
    who.clientId == WEB027K + who.actor && who.capabilities == Extended(template) && who.durable == None &&
    who.actorType == Human && who.role in {HumanBorrower, PrincipalController}
  }

  /** The membership an older generation left behind. */
  predicate MemberSince(t: Tables, who: Identity, template: seq<Capability>, from: ClientId, now: int) {
    who.actor in t.actors && who.actor in t.memberships &&
    var m := t.memberships[who.actor];
    m.role == who.role && Granted(m.capabilities, template) && m.clientIds == [from] && m.policy == POLICY &&
    m.controller == who.controller && who.controller != Some(who.actor)
  }

  /** A credential as seeding under client `from` left it. */
  predicate SeededRow(c: Credential, who: Identity, template: seq<Capability>, b: Binding, from: ClientId) {
    && c.actor == who.actor && c.actorType == who.actorType && c.issuer == b.issuer && c.subject == SubjectOf(b)
    && c.clientId == from && c.clientMethod == b.clientMethod && c.senderMethod == b.senderMethod
    && c.sender == SenderHash(V1, b.thumbprint) && c.roles == [who.role] && Granted(c.capabilities, template)
    && c.policy == POLICY && c.expiresAt == Some(b.expiresAt) && c.keyVersion == V1
  }

  /** The older generation's rows for `who`: one seeded credential with a live enrollment, and
      every active credential at the issuer about to be replaced. */
  ghost predicate SeededBefore(t: Tables, who: Identity, template: seq<Capability>, b: Binding, from: ClientId,
                               id: CredentialId, moving: set<CredentialId>, now: int)
  {
    && MemberSince(t, who, template, from, now)
    && id in moving && id in t.credentials && SeededRow(t.credentials[id], who, template, b, from)
    && (id, who.role) in t.enrollments
    && t.enrollments[(id, who.role)].policy == POLICY && Granted(t.enrollments[(id, who.role)].capabilities, template)
    && (forall x :: x in moving ==> x in t.credentials && t.credentials[x].issuer == b.issuer)
    && (forall x :: x in moving && t.credentials[x].actor == who.actor ==>
          t.credentials[x].clientId == from && t.credentials[x].keyVersion == V1)
    && (forall x :: x in moving && t.credentials[x].subject == SubjectOf(b) ==> x == id)
    && (forall x :: x in t.credentials && ActiveAt(t.credentials[x], who.actor, b.issuer) ==> x in moving)
  }

  predicate ActiveAt(c: Credential, actor: ActorId, issuer: string) {
    c.actor == actor && c.issuer == issuer && c.status == Active
  }

  /** Nothing is left for seeding to do: the membership is current, no row is to be retired, and
      the stored credential and enrollment match exactly. */
  ghost predicate Settled(t: Tables, who: Identity, b: Binding) {
    && CurrentMember(t, who)
    && (forall x :: !Retired(t, who, b.issuer, x))
    && (exists x :: Existing(t, who, b, x))
    && (forall x :: Existing(t, who, b, x) ==>
          Matches(t.credentials[x], x, who, b) &&
          (t.credentials[x].status == Active && Enrollable(who) ==>
             (x, who.role) in t.enrollments && EnrollmentMatches(t.enrollments[(x, who.role)], who) &&
             EnrollmentRow(who.role, SeededEnrollment(who, t.credentials[x]))))
  }

  predicate CurrentMember(t: Tables, who: Identity) {
    who.actor in t.actors && who.actor in t.memberships &&
    var m := t.memberships[who.actor];
    m.role == who.role && m.capabilities == who.capabilities && m.clientIds == [who.clientId] && m.policy == POLICY &&
    m.controller == who.controller && who.controller != Some(who.actor)
  }

  lemma CurrentMemberFixed(t: Tables, who: Identity, now: int)
    requires CurrentMember(t, who)
    ensures SeedIdentity(t, who, now) == Some(t)
  {
  }

  /** Once settled, no startup, at any later time, inserts, updates or fails on this identity. */
  lemma SettledIsFixed(t: Tables, who: Identity, b: Binding, retired: seq<CredentialId>, now: int)
    requires Settled(t, who, b)
    requires MayHold(t, who.actor, now) ==> ListsRetired(t, who, b.issuer, retired)
    ensures SeedIdentity(t, who, now) == Some(t)
    ensures SeedCredential(t, who, b, retired, now) == Some(t)
  {
    CurrentMemberFixed(t, who, now);
    if MayHold(t, who.actor, now) {
      assert forall x :: x !in retired;
      SomeElement(retired);
      FirstExists(t, who, b);
    }
  }

  lemma SomeElement<T>(s: seq<T>)
    ensures s == [] || exists x :: x in s
  {
    if s != [] { assert s[0] in s; }
  }

  lemma FirstExists(t: Tables, who: Identity, b: Binding)
    requires exists x :: Existing(t, who, b, x)
    ensures exists x :: First(t, who, b, x)
  {
    var x :| Existing(t, who, b, x);
    if !First(t, who, b, x) {
      var y :| Existing(t, who, b, y) && t.credentials[y].keyVersion != V1;
      assert First(t, who, b, y);
    }
  }

  lemma OneClient(from: ClientId, to: ClientId)
    ensures Dedup(Replace([from], from, to)) == [to]
  {
    assert Replace([from], from, to) == [to];
    DedupDistinct([to]);
  }

  lemma MemberMoved(t: Tables, u: Tables, who: Identity, template: seq<Capability>, b: Binding, from: ClientId,
                    id: CredentialId, moving: set<CredentialId>, now: int)
    requires SeededBefore(t, who, template, b, from, id, moving, now) && NewGeneration(who, template)
    requires u.actors == t.actors && MembershipsMoved(t, u, moving, who.clientId)
    ensures CurrentMember(u, who)
  {
    assert MembershipMoved(t, u, moving, who.actor, who.clientId);
    var m0 := t.memberships[who.actor];
    GrantedExtends(m0.capabilities, template);
    OneClient(from, who.clientId);
  }

  lemma NothingToRetire(t: Tables, u: Tables, who: Identity, template: seq<Capability>, b: Binding, from: ClientId,
                        id: CredentialId, moving: set<CredentialId>, now: int, x: CredentialId)
    requires SeededBefore(t, who, template, b, from, id, moving, now)
    requires CredentialsMoved(t, u, moving, who.clientId, now)
    ensures !Retired(u, who, b.issuer, x)
  {
    hide SeededRow, MemberSince, HasReplacement;
    if x in u.credentials && x !in t.credentials {
      assert NewRow(t, u, moving, x, who.clientId, now);
      var y :| y in moving && Replaces(t, u, y, x, who.clientId, now);
    }
  }

  /** After rotation the only row seeding can find is the replacement of the seeded one. */
  lemma FoundRow(t: Tables, u: Tables, who: Identity, template: seq<Capability>, b: Binding, from: ClientId,
                 id: CredentialId, moving: set<CredentialId>, now: int, x: CredentialId)
    requires SeededBefore(t, who, template, b, from, id, moving, now)
    requires forall y :: y in t.credentials && t.credentials[y].issuer == b.issuer ==>
               t.credentials[y].clientId != who.clientId
    requires CredentialsMoved(t, u, moving, who.clientId, now) && Existing(u, who, b, x)
    ensures Replaces(t, u, id, x, who.clientId, now)
  {
    if x !in t.credentials {
      assert NewRow(t, u, moving, x, who.clientId, now);
      var y :| y in moving && Replaces(t, u, y, x, who.clientId, now);
    }
  }

  lemma ReplacementMatches(t: Tables, u: Tables, who: Identity, template: seq<Capability>, b: Binding, from: ClientId,
                           id: CredentialId, x: CredentialId, now: int)
    requires id in t.credentials && SeededRow(t.credentials[id], who, template, b, from) && NewGeneration(who, template)
    requires (id, who.role) in t.enrollments
    requires t.enrollments[(id, who.role)].policy == POLICY &&
             Granted(t.enrollments[(id, who.role)].capabilities, template)
    requires Replaces(t, u, id, x, who.clientId, now)
    ensures Existing(u, who, b, x) && Matches(u.credentials[x], x, who, b)
    ensures (x, who.role) in u.enrollments && EnrollmentMatches(u.enrollments[(x, who.role)], who)
  {
    GrantedExtends(t.credentials[id].capabilities, template);
    GrantedExtends(t.enrollments[(id, who.role)].capabilities, template);
  }

  /** The enrollment that seeding will propose passes the checks the stored one has passed. */
  lemma ProposedRow(t: Tables, u: Tables, who: Identity, id: CredentialId, x: CredentialId, now: int)
    requires RowsOk(u) && Replaces(t, u, id, x, who.clientId, now) && Unexpired(t.credentials[id].expiresAt, now)
    requires (x, who.role) in u.enrollments && EnrollmentMatches(u.enrollments[(x, who.role)], who)
    ensures EnrollmentRow(who.role, SeededEnrollment(who, u.credentials[x]))
  {
    hide CredentialRow, MembershipRow, StringList, SafeId;
    assert EnrollmentRow((x, who.role).1, u.enrollments[(x, who.role)]);
  }

  lemma SettledAfter(t: Tables, u: Tables, who: Identity, template: seq<Capability>, b: Binding, from: ClientId,
                     id: CredentialId, moving: set<CredentialId>, now: int)
    requires SeededBefore(t, who, template, b, from, id, moving, now) && NewGeneration(who, template)
    requires forall y :: y in t.credentials && t.credentials[y].issuer == b.issuer ==>
               t.credentials[y].clientId != who.clientId
    requires Rotated(t, u, moving, who.clientId, now) && RowsOk(u) && Unexpired(t.credentials[id].expiresAt, now)
    ensures Settled(u, who, b)
    ensures forall x :: Existing(u, who, b, x) <==> Replaces(t, u, id, x, who.clientId, now)
  {
    hide EnrollmentRow, RowsOk, SeededRow, Matches, EnrollmentMatches, Replaces, MembershipsMoved, EnrollmentsMoved,
         LogAgrees, UniqueBindings, Retired, CurrentMember;
    MemberMoved(t, u, who, template, b, from, id, moving, now);
    forall x ensures !Retired(u, who, b.issuer, x) {
      NothingToRetire(t, u, who, template, b, from, id, moving, now, x);
    }
    forall x | Replaces(t, u, id, x, who.clientId, now)
      ensures Existing(u, who, b, x) && Matches(u.credentials[x], x, who, b)
      ensures (x, who.role) in u.enrollments && EnrollmentMatches(u.enrollments[(x, who.role)], who)
      ensures EnrollmentRow(who.role, SeededEnrollment(who, u.credentials[x]))
    {
      ReplacementMatches(t, u, who, template, b, from, id, x, now);
      ProposedRow(t, u, who, id, x, now);
    }
    forall x | Existing(u, who, b, x) ensures Replaces(t, u, id, x, who.clientId, now) {
      FoundRow(t, u, who, template, b, from, id, moving, now, x);
    }
    assert HasReplacement(t, u, id, who.clientId, now);
  }

  lemma OneReplacement(t: Tables, u: Tables, id: CredentialId, moving: set<CredentialId>, to: ClientId, now: int)
    requires Rotated(t, u, moving, to, now) && id in moving
    ensures id in u.credentials && u.credentials[id].status == Revoked
    ensures exists x :: Replaces(t, u, id, x, to, now)
    ensures forall x, y :: Replaces(t, u, id, x, to, now) && Replaces(t, u, id, y, to, now) ==> x == y
  {
    assert HasReplacement(t, u, id, to, now);
  }

  lemma MovableUnexpired(t: Tables, id: CredentialId, issuer: string, now: int)
    requires Movable(t, id, issuer, now)
    ensures id in t.credentials && Unexpired(t.credentials[id].expiresAt, now)
  {
  }

  /** Whatever rotation writes passes the column checks. */
  lemma RowsOkAfter(t: Tables, u: Tables, moving: set<CredentialId>, to: ClientId, now: int)
    requires RowsOk(t) && Rotated(t, u, moving, to, now)
    requires forall id :: id in moving ==> Rotatable(t, id, now) && Fits(t, id, to)
    ensures RowsOk(u)
  {
    hide LogAgrees, UniqueBindings, HasReplacement, CredentialRow, EnrollmentRow, MembershipRow, Extended, ListItem,
         SafeId, Rotatable;
    forall x | x in u.credentials ensures CredentialRow(u.credentials[x]) {
      CredentialRowAfter(t, u, moving, x, to, now);
    }
    forall k | k in u.enrollments ensures EnrollmentRow(k.1, u.enrollments[k]) {
      EnrollmentRowAfter(t, u, moving, k, to, now);
    }
    forall a | a in u.memberships ensures MembershipRow(u.memberships[a]) { MovedMembershipRow(t, u, moving, a, to); }
  }

  lemma CredentialRowAfter(t: Tables, u: Tables, moving: set<CredentialId>, x: CredentialId, to: ClientId, now: int)
    requires RowsOk(t) && CredentialsMoved(t, u, moving, to, now) && x in u.credentials
    requires forall id :: id in moving ==> Fits(t, id, to)
    ensures CredentialRow(u.credentials[x])
  {
    hide HasReplacement, Extended, ListItem, SafeId, Origin, StringList, EnrollmentRow, MembershipRow;
    if x !in t.credentials {
      assert NewRow(t, u, moving, x, to, now);
      var y :| y in moving && Replaces(t, u, y, x, to, now);
      ListItemSafe(to);
      ReplacementRow(t.credentials[y], to, now);
    }
  }

  lemma EnrollmentRowAfter(t: Tables, u: Tables, moving: set<CredentialId>, k: (CredentialId, Role), to: ClientId,
                           now: int)
    requires RowsOk(t) && CredentialsMoved(t, u, moving, to, now) && EnrollmentsMoved(t, u, moving) &&
             k in u.enrollments
    requires forall id :: id in moving ==> Rotatable(t, id, now) && Fits(t, id, to)
    ensures EnrollmentRow(k.1, u.enrollments[k])
  {
    hide HasReplacement, Extended, ListItem, SafeId, StringList, CredentialRow, MembershipRow;
    if k !in t.enrollments {
      assert NewRow(t, u, moving, k.0, to, now);
      var y :| y in moving && Replaces(t, u, y, k.0, to, now);
      assert (k.0, k.1) in u.enrollments;
      var e := t.enrollments[(y, k.1)];
      assert EnrollmentRow((y, k.1).1, e);
      RenewedEnrollmentRow(k.1, e, t.credentials[y].actor, to, now);
    }
  }

  /** Rotation settles the identity: the seeded row is revoked, exactly one active row stands in
      its place, and seeding finds that row and has nothing left to do. */
  lemma RotationSettles(t: Tables, who: Identity, template: seq<Capability>, b: Binding, from: ClientId,
                        id: CredentialId, ids: seq<CredentialId>, now: int)
    requires NewGeneration(who, template) && CanMove(t, b.issuer, who.clientId, ids, now)
    requires SeededBefore(t, who, template, b, from, id, ToMove(t, ids, now), now)
    ensures var r := RotateRows(t, t.memberships, ids, who.clientId, now);
            && r.Some? && Settled(r.value, who, b)
            && id in r.value.credentials && r.value.credentials[id].status == Revoked
            && (exists x :: Existing(r.value, who, b, x) && Replaces(t, r.value, id, x, who.clientId, now))
            && (forall x, y :: Existing(r.value, who, b, x) && Existing(r.value, who, b, y) ==> x == y)
  {
    hide Settled, Replaces, Existing, Rotated, SeededRow, MemberSince, RotateRows, Movable, Rotatable, LogAgrees,
         UniqueBindings, RowsOk, Fits, NewGeneration;
    RotationReplacesEach(t, b.issuer, who.clientId, ids, now);
    var u, moving := RotateRows(t, t.memberships, ids, who.clientId, now).value, ToMove(t, ids, now);
    RowsOkAfter(t, u, moving, who.clientId, now);
    MovableUnexpired(t, id, b.issuer, now);
    SettledAfter(t, u, who, template, b, from, id, moving, now);
    OneReplacement(t, u, id, moving, who.clientId, now);
  }

  // ---------------------------------------------------------------------------------------
  // An identity whose enrollment has lapsed

  lemma {:induction false} RevokeEachEffect(t: Tables, ids: seq<CredentialId>, now: int)
    requires Distinct(ids) && forall x :: x in ids ==> CanRevoke(t, x, now)
    ensures RevokeEach(t, ids, now).Some?
    ensures var v := RevokeEach(t, ids, now).value;
            && v == t.(credentials := v.credentials, events := v.events)
            && v.credentials.Keys == t.credentials.Keys
            && forall x :: x in t.credentials ==>
                 v.credentials[x] == if x in ids then RevokedRow(t.credentials[x], now) else t.credentials[x]
    decreases |ids|
  {
    if ids != [] {
      var t1 := Revoke(t, ids[0], now).value;
      forall x | x in ids[1..] ensures CanRevoke(t1, x, now) {
        assert x in ids && x != ids[0];
      }
      RevokeEachEffect(t1, ids[1..], now);
      assert forall x :: x in ids <==> x == ids[0] || x in ids[1..];
    }
  }

  /** The rows of an identity none of whose credentials rotation will move. */
  ghost predicate LapsedBefore(t: Tables, who: Identity, b: Binding, moving: set<CredentialId>, now: int) {
    && CanLog(t) && MayHold(t, who.actor, now) && t.memberships[who.actor].role == who.role
    && t.memberships[who.actor].controller == who.controller && who.controller != Some(who.actor)
    && (forall x :: x in moving ==>
          x in t.credentials && t.credentials[x].actor != who.actor && t.credentials[x].subject != SubjectOf(b))
    && (forall x :: x in t.credentials && t.credentials[x].issuer == b.issuer ==>
          t.credentials[x].clientId != who.clientId)
    && (forall x :: x in t.credentials && ActiveAt(t.credentials[x], who.actor, b.issuer) ==>
          t.credentials[x].updatedAt <= now)
    && (exists x :: Historical(t, who, b.issuer, x))
  }

  /** Nothing is left to retire, nothing to find, and only history to show. */
  ghost predicate Retreated(t: Tables, who: Identity, b: Binding) {
    && CurrentMember(t, who)
    && (forall x :: !Retired(t, who, b.issuer, x)) && (forall x :: !Existing(t, who, b, x))
    && (exists x :: Historical(t, who, b.issuer, x))
  }

  /** Such an identity gets no credential at any later startup either. */
  lemma RetreatedIsFixed(t: Tables, who: Identity, b: Binding, retired: seq<CredentialId>, now: int)
    requires Retreated(t, who, b) && NewerGeneration(who.clientId)
    requires MayHold(t, who.actor, now) ==> ListsRetired(t, who, b.issuer, retired)
    ensures SeedIdentity(t, who, now) == Some(t)
    ensures SeedCredential(t, who, b, retired, now) == Some(t)
  {
    CurrentMemberFixed(t, who, now);
    if MayHold(t, who.actor, now) {
      assert forall x :: x !in retired;
      SomeElement(retired);
    }
  }

  /** What rotation leaves of a lapsed identity. */
  lemma LapsedAfterRotation(t: Tables, u: Tables, who: Identity, b: Binding, moving: set<CredentialId>, now: int)
    requires LapsedBefore(t, who, b, moving, now) && Rotated(t, u, moving, who.clientId, now)
    ensures CanLog(u) && MayHold(u, who.actor, now) && u.memberships[who.actor] == t.memberships[who.actor]
    ensures forall x :: !Existing(u, who, b, x)
    ensures exists x :: Historical(u, who, b.issuer, x)
    ensures forall x :: x in u.credentials && ActiveAt(u.credentials[x], who.actor, b.issuer) ==>
              x in t.credentials && u.credentials[x] == t.credentials[x]
  {
    hide LogAgrees, UniqueBindings, EnrollmentsMoved, HasReplacement;
    assert MembershipMoved(t, u, moving, who.actor, who.clientId);
    forall x | x in u.credentials && x !in t.credentials
      ensures u.credentials[x].actor != who.actor && u.credentials[x].subject != SubjectOf(b)
    {
      assert NewRow(t, u, moving, x, who.clientId, now);
      var y :| y in moving && Replaces(t, u, y, x, who.clientId, now);
    }
    var h :| Historical(t, who, b.issuer, h);
    assert Historical(u, who, b.issuer, h);
  }

  lemma SeedIdentityRenews(u: Tables, who: Identity, now: int)
    requires MayHold(u, who.actor, now) && u.memberships[who.actor].role == who.role
    requires u.memberships[who.actor].controller == who.controller && who.controller != Some(who.actor)
    ensures var r := SeedIdentity(u, who, now);
            && r.Some? && CurrentMember(r.value, who) && MayHold(r.value, who.actor, now)
            && r.value == u.(memberships := r.value.memberships) && r.value.memberships.Keys == u.memberships.Keys
  {
  }

  /** An identity with a lapsed enrollment ends with no active credential at its issuer, gets no
      new one, and the next startup finds nothing to do. `retired` lists what the seeding's first
      query returns. */
  lemma LapsedGetsNothing(t: Tables, who: Identity, b: Binding, ids: seq<CredentialId>, retired: seq<CredentialId>,
                          now: int)
    requires CanMove(t, b.issuer, who.clientId, ids, now) && LapsedBefore(t, who, b, ToMove(t, ids, now), now)
    requires NewerGeneration(who.clientId)
    ensures var u := RotateRows(t, t.memberships, ids, who.clientId, now);
            && u.Some?
            && var u1 := SeedIdentity(u.value, who, now);
            && u1.Some?
            && (ListsRetired(u1.value, who, b.issuer, retired) ==>
                  var r := SeedCredential(u1.value, who, b, retired, now);
                  && r.Some? && Retreated(r.value, who, b) && r.value.credentials.Keys == u.value.credentials.Keys
                  && forall x :: x in r.value.credentials ==> !ActiveAt(r.value.credentials[x], who.actor, b.issuer))
  {
    hide TableOk, Rotatable, RotateRows;
    RotationReplacesEach(t, b.issuer, who.clientId, ids, now);
    var u := RotateRows(t, t.memberships, ids, who.clientId, now).value;
    LapsedAfterRotation(t, u, who, b, ToMove(t, ids, now), now);
    SeedIdentityRenews(u, who, now);
    var u1 := SeedIdentity(u, who, now).value;
    if ListsRetired(u1, who, b.issuer, retired) { LapsedSeeding(u, u1, who, b, retired, now); }
  }

  lemma LapsedSeeding(u: Tables, u1: Tables, who: Identity, b: Binding, retired: seq<CredentialId>, now: int)
    requires u1 == u.(memberships := u1.memberships) && CurrentMember(u1, who)
    requires MayHold(u1, who.actor, now) && CanLog(u1)
    requires NewerGeneration(who.clientId) && ListsRetired(u1, who, b.issuer, retired)
    requires (forall x :: !Existing(u, who, b, x)) && exists x :: Historical(u, who, b.issuer, x)
    requires forall x :: x in u.credentials && ActiveAt(u.credentials[x], who.actor, b.issuer) ==>
               u.credentials[x].updatedAt <= now && u.credentials[x].clientId != who.clientId
    ensures var r := SeedCredential(u1, who, b, retired, now);
            && r.Some? && Retreated(r.value, who, b) && r.value.credentials.Keys == u.credentials.Keys
            && forall x :: x in r.value.credentials ==> !ActiveAt(r.value.credentials[x], who.actor, b.issuer)
  {
    forall x | x in retired ensures CanRevoke(u1, x, now) {
      assert Retired(u1, who, b.issuer, x);
    }
    RevokeEachEffect(u1, retired, now);
    var v := RevokeEach(u1, retired, now).value;
    forall x ensures !Existing(v, who, b, x) {
      assert !Existing(u, who, b, x);
    }
    var h :| Historical(u, who, b.issuer, h);
    assert Historical(v, who, b.issuer, h);
    forall x ensures !Retired(v, who, b.issuer, x) {
      assert Retired(u1, who, b.issuer, x) <==> x in retired;
    }
    assert SeedCredential(u1, who, b, retired, now) == Some(v);
    forall x | x in v.credentials ensures !ActiveAt(v.credentials[x], who.actor, b.issuer) {
      assert Retired(u1, who, b.issuer, x) <==> x in retired;
    }
  }

  // ---------------------------------------------------------------------------------------
  // Both identities of a startup

  /** As far as one issuer and one actor are concerned, `u` is `t`. */
  ghost predicate SameElsewhere(t: Tables, u: Tables, issuer: string, actor: ActorId) {
    && (forall a :: a in t.actors ==> a in u.actors && u.actors[a] == t.actors[a]) && u.tenant == t.tenant
    && t.memberships.Keys <= u.memberships.Keys
    && (actor in t.memberships <==> actor in u.memberships)
    && (actor in t.memberships ==> u.memberships[actor] == t.memberships[actor])
    && (forall x :: x in u.credentials && u.credentials[x].issuer == issuer ==>
          x in t.credentials && t.credentials[x] == u.credentials[x])
    && (forall x :: x in t.credentials && t.credentials[x].issuer == issuer ==>
          x in u.credentials && u.credentials[x] == t.credentials[x])
    && (forall x, role :: x in t.credentials && t.credentials[x].issuer == issuer ==>
          ((x, role) in u.enrollments <==> (x, role) in t.enrollments))
    && (forall x, role :: x in t.credentials && t.credentials[x].issuer == issuer && (x, role) in t.enrollments ==>
          (x, role) in u.enrollments && u.enrollments[(x, role)] == t.enrollments[(x, role)])
  }

  lemma NewRowIssuer(t: Tables, u: Tables, moving: set<CredentialId>, x: CredentialId, to: ClientId, now: int,
                     issuer: string)
    requires NewRow(t, u, moving, x, to, now) && x in u.credentials
    requires forall y :: y in moving ==> y in t.credentials && t.credentials[y].issuer != issuer
    ensures u.credentials[x].issuer != issuer
  {
    var y :| y in moving && Replaces(t, u, y, x, to, now);
  }

  lemma RotatedElsewhere(t: Tables, u: Tables, moving: set<CredentialId>, to: ClientId, now: int, issuer: string,
                         actor: ActorId)
    requires Rotated(t, u, moving, to, now)
    requires forall x :: x in moving ==>
               x in t.credentials && t.credentials[x].issuer != issuer && t.credentials[x].actor != actor
    ensures SameElsewhere(t, u, issuer, actor)
  {
    hide LogAgrees, UniqueBindings, HasReplacement, NewRow;
    if actor in t.memberships { assert MembershipMoved(t, u, moving, actor, to); }
    forall x | x in u.credentials && x !in t.credentials ensures u.credentials[x].issuer != issuer {
      NewRowIssuer(t, u, moving, x, to, now, issuer);
    }
    forall x, role: Role | x in t.credentials && t.credentials[x].issuer == issuer
      ensures (x, role) in u.enrollments <==> (x, role) in t.enrollments
      ensures (x, role) in t.enrollments ==> u.enrollments[(x, role)] == t.enrollments[(x, role)]
    {
      assert (x, role).0 == x;
    }
  }

  lemma SettledElsewhere(t: Tables, u: Tables, who: Identity, b: Binding)
    requires Settled(t, who, b) && SameElsewhere(t, u, b.issuer, who.actor)
    ensures Settled(u, who, b)
  {
    forall x ensures Retired(u, who, b.issuer, x) <==> Retired(t, who, b.issuer, x) {
    }
    forall x ensures Existing(u, who, b, x) <==> Existing(t, who, b, x) {
    }
  }

  lemma ToMoveElsewhere(t: Tables, u: Tables, issuer: string, actor: ActorId, ids: seq<CredentialId>, now: int)
    requires SameElsewhere(t, u, issuer, actor)
    requires forall x :: x in ids ==> x in t.credentials && t.credentials[x].issuer == issuer
    ensures ToMove(u, ids, now) == ToMove(t, ids, now)
  {
    forall x | x in ids ensures Rotatable(u, x, now) <==> Rotatable(t, x, now) {
    }
  }

  lemma SeededElsewhere(t: Tables, u: Tables, who: Identity, template: seq<Capability>, b: Binding, from: ClientId,
                        id: CredentialId, moving: set<CredentialId>, now: int)
    requires SeededBefore(t, who, template, b, from, id, moving, now) && SameElsewhere(t, u, b.issuer, who.actor)
    ensures SeededBefore(u, who, template, b, from, id, moving, now)
  {
    hide SeededRow;
  }

  lemma ActorAfter(t: Tables, u: Tables, moving: set<CredentialId>, x: CredentialId, to: ClientId, now: int)
    requires CredentialsMoved(t, u, moving, to, now) && x in u.credentials
    ensures exists y :: y in t.credentials && u.credentials[x].actor == t.credentials[y].actor &&
                        u.credentials[x].actorType == t.credentials[y].actorType
  {
    hide HasReplacement;
    if x in t.credentials {
      assert u.credentials[x].actor == t.credentials[x].actor &&
          u.credentials[x].actorType == t.credentials[x].actorType;
    } else {
      assert NewRow(t, u, moving, x, to, now);
      var y :| y in moving && Replaces(t, u, y, x, to, now);
      assert u.credentials[x].actor == t.credentials[y].actor &&
          u.credentials[x].actorType == t.credentials[y].actorType;
    }
  }

  lemma EnrolledAfter(t: Tables, u: Tables, moving: set<CredentialId>, k: (CredentialId, Role), to: ClientId, now: int)
    requires forall x :: x in t.credentials ==> x in u.credentials
    requires EnrollmentsMoved(t, u, moving) && (forall j :: j in t.enrollments ==>
               j.0 in t.credentials) && k in u.enrollments
    ensures k.0 in u.credentials
  {
  }

  lemma KnownAfter(t: Tables, u: Tables, moving: set<CredentialId>, x: CredentialId, to: ClientId, now: int)
    requires TableOk(t) && CredentialsMoved(t, u, moving, to, now) && u.actors == t.actors && x in u.credentials
    requires u.memberships.Keys == t.memberships.Keys
    ensures u.credentials[x].actor in u.memberships && u.credentials[x].actor in u.actors
    ensures u.actors[u.credentials[x].actor].actorType == u.credentials[x].actorType
  {
    hide LogAgrees, UniqueBindings, RowsOk, CredentialsMoved;
    ActorAfter(t, u, moving, x, to, now);
    assert u.credentials[x].actor in t.memberships;
  }

  lemma TableOkAfter(t: Tables, u: Tables, moving: set<CredentialId>, to: ClientId, now: int)
    requires TableOk(t) && Rotated(t, u, moving, to, now)
    requires forall id :: id in moving ==> Rotatable(t, id, now) && Fits(t, id, to)
    ensures TableOk(u)
  {
    hide LogAgrees, UniqueBindings, HasReplacement, NewRow, RowsOk, Rotatable, Fits, MembershipMoved,
         EnrollmentsMoved, Replaces;
    RowsOkAfter(t, u, moving, to, now);
    forall x | x in u.credentials
      ensures u.credentials[x].actor in u.memberships && u.credentials[x].actor in u.actors
      ensures u.actors[u.credentials[x].actor].actorType == u.credentials[x].actorType
    {
      KnownAfter(t, u, moving, x, to, now);
    }
    forall k | k in u.enrollments ensures k.0 in u.credentials { EnrolledAfter(t, u, moving, k, to, now); }
  }

  lemma CanMoveElsewhere(t: Tables, u: Tables, issuer: string, to: ClientId, actor: ActorId, ids: seq<CredentialId>,
                         now: int)
    requires CanMove(t, issuer, to, ids, now) && TableOk(u) && SameElsewhere(t, u, issuer, actor)
    ensures CanMove(u, issuer, to, ids, now)
  {
    hide TableOk;
    forall x | x in ids ensures Movable(u, x, issuer, now) {
      assert Movable(t, x, issuer, now);
    }
  }

  /** One identity of a startup: who it is, what it extends, its binding, its older client, its
      seeded credential, and the rows selected for it. */
  datatype Seat = Seat(who: Identity, template: seq<Capability>, b: Binding, from: ClientId, id: CredentialId,
      ids: seq<CredentialId>)

  ghost predicate Ready(t: Tables, s: Seat, now: int) {
    && NewGeneration(s.who, s.template) && CanMove(t, s.b.issuer, s.who.clientId, s.ids, now)
    && SeededBefore(t, s.who, s.template, s.b, s.from, s.id, ToMove(t, s.ids, now), now)
  }

  /** Nothing selected for `s` concerns the issuer or the actor of `other`. */
  ghost predicate Apart(t: Tables, s: Seat, other: Seat) {
    forall x :: x in s.ids ==>
      x in t.credentials && t.credentials[x].issuer != other.b.issuer && t.credentials[x].actor != other.who.actor
  }

  /** A ready identity stays ready as long as its host and its rows are left alone. */
  lemma ReadyKept(t: Tables, u: Tables, s: Seat, now: int)
    requires Ready(t, s, now) && TableOk(u) && SameElsewhere(t, u, s.b.issuer, s.who.actor)
    ensures Ready(u, s, now)
  {
    hide Rotatable, SeededRow, MemberSince, LogAgrees, UniqueBindings, SeededBefore, NewGeneration;
    CanMoveElsewhere(t, u, s.b.issuer, s.who.clientId, s.who.actor, s.ids, now);
    ToMoveElsewhere(t, u, s.b.issuer, s.who.actor, s.ids, now);
    SeededElsewhere(t, u, s.who, s.template, s.b, s.from, s.id, ToMove(t, s.ids, now), now);
  }

  lemma ReadyElsewhere(t: Tables, u: Tables, s: Seat, other: Seat, now: int)
    requires Ready(t, s, now) && Ready(t, other, now) && Apart(t, s, other)
    requires Rotated(t, u, ToMove(t, s.ids, now), s.who.clientId, now)
    ensures Ready(u, other, now) && SameElsewhere(t, u, other.b.issuer, other.who.actor)
  {
    hide Rotatable, LogAgrees, UniqueBindings, SeededBefore, Rotated, NewGeneration, SameElsewhere;
    RotatedElsewhere(t, u, ToMove(t, s.ids, now), s.who.clientId, now, other.b.issuer, other.who.actor);
    TableOkAfter(t, u, ToMove(t, s.ids, now), s.who.clientId, now);
    ReadyKept(t, u, other, now);
  }

  /** A whole startup with two seeded identities: both rotations commit, and afterwards every
      seeding of either identity, now or later, is a no-op. */
  lemma StartupSettlesBoth(t: Tables, a: Seat, c: Seat, now: int)
    requires Ready(t, a, now) && Ready(t, c, now) && Apart(t, a, c) && Apart(t, c, a)
    ensures var r := RotateRows(t, t.memberships, a.ids, a.who.clientId, now);
            && r.Some?
            && var q := RotateRows(r.value, r.value.memberships, c.ids, c.who.clientId, now);
            && q.Some? && Settled(q.value, a.who, a.b) && Settled(q.value, c.who, c.b)
  {
    hide Settled, Rotated, RotateRows, SeededBefore, TableOk, Rotatable, SameElsewhere, NewGeneration;
    RotationReplacesEach(t, a.b.issuer, a.who.clientId, a.ids, now);
    RotationSettles(t, a.who, a.template, a.b, a.from, a.id, a.ids, now);
    var u := RotateRows(t, t.memberships, a.ids, a.who.clientId, now).value;
    ReadyElsewhere(t, u, a, c, now);
    RotationReplacesEach(u, c.b.issuer, c.who.clientId, c.ids, now);
    RotationSettles(u, c.who, c.template, c.b, c.from, c.id, c.ids, now);
    var v := RotateRows(u, u.memberships, c.ids, c.who.clientId, now).value;
    ApartStill(t, u, a, c);
    RotatedElsewhere(u, v, ToMove(u, c.ids, now), c.who.clientId, now, a.b.issuer, a.who.actor);
    SettledElsewhere(u, v, a.who, a.b);
  }

  lemma ApartStill(t: Tables, u: Tables, a: Seat, c: Seat)
    requires Apart(t, c, a) && SameElsewhere(t, u, c.b.issuer, c.who.actor)
    requires forall x :: x in c.ids ==> x in t.credentials && t.credentials[x].issuer == c.b.issuer
    ensures Apart(u, c, a)
  {
  }

  lemma NewClientNotOlder(actor: ActorId)
    ensures !OlderClient(WEB027K + actor, actor)
  {
    assert (WEB027K + actor)[7] == 'w' && (PHASE7 + actor)[7] == 'p';
    assert (WEB027K + actor)[13] == 'k' && (WEB027J + actor)[13] == 'j';
  }

  predicate OlderActive(c: Credential, base: ActorId, issuer: string) {
    c.issuer == issuer && c.status == Active && OlderClient(c.clientId, base)
  }

  /** When every active row of the older generations at the issuer was moved, the next rotation
      selects nothing and so changes nothing. */
  lemma NothingSelectedAgain(t: Tables, u: Tables, who: Identity, issuer: string, moving: set<CredentialId>,
                             ids: seq<CredentialId>, now: int, later: int)
    requires Rotated(t, u, moving, who.clientId, now) && who.clientId == WEB027K + who.actor
    requires forall x :: x in t.credentials && OlderActive(t.credentials[x], who.actor, issuer) ==> x in moving
    requires ListsSelected(u, who.actor, issuer, ids, later)
    ensures Rotate(u, who.actor, issuer, ids, later) == Some(u)
  {
    hide LogAgrees, UniqueBindings, HasReplacement, EnrollmentsMoved, MembershipsMoved;
    NewClientNotOlder(who.actor);
    forall x ensures !Selected(u, who.actor, issuer, x, later) {
      if x in u.credentials && x !in t.credentials {
        assert NewRow(t, u, moving, x, who.clientId, now);
        var y :| y in moving && Replaces(t, u, y, x, who.clientId, now);
      }
    }
    SomeElement(ids);
  }
}

/**
 Local credential generations: startup seeding of identities and credentials, and the rotation
 that moves existing credentials to a new client generation with extended capabilities.
 */
module LocalAccess {
  import opened Options
  import opened Identifiers
  import opened CredentialTables

  const POLICY: string := "security_001.v1"

  const HUMAN_SUBJECT_CREATE_SELF: Capability := "human_subject.create.self"
  const SUBJECT_ACTIVATE_SANDBOX_SELF: Capability := "subject.activate.sandbox.self"

  const ADDITIONS: seq<Capability> := [
    "official_report.create.owned", "official_report.read.owned",
    "official_report.retrieve.owned", "official_report.revoke.owned",
    "wallet.account_binding.prepare.owned", "wallet.account_binding.submit.owned",
    "wallet.account_binding.read.owned", "wallet.account_binding.revoke.owned",
    "wallet.capabilities.discover"]

  /** `[...new Set(s)]`: first occurrences, in order. */
  function Dedup<T(==)>(s: seq<T>): seq<T> {
    if s == [] then []
    else
      var front, last := s[..|s| - 1], s[|s| - 1];
      Dedup(front) + if last in front then [] else [last]
  }

  /** `localAccessCapabilities`. */
  function Extended(capabilities: seq<Capability>): seq<Capability> {
    Dedup(capabilities + ADDITIONS +
          if HUMAN_SUBJECT_CREATE_SELF in capabilities then [SUBJECT_ACTIVATE_SANDBOX_SELF] else [])
  }

  lemma {:induction false} DedupMembers<T>(s: seq<T>)
    ensures forall x :: x in Dedup(s) <==> x in s
    ensures Distinct(Dedup(s))
  {
    if s != [] {
      DedupMembers(s[..|s| - 1]);
      assert s == s[..|s| - 1] + [s[|s| - 1]];
    }
  }

  lemma {:induction false} DedupDistinct<T>(s: seq<T>)
    requires Distinct(s)
    ensures Dedup(s) == s
  {
    if s != [] {
      DedupDistinct(s[..|s| - 1]);
      assert s == s[..|s| - 1] + [s[|s| - 1]];
    }
  }

  lemma {:induction false} DedupRedundant<T>(s: seq<T>, r: seq<T>)
    requires forall x :: x in r ==> x in s
    ensures Dedup(s + r) == Dedup(s)
  {
    if r == [] {
      assert s + r == s;
    } else {
      var front := r[..|r| - 1];
      DedupRedundant(s, front);
      assert (s + r)[..|s + r| - 1] == s + front;
      assert r[|r| - 1] in r;
    }
  }

  /** Extending is idempotent as an ordered sequence: a credential that already has the
      additions is extended to itself. */
  lemma ExtendedTwice(c: seq<Capability>)
    ensures Extended(Extended(c)) == Extended(c)
  {
    var activate := if HUMAN_SUBJECT_CREATE_SELF in c then [SUBJECT_ACTIVATE_SANDBOX_SELF] else [];
    var all := c + ADDITIONS + activate;
    var e := Extended(c);
    DedupMembers(all);
    assert HUMAN_SUBJECT_CREATE_SELF !in ADDITIONS;
    assert HUMAN_SUBJECT_CREATE_SELF in e <==> HUMAN_SUBJECT_CREATE_SELF in c;
    assert forall x :: x in ADDITIONS + activate ==> x in e;
    DedupRedundant(e, ADDITIONS + activate);
    assert e + (ADDITIONS + activate) == e + ADDITIONS + activate;
    DedupDistinct(e);
  }

  // ---------------------------------------------------------------------------------------
  // What extending adds

  /** The items of `list` that are not in `c`, in list order. */
  function Lacking<T(==)>(list: seq<T>, c: seq<T>): seq<T> {
    if list == [] then []
    else
      var last := list[|list| - 1];
      Lacking(list[..|list| - 1], c) + if last in c then [] else [last]
  }

  lemma {:induction false} DedupAppend<T>(s: seq<T>, r: seq<T>)
    requires Distinct(s) && Distinct(r)
    ensures Dedup(s + r) == s + Lacking(r, s)
  {
    if r == [] {
      assert s + r == s;
      DedupDistinct(s);
    } else {
      var front, last := r[..|r| - 1], r[|r| - 1];
      DedupAppend(s, front);
      assert (s + r)[..|s + r| - 1] == s + front;
      assert last !in front;
    }
  }

  /** The first position at which an item occurs. */
  function FirstAt<T(==)>(s: seq<T>, x: T): (i: nat)
    requires x in s
    ensures i < |s| && s[i] == x && forall k :: 0 <= k < i ==> s[k] != x
  {
    if s[0] == x then 0 else 1 + FirstAt(s[1..], x)
  }

  lemma {:induction false} DedupItem<T>(s: seq<T>, i: nat)
    requires i < |Dedup(s)|
    ensures Dedup(s)[i] in s
  {
    if i < |Dedup(s[..|s| - 1])| { DedupItem(s[..|s| - 1], i); }
  }

  /** `[...new Set(s)]` keeps the order of first occurrences. */
  lemma {:induction false} DedupOrder<T>(s: seq<T>, i: nat, j: nat)
    requires i < j < |Dedup(s)|
    ensures Dedup(s)[i] in s && Dedup(s)[j] in s && FirstAt(s, Dedup(s)[i]) < FirstAt(s, Dedup(s)[j])
  {
    DedupItem(s, i);
    DedupItem(s, j);
    var front, x, y := s[..|s| - 1], Dedup(s)[i], Dedup(s)[j];
    DedupItem(front, i);
    SameFirst(s, x);
    if j < |Dedup(front)| {
      DedupItem(front, j);
      SameFirst(s, y);
      DedupOrder(front, i, j);
    } else {
      assert forall k :: 0 <= k < |front| ==> s[k] == front[k];
    }
  }

  lemma SameFirst<T>(s: seq<T>, x: T)
    requires s != [] && x in s[..|s| - 1]
    ensures FirstAt(s[..|s| - 1], x) == FirstAt(s, x)
  {
    var front := s[..|s| - 1];
    var i, j := FirstAt(front, x), FirstAt(s, x);
    assert s[i] == front[i];
    assert j < |front| ==> front[j] == s[j];
  }

  /** The nine additions, and one more for those who may create themselves as a subject. */
  function Additional(createsSelf: bool): seq<Capability> {
    ["official_report.create.owned", "official_report.read.owned", "official_report.retrieve.owned",
     "official_report.revoke.owned", "wallet.account_binding.prepare.owned", "wallet.account_binding.submit.owned",
     "wallet.account_binding.read.owned", "wallet.account_binding.revoke.owned", "wallet.capabilities.discover"] +
    if createsSelf then ["subject.activate.sandbox.self"] else []
  }

  /** `after` is `before` and what it lacks of the additions, in that order and without repeats. */
  ghost predicate Grows(before: seq<Capability>, after: seq<Capability>) {
    var additional := Additional("human_subject.create.self" in before);
    && Distinct(after) && (forall x :: x in after <==> x in before || x in additional)
    && (Distinct(before) ==> after == before + Lacking(additional, before))
  }

  lemma AdditionalDistinct(createsSelf: bool)
    ensures Distinct(Additional(createsSelf))
  {
    var a := Additional(createsSelf);
    assert a[0][16] != a[3][16] && a[0][0] != a[8][0] && a[3][0] != a[8][0] && a[5][23] != a[7][23];
    assert |a[0]| == 28 && |a[1]| == 26 && |a[2]| == 30 && |a[3]| == 28 && |a[4]| == 36;
    assert |a[5]| == 35 && |a[6]| == 33 && |a[7]| == 35 && |a[8]| == 28;
    assert createsSelf ==> |a[9]| == 29;
  }

  /** Extending adds exactly the additions that are missing, at the end, in their order. */
  lemma ExtendedExactly(c: seq<Capability>)
    ensures Grows(c, Extended(c))
  {
    var additional := Additional("human_subject.create.self" in c);
    assert ADDITIONS + (if HUMAN_SUBJECT_CREATE_SELF in c then [SUBJECT_ACTIVATE_SANDBOX_SELF] else []) == additional;
    assert c + ADDITIONS + (if HUMAN_SUBJECT_CREATE_SELF in c then [SUBJECT_ACTIVATE_SANDBOX_SELF] else []) ==
           c + additional;
    DedupMembers(c + additional);
    AdditionalDistinct("human_subject.create.self" in c);
    hide Additional;
    if Distinct(c) { DedupAppend(c, additional); }
  }

  lemma ReportWrites(a: string, b: string)
    requires a == "official_report.create.owned" && b == "official_report.revoke.owned"
    ensures ListItem(a) && ListItem(b)
  {
  }

  lemma ReportReads(a: string, b: string)
    requires a == "official_report.read.owned" && b == "official_report.retrieve.owned"
    ensures ListItem(a) && ListItem(b)
  {
  }

  lemma BindingWrites(a: string, b: string)
    requires a == "wallet.account_binding.prepare.owned" && b == "wallet.account_binding.submit.owned"
    ensures ListItem(a) && ListItem(b)
  {
  }

  lemma BindingReads(a: string, b: string)
    requires a == "wallet.account_binding.read.owned" && b == "wallet.account_binding.revoke.owned"
    ensures ListItem(a) && ListItem(b)
  {
  }

  lemma OtherAdditions(a: string, b: string)
    requires a == "wallet.capabilities.discover" && b == "subject.activate.sandbox.self"
    ensures ListItem(a) && ListItem(b)
  {
  }

  lemma AdditionsAreItems()
    ensures forall i :: 0 <= i < |ADDITIONS| ==> ListItem(ADDITIONS[i])
    ensures ListItem(SUBJECT_ACTIVATE_SANDBOX_SELF)
  {
    ReportWrites(ADDITIONS[0], ADDITIONS[3]);
    ReportReads(ADDITIONS[1], ADDITIONS[2]);
    BindingWrites(ADDITIONS[4], ADDITIONS[5]);
    BindingReads(ADDITIONS[6], ADDITIONS[7]);
    OtherAdditions(ADDITIONS[8], SUBJECT_ACTIVATE_SANDBOX_SELF);
    hide ListItem;
  }

  /** What extending does to a checked list: only its length can be too much. */
  lemma ExtendedList(c: seq<Capability>)
    requires StringList(c, 64)
    ensures StringList(Extended(c), 64) <==> |Extended(c)| <= 64
  {
    var activate := if HUMAN_SUBJECT_CREATE_SELF in c then [SUBJECT_ACTIVATE_SANDBOX_SELF] else [];
    AdditionsAreItems();
    hide ListItem;
    DedupMembers(c + ADDITIONS + activate);
    forall i | 0 <= i < |Extended(c)| ensures ListItem(Extended(c)[i]) {
      assert Extended(c)[i] in c + ADDITIONS + activate;
    }
  }

  // ---------------------------------------------------------------------------------------
  // Seeding

  /** A configured identity; `durable` is its reviewed credential id, if it has one. */
  datatype Identity = Identity(
    actor: ActorId, actorType: ActorType, role: Role, capabilities: seq<Capability>, clientId: ClientId,
    controller: Option<ActorId>, durable: Option<string>)

  /** What a credential is seeded for. */
  datatype Binding = Binding(
    issuer: string, subject: string, clientMethod: ClientMethod, senderMethod: SenderMethod,
    thumbprint: Thumbprint, expiresAt: int, invitation: string)

  /** `seedTenant`: insert the synthetic tenant, or make the stored one active. */
  function SeedTenant(t: Tables, synthetic: Tenant): Tables {
    t.(tenant := Some((if t.tenant.Some? then t.tenant.value else synthetic).(active := true)))
  }

  /** `seedIdentity`: the actor if missing, then the membership upsert with its triggers. */
  function SeedIdentity(t: Tables, who: Identity, now: int): Option<Tables> {
    var t1 := if who.actor in t.actors then t
              else t.(actors := t.actors[who.actor := Actor(who.actorType, true)]);
    if who.controller == Some(who.actor) then None          // nobody controls oneself
    else if who.actor !in t1.memberships then
      if !ControllerKnown(t1, who.actor, who.controller) then None
      else Some(t1.(memberships := t1.memberships[who.actor :=
        Membership(who.role, who.capabilities, [who.clientId], POLICY, who.controller, Active, now, None, 1)]))
    else
      var m := t1.memberships[who.actor];
      if m.role != who.role then None                       // one membership per actor
      else if Valid(m, now) &&
              (m.capabilities != who.capabilities || m.clientIds != [who.clientId] ||
               m.policy != POLICY || m.controller != who.controller) then
        if m.controller != who.controller then None         // immutable
        else Some(t1.(memberships := t1.memberships[who.actor :=
          m.(capabilities := who.capabilities, clientIds := [who.clientId], policy := POLICY,
             version := m.version + 1)]))
      else Some(t1)
  }

  predicate Enrollable(who: Identity) {
    who.actorType in {Human, RiskOperator, OperationsOperator, Auditor} &&
    who.role in {HumanBorrower, PrincipalController, CapitalPartnerOperator, RiskRole, OperationsRole, AuditorRole}
  }

  predicate EnrollmentMatches(e: Enrollment, who: Identity) {
    e.actor == who.actor && e.status == Active && e.policy == POLICY &&
    e.capabilities == who.capabilities && e.clientIds == [who.clientId]
  }

  function SeededEnrollment(who: Identity, c: Credential): Enrollment {
    Enrollment(who.actor, who.capabilities, [who.clientId], POLICY, Active, c.createdAt, c.expiresAt, 1)
  }

  /** `seedLocalHumanRoleEnrollment`. */
  function SeedEnrollment(t: Tables, who: Identity, id: CredentialId): Option<Tables>
    requires id in t.credentials
  {
    var c, key := t.credentials[id], (id, who.role);
    var e := SeededEnrollment(who, c);
    if c.status != Active || !Enrollable(who) then Some(t)
    else if !EnrollmentRow(who.role, e) then None
    else if key !in t.enrollments then Some(t.(enrollments := t.enrollments[key := e]))
    else if EnrollmentMatches(t.enrollments[key], who) then Some(t)
    else None
  }

  /** The membership check `seedAuthenticationCredential` starts with. */
  predicate MayHold(t: Tables, a: ActorId, now: int) {
    a in t.memberships && Valid(t.memberships[a], now) && ActorActive(t, a)
  }

  /** Active credentials of the actor at the issuer under another client. */
  predicate Retired(t: Tables, who: Identity, issuer: string, id: CredentialId) {
    id in t.credentials &&
    var c := t.credentials[id];
    c.issuer == issuer && c.actor == who.actor && c.clientId != who.clientId && c.status == Active
  }

  /** `ids` lists the rows the retiring UPDATE returns, in some order. */
  ghost predicate ListsRetired(t: Tables, who: Identity, issuer: string, ids: seq<CredentialId>) {
    Distinct(ids) && forall id :: id in ids <==> Retired(t, who, issuer, id)
  }

  function SubjectOf(b: Binding): Hash { SubjectHash(V1, b.issuer, b.subject) }

  /** Rows the existing-credential SELECT can return; a v2 row goes first. */
  predicate Existing(t: Tables, who: Identity, b: Binding, id: CredentialId) {
    id in t.credentials &&
    var c := t.credentials[id];
    c.issuer == b.issuer && c.clientId == who.clientId &&
    (c.subject == SubjectOf(b) || (c.actor == who.actor && c.keyVersion == V2))
  }

  ghost predicate First(t: Tables, who: Identity, b: Binding, id: CredentialId) {
    Existing(t, who, b, id) &&
    (t.credentials[id].keyVersion == V2 || forall x :: Existing(t, who, b, x) ==> t.credentials[x].keyVersion == V1)
  }

  /** The exact-match test on a stored credential. */
  predicate Matches(c: Credential, id: CredentialId, who: Identity, b: Binding) {
    && c.actor == who.actor && c.actorType == who.actorType
    && c.clientMethod == b.clientMethod && c.senderMethod == b.senderMethod
    && (c.keyVersion != V2 ==> c.sender == SenderHash(V1, b.thumbprint))
    && (who.durable.Some? ==> id == Durable(who.durable.value))
    && c.policy == POLICY && c.roles == [who.role] && c.capabilities == who.capabilities
    && c.expiresAt == Some(b.expiresAt)
  }

  const PHASE7: string := "client_phase7_"
  const WEB027J: string := "client_web027j_"
  const WEB027K: string := "client_web027k_"

  predicate OlderClient(client: ClientId, a: ActorId) {
    client == PHASE7 + a || client == WEB027J + a
  }

  /** A credential of the actor at the issuer under an earlier generation. */
  predicate Historical(t: Tables, who: Identity, issuer: string, id: CredentialId) {
    id in t.credentials &&
    var c := t.credentials[id];
    c.issuer == issuer && c.actor == who.actor && OlderClient(c.clientId, who.actor)
  }

  predicate NewerGeneration(client: ClientId) {
    WEB027J <= client || WEB027K <= client
  }

  function SeededCredential(who: Identity, b: Binding, now: int): Credential {
    Credential(who.actor, who.actorType, b.issuer, SubjectOf(b), who.clientId, b.clientMethod, b.senderMethod,
               SenderHash(V1, b.thumbprint), [who.role], who.capabilities, POLICY,
               Active, 1, Some(b.expiresAt), now, now, V1)
  }

  /** The local system actor, on whose behalf every local authentication event is written. */
  const LOCAL_SYSTEM: ActorId := "actor_local_authentication_system"

  /** The log's foreign key: its author is a member. */
  predicate CanLog(t: Tables) {
    LOCAL_SYSTEM in t.memberships
  }

  /** The insert of a new credential, its event and its enrollment. */
  function InsertSeeded(t: Tables, who: Identity, b: Binding, now: int): Option<Tables> {
    if !CanLog(t) then None
    else
      var id := if who.durable.Some? then Durable(who.durable.value) else FreshId(t);
      var t1 :- Register(t, id, SeededCredential(who, b, now), Some(InvitationHash(V1, b.invitation)));
      SeedEnrollment(t1, who, id)
  }

  /** The retired rows and their events. */
  function RevokeRetired(t: Tables, ids: seq<CredentialId>, now: int): Option<Tables> {
    if ids != [] && !CanLog(t) then None else RevokeEach(t, ids, now)
  }

  /** `seedAuthenticationCredential`; `retired` lists the rows its first UPDATE returns. */
  ghost function SeedCredential(t: Tables, who: Identity, b: Binding, retired: seq<CredentialId>,
                                now: int): Option<Tables>
    requires MayHold(t, who.actor, now) ==> ListsRetired(t, who, b.issuer, retired)
  {
    if !MayHold(t, who.actor, now) then Some(t)
    else
      var t1 :- RevokeRetired(t, retired, now);
      if exists id :: First(t1, who, b, id) then
        var id :| First(t1, who, b, id);
        if Matches(t1.credentials[id], id, who, b) then SeedEnrollment(t1, who, id) else None
      else if NewerGeneration(who.clientId) && exists id :: Historical(t1, who, b.issuer, id) then Some(t1)
      else InsertSeeded(t1, who, b, now)
  }

  // ---------------------------------------------------------------------------------------
  // Rotation

  /** The rows `rotateLocalAccessCredentials` selects for one identity's client generations. */
  predicate Selected(t: Tables, base: ActorId, issuer: string, id: CredentialId, now: int) {
    id in t.credentials && t.tenant.Some? && t.tenant.value.active &&
    var c := t.credentials[id];
    c.issuer == issuer && OlderClient(c.clientId, base) &&
    c.actorType == Human && c.clientMethod == Siwe && c.senderMethod == HostSession &&
    c.status == Active && Unexpired(c.expiresAt, now) &&
    MayHold(t, c.actor, now) &&
    t.memberships[c.actor].role in {HumanBorrower, PrincipalController} &&
    c.roles == [t.memberships[c.actor].role]
  }

  ghost predicate ListsSelected(t: Tables, base: ActorId, issuer: string, ids: seq<CredentialId>, now: int) {
    Distinct(ids) && forall id :: id in ids <==> Selected(t, base, issuer, id, now)
  }

  predicate EnrollmentLive(e: Enrollment, role: Role, client: ClientId, now: int) {
    e.status == Active && e.validFrom <= now && Unexpired(e.expiresAt, now) &&
    role in {HumanBorrower, PrincipalController} && client in e.clientIds
  }

  /** A missing, lapsed or revoked enrollment is never recreated by rotation. */
  predicate Rotatable(t: Tables, id: CredentialId, now: int) {
    id in t.credentials &&
    (exists role :: (id, role) in t.enrollments) &&
    forall role :: (id, role) in t.enrollments ==>
      EnrollmentLive(t.enrollments[(id, role)], role, t.credentials[id].clientId, now)
  }

  function Replace(clients: seq<ClientId>, from: ClientId, to: ClientId): seq<ClientId> {
    seq(|clients|, i requires 0 <= i < |clients| => if clients[i] == from then to else clients[i])
  }

  /** The membership update, from the columns the SELECT returned before the loop. */
  function RenewedMembership(m: Membership, selected: Membership, from: ClientId, to: ClientId): Membership {
    m.(capabilities := Extended(selected.capabilities),
       clientIds := Dedup(Replace(selected.clientIds, from, to)), version := m.version + 1)
  }

  function Replacement(c: Credential, to: ClientId, now: int): Credential {
    c.(clientId := to, capabilities := Extended(c.capabilities), status := Active, version := 1,
       createdAt := now, updatedAt := now)
  }

  function RevokedRow(c: Credential, now: int): Credential {
    c.(status := Revoked, updatedAt := now)
  }

  function RenewedEnrollment(e: Enrollment, actor: ActorId, to: ClientId, now: int): Enrollment {
    Enrollment(actor, Extended(e.capabilities), [to], e.policy, Active, now, e.expiresAt, 1)
  }

  function RevokedEnrollment(e: Enrollment): Enrollment {
    e.(status := Revoked, version := e.version + 1)
  }

  /** Enrollments after rotating `id` to `next`: the old ones revoked, copies for the new one. */
  function RotatedEnrollments(enrollments: map<(CredentialId, Role), Enrollment>, id: CredentialId, actor: ActorId,
                              next: CredentialId, to: ClientId, now: int): map<(CredentialId, Role), Enrollment>
  {
    (map k | k in enrollments :: if k.0 == id then RevokedEnrollment(enrollments[k]) else enrollments[k]) +
    (map role: Role | (id, role) in enrollments ::
        (next, role) := RenewedEnrollment(enrollments[(id, role)], actor, to, now))
  }

  function EndSessions(sessions: map<string, Session>, id: CredentialId): map<string, Session> {
    map s | s in sessions :: if sessions[s].credential == id then sessions[s].(active := false) else sessions[s]
  }

  /** The rows a rotation of `id` writes pass their column checks, and its events can be logged. */
  predicate WritableRows(t: Tables, selected: map<ActorId, Membership>, id: CredentialId, to: ClientId, now: int)
    requires id in t.credentials && t.credentials[id].actor in t.memberships && t.credentials[id].actor in selected
  {
    var c := t.credentials[id];
    && CanLog(t)
    && MembershipRow(RenewedMembership(t.memberships[c.actor], selected[c.actor], c.clientId, to))
    && forall role :: (id, role) in t.enrollments ==>
         EnrollmentRow(role, RenewedEnrollment(t.enrollments[(id, role)], c.actor, to, now))
  }

  /** One turn of the rotation loop; `selected` are the memberships as the SELECT saw them. */
  function RotateOne(t: Tables, selected: map<ActorId, Membership>, id: CredentialId, to: ClientId,
                     now: int): Option<Tables> {
    if !Rotatable(t, id, now) then Some(t)
    else
      var c, next := t.credentials[id], FreshId(t);
      if c.actor !in t.memberships || c.actor !in selected || !WritableRows(t, selected, id, to, now) then None
      else
        var t1 := t.(
          memberships :=
          t.memberships[c.actor := RenewedMembership(t.memberships[c.actor], selected[c.actor], c.clientId, to)],
          enrollments := RotatedEnrollments(t.enrollments, id, c.actor, next, to, now),
          sessions := EndSessions(t.sessions, id));
        var t2 :- Revoke(t1, id, now);
        Register(t2, next, Replacement(c, to, now), None)
  }

  function RotateRows(t: Tables, selected: map<ActorId, Membership>, ids: seq<CredentialId>, to: ClientId, now: int)
      : Option<Tables>
    decreases |ids|
  {
    if ids == [] then Some(t)
    else
      var t1 :- RotateOne(t, selected, ids[0], to, now);
      RotateRows(t1, selected, ids[1..], to, now)
  }

  /** The part of `rotateLocalAccessCredentials` that concerns one identity; `ids` lists the
      selected rows. */
  ghost function Rotate(t: Tables, base: ActorId, issuer: string, ids: seq<CredentialId>, now: int): Option<Tables>
    requires ListsSelected(t, base, issuer, ids, now)
  {
    RotateRows(t, t.memberships, ids, WEB027K + base, now)
  }

  /** One identity's turn in a rotation: its actor, its host, and the rows its query returned. */
  datatype Turn = Turn(base: ActorId, issuer: string, ids: seq<CredentialId>)

  /** `rotateLocalAccessCredentials`: the identities one after another, in one transaction. */
  function RotateAll(t: Tables, turns: seq<Turn>, now: int): Option<Tables>
    decreases |turns|
  {
    if turns == [] then Some(t)
    else
      var t1 :- RotateRows(t, t.memberships, turns[0].ids, WEB027K + turns[0].base, now);
      RotateAll(t1, turns[1..], now)
  }

  /** Each turn's rows are what its query returns when it is reached. */
  ghost predicate QueryAnswers(t: Tables, turns: seq<Turn>, now: int)
    decreases |turns|
  {
    turns == [] ||
    (ListsSelected(t, turns[0].base, turns[0].issuer, turns[0].ids, now) &&
     var r := RotateRows(t, t.memberships, turns[0].ids, WEB027K + turns[0].base, now);
     r.Some? ==> QueryAnswers(r.value, turns[1..], now))
  }

  // ---------------------------------------------------------------------------------------
  // Every transaction keeps log and table in agreement

  lemma SeedIdentitySound(t: Tables, who: Identity, now: int)
    requires SeedIdentity(t, who, now).Some?
    ensures Sound(t, SeedIdentity(t, who, now).value)
  {
    hide Sound, SeedIdentity;
    SeedIdentityAdds(t, who, now);
    SameAccountSound(t, SeedIdentity(t, who, now).value);
  }

  /** Seeding an identity may add its actor and writes its membership only. */
  lemma SeedIdentityAdds(t: Tables, who: Identity, now: int)
    requires SeedIdentity(t, who, now).Some?
    ensures var u := SeedIdentity(t, who, now).value;
            && who.actor in u.actors && who.actor in u.memberships
            && u == t.(actors := if who.actor in t.actors then t.actors else t.actors[who.actor := u.actors[who.actor]],
                       memberships := t.memberships[who.actor := u.memberships[who.actor]])
  {
    hide Valid, ControllerKnown;
    if who.actor in t.memberships { assert t.memberships == t.memberships[who.actor := t.memberships[who.actor]]; }
  }

  lemma SeedEnrollmentSound(t: Tables, who: Identity, id: CredentialId)
    requires id in t.credentials && SeedEnrollment(t, who, id).Some?
    ensures Sound(t, SeedEnrollment(t, who, id).value)
  {
    SameAccountSound(t, SeedEnrollment(t, who, id).value);
  }

  lemma InsertSeededSound(t: Tables, who: Identity, b: Binding, now: int)
    requires InsertSeeded(t, who, b, now).Some?
    ensures Sound(t, InsertSeeded(t, who, b, now).value)
  {
    hide LogAgrees, Preserves, Sound, CanInsert, SeedEnrollment;
    var id := if who.durable.Some? then Durable(who.durable.value) else FreshId(t);
    var invitation := Some(InvitationHash(V1, b.invitation));
    RegisterSound(t, id, SeededCredential(who, b, now), invitation);
    var t1 := Register(t, id, SeededCredential(who, b, now), invitation).value;
    SeedEnrollmentSound(t1, who, id);
    SoundTrans(t, t1, InsertSeeded(t, who, b, now).value);
  }

  lemma SeedCredentialSound(t: Tables, who: Identity, b: Binding, retired: seq<CredentialId>, now: int)
    requires MayHold(t, who.actor, now) ==> ListsRetired(t, who, b.issuer, retired)
    requires SeedCredential(t, who, b, retired, now).Some?
    ensures Sound(t, SeedCredential(t, who, b, retired, now).value)
  {
    hide LogAgrees, Preserves, Sound, RevokeEach, Matches, ListsRetired, MayHold, Historical, SeedEnrollment,
         InsertSeeded;
    if !MayHold(t, who.actor, now) {
      SameAccountSound(t, t);
    } else {
      RevokeEachSound(t, retired, now);
      var t1 := RevokeRetired(t, retired, now).value;
      if exists id :: First(t1, who, b, id) {
        var id :| First(t1, who, b, id) && SeedCredential(t, who, b, retired, now) == SeedEnrollment(t1, who, id);
        SeedEnrollmentSound(t1, who, id);
      } else if NewerGeneration(who.clientId) && exists id :: Historical(t1, who, b.issuer, id) {
        SameAccountSound(t1, t1);
      } else {
        InsertSeededSound(t1, who, b, now);
      }
      SoundTrans(t, t1, SeedCredential(t, who, b, retired, now).value);
    }
  }

  lemma RotateOneSound(t: Tables, selected: map<ActorId, Membership>, id: CredentialId, to: ClientId, now: int)
    requires RotateOne(t, selected, id, to, now).Some?
    ensures Sound(t, RotateOne(t, selected, id, to, now).value)
  {
    hide LogAgrees, Preserves, Sound, CanInsert, RotatedEnrollments, EndSessions;
    if Rotatable(t, id, now) {
      var c, next := t.credentials[id], FreshId(t);
      var t1 := t.(
        memberships :=
          t.memberships[c.actor := RenewedMembership(t.memberships[c.actor], selected[c.actor], c.clientId, to)],
        enrollments := RotatedEnrollments(t.enrollments, id, c.actor, next, to, now),
        sessions := EndSessions(t.sessions, id));
      SameAccountSound(t, t1);
      RevokeSound(t1, id, now);
      var t2 := Revoke(t1, id, now).value;
      RegisterSound(t2, next, Replacement(c, to, now), None);
      SoundTrans(t, t1, t2);
      SoundTrans(t, t2, Register(t2, next, Replacement(c, to, now), None).value);
    } else {
      SameAccountSound(t, t);
    }
  }

  lemma {:induction false} RotateRowsSound(t: Tables, selected: map<ActorId, Membership>, ids: seq<CredentialId>,
                                           to: ClientId, now: int)
    requires RotateRows(t, selected, ids, to, now).Some?
    ensures Sound(t, RotateRows(t, selected, ids, to, now).value)
    decreases |ids|
  {
    if ids == [] {
      SameAccountSound(t, t);
    } else {
      RotateOneSound(t, selected, ids[0], to, now);
      var t1 := RotateOne(t, selected, ids[0], to, now).value;
      RotateRowsSound(t1, selected, ids[1..], to, now);
      SoundTrans(t, t1, RotateRows(t, selected, ids, to, now).value);
    }
  }

  lemma {:induction false} RotateAllSound(t: Tables, turns: seq<Turn>, now: int)
    requires RotateAll(t, turns, now).Some?
    ensures Sound(t, RotateAll(t, turns, now).value)
    decreases |turns|
  {
    hide Sound, RotateRows;
    if turns == [] {
      SameAccountSound(t, t);
    } else {
      var to := WEB027K + turns[0].base;
      RotateRowsSound(t, t.memberships, turns[0].ids, to, now);
      var t1 := RotateRows(t, t.memberships, turns[0].ids, to, now).value;
      RotateAllSound(t1, turns[1..], now);
      SoundTrans(t, t1, RotateAll(t, turns, now).value);
    }
  }

  lemma SeedTenantSound(t: Tables, synthetic: Tenant)
    ensures Sound(t, SeedTenant(t, synthetic))
  {
    SameAccountSound(t, SeedTenant(t, synthetic));
  }
}

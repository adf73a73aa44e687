/**
 What a startup's seeding guarantees of an identity, column by column: its actor and
 membership, the credential it finds or inserts, and what it withdraws.
 */
module SeededRows {
  import opened Options
  import opened Identifiers
  import opened CredentialTables
  import opened LocalAccess
  import opened AccessGenerations
  import opened RotatedRows

  /** The startup leaves an active tenant: a stored one with its other columns as they were, or
      the synthetic one. */
  lemma TenantSeeded(t: Tables, synthetic: Tenant)
    ensures var u := SeedTenant(t, synthetic);
            && u.tenant == Some((if t.tenant.Some? then t.tenant.value else synthetic).(active := true))
            && u == t.(tenant := u.tenant)
  {
  }

  // ---------------------------------------------------------------------------------------
  // Actor and membership

  predicate InForce(m: Membership, now: int) {
    m.status == Active && m.validFrom <= now && Lasting(m.expiresAt, now)
  }

  predicate AsConfigured(m: Membership, who: Identity) {
    && m.role == who.role && m.capabilities == who.capabilities && m.clientIds == [who.clientId]
    && m.policy == "security_001.v1" && m.controller == who.controller
  }

  /** What the identity's seeding needs of the tables. */
  predicate Acceptable(t: Tables, who: Identity, now: int) {
    && who.controller != Some(who.actor)
    && (who.actor !in t.memberships && who.controller.Some? ==> who.controller.value in t.memberships)
    && (who.actor in t.memberships ==> t.memberships[who.actor].role == who.role)
    && (who.actor in t.memberships && InForce(t.memberships[who.actor], now) ==>
          t.memberships[who.actor].controller == who.controller)
  }

  /** What an accepted identity's seeding leaves. */
  predicate IdentitySeeded(t: Tables, u: Tables, who: Identity, now: int) {
    && u == t.(actors := u.actors, memberships := u.memberships)
    && u.actors == (if who.actor in t.actors then t.actors
                    else t.actors[who.actor := Actor(who.actorType, true)])
    && who.actor in u.memberships && u.memberships == t.memberships[who.actor := u.memberships[who.actor]]
    && MembershipSeeded(t, u.memberships[who.actor], who, now)
  }

  lemma NewMember(t: Tables, who: Identity, now: int)
    requires who.actor !in t.memberships
    ensures SeedIdentity(t, who, now).Some? <==> Acceptable(t, who, now)
    ensures SeedIdentity(t, who, now).Some? ==> IdentitySeeded(t, SeedIdentity(t, who, now).value, who, now)
  {
  }

  lemma KnownMember(t: Tables, who: Identity, now: int)
    requires who.actor in t.memberships
    ensures SeedIdentity(t, who, now).Some? <==> Acceptable(t, who, now)
    ensures SeedIdentity(t, who, now).Some? ==> IdentitySeeded(t, SeedIdentity(t, who, now).value, who, now)
  {
    var m := t.memberships[who.actor];
    assert Valid(m, now) <==> InForce(m, now);
    hide Valid, InForce;
    assert t.memberships == t.memberships[who.actor := m];
  }

  /** An identity is seeded exactly when nobody else's role or controller is in the way. A new
      membership is in force from now on; one in force is brought up to the configuration, with
      one version more if that changed it; any other is left alone, as is everybody else's. */
  lemma IdentityExactly(t: Tables, who: Identity, now: int)
    ensures SeedIdentity(t, who, now).Some? <==> Acceptable(t, who, now)
    ensures SeedIdentity(t, who, now).Some? ==> IdentitySeeded(t, SeedIdentity(t, who, now).value, who, now)
  {
    hide SeedIdentity, Acceptable, IdentitySeeded;
    if who.actor in t.memberships { KnownMember(t, who, now); } else { NewMember(t, who, now); }
  }

  predicate MembershipSeeded(t: Tables, v: Membership, who: Identity, now: int) {
    if who.actor !in t.memberships then
      AsConfigured(v, who) && v.status == Active && v.validFrom == now && v.expiresAt == None && v.version == 1
    else
      var m := t.memberships[who.actor];
      if !InForce(m, now) || AsConfigured(m, who) then v == m
      else
        && AsConfigured(v, who) && v.status == m.status && v.validFrom == m.validFrom && v.expiresAt == m.expiresAt
        && v.version == m.version + 1
  }

  // ---------------------------------------------------------------------------------------
  // Credential

  /** The actor may hold a credential at all. */
  predicate Usable(t: Tables, a: ActorId, now: int) {
    a in t.memberships && InForce(t.memberships[a], now) && a in t.actors && t.actors[a].active
  }

  /** A credential with all that the configuration says of it. A rebound one has a sender of its
      own. */
  predicate Configured(c: Credential, id: CredentialId, who: Identity, b: Binding) {
    && c.actor == who.actor && c.actorType == who.actorType && c.issuer == b.issuer && c.clientId == who.clientId
    && c.clientMethod == b.clientMethod && c.senderMethod == b.senderMethod
    && (c.keyVersion == V2 || c.sender == SenderHash(V1, b.thumbprint))
    && c.roles == [who.role] && c.capabilities == who.capabilities && c.policy == "security_001.v1"
    && c.expiresAt == Some(b.expiresAt) && (who.durable.Some? ==> id == Durable(who.durable.value))
  }

  predicate NeedsEnrollment(who: Identity) {
    && (who.actorType == Human || who.actorType == RiskOperator || who.actorType == OperationsOperator ||
        who.actorType == Auditor)
    && (who.role == HumanBorrower || who.role == PrincipalController || who.role == CapitalPartnerOperator ||
        who.role == RiskRole || who.role == OperationsRole || who.role == AuditorRole)
  }

  predicate HasEnrollment(t: Tables, id: CredentialId, who: Identity) {
    (id, who.role) in t.enrollments &&
    var e := t.enrollments[(id, who.role)];
    e.actor == who.actor && e.status == Active && e.policy == "security_001.v1" &&
    e.capabilities == who.capabilities && e.clientIds == [who.clientId]
  }

  /** An active credential of the actor at the host under another client. */
  predicate Outdated(c: Credential, who: Identity, issuer: string) {
    c.actor == who.actor && c.issuer == issuer && c.clientId != who.clientId && c.status == Active
  }

  /** A credential the startup would find under the identity's client. */
  predicate Findable(c: Credential, who: Identity, b: Binding) {
    && c.issuer == b.issuer && c.clientId == who.clientId
    && (c.subject == SubjectHash(V1, b.issuer, b.subject) || (c.actor == who.actor && c.keyVersion == V2))
  }

  /** The identity ends with the credential it is configured for, and its enrollment. */
  ghost predicate Provided(u: Tables, who: Identity, b: Binding) {
    exists id :: id in u.credentials && Configured(u.credentials[id], id, who, b) &&
      (u.credentials[id].status == Active && NeedsEnrollment(who) ==> HasEnrollment(u, id, who))
  }

  /** A credential of the actor at the host under an earlier generation's client. */
  predicate FromBefore(c: Credential, who: Identity, issuer: string) {
    c.actor == who.actor && c.issuer == issuer &&
    (c.clientId == "client_phase7_" + who.actor || c.clientId == "client_web027j_" + who.actor)
  }

  /** The identity is of a later generation and has a history. */
  ghost predicate OnlyRotates(t: Tables, who: Identity, issuer: string) {
    ("client_web027j_" <= who.clientId || "client_web027k_" <= who.clientId) &&
    exists x :: x in t.credentials && FromBefore(t.credentials[x], who, issuer)
  }

  /** The identity is of a later generation, has a history and nothing under its new client. */
  ghost predicate PassedBy(u: Tables, who: Identity, b: Binding) {
    OnlyRotates(u, who, b.issuer) && forall x :: x in u.credentials ==> !Findable(u.credentials[x], who, b)
  }

  /** Outdated credentials are withdrawn, the others stay. */
  ghost predicate Withdrawn(t: Tables, u: Tables, who: Identity, issuer: string, now: int) {
    forall x :: x in t.credentials ==>
      x in u.credentials &&
      u.credentials[x] == if Outdated(t.credentials[x], who, issuer)
                          then t.credentials[x].(status := Revoked, updatedAt := now) else t.credentials[x]
  }

  /** A row that was not there before: where there was nothing to find and no history that only a
      rotation may continue, under the reviewed id if there is one, with its invitation on
      record. */
  ghost predicate Inserted(t: Tables, u: Tables, x: CredentialId, who: Identity, b: Binding, now: int)
    requires x in u.credentials
  {
    && (forall y :: y in t.credentials ==> !Findable(t.credentials[y], who, b)) && !OnlyRotates(t, who, b.issuer)
    && Configured(u.credentials[x], x, who, b)
    && var c := u.credentials[x];
    && c.subject == SubjectHash(V1, b.issuer, b.subject) && c.status == Active && c.version == 1 && c.keyVersion == V1
    && c.createdAt == now && c.updatedAt == now
    && Event(CredentialRegistered, x, Some(InvitationHash(V1, b.invitation))) in u.events
    && (NeedsEnrollment(who) ==>
          HasEnrollment(u, x, who) && u.enrollments[(x, who.role)].validFrom == now &&
          u.enrollments[(x, who.role)].expiresAt == Some(b.expiresAt) && u.enrollments[(x, who.role)].version == 1)
  }

  lemma {:induction false} RevokedEach(t: Tables, ids: seq<CredentialId>, now: int)
    requires Distinct(ids) && RevokeEach(t, ids, now).Some?
    ensures var v := RevokeEach(t, ids, now).value;
            && v == t.(credentials := v.credentials, events := v.events)
            && v.credentials.Keys == t.credentials.Keys
            && forall x :: x in t.credentials ==>
                 v.credentials[x] ==
                   if x in ids then t.credentials[x].(status := Revoked, updatedAt := now) else t.credentials[x]
    decreases |ids|
  {
    if ids != [] {
      RevokedEach(Revoke(t, ids[0], now).value, ids[1..], now);
      assert forall x :: x in ids <==> x == ids[0] || x in ids[1..];
    }
  }

  lemma RetiredAre(t: Tables, who: Identity, b: Binding, retired: seq<CredentialId>, now: int)
    requires ListsRetired(t, who, b.issuer, retired) && RevokeRetired(t, retired, now).Some?
    ensures var v := RevokeRetired(t, retired, now).value;
            && v == t.(credentials := v.credentials, events := v.events) && v.credentials.Keys == t.credentials.Keys
            && Withdrawn(t, v, who, b.issuer, now)
            && (forall x :: x in t.credentials ==>
                  (Findable(v.credentials[x], who, b) <==> Findable(t.credentials[x], who, b)))
            && (OnlyRotates(v, who, b.issuer) <==> OnlyRotates(t, who, b.issuer))
  {
    RevokedEach(t, retired, now);
    hide RevokeEach;
    var v := RevokeRetired(t, retired, now).value;
    forall x | x in t.credentials ensures x in retired <==> Outdated(t.credentials[x], who, b.issuer) {
      assert x in retired <==> Retired(t, who, b.issuer, x);
    }
    assert forall x :: x in t.credentials ==>
      (FromBefore(v.credentials[x], who, b.issuer) <==> FromBefore(t.credentials[x], who, b.issuer));
  }

  lemma EnrollmentEnsures(t: Tables, who: Identity, id: CredentialId)
    requires id in t.credentials && SeedEnrollment(t, who, id).Some?
    ensures var u := SeedEnrollment(t, who, id).value;
            && u == t.(enrollments := u.enrollments)
            && (t.credentials[id].status == Active && NeedsEnrollment(who) ==>
                  HasEnrollment(u, id, who) &&
                  ((id, who.role) !in t.enrollments ==>
                     u.enrollments[(id, who.role)].validFrom == t.credentials[id].createdAt &&
                     u.enrollments[(id, who.role)].expiresAt == t.credentials[id].expiresAt &&
                     u.enrollments[(id, who.role)].version == 1))
            && (forall k :: k in t.enrollments ==> k in u.enrollments && u.enrollments[k] == t.enrollments[k])
            && (forall k :: k in u.enrollments && k !in t.enrollments ==> k == (id, who.role))
  {
    hide EnrollmentRow;
  }

  lemma InsertEnsures(t: Tables, who: Identity, b: Binding, now: int)
    requires InsertSeeded(t, who, b, now).Some?
    requires (forall y :: y in t.credentials ==> !Findable(t.credentials[y], who, b)) && !OnlyRotates(t, who, b.issuer)
    requires forall k :: k in t.enrollments ==> k.0 in t.credentials
    ensures var u := InsertSeeded(t, who, b, now).value;
            var x := if who.durable.Some? then Durable(who.durable.value) else FreshId(t);
            && u == t.(credentials := u.credentials, enrollments := u.enrollments, events := u.events,
                       nextId := u.nextId)
            && x !in t.credentials && u.credentials.Keys == t.credentials.Keys + {x}
            && (forall y :: y in t.credentials ==> u.credentials[y] == t.credentials[y])
            && Inserted(t, u, x, who, b, now)
  {
    var x := if who.durable.Some? then Durable(who.durable.value) else FreshId(t);
    var c, e := SeededCredential(who, b, now), Event(CredentialRegistered, x, Some(InvitationHash(V1, b.invitation)));
    hide Register, SeedEnrollment, CanLog, Findable, OnlyRotates;
    var t1 := Register(t, x, c, e.invitation).value;
    RegisterInserts(t, x, c, e.invitation);
    assert (x, who.role) !in t.enrollments by { assert (x, who.role).0 == x; }
    EnrollmentEnsures(t1, who, x);
  }

  lemma RegisterInserts(t: Tables, x: CredentialId, c: Credential, invitation: Option<Hash>)
    requires Register(t, x, c, invitation).Some?
    ensures var u := Register(t, x, c, invitation).value;
            && x !in t.credentials && u.credentials == t.credentials[x := c]
            && u == t.(credentials := u.credentials, events := u.events, nextId := u.nextId)
            && Event(CredentialRegistered, x, invitation) in u.events
  {
  }

  /** What a startup that seeds an identity guarantees: every outdated credential of the actor
      at its host is withdrawn and no other changes; the identity then has the credential it is
      configured for, with a live enrollment, unless it only has a history; and a row is inserted
      only where there was nothing to find. */
  lemma StartupEnsures(t: Tables, who: Identity, b: Binding, retired: seq<CredentialId>, now: int)
    requires Usable(t, who.actor, now) && ListsRetired(t, who, b.issuer, retired)
    requires SeedCredential(t, who, b, retired, now).Some?
    requires forall k :: k in t.enrollments ==> k.0 in t.credentials
    ensures var u := SeedCredential(t, who, b, retired, now).value;
            && u == t.(credentials := u.credentials, enrollments := u.enrollments, events := u.events,
                       nextId := u.nextId)
            && Withdrawn(t, u, who, b.issuer, now)
            && (Provided(u, who, b) || (PassedBy(u, who, b) && u.credentials.Keys == t.credentials.Keys))
            && (forall x :: x in u.credentials && x !in t.credentials ==> Inserted(t, u, x, who, b, now))
  {
    hide RevokeEach, SeedEnrollment, InsertSeeded, Findable, Withdrawn, OnlyRotates, Configured, HasEnrollment,
         NeedsEnrollment, Inserted, Matches, ListsRetired, Existing, RevokeRetired, NewerGeneration,
         Historical, Provided;
    SeedCredentialCases(t, who, b, retired, now);
    RetiredAre(t, who, b, retired, now);
    var v := RevokeRetired(t, retired, now).value;
    var u := SeedCredential(t, who, b, retired, now).value;
    FindableExists(v, who, b);
    if id :| First(v, who, b, id) && Matches(v.credentials[id], id, who, b) && SeedEnrollment(v, who, id) == Some(u) {
      FoundProvided(v, u, who, b, id);
      WithdrawnSame(t, v, u, who, b.issuer, now);
    } else {
      NoneFirst(v, who, b);
      HistoryIs(v, who, b.issuer);
      if NewerGeneration(who.clientId) && exists id :: Historical(v, who, b.issuer, id) {
        assert PassedBy(u, who, b);
      } else {
        InsertEnsures(v, who, b, now);
        WithdrawnSame(t, v, u, who, b.issuer, now);
        ProvidedNew(t, v, u, who, b, now);
      }
    }
  }

  /** The ways in which seeding succeeds. */
  lemma SeedCredentialCases(t: Tables, who: Identity, b: Binding, retired: seq<CredentialId>, now: int)
    requires Usable(t, who.actor, now) && ListsRetired(t, who, b.issuer, retired)
    requires SeedCredential(t, who, b, retired, now).Some?
    ensures var u := SeedCredential(t, who, b, retired, now);
            var v := RevokeRetired(t, retired, now);
            && v.Some?
            && ((exists id :: First(v.value, who, b, id) && Matches(v.value.credentials[id], id, who, b) &&
                              SeedEnrollment(v.value, who, id) == u) ||
                (!(exists id :: First(v.value, who, b, id)) &&
                 if NewerGeneration(who.clientId) && exists id :: Historical(v.value, who, b.issuer, id) then u == v
                 else InsertSeeded(v.value, who, b, now) == u))
  {
    assert MayHold(t, who.actor, now);
    hide RevokeRetired, SeedEnrollment, InsertSeeded, Matches, ListsRetired, MayHold, Historical, Usable;
  }

  lemma FoundProvided(v: Tables, u: Tables, who: Identity, b: Binding, id: CredentialId)
    requires First(v, who, b, id) && Matches(v.credentials[id], id, who, b) && SeedEnrollment(v, who, id) == Some(u)
    ensures Provided(u, who, b) && u == v.(enrollments := u.enrollments)
  {
    EnrollmentEnsures(v, who, id);
    hide SeedEnrollment, HasEnrollment, NeedsEnrollment;
    assert Configured(u.credentials[id], id, who, b);
  }

  lemma FindableExists(v: Tables, who: Identity, b: Binding)
    ensures forall x :: Existing(v, who, b, x) <==> x in v.credentials && Findable(v.credentials[x], who, b)
  {
  }

  lemma WithdrawnSame(t: Tables, v: Tables, u: Tables, who: Identity, issuer: string, now: int)
    requires Withdrawn(t, v, who, issuer, now) && t.credentials.Keys == v.credentials.Keys
    requires forall x :: x in v.credentials ==> x in u.credentials && u.credentials[x] == v.credentials[x]
    ensures Withdrawn(t, u, who, issuer, now)
  {
  }

  lemma NoneFirst(v: Tables, who: Identity, b: Binding)
    requires !exists id :: First(v, who, b, id)
    ensures forall x :: !Existing(v, who, b, x)
  {
    if exists x :: Existing(v, who, b, x) { FirstExists(v, who, b); }
  }

  lemma HistoryIs(v: Tables, who: Identity, issuer: string)
    ensures OnlyRotates(v, who, issuer) <==>
              NewerGeneration(who.clientId) && exists id :: Historical(v, who, issuer, id)
  {
    forall id ensures Historical(v, who, issuer, id) <==>
                        id in v.credentials && FromBefore(v.credentials[id], who, issuer) {
    }
  }

  lemma ProvidedNew(t: Tables, v: Tables, u: Tables, who: Identity, b: Binding, now: int)
    requires t.credentials.Keys == v.credentials.Keys
    requires (forall x :: x in t.credentials ==> !Findable(t.credentials[x], who, b)) && !OnlyRotates(t, who, b.issuer)
    requires exists x :: x in u.credentials && x !in v.credentials && Inserted(v, u, x, who, b, now) &&
               u.credentials.Keys == v.credentials.Keys + {x}
    ensures Provided(u, who, b)
    ensures forall x :: x in u.credentials && x !in t.credentials ==> Inserted(t, u, x, who, b, now)
  {
    hide Findable, OnlyRotates;
    var x :| x in u.credentials && x !in v.credentials && Inserted(v, u, x, who, b, now) &&
             u.credentials.Keys == v.credentials.Keys + {x};
    assert Configured(u.credentials[x], x, who, b);
    hide Configured, HasEnrollment, NeedsEnrollment;
  }

  /** An actor that may hold no credential is left alone. */
  lemma UnusableLeftAlone(t: Tables, who: Identity, b: Binding, retired: seq<CredentialId>, now: int)
    requires !Usable(t, who.actor, now)
    ensures !MayHold(t, who.actor, now) && SeedCredential(t, who, b, retired, now) == Some(t)
  {
  }
}

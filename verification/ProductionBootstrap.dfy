/**
 The production bootstrap: which configurations are accepted, and the transaction that seeds
 tenant, identities, credentials and role enrollments from one of them.
 */
module ProductionBootstrap {
  import opened Options
  import opened Identifiers
  import opened CredentialTables

  datatype Kind = HumanWallet | AgentMtls | AgentDpop

  datatype Profile = BorrowerProfile | ControllerProfile | PartnerProfile | AgentProfile | RiskProfile

  function TypeOf(p: Profile): ActorType {
    match p
    case AgentProfile => Agent
    case RiskProfile => RiskOperator
    case _ => Human
  }

  function RoleOf(p: Profile): Role {
    match p
    case BorrowerProfile => HumanBorrower
    case ControllerProfile => PrincipalController
    case PartnerProfile => CapitalPartnerOperator
    case AgentProfile => AgentRuntime
    case RiskProfile => RiskRole
  }

  /** One credential of the configuration, with the capabilities its profile grants. */
  datatype Entry = Entry(
    kind: Kind, profile: Profile, capabilities: seq<Capability>, actor: ActorId, clientId: ClientId, issuer: string,
    subject: string, invitation: string, expiresAt: int, controller: Option<ActorId>, thumbprint: Option<string>)

  datatype Config = Config(
    tenant: Tenant, systemActor: ActorId, systemClient: ClientId, systemCapabilities: seq<Capability>,
    policy: string, entries: seq<Entry>)

  predicate AgentKind(k: Kind) { k != HumanWallet }

  /** The patterns of an entry's own fields. */
  predicate EntryText(e: Entry) {
    && SafeId(e.actor) && SafeId(e.clientId) && Origin(e.issuer) && InvitationId(e.invitation)
    && (if e.kind == HumanWallet then ApprovedAccount(e.subject) else BoundedText(e.subject, 512))
    && (e.controller.Some? ==> SafeId(e.controller.value)) && (e.thumbprint.Some? ==>
          ThumbprintText(e.thumbprint.value))
  }

  predicate EntryOk(e: Entry, entries: seq<Entry>) {
    && EntryText(e)
    && (AgentKind(e.kind) <==> TypeOf(e.profile) == Agent)
    && (AgentKind(e.kind) ==> e.controller.Some? && e.thumbprint.Some?)
    && (!AgentKind(e.kind) ==> e.controller.None? && e.thumbprint.None?)
    && (e.controller.Some? ==>
          exists i :: 0 <= i < |entries| &&
            entries[i].actor == e.controller.value && entries[i].profile == ControllerProfile)
  }

  ghost predicate Clash(e: Entry, f: Entry) {
    || e.actor == f.actor || e.invitation == f.invitation
    || (e.issuer == f.issuer && e.clientId == f.clientId && e.subject == f.subject)
    || (AgentKind(e.kind) && AgentKind(f.kind) && e.thumbprint == f.thumbprint)
  }

  predicate TenantText(t: Tenant) {
    BoundedText(t.organization, 512) && BoundedText(t.name, 160) && BoundedText(t.jurisdiction,
                64) && BoundedText(t.retention, 512)
  }

  /** What `normalizeConfig` demands of a configuration. */
  ghost predicate Accepts(c: Config) {
    && 1 <= |c.entries| <= 32 && c.tenant.active && TenantText(c.tenant)
    && SafeId(c.systemActor) && SafeId(c.systemClient) && SafeId(c.policy)
    && (forall i :: 0 <= i < |c.entries| ==> EntryOk(c.entries[i], c.entries))
    && (forall i, j :: 0 <= i < j < |c.entries| ==> !Clash(c.entries[i], c.entries[j]))
  }

  const MAXIMUM_LIFETIME_MS: int := 90 * 24 * 60 * 60 * 1_000

  /** `assertProvisioningWindow`. */
  ghost predicate InWindow(c: Config, now: int) {
    forall i :: 0 <= i < |c.entries| ==> 0 < c.entries[i].expiresAt - now <= MAXIMUM_LIFETIME_MS
  }

  // ---------------------------------------------------------------------------------------
  // Identities

  datatype Seed = Seed(actor: ActorId, actorType: ActorType, role: Role, capabilities: seq<Capability>,
                       clientId: ClientId, controller: Option<ActorId>)

  function SystemSeed(c: Config): Seed {
    Seed(c.systemActor, SystemWorker, SystemRole, c.systemCapabilities, c.systemClient, None)
  }

  function EntrySeed(e: Entry): Seed {
    Seed(e.actor, TypeOf(e.profile), RoleOf(e.profile), e.capabilities, e.clientId, e.controller)
  }

  /** Actor and membership exist and match the seed. */
  predicate Bound(t: Tables, s: Seed, policy: string) {
    s.actor in t.actors && t.actors[s.actor] == Actor(s.actorType, true) && s.actor in t.memberships &&
    var m := t.memberships[s.actor];
    m.role == s.role && m.status == Active && m.policy == policy && m.controller == s.controller &&
    m.capabilities == s.capabilities && m.clientIds == [s.clientId]
  }

  function WithActor(t: Tables, s: Seed): Tables {
    if s.actor in t.actors then t else t.(actors := t.actors[s.actor := Actor(s.actorType, true)])
  }

  function NewMembership(s: Seed, policy: string, now: int): Membership {
    Membership(s.role, s.capabilities, [s.clientId], policy, s.controller, Active, now, None, 1)
  }

  /** The column checks on the row the insert proposes, whether or not there is one already. */
  predicate Proposable(s: Seed, policy: string) {
    MembershipRow(NewMembership(s, policy, 0)) && s.controller != Some(s.actor)
  }

  function WithMembership(t: Tables, s: Seed, policy: string, now: int): Option<Tables> {
    if !Proposable(s, policy) then None
    else if s.actor in t.memberships then Some(t)
    else if !ControllerKnown(t, s.actor, s.controller) then None
    else Some(t.(memberships := t.memberships[s.actor := NewMembership(s, policy, now)]))
  }

  /** Insert what is missing, then check the binding. A membership with another role violates
      the one-per-actor constraint, and the check would fail as well. */
  function SeedIdentity(t: Tables, s: Seed, policy: string, now: int): Option<Tables> {
    var t1 :- WithMembership(WithActor(t, s), s, policy, now);
    if Bound(t1, s, policy) then Some(t1) else None
  }

  function SeedIdentities(t: Tables, entries: seq<Entry>, policy: string, now: int): Option<Tables>
    decreases |entries|
  {
    if entries == [] then Some(t)
    else
      var t1 :- SeedIdentity(t, EntrySeed(entries[0]), policy, now);
      SeedIdentities(t1, entries[1..], policy, now)
  }

  function SeedTenant(t: Tables, tenant: Tenant): Option<Tables> {
    if t.tenant.None? then Some(t.(tenant := Some(tenant)))
    else if t.tenant.value == tenant && tenant.active then Some(t)
    else None
  }

  /** A profile's reference is the tenant's with 29 characters added, in a column of 256. */
  predicate PartnerRow(tenant: Tenant) {
    |tenant.organization| + 29 <= 256
  }

  function SeedPartner(t: Tables, e: Entry, tenant: Tenant): Option<Tables> {
    if e.profile != PartnerProfile || e.actor in t.partners then Some(t)
    else if !PartnerRow(tenant) then None
    else Some(t.(partners := t.partners + {e.actor}))
  }

  function SeedPartners(t: Tables, entries: seq<Entry>, tenant: Tenant): Option<Tables>
    decreases |entries|
  {
    if entries == [] then Some(t)
    else
      var t1 :- SeedPartner(t, entries[0], tenant);
      SeedPartners(t1, entries[1..], tenant)
  }

  // ---------------------------------------------------------------------------------------
  // Credentials

  function MethodOf(k: Kind): ClientMethod {
    match k
    case AgentMtls => MutualTls
    case AgentDpop => PrivateKeyJwt
    case HumanWallet => Siwe
  }

  function SenderMethodOf(k: Kind): SenderMethod {
    match k
    case AgentMtls => MutualTlsSender
    case AgentDpop => Dpop
    case HumanWallet => HostSession
  }

  function SubjectRef(e: Entry): Hash { SubjectHash(V1, e.issuer, e.subject) }

  function InvitationRef(e: Entry): Hash { InvitationHash(V1, e.invitation) }

  function SenderRef(e: Entry): Hash {
    SenderHash(V1, if AgentKind(e.kind) && e.thumbprint.Some? then KeyThumbprint(e.thumbprint.value)
                   else SessionThumbprint(e.actor, ""))
  }

  function NewRow(e: Entry, policy: string, now: int): Credential {
    Credential(e.actor, TypeOf(e.profile), e.issuer, SubjectRef(e), e.clientId, MethodOf(e.kind),
               SenderMethodOf(e.kind),
               SenderRef(e), [RoleOf(e.profile)], e.capabilities, policy, Active, 1, Some(e.expiresAt), now, now, V1)
  }

  /** Credentials registered with an invitation, in log order. */
  function Holders(events: seq<Event>, invitation: Hash): seq<CredentialId> {
    if events == [] then []
    else
      var e := events[|events| - 1];
      Holders(events[..|events| - 1], invitation) +
      if e.kind == CredentialRegistered && e.invitation == Some(invitation) then [e.credential] else []
  }

  /** The invitations on record for a credential, in log order. */
  function InvitationsOf(events: seq<Event>, id: CredentialId): seq<Option<Hash>> {
    if events == [] then []
    else
      var e := events[|events| - 1];
      InvitationsOf(events[..|events| - 1], id) +
      if e.kind == CredentialRegistered && e.credential == id then [e.invitation] else []
  }

  lemma HoldersAppend(events: seq<Event>, e: Event, h: Hash)
    ensures Holders(events + [e], h) ==
              Holders(events, h) +
              if e.kind == CredentialRegistered && e.invitation == Some(h) then [e.credential] else []
  {
    assert (events + [e])[..|events|] == events;
  }

  lemma InvitationsAppend(events: seq<Event>, e: Event, id: CredentialId)
    ensures InvitationsOf(events + [e], id) ==
              InvitationsOf(events, id) +
              if e.kind == CredentialRegistered && e.credential == id then [e.invitation] else []
  {
    assert (events + [e])[..|events|] == events;
  }

  predicate Binds(t: Tables, id: CredentialId, e: Entry) {
    id in t.credentials &&
    var c := t.credentials[id];
    c.issuer == e.issuer && c.clientId == e.clientId && c.subject == SubjectRef(e)
  }

  predicate SharesSender(t: Tables, id: CredentialId, e: Entry) {
    id in t.credentials && t.credentials[id].clientMethod == MethodOf(e.kind) &&
        t.credentials[id].sender == SenderRef(e)
  }

  /** The sender check: at most one credential has the sender, and it is the actor's own. */
  ghost predicate SenderFree(t: Tables, e: Entry) {
    && (forall x :: SharesSender(t, x, e) ==> t.credentials[x].actor == e.actor)
    && (forall x, y :: SharesSender(t, x, e) && SharesSender(t, y, e) ==> x == y)
  }

  /** The exact-match test on a stored credential and its registration. */
  predicate StoredMatches(t: Tables, id: CredentialId, e: Entry, policy: string)
    requires id in t.credentials
  {
    var c := t.credentials[id];
    && c.actor == e.actor && c.actorType == TypeOf(e.profile) && c.status == Active && c.policy == policy
    && c.sender == SenderRef(e) && c.clientMethod == MethodOf(e.kind) && c.expiresAt == Some(e.expiresAt)
    && Holders(t.events, InvitationRef(e)) == [id]
    && InvitationsOf(t.events, id) == [Some(InvitationRef(e))]
  }

  /** One turn of the credential loop: the tables and how many rows were inserted. */
  ghost function SeedCredential(t: Tables, e: Entry, policy: string, now: int): Option<(Tables, nat)> {
    if |Holders(t.events, InvitationRef(e))| > 1 then None
    else if AgentKind(e.kind) && !SenderFree(t, e) then None
    else if exists id :: Binds(t, id, e) then
      var id :| Binds(t, id, e);
      if StoredMatches(t, id, e, policy) then Some((t, 0)) else None
    else if Holders(t.events, InvitationRef(e)) != [] then None
    else
      var t1 :- Register(t, FreshId(t), NewRow(e, policy, now), Some(InvitationRef(e)));
      Some((t1, 1))
  }

  ghost function SeedCredentials(t: Tables, entries: seq<Entry>, policy: string, now: int): Option<(Tables, nat)>
    decreases |entries|
  {
    if entries == [] then Some((t, 0))
    else
      var first :- SeedCredential(t, entries[0], policy, now);
      var rest :- SeedCredentials(first.0, entries[1..], policy, now);
      Some((rest.0, first.1 + rest.1))
  }

  // ---------------------------------------------------------------------------------------
  // Role enrollments

  predicate SelfService(p: Profile) { p == BorrowerProfile || p == ControllerProfile }

  predicate Holds(t: Tables, id: CredentialId, e: Entry) {
    id in t.credentials && t.credentials[id].actor == e.actor && t.credentials[id].clientId == e.clientId &&
    t.credentials[id].status == Active
  }

  ghost predicate HoldsOne(t: Tables, e: Entry) {
    (exists x :: Holds(t, x, e)) && forall x, y :: Holds(t, x, e) && Holds(t, y, e) ==> x == y
  }

  function NewEnrollment(e: Entry, policy: string, c: Credential): Enrollment {
    Enrollment(e.actor, e.capabilities, [e.clientId], policy, Active, c.createdAt, c.expiresAt, 1)
  }

  ghost function SeedEnrollment(t: Tables, e: Entry, policy: string): Option<Tables> {
    if !SelfService(e.profile) then Some(t)
    else if !HoldsOne(t, e) then None
    else
      var id :| Holds(t, id, e);
      var key, row := (id, RoleOf(e.profile)), NewEnrollment(e, policy, t.credentials[id]);
      if !EnrollmentRow(RoleOf(e.profile), row) then None
      else if key in t.enrollments then Some(t)
      else Some(t.(enrollments := t.enrollments[key := row]))
  }

  ghost function SeedEnrollments(t: Tables, entries: seq<Entry>, policy: string): Option<Tables>
    decreases |entries|
  {
    if entries == [] then Some(t)
    else
      var t1 :- SeedEnrollment(t, entries[0], policy);
      SeedEnrollments(t1, entries[1..], policy)
  }

  /** `seedTenantAndIdentity`: the tables and the number of credentials inserted. */
  ghost function SeedAll(t: Tables, c: Config, now: int): Option<(Tables, nat)> {
    var t1 :- SeedTenant(t, c.tenant);
    var t2 :- SeedIdentity(t1, SystemSeed(c), c.policy, now);
    var t3 :- SeedIdentities(t2, c.entries, c.policy, now);
    var t4 :- SeedPartners(t3, c.entries, c.tenant);
    var t5 :- SeedCredentials(t4, c.entries, c.policy, now);
    var t6 :- SeedEnrollments(t5.0, c.entries, c.policy);
    Some((t6, t5.1))
  }

  /** The bootstrap: configuration and window are checked first, the transaction reads the
      clock again. */
  ghost function Bootstrap(t: Tables, c: Config, checkedAt: int, now: int): Option<(Tables, nat)> {
    if Accepts(c) && InWindow(c, checkedAt) then SeedAll(t, c, now) else None
  }

  // ---------------------------------------------------------------------------------------
  // Seeding again

  /** What the tables hold once a configuration has been seeded. */
  ghost predicate Holding(t: Tables, c: Config) {
    && t.tenant == Some(c.tenant) && c.tenant.active
    && Bound(t, SystemSeed(c), c.policy) && Proposable(SystemSeed(c), c.policy)
    && forall i :: 0 <= i < |c.entries| ==> HoldingEntry(t, c.entries[i], c.policy)
  }

  ghost predicate HoldingEntry(t: Tables, e: Entry, policy: string) {
    && Bound(t, EntrySeed(e), policy) && Proposable(EntrySeed(e), policy)
    && (e.profile == PartnerProfile ==> e.actor in t.partners)
    && (AgentKind(e.kind) ==> SenderFree(t, e))
    && (exists x :: Binds(t, x, e))
    && (forall x :: Binds(t, x, e) ==> StoredMatches(t, x, e, policy))
    && (SelfService(e.profile) ==>
          HoldsOne(t, e) &&
          forall x :: Holds(t, x, e) ==>
            (x, RoleOf(e.profile)) in t.enrollments &&
                EnrollmentRow(RoleOf(e.profile), NewEnrollment(e, policy, t.credentials[x])))
  }

  lemma {:induction false} IdentitiesAgain(t: Tables, entries: seq<Entry>, policy: string, tenant: Tenant, now: int)
    requires forall i :: 0 <= i < |entries| ==> HoldingEntry(t, entries[i], policy)
    ensures SeedIdentities(t, entries, policy, now) == Some(t) && SeedPartners(t, entries, tenant) == Some(t)
    decreases |entries|
  {
    hide EnrollmentRow, StoredMatches, MembershipRow;
    if entries != [] {
      assert HoldingEntry(t, entries[0], policy);
      assert SeedIdentity(t, EntrySeed(entries[0]), policy, now) == Some(t);
      IdentitiesAgain(t, entries[1..], policy, tenant, now);
    }
  }

  lemma {:induction false} CredentialsAgain(t: Tables, entries: seq<Entry>, policy: string, now: int)
    requires forall i :: 0 <= i < |entries| ==> HoldingEntry(t, entries[i], policy)
    ensures SeedCredentials(t, entries, policy, now) == Some((t, 0))
    decreases |entries|
  {
    if entries != [] {
      CredentialAgain(t, entries[0], policy, now);
      hide HoldingEntry, SeedCredential;
      CredentialsAgain(t, entries[1..], policy, now);
    }
  }

  lemma CredentialAgain(t: Tables, e: Entry, policy: string, now: int)
    requires HoldingEntry(t, e, policy)
    ensures SeedCredential(t, e, policy, now) == Some((t, 0))
  {
    var x :| Binds(t, x, e);
    assert StoredMatches(t, x, e, policy);
  }

  lemma {:induction false} EnrollmentsAgain(t: Tables, entries: seq<Entry>, policy: string)
    requires forall i :: 0 <= i < |entries| ==> HoldingEntry(t, entries[i], policy)
    ensures SeedEnrollments(t, entries, policy) == Some(t)
    decreases |entries|
  {
    if entries != [] {
      assert HoldingEntry(t, entries[0], policy);
      EnrollmentsAgain(t, entries[1..], policy);
    }
  }

  /** Seeding a configuration the tables already hold inserts nothing and changes no table,
      whatever else the tables contain. */
  lemma SeedAgain(t: Tables, c: Config, now: int)
    requires Holding(t, c)
    ensures SeedAll(t, c, now) == Some((t, 0))
  {
    IdentitiesAgain(t, c.entries, c.policy, c.tenant, now);
    CredentialsAgain(t, c.entries, c.policy, now);
    EnrollmentsAgain(t, c.entries, c.policy);
  }

  // ---------------------------------------------------------------------------------------
  // Seeding keeps log and table in agreement

  lemma IdentitySound(t: Tables, s: Seed, policy: string, now: int)
    requires SeedIdentity(t, s, policy, now).Some?
    ensures SameAccount(t, SeedIdentity(t, s, policy, now).value)
  {
    hide Bound;
  }

  lemma {:induction false} IdentitiesSound(t: Tables, entries: seq<Entry>, policy: string, now: int)
    requires SeedIdentities(t, entries, policy, now).Some?
    ensures SameAccount(t, SeedIdentities(t, entries, policy, now).value)
    decreases |entries|
  {
    if entries != [] {
      IdentitySound(t, EntrySeed(entries[0]), policy, now);
      hide SeedIdentity;
      IdentitiesSound(SeedIdentity(t, EntrySeed(entries[0]), policy, now).value, entries[1..], policy, now);
    }
  }

  lemma {:induction false} PartnersSound(t: Tables, entries: seq<Entry>, tenant: Tenant)
    requires SeedPartners(t, entries, tenant).Some?
    ensures SameAccount(t, SeedPartners(t, entries, tenant).value)
    decreases |entries|
  {
    if entries != [] { PartnersSound(SeedPartner(t, entries[0], tenant).value, entries[1..], tenant); }
  }

  lemma {:induction false} EnrollmentsSound(t: Tables, entries: seq<Entry>, policy: string)
    requires SeedEnrollments(t, entries, policy).Some?
    ensures SameAccount(t, SeedEnrollments(t, entries, policy).value)
    decreases |entries|
  {
    if entries != [] {
      EnrollmentsSound(SeedEnrollment(t, entries[0], policy).value, entries[1..], policy);
    }
  }

  lemma CredentialSound(t: Tables, e: Entry, policy: string, now: int)
    requires SeedCredential(t, e, policy, now).Some?
    ensures Sound(t, SeedCredential(t, e, policy, now).value.0)
  {
    hide LogAgrees, Sound, Preserves;
    if SeedCredential(t, e, policy, now).value.0 == t {
      SameAccountSound(t, t);
    } else {
      RegisterSound(t, FreshId(t), NewRow(e, policy, now), Some(InvitationRef(e)));
    }
  }

  lemma {:induction false} CredentialsSound(t: Tables, entries: seq<Entry>, policy: string, now: int)
    requires SeedCredentials(t, entries, policy, now).Some?
    ensures Sound(t, SeedCredentials(t, entries, policy, now).value.0)
    decreases |entries|
  {
    if entries == [] {
      SameAccountSound(t, t);
    } else {
      hide Sound, SeedCredential;
      var t1 := SeedCredential(t, entries[0], policy, now).value.0;
      CredentialSound(t, entries[0], policy, now);
      CredentialsSound(t1, entries[1..], policy, now);
      SoundTrans(t, t1, SeedCredentials(t, entries, policy, now).value.0);
    }
  }

  lemma SeedAllSound(t: Tables, c: Config, now: int)
    requires SeedAll(t, c, now).Some?
    ensures Sound(t, SeedAll(t, c, now).value.0)
  {
    hide LogAgrees, Sound, Preserves, SeedIdentity, SeedIdentities, SeedCredentials, SeedEnrollments, SeedPartners;
    var t2 := SeedIdentity(SeedTenant(t, c.tenant).value, SystemSeed(c), c.policy, now).value;
    var t3 := SeedIdentities(t2, c.entries, c.policy, now).value;
    var t4 := SeedPartners(t3, c.entries, c.tenant).value;
    var t5 := SeedCredentials(t4, c.entries, c.policy, now).value.0;
    var u := SeedEnrollments(t5, c.entries, c.policy).value;
    IdentitySound(SeedTenant(t, c.tenant).value, SystemSeed(c), c.policy, now);
    IdentitiesSound(t2, c.entries, c.policy, now);
    PartnersSound(t3, c.entries, c.tenant);
    SameAccountSound(t, t4);
    CredentialsSound(t4, c.entries, c.policy, now);
    EnrollmentsSound(t5, c.entries, c.policy);
    SameAccountSound(t5, u);
    SoundTrans(t, t4, t5);
    SoundTrans(t, t5, u);
  }
}

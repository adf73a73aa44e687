/**
 Agent credentials in production: provisioning, moving a credential to the second reference
 hash key, and revocation, each as one transaction.
 */
module AgentCredentials {
  import opened Options
  import opened Identifiers
  import opened CredentialTables
  import opened ProductionBootstrap

  /** What a committed transaction returns: the tables, the credential, and whether it only
      repeated an earlier answer. */
  datatype Outcome = Outcome(tables: Tables, credential: CredentialId, replayed: bool)

  /** What the caller presents; `key` is the reference hash key in use. */
  datatype Request = Request(
    key: KeyVersion, actor: ActorId, clientId: ClientId, issuer: string, subject: string, invitation: string,
    thumbprint: string, performer: ActorId)

  function SubjectOf(r: Request): Hash { SubjectHash(r.key, r.issuer, r.subject) }
  function InvitationOf(r: Request): Hash { InvitationHash(r.key, r.invitation) }
  function SenderOf(r: Request): Hash { SenderHash(r.key, KeyThumbprint(r.thumbprint)) }

  /** The patterns of a request's fields. */
  predicate RequestText(r: Request) {
    && SafeId(r.actor) && SafeId(r.clientId) && Origin(r.issuer) && BoundedText(r.subject, 512)
    && InvitationId(r.invitation) && ThumbprintText(r.thumbprint) && SafeId(r.performer)
  }

  // ---------------------------------------------------------------------------------------
  // Provisioning

  /** A live principal-controller enrollment of `a` that its membership covers. */
  ghost predicate ControlsByEnrollment(t: Tables, a: ActorId, m: Membership, now: int) {
    exists id :: (id, PrincipalController) in t.enrollments && id in t.credentials &&
      EnrolledController(t.enrollments[(id, PrincipalController)], t.credentials[id], a, m, now)
  }

  predicate EnrolledController(e: Enrollment, c: Credential, a: ActorId, m: Membership, now: int) {
    && e.actor == a && c.actor == a && e.status == Active && e.policy == m.policy
    && e.validFrom <= now && Unexpired(e.expiresAt, now)
    && c.status == Active && c.actorType == Human && c.policy == e.policy && Unexpired(c.expiresAt, now)
    && c.clientId in e.clientIds && c.clientId in m.clientIds
  }

  /** `assertProductionGoldenFlowAgentAuthority`. */
  ghost predicate Authority(t: Tables, controller: ActorId, performer: ActorId, policy: string, now: int) {
    && t.tenant.Some? && t.tenant.value.active
    && controller in t.memberships && performer in t.memberships
    && ActorActive(t, controller) && t.actors[controller].actorType == Human
    && ActorActive(t, performer) && t.actors[performer].actorType == SystemWorker
    && t.memberships[performer].role == SystemRole && t.memberships[performer].status == Active
    && var m := t.memberships[controller];
       Valid(m, now) && m.policy == policy &&
           (m.role == PrincipalController || ControlsByEnrollment(t, controller, m, now))
  }

  predicate HasBinding(t: Tables, r: Request, id: CredentialId) {
    id in t.credentials &&
    t.credentials[id].issuer == r.issuer && t.credentials[id].clientId == r.clientId &&
        t.credentials[id].subject == SubjectOf(r)
  }

  predicate HasSender(t: Tables, r: Request, id: CredentialId) {
    id in t.credentials && t.credentials[id].clientMethod == PrivateKeyJwt && t.credentials[id].sender == SenderOf(r)
  }

  function AgentRow(r: Request, capabilities: seq<Capability>, policy: string, expiresAt: Option<int>,
                    now: int): Credential {
    Credential(r.actor, Agent, r.issuer, SubjectOf(r), r.clientId, PrivateKeyJwt, Dpop, SenderOf(r),
               [AgentRuntime], capabilities, policy, Active, 1, expiresAt, now, now, r.key)
  }

  /** The stored credential is the one this invitation made. */
  ghost predicate ProvisionedFor(t: Tables, r: Request, id: CredentialId, policy: string, expiresAt: int)
    requires id in t.credentials
  {
    var c := t.credentials[id];
    && c.actor == r.actor && c.actorType == Agent && c.status == Active
    && c.clientMethod == PrivateKeyJwt && c.senderMethod == Dpop && c.sender == SenderOf(r)
    && c.keyVersion == r.key && c.policy == policy && c.expiresAt == Some(expiresAt)
    && Holders(t.events, InvitationOf(r)) == [id]
    && HasSender(t, r, id) && forall x :: HasSender(t, r, x) ==> x == id
  }

  function AgentSeed(r: Request, controller: ActorId, capabilities: seq<Capability>): Seed {
    Seed(r.actor, Agent, AgentRuntime, capabilities, r.clientId, Some(controller))
  }

  /** Who is to be provisioned: `capabilities` is the reviewed Agent profile, and an existing
      identity may be demanded instead of created. */
  datatype Grant = Grant(controller: ActorId, capabilities: seq<Capability>, policy: string, expiresAt: int,
      existingOnly: bool)

  function WithAgent(t: Tables, r: Request, g: Grant, now: int): Option<Tables> {
    var s := AgentSeed(r, g.controller, g.capabilities);
    if !g.existingOnly then SeedIdentity(t, s, g.policy, now)
    else if Bound(t, s, g.policy) then Some(t) else None
  }

  /** The part after the identity is in place: replay, refuse or register. The unique subject
      binding leaves at most one candidate for a replay. */
  ghost function IssueAgent(t: Tables, r: Request, g: Grant, now: int): Option<Outcome> {
    if exists id :: HasBinding(t, r, id) then
      var id :| HasBinding(t, r, id);
      if ProvisionedFor(t, r, id, g.policy, g.expiresAt) then Some(Outcome(t, id, true)) else None
    else if Holders(t.events, InvitationOf(r)) != [] || exists id :: HasSender(t, r, id) then None
    else
      var u :- Register(t, FreshId(t), AgentRow(r, g.capabilities, g.policy, Some(g.expiresAt), now),
                        Some(InvitationOf(r)));
      Some(Outcome(u, FreshId(t), false))
  }

  /** `provisionProductionGoldenFlowAgent`. */
  ghost function Provision(t: Tables, r: Request, g: Grant, now: int): Option<Outcome> {
    if !RequestText(r) || !SafeId(g.controller) || !SafeId(g.policy) then None
    else if !(0 < g.expiresAt - now <= MAXIMUM_LIFETIME_MS) then None
    else if !Authority(t, g.controller, r.performer, g.policy, now) then None
    else
      var t1 :- WithAgent(t, r, g, now);
      IssueAgent(t1, r, g, now)
  }

  // ---------------------------------------------------------------------------------------
  // Reprovisioning under the second key

  /** The credential to replace, as the reviewed workload authority requires it. */
  predicate Reviewed(t: Tables, r: Request, prior: CredentialId, now: int) {
    && t.tenant.Some? && t.tenant.value.active
    && prior in t.credentials && r.actor in t.memberships
    && ActorActive(t, r.actor) && t.actors[r.actor].actorType == Agent
    && var c, m := t.credentials[prior], t.memberships[r.actor];
    && c.actor == r.actor && c.clientId == r.clientId && c.issuer == r.issuer && c.actorType == Agent
    && m.status == Active && m.role == AgentRuntime && m.policy == c.policy
    && c.keyVersion == V1 && c.clientMethod == PrivateKeyJwt && c.senderMethod == Dpop
    && c.roles == [AgentRuntime] && c.capabilities == m.capabilities && r.clientId in m.clientIds
    && c.expiresAt.Some? && c.expiresAt.value > now
  }

  predicate SecondKey(t: Tables, a: ActorId, id: CredentialId) {
    id in t.credentials && t.credentials[id].actor == a && t.credentials[id].keyVersion == V2
  }

  ghost predicate SoleSecondKey(t: Tables, a: ActorId, id: CredentialId) {
    SecondKey(t, a, id) && forall x :: SecondKey(t, a, x) ==> x == id
  }

  /** Every credential an event of any kind ties to the invitation, in log order. */
  function Mentions(events: seq<Event>, invitation: Hash): seq<CredentialId> {
    if events == [] then []
    else
      var e := events[|events| - 1];
      Mentions(events[..|events| - 1], invitation) + if e.invitation == Some(invitation) then [e.credential] else []
  }

  /** The exact-match test of a repeated reprovisioning. */
  predicate Reissued(t: Tables, r: Request, prior: CredentialId, id: CredentialId)
    requires prior in t.credentials && id in t.credentials
  {
    var c, d := t.credentials[prior], t.credentials[id];
    && c.status == Revoked && d.status == Active
    && d.actor == r.actor && d.clientId == r.clientId && d.issuer == r.issuer
    && d.subject == SubjectOf(r) && d.sender == SenderOf(r)
    && d.clientMethod == PrivateKeyJwt && d.senderMethod == Dpop
    && d.policy == c.policy && d.roles == c.roles && d.capabilities == c.capabilities && d.expiresAt == c.expiresAt
    && Mentions(t.events, InvitationOf(r)) == [id]
  }

  /** Replace the prior credential by one under the second key. The log refers to the
      performer, who must be a member. */
  ghost function Reissue(t: Tables, r: Request, prior: CredentialId, now: int): Option<Outcome>
    requires prior in t.credentials
  {
    var c := t.credentials[prior];
    if c.status != Active || Mentions(t.events, InvitationOf(r)) != [] || r.performer !in t.memberships then None
    else
      var t1 :- Revoke(t, prior, now);
      var row := AgentRow(r, c.capabilities, c.policy, c.expiresAt, now).(roles := c.roles);
      var t2 :- Register(t1, FreshId(t), row, Some(InvitationOf(r)));
      Some(Outcome(NoteRebound(t2, FreshId(t)), FreshId(t), false))
  }

  /** `reprovisionProductionAgentReference`; its hasher uses the second key only. */
  ghost function Reprovision(t: Tables, r: Request, prior: CredentialId, now: int): Option<Outcome> {
    if !RequestText(r) || r.key != V2 || !Reviewed(t, r, prior, now) then None
    else if exists id :: SoleSecondKey(t, r.actor, id) then
      var id :| SoleSecondKey(t, r.actor, id);
      if Reissued(t, r, prior, id) then Some(Outcome(t, id, true)) else None
    else if exists id :: SecondKey(t, r.actor, id) then None
    else Reissue(t, r, prior, now)
  }

  // ---------------------------------------------------------------------------------------
  // Revocation

  predicate KeyCredential(t: Tables, a: ActorId, id: CredentialId) {
    id in t.credentials && t.credentials[id].actor == a && t.credentials[id].actorType == Agent &&
    t.credentials[id].clientMethod == PrivateKeyJwt
  }

  predicate Revocable(t: Tables, a: ActorId, id: CredentialId) {
    KeyCredential(t, a, id) && t.credentials[id].status in {Active, Suspended}
  }

  ghost predicate SoleRevocable(t: Tables, a: ActorId, id: CredentialId) {
    Revocable(t, a, id) && forall x :: Revocable(t, a, x) ==> x == id
  }

  ghost predicate AllRevoked(t: Tables, a: ActorId) {
    forall id :: KeyCredential(t, a, id) ==> t.credentials[id].status == Revoked
  }

  /** `revokeProductionGoldenFlowAgentCredential`. */
  ghost function RevokeAgent(t: Tables, a: ActorId, performer: ActorId, now: int): Option<Tables> {
    if !SafeId(a) || !SafeId(performer) then None
    else if !exists id :: KeyCredential(t, a, id) then None
    else if AllRevoked(t, a) then Some(t)
    else if exists id :: SoleRevocable(t, a, id) then
      var id :| SoleRevocable(t, a, id);
      if performer in t.memberships then Revoke(t, id, now) else None
    else None
  }

  // ---------------------------------------------------------------------------------------
  // Log and table stay in agreement

  lemma WithAgentSame(t: Tables, r: Request, g: Grant, now: int)
    requires WithAgent(t, r, g, now).Some?
    ensures SameAccount(t, WithAgent(t, r, g, now).value)
  {
    if !g.existingOnly { IdentitySound(t, AgentSeed(r, g.controller, g.capabilities), g.policy, now); }
  }

  lemma ProvisionSound(t: Tables, r: Request, g: Grant, now: int)
    requires Provision(t, r, g, now).Some?
    ensures Sound(t, Provision(t, r, g, now).value.tables)
  {
    hide LogAgrees, Preserves, Sound, Authority, Bound, ProvisionedFor, SeedIdentity, CanInsert, Holders;
    WithAgentSame(t, r, g, now);
    var t1 := WithAgent(t, r, g, now).value;
    SameAccountSound(t, t1);
    var u := IssueAgent(t1, r, g, now).value;
    if u.replayed {
      SameAccountSound(t1, t1);
    } else {
      RegisterSound(t1, FreshId(t1), AgentRow(r, g.capabilities, g.policy, Some(g.expiresAt), now),
                    Some(InvitationOf(r)));
    }
    SoundTrans(t, t1, u.tables);
  }

  lemma ReissueSound(t: Tables, r: Request, prior: CredentialId, now: int)
    requires prior in t.credentials && Reissue(t, r, prior, now).Some?
    ensures Sound(t, Reissue(t, r, prior, now).value.tables)
  {
    hide LogAgrees, Preserves, Sound, Mentions;
    var c := t.credentials[prior];
    RevokeSound(t, prior, now);
    var t1 := Revoke(t, prior, now).value;
    var row := AgentRow(r, c.capabilities, c.policy, c.expiresAt, now).(roles := c.roles);
    RegisterSound(t1, FreshId(t), row, Some(InvitationOf(r)));
    var t2 := Register(t1, FreshId(t), row, Some(InvitationOf(r))).value;
    NoteReboundSound(t2, FreshId(t));
    SoundTrans(t, t1, t2);
    SoundTrans(t, t2, NoteRebound(t2, FreshId(t)));
  }

  lemma ReprovisionSound(t: Tables, r: Request, prior: CredentialId, now: int)
    requires Reprovision(t, r, prior, now).Some?
    ensures Sound(t, Reprovision(t, r, prior, now).value.tables)
  {
    hide LogAgrees, Preserves, Sound, Reissue, Reissued;
    if exists id :: SecondKey(t, r.actor, id) {
      SameAccountSound(t, t);
    } else {
      ReissueSound(t, r, prior, now);
    }
  }

  lemma RevokeAgentSound(t: Tables, a: ActorId, performer: ActorId, now: int)
    requires RevokeAgent(t, a, performer, now).Some?
    ensures Sound(t, RevokeAgent(t, a, performer, now).value)
  {
    hide LogAgrees, Preserves, Sound, KeyCredential;
    if AllRevoked(t, a) {
      SameAccountSound(t, t);
    } else {
      var id :| SoleRevocable(t, a, id) && RevokeAgent(t, a, performer, now) == Revoke(t, id, now);
      RevokeSound(t, id, now);
    }
  }
}

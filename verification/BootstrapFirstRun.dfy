/**
 The first bootstrap of a deployment: exactly when seeding empty tables succeeds, what it
 leaves behind, and that seeding again changes nothing.
 */
module BootstrapFirstRun {
  import opened Options
  import opened Identifiers
  import opened CredentialTables
  import opened ProductionBootstrap

  ghost predicate ListedBefore(c: Config, a: ActorId, k: nat) {
    exists j :: 0 <= j < k && j < |c.entries| && c.entries[j].actor == a
  }

  ghost predicate ControllerListed(c: Config, i: nat)
    requires i < |c.entries|
  {
    c.entries[i].controller.Some? ==> ListedBefore(c, c.entries[i].controller.value, i)
  }

  /** An entry's credential has not expired and its profile's list fits the column. */
  predicate Issuable(e: Entry, now: int) {
    e.expiresAt > now && StringList(e.capabilities, 64)
  }

  /** A self-service client id is fit for an enrollment, whose column takes fewer than the
      configuration does. */
  predicate EnrollmentFits(e: Entry) {
    SelfService(e.profile) ==> ListItem(e.clientId)
  }

  predicate PartnerFits(c: Config, e: Entry) {
    e.profile == PartnerProfile ==> PartnerRow(c.tenant)
  }

  /** Beyond what the configuration check demands: the policy fits a membership, the system
      actor has no credential entry, every Agent is listed after its controller, and each entry
      fits the tables it is written to. */
  ghost predicate Seedable(c: Config, now: int) {
    && |c.policy| <= 128
    && !ListedBefore(c, c.systemActor, |c.entries|)
    && (forall i :: 0 <= i < |c.entries| ==> ControllerListed(c, i))
    && (forall i :: 0 <= i < |c.entries| ==> PartnerFits(c, c.entries[i]))
    && (forall i :: 0 <= i < |c.entries| ==> Issuable(c.entries[i], now))
    && (forall i :: 0 <= i < |c.entries| ==> EnrollmentFits(c.entries[i]))
  }

  // ---------------------------------------------------------------------------------------
  // Identities

  /** The tables after the system actor and the first `k` entries were given identities. */
  ghost predicate Introduced(t: Tables, c: Config, k: nat) {
    && t.tenant == Some(c.tenant) && c.tenant.active
    && Bound(t, SystemSeed(c), c.policy)
    && (forall i :: 0 <= i < k && i < |c.entries| ==> Bound(t, EntrySeed(c.entries[i]), c.policy))
    && (forall a :: a in t.memberships || a in t.actors ==> a == c.systemActor || ListedBefore(c, a, k))
  }

  predicate NoCredentials(t: Tables) {
    t.credentials == map[] && t.events == [] && t.nextId == 0 && t.enrollments == map[] && t.partners == {}
  }

  lemma ListedNext(c: Config, a: ActorId, k: nat)
    requires k < |c.entries|
    ensures ListedBefore(c, a, k + 1) <==> ListedBefore(c, a, k) || c.entries[k].actor == a
  {
  }

  lemma NotYetListed(c: Config, k: nat)
    requires Accepts(c) && k < |c.entries|
    ensures !ListedBefore(c, c.entries[k].actor, k)
  {
    if ListedBefore(c, c.entries[k].actor, k) {
      var j :| 0 <= j < k && c.entries[j].actor == c.entries[k].actor;
      Distinguished(c, j, k);
    }
  }

  /** The controller's membership is there exactly when it was listed. */
  lemma ControllerThere(t: Tables, c: Config, k: nat)
    requires Accepts(c) && k < |c.entries| && Introduced(t, c, k)
    requires !ListedBefore(c, c.systemActor, |c.entries|)
    ensures ControllerKnown(t, c.entries[k].actor, c.entries[k].controller) <==> ControllerListed(c, k)
  {
    var e := c.entries[k];
    if e.controller.Some? {
      ControllerElsewhere(c, k);
      var b := e.controller.value;
      if ListedBefore(c, b, k) {
        var j :| 0 <= j < k && c.entries[j].actor == b;
        assert Bound(t, EntrySeed(c.entries[j]), c.policy);
      }
    }
  }

  /** Seeding a newcomer touches nobody else's rows. */
  lemma NewcomerSeeded(t: Tables, s: Seed, policy: string, now: int)
    requires s.actor !in t.actors && s.actor !in t.memberships
    ensures var r := SeedIdentity(t, s, policy, now);
            && (r.Some? <==> Proposable(s, policy) && ControllerKnown(t, s.actor, s.controller))
            && (r.Some? ==>
                  && Bound(r.value, s, policy) && r.value.tenant == t.tenant && SameCredentials(t, r.value)
                  && r.value.actors.Keys == t.actors.Keys + {s.actor}
                  && r.value.memberships.Keys == t.memberships.Keys + {s.actor}
                  && forall o: Seed :: o.actor != s.actor && Bound(t, o, policy) ==> Bound(r.value, o, policy))
  {
  }

  predicate SameCredentials(t: Tables, u: Tables) {
    t.credentials == u.credentials && t.events == u.events && t.nextId == u.nextId && t.enrollments == u.enrollments &&
    t.partners == u.partners
  }

  lemma IntroduceNext(t: Tables, c: Config, k: nat, now: int)
    requires Accepts(c) && k < |c.entries| && Introduced(t, c, k) && NoCredentials(t) && |c.policy| <= 128
    requires !ListedBefore(c, c.systemActor, |c.entries|)
    ensures var r := SeedIdentity(t, EntrySeed(c.entries[k]), c.policy, now);
            && (r.Some? <==> ControllerListed(c, k))
            && (r.Some? ==> Introduced(r.value, c, k + 1) && NoCredentials(r.value))
  {
    hide Bound, SeedIdentity, ControllerKnown, ControllerListed, EntryOk;
    var e := c.entries[k];
    assert e.actor != c.systemActor;
    NotYetListed(c, k);
    if e.controller.Some? { ControllerElsewhere(c, k); }
    assert Proposable(EntrySeed(e), c.policy);
    ControllerThere(t, c, k);
    NewcomerSeeded(t, EntrySeed(e), c.policy, now);
    var r := SeedIdentity(t, EntrySeed(e), c.policy, now);
    if r.Some? {
      forall a | a in r.value.memberships || a in r.value.actors ensures a == c.systemActor ||
          ListedBefore(c, a, k + 1) {
        ListedNext(c, a, k);
      }
      forall i | 0 <= i < k + 1 ensures Bound(r.value, EntrySeed(c.entries[i]), c.policy) {
        if i < k { assert !Clash(c.entries[i], e); }
      }
    }
  }

  /** An entry's controller is another entry. */
  lemma ControllerEntry(c: Config, k: nat) returns (i: nat)
    requires Accepts(c) && k < |c.entries| && c.entries[k].controller.Some?
    ensures i < |c.entries| && i != k && c.entries[i].actor == c.entries[k].controller.value
  {
    hide Clash, EntryText;
    var e := c.entries[k];
    assert EntryOk(e, c.entries);
    i :| 0 <= i < |c.entries| && c.entries[i].actor == e.controller.value && c.entries[i].profile == ControllerProfile;
  }

  lemma ControllerElsewhere(c: Config, k: nat)
    requires Accepts(c) && k < |c.entries| && c.entries[k].controller.Some?
    requires !ListedBefore(c, c.systemActor, |c.entries|)
    ensures c.entries[k].controller.value != c.entries[k].actor
    ensures c.entries[k].controller.value != c.systemActor
  {
    hide Accepts;
    var i := ControllerEntry(c, k);
    Distinguished(c, i, k);
    assert ListedBefore(c, c.entries[i].actor, |c.entries|);
  }

  lemma {:induction false} IntroduceRest(t: Tables, c: Config, k: nat, now: int)
    requires Accepts(c) && k <= |c.entries| && Introduced(t, c, k) && NoCredentials(t) && |c.policy| <= 128
    requires !ListedBefore(c, c.systemActor, |c.entries|)
    ensures var r := SeedIdentities(t, c.entries[k..], c.policy, now);
            && (r.Some? <==> forall i :: k <= i < |c.entries| ==> ControllerListed(c, i))
            && (r.Some? ==> Introduced(r.value, c, |c.entries|) && NoCredentials(r.value))
    decreases |c.entries| - k
  {
    hide Accepts, Introduced, NoCredentials, ControllerListed, SeedIdentity, ListedBefore;
    if k < |c.entries| {
      IntroduceNext(t, c, k, now);
      assert c.entries[k..][1..] == c.entries[k + 1..];
      var r := SeedIdentity(t, EntrySeed(c.entries[k]), c.policy, now);
      if r.Some? { IntroduceRest(r.value, c, k + 1, now); }
    }
  }

  /** An entry for the system actor meets the row of another actor type. */
  lemma {:induction false} SystemActorRefused(t: Tables, c: Config, k: nat, now: int)
    requires k <= |c.entries| && c.systemActor in t.actors && t.actors[c.systemActor].actorType == SystemWorker
    requires exists i :: k <= i < |c.entries| && c.entries[i].actor == c.systemActor
    ensures SeedIdentities(t, c.entries[k..], c.policy, now).None?
    decreases |c.entries| - k
  {
    assert c.entries[k..][1..] == c.entries[k + 1..];
    var r := SeedIdentity(t, EntrySeed(c.entries[k]), c.policy, now);
    if r.Some? { SystemActorRefused(r.value, c, k + 1, now); }
  }

  // ---------------------------------------------------------------------------------------
  // Credentials

  /** The credential rows of the first `k` entries. */
  function Rows(c: Config, k: nat, now: int): map<CredentialId, Credential>
    requires k <= |c.entries|
  {
    map n | 0 <= n < k :: Generated(n) := NewRow(c.entries[n], c.policy, now)
  }

  function Log(c: Config, k: nat): seq<Event>
    requires k <= |c.entries|
  {
    seq(k, n requires 0 <= n < k => Entered(c, n))
  }

  function Entered(c: Config, n: nat): Event
    requires n < |c.entries|
  {
    Event(CredentialRegistered, Generated(n), Some(InvitationRef(c.entries[n])))
  }

  lemma LogNext(c: Config, k: nat)
    requires k < |c.entries|
    ensures Log(c, k + 1) == Log(c, k) + [Entered(c, k)]
    ensures Log(c, k + 1)[..k] == Log(c, k)
  {
  }

  lemma RowsNext(c: Config, k: nat, now: int)
    requires k < |c.entries|
    ensures Rows(c, k + 1, now) == Rows(c, k, now)[Generated(k) := NewRow(c.entries[k], c.policy, now)]
  {
  }

  lemma NobodyHolds(c: Config, h: Hash)
    ensures Holders(Log(c, 0), h) == []
  {
  }

  lemma NothingRecorded(c: Config, id: CredentialId)
    ensures InvitationsOf(Log(c, 0), id) == []
  {
  }

  lemma InvitationsDiffer(c: Config, i: nat, j: nat)
    requires Accepts(c) && i < |c.entries| && j < |c.entries| && i != j
    ensures InvitationRef(c.entries[i]) != InvitationRef(c.entries[j])
  {
    hide Accepts;
    Distinguished(c, i, j);
  }

  /** Who holds an entry's invitation once `k` entries are registered. */
  lemma {:induction false} HoldersSoFar(c: Config, k: nat, i: nat)
    requires Accepts(c) && k <= |c.entries| && i < |c.entries|
    ensures Holders(Log(c, k), InvitationRef(c.entries[i])) == if i < k then [Generated(i)] else []
    decreases k
  {
    hide Accepts, Log, InvitationRef, Holders;
    if k > 0 {
      LogNext(c, k - 1);
      HoldersAppend(Log(c, k - 1), Entered(c, k - 1), InvitationRef(c.entries[i]));
      HoldersSoFar(c, k - 1, i);
      if i != k - 1 { InvitationsDiffer(c, i, k - 1); }
    } else {
      NobodyHolds(c, InvitationRef(c.entries[i]));
    }
  }

  lemma {:induction false} InvitationsSoFar(c: Config, k: nat, i: nat)
    requires k <= |c.entries| && i < |c.entries|
    ensures InvitationsOf(Log(c, k), Generated(i)) == if i < k then [Some(InvitationRef(c.entries[i]))] else []
    decreases k
  {
    hide InvitationRef, Log, InvitationsOf;
    if k > 0 {
      LogNext(c, k - 1);
      InvitationsAppend(Log(c, k - 1), Entered(c, k - 1), Generated(i));
      InvitationsSoFar(c, k - 1, i);
    } else {
      NothingRecorded(c, Generated(i));
    }
  }

  ghost predicate Issued(t: Tables, c: Config, k: nat, now: int)
    requires k <= |c.entries|
  {
    t.credentials == Rows(c, k, now) && t.events == Log(c, k) && t.nextId == k
  }

  /** Nothing issued so far stands in the way of entry `k`. */
  lemma NothingInTheWay(t: Tables, c: Config, k: nat, x: CredentialId, now: int)
    requires Accepts(c) && k < |c.entries| && Issued(t, c, k, now) && x in t.credentials
    ensures !SameBinding(t.credentials[x], NewRow(c.entries[k], c.policy, now)) && !Binds(t, x, c.entries[k])
    ensures AgentKind(c.entries[k].kind) ==> !SharesSender(t, x, c.entries[k])
  {
    hide Accepts;
    Distinguished(c, k, x.n);
  }

  lemma IssueNext(t: Tables, c: Config, k: nat, now: int)
    requires Accepts(c) && k < |c.entries| && Introduced(t, c, |c.entries|) && Issued(t, c, k, now)
    ensures var r := SeedCredential(t, c.entries[k], c.policy, now);
            && (r.Some? <==> Issuable(c.entries[k], now))
            && (r.Some? ==> r.value.1 == 1 && Issued(r.value.0, c, k + 1, now) && SameButIssued(t, r.value.0))
  {
    hide Accepts, Binds, SharesSender, SameBinding, AgentKind, SeedCredential, Register, Holders, Issued, Issuable,
         Introduced, NewRow, InvitationRef;
    var e := c.entries[k];
    assert Holders(t.events, InvitationRef(e)) == [] by { NobodyYet(t, c, k, now); }
    forall x | x in t.credentials
      ensures !SameBinding(t.credentials[x], NewRow(e, c.policy, now)) && !Binds(t, x, e)
      ensures AgentKind(e.kind) ==> !SharesSender(t, x, e)
    {
      NothingInTheWay(t, c, k, x, now);
    }
    AbsentUnbound(t, e);
    Registered(t, c, k, now);
    FreshEntry(t, e, c.policy, now);
  }

  lemma NobodyYet(t: Tables, c: Config, k: nat, now: int)
    requires Accepts(c) && k < |c.entries| && Issued(t, c, k, now)
    ensures Holders(t.events, InvitationRef(c.entries[k])) == []
  {
    hide Accepts, Log, InvitationRef, Holders, Rows;
    HoldersSoFar(c, k, k);
  }

  /** With nothing in its way an entry is registered. */
  lemma FreshEntry(t: Tables, e: Entry, policy: string, now: int)
    requires Holders(t.events, InvitationRef(e)) == [] && forall x :: !Binds(t, x, e)
    requires AgentKind(e.kind) ==> forall x :: !SharesSender(t, x, e)
    ensures SeedCredential(t, e, policy, now) ==
              match Register(t, FreshId(t), NewRow(e, policy, now), Some(InvitationRef(e)))
              case None => None
              case Some(u) => Some((u, 1))
  {
    hide Holders, Binds, SharesSender, NewRow, InvitationRef, Register;
  }

  lemma AbsentUnbound(t: Tables, e: Entry)
    ensures forall x :: x !in t.credentials ==> !Binds(t, x, e) && !SharesSender(t, x, e)
  {
  }

  /** An accepted entry's credential row passes its column checks as far as its list does. */
  lemma NewRowColumns(c: Config, k: nat, now: int)
    requires Accepts(c) && k < |c.entries|
    ensures CredentialRow(NewRow(c.entries[k], c.policy, now)) <==> StringList(c.entries[k].capabilities, 64)
  {
    hide SafeId, Origin, StringList, Clash, InvitationId, ApprovedAccount, BoundedText, ThumbprintText;
    assert EntryOk(c.entries[k], c.entries);
  }

  lemma IntroducedAt(t: Tables, c: Config, k: nat)
    requires Introduced(t, c, |c.entries|) && k < |c.entries|
    ensures Bound(t, EntrySeed(c.entries[k]), c.policy)
  {
    hide Bound;
  }

  lemma InsertsEntry(t: Tables, c: Config, k: nat, now: int)
    requires Accepts(c) && k < |c.entries| && Bound(t, EntrySeed(c.entries[k]), c.policy) && Issued(t, c, k, now)
    requires forall x :: x in t.credentials ==> !SameBinding(t.credentials[x], NewRow(c.entries[k], c.policy, now))
    ensures CanInsert(t, FreshId(t), NewRow(c.entries[k], c.policy, now)) <==> Issuable(c.entries[k], now)
  {
    NewRowColumns(c, k, now);
    hide SameBinding, Log, Accepts, CredentialRow, StringList;
  }

  lemma Registered(t: Tables, c: Config, k: nat, now: int)
    requires Accepts(c) && k < |c.entries| && Introduced(t, c, |c.entries|) && Issued(t, c, k, now)
    requires forall x :: x in t.credentials ==> !SameBinding(t.credentials[x], NewRow(c.entries[k], c.policy, now))
    ensures var r := Register(t, FreshId(t), NewRow(c.entries[k], c.policy, now), Some(InvitationRef(c.entries[k])));
            && (r.Some? <==> Issuable(c.entries[k], now))
            && (r.Some? ==> Issued(r.value, c, k + 1, now) && SameButIssued(t, r.value))
  {
    IntroducedAt(t, c, k);
    InsertsEntry(t, c, k, now);
    LogNext(c, k);
    RowsNext(c, k, now);
    hide SameBinding, Log, Rows, Introduced, Accepts, CanInsert, NewRow, Issuable, InvitationRef;
  }

  predicate SameButIssued(t: Tables, u: Tables) {
    u == t.(credentials := u.credentials, events := u.events, nextId := u.nextId)
  }

  lemma {:induction false} IssueRest(t: Tables, c: Config, k: nat, now: int)
    requires Accepts(c) && k <= |c.entries| && Introduced(t, c, |c.entries|) && Issued(t, c, k, now)
    ensures var r := SeedCredentials(t, c.entries[k..], c.policy, now);
            && (r.Some? <==> forall i :: k <= i < |c.entries| ==> Issuable(c.entries[i], now))
            && (r.Some? ==>
                  && r.value.1 == |c.entries| - k
                  && Issued(r.value.0, c, |c.entries|, now) && SameButIssued(t, r.value.0))
    decreases |c.entries| - k
  {
    if k < |c.entries| {
      IssueNext(t, c, k, now);
      assert c.entries[k..][1..] == c.entries[k + 1..];
      var r := SeedCredential(t, c.entries[k], c.policy, now);
      if r.Some? { IssueRest(r.value.0, c, k + 1, now); }
    }
  }

  // ---------------------------------------------------------------------------------------
  // Enrollments

  lemma HeldBy(t: Tables, c: Config, i: nat, x: CredentialId, now: int)
    requires Accepts(c) && i < |c.entries| && Issued(t, c, |c.entries|, now)
    ensures Holds(t, x, c.entries[i]) <==> x == Generated(i)
  {
    if x in t.credentials && x.n != i { Distinguished(c, i, x.n); }
  }

  predicate SameButEnrolled(t: Tables, u: Tables) {
    u == t.(enrollments := u.enrollments)
  }

  /** The enrollments of the self-service entries among the first `k`. */
  function Enrolled(c: Config, k: nat, now: int): map<(CredentialId, Role), Enrollment>
    requires k <= |c.entries|
  {
    map n | 0 <= n < k && SelfService(c.entries[n].profile) ::
      (Generated(n), RoleOf(c.entries[n].profile)) := EnrollmentOf(c.entries[n], c.policy, now)
  }

  function EnrollmentOf(e: Entry, policy: string, now: int): Enrollment {
    Enrollment(e.actor, e.capabilities, [e.clientId], policy, Active, now, Some(e.expiresAt), 1)
  }

  lemma EnrolledNext(c: Config, k: nat, now: int)
    requires k < |c.entries|
    ensures var e := c.entries[k];
            Enrolled(c, k + 1, now) ==
              if SelfService(e.profile)
              then Enrolled(c, k, now)[(Generated(k), RoleOf(e.profile)) := EnrollmentOf(e, c.policy, now)]
              else Enrolled(c, k, now)
    ensures forall role :: (Generated(k), role) !in Enrolled(c, k, now)
  {
    hide EnrollmentOf, RoleOf;
    assert forall role: Role :: (Generated(k), role).0 == Generated(k);
  }

  lemma NewEnrollmentColumns(c: Config, k: nat, now: int)
    requires Accepts(c) && k < |c.entries| && Issuable(c.entries[k], now) && SelfService(c.entries[k].profile)
    ensures EnrollmentRow(RoleOf(c.entries[k].profile), EnrollmentOf(c.entries[k], c.policy, now)) <==>
              ListItem(c.entries[k].clientId)
  {
    hide SafeId, Origin, ListItem, Clash, EntryOk;
    var one := [c.entries[k].clientId];
    assert one[0] == c.entries[k].clientId;
    assert StringList(one, 16) <==> ListItem(one[0]);
  }

  lemma EnrollNext(t: Tables, c: Config, k: nat, now: int)
    requires Accepts(c) && k < |c.entries| && Issued(t, c, |c.entries|, now) && t.enrollments == Enrolled(c, k, now)
    requires Issuable(c.entries[k], now)
    ensures var r := SeedEnrollment(t, c.entries[k], c.policy);
            && (r.Some? <==> EnrollmentFits(c.entries[k]))
            && (r.Some? ==> SameButEnrolled(t, r.value) && r.value.enrollments == Enrolled(c, k + 1, now))
  {
    hide Accepts, Log, Enrolled, EnrollmentRow, ListItem, Issuable;
    var e := c.entries[k];
    EnrolledNext(c, k, now);
    if SelfService(e.profile) { NewEnrollmentColumns(c, k, now); }
    assert t.credentials[Generated(k)] == NewRow(e, c.policy, now);
    assert NewEnrollment(e, c.policy, t.credentials[Generated(k)]) == EnrollmentOf(e, c.policy, now);
    forall x ensures Holds(t, x, e) <==> x == Generated(k) { HeldBy(t, c, k, x, now); }
    hide Rows, Holds, EnrollmentOf;
    assert Holds(t, Generated(k), e);
  }

  lemma {:induction false} EnrollRest(t: Tables, c: Config, k: nat, now: int)
    requires Accepts(c) && k <= |c.entries| && Issued(t, c, |c.entries|, now) && t.enrollments == Enrolled(c, k, now)
    requires forall i :: 0 <= i < |c.entries| ==> Issuable(c.entries[i], now)
    ensures var r := SeedEnrollments(t, c.entries[k..], c.policy);
            && (r.Some? <==> forall i :: k <= i < |c.entries| ==> EnrollmentFits(c.entries[i]))
            && (r.Some? ==> SameButEnrolled(t, r.value) && r.value.enrollments == Enrolled(c, |c.entries|, now))
    decreases |c.entries| - k
  {
    hide Accepts, Rows, Log, Enrolled, SeedEnrollment, Issuable, EnrollmentFits;
    if k < |c.entries| {
      EnrollNext(t, c, k, now);
      assert c.entries[k..][1..] == c.entries[k + 1..];
      var r := SeedEnrollment(t, c.entries[k], c.policy);
      if r.Some? { EnrollRest(r.value, c, k + 1, now); }
    }
  }

  lemma {:induction false} PartnersSeeded(t: Tables, c: Config, k: nat)
    requires k <= |c.entries| && (PartnerRow(c.tenant) || t.partners == {})
    ensures var u := SeedPartners(t, c.entries[k..], c.tenant);
            && (u.Some? <==> forall i :: k <= i < |c.entries| ==> PartnerFits(c, c.entries[i]))
            && (u.Some? ==>
                  && u.value == t.(partners := u.value.partners) && t.partners <= u.value.partners
                  && (forall i :: k <= i < |c.entries| && c.entries[i].profile == PartnerProfile ==>
                        c.entries[i].actor in u.value.partners)
                  && (forall a :: a in u.value.partners && a !in t.partners ==>
                        exists i :: k <= i < |c.entries| && c.entries[i].profile == PartnerProfile &&
                                    c.entries[i].actor == a))
    decreases |c.entries| - k
  {
    if k < |c.entries| {
      assert c.entries[k..][1..] == c.entries[k + 1..];
      var r := SeedPartner(t, c.entries[k], c.tenant);
      if r.Some? { PartnersSeeded(r.value, c, k + 1); }
    }
  }

  // ---------------------------------------------------------------------------------------
  // The whole seeding

  lemma ProposableEntry(c: Config, k: nat)
    requires Accepts(c) && k < |c.entries| && |c.policy| <= 128 && !ListedBefore(c, c.systemActor, |c.entries|)
    ensures Proposable(EntrySeed(c.entries[k]), c.policy)
  {
    if c.entries[k].controller.Some? { ControllerElsewhere(c, k); }
  }

  /** What seeding would propose for an entry passes the column checks again. */
  lemma ProposedAgain(u: Tables, c: Config, i: nat, now: int)
    requires Accepts(c) && i < |c.entries| && Issued(u, c, |c.entries|, now) && SelfService(c.entries[i].profile)
    requires Issuable(c.entries[i], now) && EnrollmentFits(c.entries[i])
    ensures Generated(i) in u.credentials
    ensures var e := c.entries[i];
            EnrollmentRow(RoleOf(e.profile), NewEnrollment(e, c.policy, u.credentials[Generated(i)]))
  {
    NewEnrollmentColumns(c, i, now);
    hide Accepts, EnrollmentRow, ListItem, StringList, Log;
    assert NewEnrollment(c.entries[i], c.policy, u.credentials[Generated(i)]) ==
        EnrollmentOf(c.entries[i], c.policy, now);
  }

  lemma EnrollmentHeld(u: Tables, c: Config, i: nat, now: int)
    requires Accepts(c) && i < |c.entries| && Issued(u, c, |c.entries|, now) && SelfService(c.entries[i].profile)
    requires (Generated(i), RoleOf(c.entries[i].profile)) in u.enrollments
    requires Issuable(c.entries[i], now) && EnrollmentFits(c.entries[i])
    ensures HoldsOne(u, c.entries[i])
    ensures forall x :: Holds(u, x, c.entries[i]) ==>
              x in u.credentials && (x, RoleOf(c.entries[i].profile)) in u.enrollments &&
              EnrollmentRow(RoleOf(c.entries[i].profile), NewEnrollment(c.entries[i], c.policy, u.credentials[x]))
  {
    hide Accepts, Holds, EnrollmentRow, NewEnrollment, Issued, RoleOf, Issuable, EnrollmentFits;
    var e := c.entries[i];
    forall x ensures Holds(u, x, e) <==> x == Generated(i) { HeldBy(u, c, i, x, now); }
    assert Holds(u, Generated(i), e);
    ProposedAgain(u, c, i, now);
  }

  lemma BindingHeld(u: Tables, c: Config, i: nat, now: int)
    requires Accepts(c) && i < |c.entries| && Issued(u, c, |c.entries|, now)
    ensures AgentKind(c.entries[i].kind) ==> SenderFree(u, c.entries[i])
    ensures exists x :: Binds(u, x, c.entries[i])
    ensures forall x :: Binds(u, x, c.entries[i]) ==> x in u.credentials && StoredMatches(u, x, c.entries[i], c.policy)
  {
    hide Accepts, StoredMatches, Binds, SharesSender, AgentKind, Issued;
    var e := c.entries[i];
    StoredAsIssued(u, c, i, now);
    forall x ensures Binds(u, x, e) <==> x == Generated(i) { BoundBy(u, c, i, x, now); }
    assert Binds(u, Generated(i), e);
    if AgentKind(e.kind) {
      forall x ensures SharesSender(u, x, e) <==> x == Generated(i) { BoundBy(u, c, i, x, now); }
    }
  }

  /** All that was written for an entry. */
  ghost predicate EntryWritten(u: Tables, c: Config, i: nat, now: int)
    requires i < |c.entries|
  {
    var e := c.entries[i];
    && Introduced(u, c, |c.entries|) && Issued(u, c, |c.entries|, now)
    && (e.profile == PartnerProfile ==> e.actor in u.partners)
    && (SelfService(e.profile) ==> (Generated(i), RoleOf(e.profile)) in u.enrollments)
    && |c.policy| <= 128 && !ListedBefore(c, c.systemActor, |c.entries|)
    && Issuable(e, now) && EnrollmentFits(e)
  }

  lemma EntryHeld(u: Tables, c: Config, i: nat, now: int)
    requires i < |c.entries| && Accepts(c) && EntryWritten(u, c, i, now)
    ensures HoldingEntry(u, c.entries[i], c.policy)
  {
    hide Accepts, Introduced, Issued, Issuable, EnrollmentFits, ListedBefore, Bound, Proposable, SenderFree, Binds,
         StoredMatches, Holds,
         HoldsOne, EnrollmentRow, NewEnrollment, RoleOf, AgentKind, SelfService, EntrySeed;
    IntroducedAt(u, c, i);
    ProposableEntry(c, i);
    BindingHeld(u, c, i, now);
    if SelfService(c.entries[i].profile) { EnrollmentHeld(u, c, i, now); }
  }

  lemma StoredAsIssued(u: Tables, c: Config, i: nat, now: int)
    requires Accepts(c) && i < |c.entries| && Issued(u, c, |c.entries|, now)
    ensures Generated(i) in u.credentials && u.credentials[Generated(i)].actor == c.entries[i].actor
    ensures StoredMatches(u, Generated(i), c.entries[i], c.policy)
  {
    hide Accepts, Log, Holders, InvitationsOf;
    HoldersSoFar(c, |c.entries|, i);
    InvitationsSoFar(c, |c.entries|, i);
  }

  lemma BoundBy(u: Tables, c: Config, i: nat, x: CredentialId, now: int)
    requires Accepts(c) && i < |c.entries| && Issued(u, c, |c.entries|, now)
    ensures Binds(u, x, c.entries[i]) <==> x == Generated(i)
    ensures AgentKind(c.entries[i].kind) ==> (SharesSender(u, x, c.entries[i]) <==> x == Generated(i))
  {
    hide Accepts;
    if x in u.credentials && x.n != i { Distinguished(c, i, x.n); }
  }

  /** Two entries have different subject bindings and, for Agents, different senders. */
  lemma Distinguished(c: Config, i: nat, j: nat)
    requires Accepts(c) && i < |c.entries| && j < |c.entries| && i != j
    ensures var e, f := c.entries[i], c.entries[j];
            && e.actor != f.actor && e.invitation != f.invitation
            && !(e.issuer == f.issuer && e.clientId == f.clientId && SubjectRef(e) == SubjectRef(f))
            && (AgentKind(e.kind) ==> SenderRef(e) != SenderRef(f))
  {
    assert EntryOk(c.entries[i], c.entries) && EntryOk(c.entries[j], c.entries);
    if i < j { assert !Clash(c.entries[i], c.entries[j]); } else { assert !Clash(c.entries[j], c.entries[i]); }
  }

  /** Everything in the tables after the first run: an identity for the system actor and each
      entry and nobody else, one credential and one event per entry, and the enrollments of the
      self-service entries. */
  ghost predicate Complete(t: Tables, c: Config, now: int) {
    && Introduced(t, c, |c.entries|) && Issued(t, c, |c.entries|, now)
    && t.enrollments == Enrolled(c, |c.entries|, now)
  }

  /** Partners, credentials and enrollments, as the transaction goes on after identities. */
  ghost function Finish(t: Tables, c: Config, now: int): Option<(Tables, nat)> {
    var t4 :- SeedPartners(t, c.entries, c.tenant);
    var t5 :- SeedCredentials(t4, c.entries, c.policy, now);
    var t6 :- SeedEnrollments(t5.0, c.entries, c.policy);
    Some((t6, t5.1))
  }

  /** Every entry fits what is written for it. */
  ghost predicate AllFit(c: Config, now: int) {
    && (forall i :: 0 <= i < |c.entries| ==> PartnerFits(c, c.entries[i]))
    && (forall i :: 0 <= i < |c.entries| ==> Issuable(c.entries[i], now))
    && (forall i :: 0 <= i < |c.entries| ==> EnrollmentFits(c.entries[i]))
  }

  predicate SameMembers(t: Tables, u: Tables) {
    u.actors == t.actors && u.memberships == t.memberships && u.sessions == t.sessions && u.runtimes == t.runtimes
  }

  /** Only partner entries have a partner profile. */
  ghost predicate OnlyPartners(t: Tables, c: Config) {
    forall a :: a in t.partners ==>
      exists i :: 0 <= i < |c.entries| && c.entries[i].profile == PartnerProfile && c.entries[i].actor == a
  }

  /** From identities to the finished tables. */
  lemma FinishExactly(t: Tables, c: Config, now: int)
    requires Accepts(c) && Introduced(t, c, |c.entries|) && NoCredentials(t)
    requires |c.policy| <= 128 && !ListedBefore(c, c.systemActor, |c.entries|)
    ensures var r := Finish(t, c, now);
            && (r.Some? <==> AllFit(c, now))
            && (r.Some? ==> r.value.1 == |c.entries| && Complete(r.value.0, c, now) && Holding(r.value.0, c))
            && (r.Some? ==> SameMembers(t, r.value.0) && OnlyPartners(r.value.0, c))
  {
    hide Accepts, Bound, Enrolled, SeedCredentials, SeedEnrollments, HoldingEntry, SeedPartners, Issuable,
         EnrollmentFits, PartnerFits,
         ListedBefore, PartnerRow;
    assert c.entries[0..] == c.entries;
    PartnersSeeded(t, c, 0);
    var r4 := SeedPartners(t, c.entries, c.tenant);
    if r4.Some? {
      var t4 := r4.value;
      SameBound(t, t4);
      assert Issued(t4, c, 0, now);
      IssueRest(t4, c, 0, now);
      var r5 := SeedCredentials(t4, c.entries, c.policy, now);
      if r5.Some? {
        assert r5.value.0.enrollments == Enrolled(c, 0, now) by { NoneEnrolled(c, now); }
        EnrollRest(r5.value.0, c, 0, now);
        var r6 := SeedEnrollments(r5.value.0, c.entries, c.policy);
        if r6.Some? {
          SameBound(t4, r6.value);
          FinishedHolds(r6.value, c, now);
        }
      }
    }
  }

  lemma FinishedHolds(u: Tables, c: Config, now: int)
    requires Accepts(c) && Complete(u, c, now) && AllFit(c, now)
    requires |c.policy| <= 128 && !ListedBefore(c, c.systemActor, |c.entries|)
    requires forall i :: 0 <= i < |c.entries| && c.entries[i].profile == PartnerProfile ==>
               c.entries[i].actor in u.partners
    ensures Holding(u, c)
  {
    hide Accepts, Bound, Enrolled, HoldingEntry, Issuable, EnrollmentFits, PartnerFits, ListedBefore, Rows, Log;
    assert Proposable(SystemSeed(c), c.policy) by { PolicyIsText(c); }
    forall i | 0 <= i < |c.entries| ensures HoldingEntry(u, c.entries[i], c.policy) {
      if SelfService(c.entries[i].profile) { EnrolledAt(c, i, now); }
      EntryHeld(u, c, i, now);
    }
  }

  lemma PolicyIsText(c: Config)
    requires Accepts(c)
    ensures |c.policy| >= 2
  {
  }

  lemma NoneEnrolled(c: Config, now: int)
    ensures Enrolled(c, 0, now) == map[]
  {
  }

  lemma EnrolledAt(c: Config, i: nat, now: int)
    requires i < |c.entries| && SelfService(c.entries[i].profile)
    ensures (Generated(i), RoleOf(c.entries[i].profile)) in Enrolled(c, |c.entries|, now)
  {
  }

  lemma SameBound(t: Tables, u: Tables)
    requires t.actors == u.actors && t.memberships == u.memberships
    ensures forall s: Seed, policy: string :: Bound(u, s, policy) == Bound(t, s, policy)
  {
  }

  /** Seeding empty tables from an accepted configuration succeeds exactly when the
      configuration is seedable; it then inserts one credential per entry, and the tables are
      complete for the configuration and hold it. */
  lemma SeedsExactly(c: Config, now: int)
    requires Accepts(c)
    ensures var r := SeedAll(Empty, c, now);
            && (r.Some? <==> Seedable(c, now))
            && (r.Some? ==> r.value.1 == |c.entries| && Complete(r.value.0, c, now) && Holding(r.value.0, c))
  {
    hide Accepts, Bound, SeedTenant, SeedIdentity, SeedIdentities, SeedCredentials, SeedEnrollments, SeedPartners,
         Holding,
         ControllerListed, Introduced, NoCredentials, Complete, Issuable, EnrollmentFits, PartnerFits;
    SystemFirst(c, now);
    assert c.entries[0..] == c.entries;
    if |c.policy| <= 128 {
      var t2 := SeedIdentity(SeedTenant(Empty, c.tenant).value, SystemSeed(c), c.policy, now).value;
      if ListedBefore(c, c.systemActor, |c.entries|) {
        SystemActorRefused(t2, c, 0, now);
      } else {
        IntroduceRest(t2, c, 0, now);
        var r3 := SeedIdentities(t2, c.entries, c.policy, now);
        if r3.Some? { FinishExactly(r3.value, c, now); }
      }
    }
  }

  /** Every membership dates from the seeding and has no end. */
  ghost predicate MembersSince(t: Tables, now: int) {
    && t.sessions == map[] && t.runtimes == map[]
    && forall a :: a in t.memberships ==>
         t.memberships[a].validFrom == now && t.memberships[a].expiresAt == None && t.memberships[a].version == 1
  }

  lemma MemberSince(t: Tables, s: Seed, policy: string, now: int)
    requires MembersSince(t, now) && SeedIdentity(t, s, policy, now).Some?
    ensures MembersSince(SeedIdentity(t, s, policy, now).value, now)
  {
    hide Bound, Proposable;
  }

  lemma {:induction false} MembersSeeded(t: Tables, entries: seq<Entry>, policy: string, now: int)
    requires MembersSince(t, now) && SeedIdentities(t, entries, policy, now).Some?
    ensures MembersSince(SeedIdentities(t, entries, policy, now).value, now)
    decreases |entries|
  {
    if entries != [] {
      MemberSince(t, EntrySeed(entries[0]), policy, now);
      hide SeedIdentity, MembersSince;
      MembersSeeded(SeedIdentity(t, EntrySeed(entries[0]), policy, now).value, entries[1..], policy, now);
    }
  }

  /** The rest of what is known of the seeded tables. */
  lemma SeededTables(c: Config, now: int)
    requires Accepts(c) && SeedAll(Empty, c, now).Some?
    ensures var u := SeedAll(Empty, c, now).value.0;
            MembersSince(u, now) && OnlyPartners(u, c) && Complete(u, c, now) && Holding(u, c)
  {
    hide *;
    SeedsExactly(c, now);
    SystemFirst(c, now);
    SeedableParts(c, now);
    SeedAllParts(c, now);
    var t1 := SeedTenant(Empty, c.tenant).value;
    var t2 := SeedIdentity(t1, SystemSeed(c), c.policy, now).value;
    var t3 := SeedIdentities(t2, c.entries, c.policy, now).value;
    TenantOnly(c, now);
    MemberSince(t1, SystemSeed(c), c.policy, now);
    MembersSeeded(t2, c.entries, c.policy, now);
    assert c.entries[0..] == c.entries;
    IntroduceRest(t2, c, 0, now);
    FinishExactly(t3, c, now);
    MembersKept(t3, SeedAll(Empty, c, now).value.0, now);
  }

  lemma SeedableParts(c: Config, now: int)
    requires Seedable(c, now)
    ensures |c.policy| <= 128 && !ListedBefore(c, c.systemActor, |c.entries|)
  {
    hide ListedBefore, ControllerListed, PartnerFits, Issuable, EnrollmentFits;
  }

  lemma TenantOnly(c: Config, now: int)
    requires SeedTenant(Empty, c.tenant).Some?
    ensures MembersSince(SeedTenant(Empty, c.tenant).value, now)
  {
  }

  /** The transaction, as identities and the rest. */
  lemma SeedAllParts(c: Config, now: int)
    requires SeedAll(Empty, c, now).Some?
    ensures var t1 := SeedTenant(Empty, c.tenant);
            && t1.Some?
            && var t2 := SeedIdentity(t1.value, SystemSeed(c), c.policy, now);
            && t2.Some?
            && var t3 := SeedIdentities(t2.value, c.entries, c.policy, now);
            && t3.Some? && SeedAll(Empty, c, now) == Finish(t3.value, c, now)
  {
    hide SeedTenant, SeedIdentity, SeedIdentities, SeedPartners, SeedCredentials, SeedEnrollments;
  }

  lemma MembersKept(t: Tables, u: Tables, now: int)
    requires MembersSince(t, now) && SameMembers(t, u)
    ensures MembersSince(u, now)
  {
  }

  lemma SystemFirst(c: Config, now: int)
    requires Accepts(c)
    ensures SeedTenant(Empty, c.tenant).Some?
    ensures var r := SeedIdentity(SeedTenant(Empty, c.tenant).value, SystemSeed(c), c.policy, now);
            && (r.Some? <==> |c.policy| <= 128)
            && (r.Some? ==>
                  Introduced(r.value, c, 0) && NoCredentials(r.value) &&
                  c.systemActor in r.value.actors && r.value.actors[c.systemActor].actorType == SystemWorker)
  {
    assert c.tenant.active && |c.policy| >= 2;
    hide Accepts;
  }

  /** Bootstrapping twice is bootstrapping once: the second run inserts no credential and
      changes no table, whenever it happens. */
  lemma SecondRunChangesNothing(c: Config, now: int, later: int)
    requires Accepts(c) && SeedAll(Empty, c, now).Some?
    ensures var u := SeedAll(Empty, c, now).value.0;
            SeedAll(u, c, later) == Some((u, 0))
  {
    SeedsExactly(c, now);
    SeedAgain(SeedAll(Empty, c, now).value.0, c, later);
  }

  // ---------------------------------------------------------------------------------------
  // Accepted configurations that cannot be seeded

  const ISSUER: string := "https://ipo.one"

  function OwnerEntry(client: ClientId, expiresAt: int): Entry {
    Entry(HumanWallet, ControllerProfile, [], "owner1", client, ISSUER, "eip155:84532:0x" + seq(40, _ => 'a'),
          "invite_owner0001", expiresAt, None, None)
  }

  function AgentEntry(expiresAt: int): Entry {
    Entry(AgentDpop, AgentProfile, [], "agent1", "client_agent", ISSUER, "urn:agent", "invite_agent0001",
          expiresAt, Some("owner1"), Some(seq(43, _ => 'A')))
  }

  function PilotTenant(): Tenant {
    Tenant(true, "org", "Pilot", "US", "owner")
  }

  function PilotConfig(entries: seq<Entry>): Config {
    Config(PilotTenant(), "system1", "client_system", [], "policy.v1", entries)
  }

  lemma ShortTexts(owner: string, agent: string, system: string, policy: string)
    requires owner == "owner1" && agent == "agent1" && system == "system1" && policy == "policy.v1"
    ensures SafeId(owner) && SafeId(agent) && SafeId(system) && SafeId(policy)
  {
  }

  lemma ClientTexts(agent: string, system: string)
    requires agent == "client_agent" && system == "client_system"
    ensures SafeId(agent) && SafeId(system)
  {
  }

  lemma InvitationTexts(owner: string, agent: string)
    requires owner == "invite_owner0001" && agent == "invite_agent0001"
    ensures InvitationId(owner) && InvitationId(agent) && owner != agent
  {
    assert owner[..7] == "invite_" && agent[..7] == "invite_" && owner[7] != agent[7];
  }

  lemma OriginText(issuer: string)
    requires issuer == "https://ipo.one"
    ensures Origin(issuer)
  {
    assert issuer[..8] == "https://";
  }

  lemma AccountText(s: string)
    requires s == "eip155:84532:0x" + seq(40, _ => 'a')
    ensures ApprovedAccount(s)
  {
    assert "eip155:84532:" + "0x" == "eip155:84532:0x";
    assert s[..15] == "eip155:84532:0x";
    assert AccountOn("eip155:84532:", s);
  }

  lemma OwnerAccepted(client: ClientId, expiresAt: int, entries: seq<Entry>)
    requires SafeId(client)
    ensures EntryOk(OwnerEntry(client, expiresAt), entries)
  {
    var e := OwnerEntry(client, expiresAt);
    ShortTexts(e.actor, "agent1", "system1", "policy.v1");
    InvitationTexts(e.invitation, "invite_agent0001");
    OriginText(e.issuer);
    AccountText(e.subject);
    hide SafeId, InvitationId, Origin, ApprovedAccount;
  }

  lemma AgentAccepted(expiresAt: int, entries: seq<Entry>, i: nat)
    requires i < |entries| && entries[i].actor == "owner1" && entries[i].profile == ControllerProfile
    ensures EntryOk(AgentEntry(expiresAt), entries)
  {
    var e := AgentEntry(expiresAt);
    ShortTexts("owner1", e.actor, "system1", "policy.v1");
    ClientTexts(e.clientId, "client_system");
    InvitationTexts("invite_owner0001", e.invitation);
    OriginText(e.issuer);
    assert BoundedText(e.subject, 512) && ThumbprintText(e.thumbprint.value);
    hide SafeId, InvitationId, Origin, BoundedText, ThumbprintText;
  }

  lemma PilotTexts(c: Config)
    requires c.tenant == PilotTenant() && c.systemActor == "system1" && c.systemClient == "client_system" &&
             c.policy == "policy.v1"
    ensures TenantText(c.tenant) && SafeId(c.systemActor) && SafeId(c.systemClient) && SafeId(c.policy) &&
            c.tenant.active
  {
    ShortTexts("owner1", "agent1", c.systemActor, c.policy);
    ClientTexts("client_agent", c.systemClient);
    hide SafeId;
  }

  /** An Agent listed before its controller. */
  function Misordered(expiresAt: int): Config {
    PilotConfig([AgentEntry(expiresAt), OwnerEntry("client_owner", expiresAt)])
  }

  lemma OwnerClientText(client: string)
    requires client == "client_owner"
    ensures SafeId(client) && client != "client_agent"
  {
    assert client[7] == 'o' && "client_agent"[7] == 'a';
  }

  lemma MisorderedAccepted(expiresAt: int)
    ensures Accepts(Misordered(expiresAt))
  {
    var c := Misordered(expiresAt);
    var e, f := c.entries[0], c.entries[1];
    PilotTexts(c);
    OwnerClientText(f.clientId);
    OwnerAccepted(f.clientId, expiresAt, c.entries);
    AgentAccepted(expiresAt, c.entries, 1);
    InvitationTexts(f.invitation, e.invitation);
    assert e.actor[0] != f.actor[0];
    assert !Clash(e, f);
    hide SafeId, TenantText, EntryOk, Clash;
  }

  /** The membership insert of the Agent runs into the foreign key. */
  lemma AgentListedFirst(now: int)
    ensures var c := Misordered(now + 1);
            Accepts(c) && InWindow(c, now) && SeedAll(Empty, c, now).None?
  {
    var c := Misordered(now + 1);
    MisorderedAccepted(now + 1);
    assert c.entries[0].controller.Some? && !ListedBefore(c, c.entries[0].controller.value, 0);
    assert !ControllerListed(c, 0);
    hide Accepts, SeedAll;
    SeedsExactly(c, now);
  }

  /** A controller whose client id the configuration takes and the enrollment column does not. */
  function OddClient(expiresAt: int): Config {
    PilotConfig([OwnerEntry("Client@A/1", expiresAt)])
  }

  lemma OddClientText(client: string)
    requires client == "Client@A/1"
    ensures SafeId(client) && !ListItem(client)
  {
  }

  lemma OddClientAccepted(expiresAt: int)
    ensures Accepts(OddClient(expiresAt))
  {
    var c := OddClient(expiresAt);
    PilotTexts(c);
    OddClientText(c.entries[0].clientId);
    OwnerAccepted(c.entries[0].clientId, expiresAt, c.entries);
    hide SafeId, TenantText, EntryOk, Clash;
  }

  /** The enrollment insert runs into the column check. */
  lemma ClientRefused(now: int)
    ensures var c := OddClient(now + 1);
            Accepts(c) && InWindow(c, now) && SeedAll(Empty, c, now).None?
  {
    var c := OddClient(now + 1);
    OddClientAccepted(now + 1);
    OddClientText(c.entries[0].clientId);
    assert !EnrollmentFits(c.entries[0]);
    hide Accepts, SeedAll, EnrollmentFits;
    SeedsExactly(c, now);
  }
}

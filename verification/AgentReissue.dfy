/**
 Retries of the Agent credential transactions: reprovisioning conserves authority, and once it
 has succeeded the only thing that can succeed for that Agent again, in any later tables, is
 the same request, which changes nothing.
 */
module AgentReissue {
  import opened Options
  import opened Identifiers
  import opened CredentialTables
  import opened ProductionBootstrap
  import opened AgentCredentials

  // ---------------------------------------------------------------------------------------
  // Authority is conserved

  function ActiveOf(t: Tables, a: ActorId): set<CredentialId> {
    set id | id in t.credentials && t.credentials[id].actor == a && t.credentials[id].status == Active
  }

  predicate SameAuthority(c: Credential, d: Credential) {
    && d.actor == c.actor && d.actorType == c.actorType && d.issuer == c.issuer && d.clientId == c.clientId
    && d.roles == c.roles && d.capabilities == c.capabilities && d.policy == c.policy && d.expiresAt == c.expiresAt
    && d.clientMethod == c.clientMethod && d.senderMethod == c.senderMethod
  }

  /** The prior credential is out, its successor carries the same authority under the request's
      references. */
  predicate Succeeds(t: Tables, r: Request, prior: CredentialId, id: CredentialId) {
    prior in t.credentials && id in t.credentials && t.credentials[prior].actor == r.actor &&
    var c, d := t.credentials[prior], t.credentials[id];
    && c.status == Revoked && d.status == Active && c.keyVersion == V1 && d.keyVersion == V2
    && SameAuthority(c, d.(actorType := c.actorType))
    && d.subject == SubjectOf(r) && d.sender == SenderOf(r)
  }

  lemma ReissueChanges(t: Tables, r: Request, prior: CredentialId, now: int)
    requires Reviewed(t, r, prior, now) && r.key == V2 && Reissue(t, r, prior, now).Some?
    ensures var o := Reissue(t, r, prior, now).value;
            && o.credential == FreshId(t) && !o.replayed && o.credential !in t.credentials && prior != o.credential
            && o.tables.credentials.Keys == t.credentials.Keys + {o.credential}
            && (forall x :: x in t.credentials && x != prior ==> o.tables.credentials[x] == t.credentials[x])
            && t.credentials[prior].status == Active
            && o.tables.credentials[prior] == t.credentials[prior].(status := Revoked, updatedAt := now)
            && Succeeds(o.tables, r, prior, o.credential)
            && o.tables.credentials[o.credential].actorType == Agent
            && o.tables == t.(credentials := o.tables.credentials, events := o.tables.events, nextId := o.tables.nextId)
  {
    hide Mentions, SameBinding;
  }

  /** Reprovisioning hands over exactly the old authority: a repeat changes no table; otherwise
      the prior credential leaves the actor's active ones, its successor joins them, and nobody
      else's credentials change. */
  lemma ConservesAuthority(t: Tables, r: Request, prior: CredentialId, now: int)
    requires Reprovision(t, r, prior, now).Some?
    ensures var o := Reprovision(t, r, prior, now).value;
            && Succeeds(o.tables, r, prior, o.credential)
            && (o.replayed ==> o.tables == t)
            && |ActiveOf(o.tables, r.actor)| == |ActiveOf(t, r.actor)|
            && (!o.replayed ==> prior in ActiveOf(t, r.actor) && o.credential !in t.credentials &&
                                ActiveOf(o.tables, r.actor) == ActiveOf(t, r.actor) - {prior} + {o.credential})
            && (forall x :: x in t.credentials && t.credentials[x].actor != r.actor ==>
                  x in o.tables.credentials && o.tables.credentials[x] == t.credentials[x])
  {
    hide Reissue, Reissued;
    var o := Reprovision(t, r, prior, now).value;
    if exists id :: SecondKey(t, r.actor, id) {
      ReplaySucceeds(t, r, prior, now);
    } else {
      ReissueChanges(t, r, prior, now);
      hide Reprovision, Reviewed, SameAuthority, ActiveOf;
      HandsOver(t, o.tables, r.actor, prior, o.credential);
    }
  }

  lemma HandsOver(t: Tables, u: Tables, a: ActorId, prior: CredentialId, next: CredentialId)
    requires prior in t.credentials && next !in t.credentials && u.credentials.Keys == t.credentials.Keys + {next}
    requires forall x :: x in t.credentials && x != prior ==> u.credentials[x] == t.credentials[x]
    requires t.credentials[prior].actor == a && t.credentials[prior].status == Active
    requires u.credentials[prior].status == Revoked
    requires u.credentials[next].actor == a && u.credentials[next].status == Active
    ensures prior in ActiveOf(t, a) && ActiveOf(u, a) == ActiveOf(t, a) - {prior} + {next}
    ensures |ActiveOf(u, a)| == |ActiveOf(t, a)|
  {
    assert ActiveOf(u, a) == ActiveOf(t, a) - {prior} + {next};
  }

  lemma ReplaySucceeds(t: Tables, r: Request, prior: CredentialId, now: int)
    requires Reprovision(t, r, prior, now).Some? && exists id :: SecondKey(t, r.actor, id)
    ensures var o := Reprovision(t, r, prior, now).value;
            o.replayed && o.tables == t && Succeeds(t, r, prior, o.credential) &&
                SoleSecondKey(t, r.actor, o.credential) &&
            Mentions(t.events, InvitationOf(r)) == [o.credential]
  {
    hide Mentions, Reissue;
  }

  // ---------------------------------------------------------------------------------------
  // What the log says about an invitation

  lemma {:induction false} MentionedSomewhere(events: seq<Event>, h: Hash, id: CredentialId) returns (i: nat)
    requires id in Mentions(events, h)
    ensures i < |events| && events[i].invitation == Some(h) && events[i].credential == id
    decreases |events|
  {
    var n := |events| - 1;
    if events[n].invitation == Some(h) && events[n].credential == id {
      i := n;
    } else {
      i := MentionedSomewhere(events[..n], h, id);
    }
  }

  lemma {:induction false} RegisteredAt(events: seq<Event>, id: CredentialId, i: nat)
    requires i < |events| && events[i].kind == CredentialRegistered && events[i].credential == id
    ensures Registrations(events, id) >= 1
    decreases |events|
  {
    var n := |events| - 1;
    if i < n { RegisteredAt(events[..n], id, i); }
  }

  lemma {:induction false} RegisteredOnce(events: seq<Event>, id: CredentialId, i: nat, j: nat)
    requires Registrations(events, id) <= 1 && i < |events| && j < |events|
    requires events[i].kind == CredentialRegistered && events[i].credential == id
    requires events[j].kind == CredentialRegistered && events[j].credential == id
    ensures i == j
    decreases |events|
  {
    var n := |events| - 1;
    if i < n && j < n { RegisteredOnce(events[..n], id, i, j); }
    else if i < n { RegisteredAt(events[..n], id, i); }
    else if j < n { RegisteredAt(events[..n], id, j); }
  }

  /** A credential's invitation never changes, however the log grows. */
  lemma SameInvitation(t: Tables, u: Tables, id: CredentialId, h: Hash, g: Hash)
    requires LogAgrees(t) && LogAgrees(u) && Preserves(t, u) && id in t.credentials
    requires id in Mentions(t.events, h) && id in Mentions(u.events, g)
    ensures h == g
  {
    hide Mentions, LoggedStatus;
    var i := MentionedSomewhere(t.events, h, id);
    var j := MentionedSomewhere(u.events, g, id);
    assert t.events[i] == u.events[..|t.events|][i] == u.events[i];
    RegisteredOnce(u.events, id, i, j);
  }

  lemma MentionsAppend(events: seq<Event>, e: Event, h: Hash)
    ensures Mentions(events + [e], h) == Mentions(events, h) + if e.invitation == Some(h) then [e.credential] else []
  {
    assert (events + [e])[..|events|] == events;
  }

  /** After a success the successor is the actor's only credential under the second key and
      the only one its invitation mentions. */
  lemma AfterSuccess(t: Tables, r: Request, prior: CredentialId, now: int)
    requires Reprovision(t, r, prior, now).Some?
    ensures var o := Reprovision(t, r, prior, now).value;
            SoleSecondKey(o.tables, r.actor, o.credential) && Mentions(o.tables.events,
                          InvitationOf(r)) == [o.credential]
  {
    if exists id :: SecondKey(t, r.actor, id) {
      ReplaySucceeds(t, r, prior, now);
    } else {
      ReissueChanges(t, r, prior, now);
      ReissueLogs(t, r, prior, now);
      hide Reissue, Mentions, Reviewed, Reissued;
      var o := Reprovision(t, r, prior, now).value;
      forall x ensures SecondKey(o.tables, r.actor, x) <==> x == o.credential { assert !SecondKey(t, r.actor, x); }
    }
  }

  lemma ReissueLogs(t: Tables, r: Request, prior: CredentialId, now: int)
    requires prior in t.credentials && Reissue(t, r, prior, now).Some?
    ensures Mentions(Reissue(t, r, prior, now).value.tables.events, InvitationOf(r)) == [FreshId(t)]
  {
    hide Mentions, CanInsert;
    var h, id := InvitationOf(r), FreshId(t);
    var e1, e2 := Event(CredentialRevoked, prior, None), Event(CredentialRegistered, id, Some(h));
    var e3 := Event(ReferenceRebound, id, None);
    MentionsAppend(t.events, e1, h);
    MentionsAppend(t.events + [e1], e2, h);
    MentionsAppend(t.events + [e1] + [e2], e3, h);
  }

  // ---------------------------------------------------------------------------------------
  // Retries

  predicate SameReferences(r: Request, q: Request) {
    && q.actor == r.actor && q.clientId == r.clientId && q.issuer == r.issuer
    && q.subject == r.subject && q.invitation == r.invitation && q.thumbprint == r.thumbprint
  }

  lemma RequestClient(t: Tables, r: Request, prior: CredentialId, now: int)
    requires Reprovision(t, r, prior, now).Some?
    ensures var o := Reprovision(t, r, prior, now).value;
            prior in o.tables.credentials && o.tables.credentials[prior].clientId == r.clientId
  {
    StillReviewed(t, r, prior, now, now);
    if exists id :: SecondKey(t, r.actor, id) {
      ReplaySucceeds(t, r, prior, now);
    } else {
      ReissueChanges(t, r, prior, now);
    }
  }

  /** Once an Agent is reprovisioned, any request for it that succeeds in any later tables has
      the same client, issuer, subject, invitation and sender, answers with the same credential
      and changes nothing; a request that differs in one of them fails. */
  lemma OnlyTheSameSucceeds(t: Tables, r: Request, prior: CredentialId, now: int,
                            u: Tables, q: Request, other: CredentialId, later: int)
    requires LogAgrees(t) && Reprovision(t, r, prior, now).Some?
    requires Sound(Reprovision(t, r, prior, now).value.tables, u)
    requires q.actor == r.actor && Reprovision(u, q, other, later).Some?
    ensures Reprovision(u, q, other, later) == Some(Outcome(u, Reprovision(t, r, prior, now).value.credential, true))
    ensures SameReferences(r, q)
  {
    assert r.key == V2 && q.key == V2;
    RequestClient(t, r, prior, now);
    RequestClient(u, q, other, later);
    hide LogAgrees, Mentions, Reprovision, RuntimesOk, RuntimesKept;
    var o := Reprovision(t, r, prior, now).value;
    ReprovisionSound(t, r, prior, now);
    ConservesAuthority(t, r, prior, now);
    AfterSuccess(t, r, prior, now);
    StillSecond(o.tables, u, r.actor, o.credential);
    ReplaySucceeds(u, q, other, later);
    SameInvitation(o.tables, u, o.credential, InvitationOf(r), InvitationOf(q));
    ReferencesFromRow(o.tables, r, prior, u, q, other, o.credential);
  }

  lemma ReferencesFromRow(t: Tables, r: Request, prior: CredentialId, u: Tables, q: Request, other: CredentialId,
                          id: CredentialId)
    requires Succeeds(t, r, prior, id) && Succeeds(u, q, other, id) && SameGrant(t.credentials[id], u.credentials[id])
    requires r.key == q.key && q.actor == r.actor && InvitationOf(r) == InvitationOf(q)
    requires t.credentials[prior].clientId == r.clientId && u.credentials[other].clientId == q.clientId
    ensures SameReferences(r, q)
  {
  }

  lemma StillSecond(t: Tables, u: Tables, a: ActorId, id: CredentialId)
    requires Preserves(t, u) && SecondKey(t, a, id)
    ensures SecondKey(u, a, id)
  {
    assert SameGrant(t.credentials[id], u.credentials[id]);
  }

  /** In any later tables an identical retry succeeds exactly when the prior credential still
      passes its review, the successor is active and still the only one under the second key,
      and no other event has used the invitation. */
  lemma IdenticalRetry(t: Tables, r: Request, prior: CredentialId, now: int, u: Tables, later: int)
    requires LogAgrees(t) && Reprovision(t, r, prior, now).Some?
    requires Sound(Reprovision(t, r, prior, now).value.tables, u)
    ensures var id := Reprovision(t, r, prior, now).value.credential;
            && id in u.credentials
            && Reprovision(u, r, prior, later) ==
                 if Reviewed(u, r, prior, later) && u.credentials[id].status == Active &&
                    SoleSecondKey(u, r.actor, id) && Mentions(u.events, InvitationOf(r)) == [id]
                 then Some(Outcome(u, id, true)) else None
  {
    var o := Reprovision(t, r, prior, now).value;
    ReprovisionSound(t, r, prior, now);
    ConservesAuthority(t, r, prior, now);
    AfterSuccess(t, r, prior, now);
    StillSecond(o.tables, u, r.actor, o.credential);
    ReplayExactly(o.tables, r, prior, o.credential, u, later);
  }

  lemma ReplayExactly(t: Tables, r: Request, prior: CredentialId, id: CredentialId, u: Tables, later: int)
    requires Preserves(t, u) && Succeeds(t, r, prior, id) && SecondKey(u, r.actor, id) && r.key == V2
    requires RequestText(r)
    ensures Reprovision(u, r, prior, later) ==
              if Reviewed(u, r, prior, later) && u.credentials[id].status == Active && SoleSecondKey(u, r.actor, id) &&
                 Mentions(u.events, InvitationOf(r)) == [id]
              then Some(Outcome(u, id, true)) else None
  {
    hide Mentions, Reissue, RequestText;
    assert SameGrant(t.credentials[prior], u.credentials[prior]) && SameGrant(t.credentials[id], u.credentials[id]);
  }

  /** Straight after a success an identical retry answers the same until the credential's
      expiry, and is refused from then on. */
  lemma ImmediateRetry(t: Tables, r: Request, prior: CredentialId, now: int, later: int)
    requires LogAgrees(t) && Reprovision(t, r, prior, now).Some?
    ensures var o := Reprovision(t, r, prior, now).value;
            && o.tables.credentials[prior].expiresAt.Some?
            && Reprovision(o.tables, r, prior, later) ==
                 if o.tables.credentials[prior].expiresAt.value > later
                 then Some(Outcome(o.tables, o.credential, true)) else None
  {
    var o := Reprovision(t, r, prior, now).value;
    SameAccountSound(o.tables, o.tables);
    IdenticalRetry(t, r, prior, now, o.tables, later);
    ConservesAuthority(t, r, prior, now);
    AfterSuccess(t, r, prior, now);
    StillReviewed(t, r, prior, now, later);
  }

  lemma StillReviewed(t: Tables, r: Request, prior: CredentialId, now: int, later: int)
    requires Reprovision(t, r, prior, now).Some?
    ensures var u := Reprovision(t, r, prior, now).value.tables;
            && prior in u.credentials && u.credentials[prior].expiresAt.Some?
            && (Reviewed(u, r, prior, later) <==> u.credentials[prior].expiresAt.value > later)
  {
    if exists id :: SecondKey(t, r.actor, id) {
      ReplaySucceeds(t, r, prior, now);
    } else {
      ReissueChanges(t, r, prior, now);
    }
  }

  // ---------------------------------------------------------------------------------------
  // Retries of provisioning and of revocation

  /** A provisioning repeated within the window, and under an authority that still holds,
      answers with the same credential and changes nothing. */
  lemma ProvisionRetry(t: Tables, r: Request, g: Grant, now: int, later: int)
    requires Provision(t, r, g, now).Some?
    requires 0 < g.expiresAt - later <= MAXIMUM_LIFETIME_MS
    requires Authority(Provision(t, r, g, now).value.tables, g.controller, r.performer, g.policy, later)
    ensures var o := Provision(t, r, g, now).value;
            Provision(o.tables, r, g, later) == Some(Outcome(o.tables, o.credential, true))
  {
    hide Authority;
    var t1 := WithAgent(t, r, g, now).value;
    var o := Provision(t, r, g, now).value;
    AgentThere(t, r, g, now, o.tables, later);
    IssueAgain(t1, r, g, now, later);
  }

  lemma AgentThere(t: Tables, r: Request, g: Grant, now: int, u: Tables, later: int)
    requires WithAgent(t, r, g, now).Some?
    requires u.actors == WithAgent(t, r, g, now).value.actors &&
             u.memberships == WithAgent(t, r, g, now).value.memberships
    ensures WithAgent(u, r, g, later) == Some(u)
  {
  }

  lemma IssueAgain(t: Tables, r: Request, g: Grant, now: int, later: int)
    requires IssueAgent(t, r, g, now).Some?
    ensures var o := IssueAgent(t, r, g, now).value;
            && o.tables.actors == t.actors && o.tables.memberships == t.memberships
            && IssueAgent(o.tables, r, g, later) == Some(Outcome(o.tables, o.credential, true))
  {
    hide Holders;
    var o := IssueAgent(t, r, g, now).value;
    if !o.replayed {
      var u, id, h := o.tables, o.credential, InvitationOf(r);
      var e := Event(CredentialRegistered, id, Some(h));
      HoldersAppend(t.events, e, h);
      forall x ensures HasBinding(u, r, x) <==> x == id { assert !HasBinding(t, r, x); }
      forall x ensures HasSender(u, r, x) <==> x == id { assert !HasSender(t, r, x); }
      assert HasBinding(u, r, id) && HasSender(u, r, id);
      assert ProvisionedFor(u, r, id, g.policy, g.expiresAt);
    }
  }

  /** In tables that agree with their log, a revocation leaves the Agent without a usable key
      credential, and repeating it changes nothing. */
  lemma RevokeRetry(t: Tables, a: ActorId, performer: ActorId, now: int, again: ActorId, later: int)
    requires LogAgrees(t) && RevokeAgent(t, a, performer, now).Some?
    ensures var u := RevokeAgent(t, a, performer, now).value;
            && AllRevoked(u, a) && RevokeAgent(u, a, again, later) == (if SafeId(again) then Some(u) else None)
            && forall x :: x in t.credentials && t.credentials[x].actor != a ==> u.credentials[x] == t.credentials[x]
  {
    if !AllRevoked(t, a) {
      var id :| SoleRevocable(t, a, id) && RevokeAgent(t, a, performer, now) == Revoke(t, id, now);
      var u := Revoke(t, id, now).value;
      forall x | KeyCredential(u, a, x) ensures u.credentials[x].status == Revoked {
        if x != id {
          StatusKnown(t, x);
          assert !Revocable(t, a, x);
        }
      }
      assert KeyCredential(u, a, id);
    }
  }

  /** The log only ever reports active or revoked. */
  lemma StatusKnown(t: Tables, id: CredentialId)
    requires LogAgrees(t) && id in t.credentials
    ensures t.credentials[id].status in {Active, Revoked}
  {
    LoggedStatusKnown(t.events, id);
  }

  lemma {:induction false} LoggedStatusKnown(events: seq<Event>, id: CredentialId)
    ensures LoggedStatus(events, id) in {None, Some(Active), Some(Revoked)}
    decreases |events|
  {
    if events != [] { LoggedStatusKnown(events[..|events| - 1], id); }
  }
}

/**
 The sandbox session cache of the API server: a JavaScript Map whose insertion order is the
 recency order, an idle limit applied on every access, and eviction of the oldest slot.

 The first half is the cache as a function of its access history; the second half is the
 class that the server's `entryForSession` corresponds to, whose invariant ties the Map to
 that function.
 */
module SandboxSessions {

  const TTL_MS: int := 30 * 60 * 1000
  const LIMIT: nat := 128

  type SessionId = string

  /** One call of `entryForSession`. */
  datatype Access = Access(id: SessionId, time: int)

  /** The Map: slots in iteration order, and the access (by position in the history) whose
      call created the entry object stored under each id. */
  datatype Cache = Cache(order: seq<Access>, born: map<SessionId, nat>)

  ghost predicate Nondecreasing(h: seq<Access>) {
    forall i, j :: 0 <= i < j < |h| ==> h[i].time <= h[j].time
  }

  predicate Has(s: seq<Access>, id: SessionId) {
    exists i :: 0 <= i < |s| && s[i].id == id
  }

  function Ids(s: seq<Access>): set<SessionId> {
    set i | 0 <= i < |s| :: s[i].id
  }

  ghost predicate DistinctIds(s: seq<Access>) {
    forall i, j :: 0 <= i < j < |s| ==> s[i].id != s[j].id
  }

  /** The slots not idle for longer than the limit at `now`. */
  function Live(s: seq<Access>, now: int): seq<Access> {
    if s == [] then []
    else (if s[0].time < now - TTL_MS then [] else [s[0]]) + Live(s[1..], now)
  }

  function Remove(s: seq<Access>, id: SessionId): seq<Access> {
    if s == [] then []
    else (if s[0].id == id then [] else [s[0]]) + Remove(s[1..], id)
  }

  /** The last `n` elements (all of them when there are fewer). */
  function Last(s: seq<Access>, n: nat): seq<Access> {
    if |s| <= n then s else s[|s| - n..]
  }

  /** One call of `entryForSession` at `a.time` for `a.id`; `serial` names the entry object that
      would be created. */
  function Step(c: Cache, a: Access, serial: nat): Cache {
    var kept := Live(c.order, a.time);
    var order := (if Has(kept, a.id) then Remove(kept, a.id) else Last(kept, LIMIT - 1)) + [a];
    Cache(order, map x | x in Ids(order) :: if Has(kept, x) && x in c.born then c.born[x] else serial)
  }

  /** The cache after a whole history of accesses. */
  function Run(h: seq<Access>): Cache {
    if h == [] then Cache([], map[])
    else Step(Run(h[..|h| - 1]), h[|h| - 1], |h| - 1)
  }

  /** The entry object handed out by access `k`. */
  ghost function EntryUsed(h: seq<Access>, k: nat): nat
    requires k < |h|
  {
    var c := Run(h[..k + 1]);
    if h[k].id in c.born then c.born[h[k].id] else |h|
  }

  /** Reference: the accesses that are the latest of their id, oldest first. */
  function Recent(h: seq<Access>): seq<Access> {
    if h == [] then []
    else (if Has(h[1..], h[0].id) then [] else [h[0]]) + Recent(h[1..])
  }

  // ---------------------------------------------------------------------------------------
  // Sequence facts

  lemma {:induction false} LiveMembers(s: seq<Access>, now: int)
    ensures forall a :: a in Live(s, now) <==> a in s && a.time >= now - TTL_MS
    ensures |Live(s, now)| <= |s|
  {
    if s != [] { LiveMembers(s[1..], now); assert s == [s[0]] + s[1..]; }
  }

  lemma {:induction false} RemoveMembers(s: seq<Access>, id: SessionId)
    ensures forall a :: a in Remove(s, id) <==> a in s && a.id != id
    ensures |Remove(s, id)| <= |s|
  {
    if s != [] { RemoveMembers(s[1..], id); assert s == [s[0]] + s[1..]; }
  }

  lemma {:induction false} LiveAppend(s: seq<Access>, r: seq<Access>, now: int)
    ensures Live(s + r, now) == Live(s, now) + Live(r, now)
  {
    if s == [] {
      assert s + r == r;
    } else {
      var head := if s[0].time < now - TTL_MS then [] else [s[0]];
      assert Live(s, now) == head + Live(s[1..], now);
      assert Live(s + r, now) == head + Live((s + r)[1..], now);
      hide Live;
      assert (s + r)[1..] == s[1..] + r;
      LiveAppend(s[1..], r, now);
      assert head + (Live(s[1..], now) + Live(r, now)) == head + Live(s[1..], now) + Live(r, now);
    }
  }

  lemma {:induction false} LiveAll(s: seq<Access>, now: int)
    requires forall a :: a in s ==> a.time >= now - TTL_MS
    ensures Live(s, now) == s
  {
    if s != [] { LiveAll(s[1..], now); }
  }

  lemma {:induction false} LiveLater(s: seq<Access>, t: int, now: int)
    requires t <= now
    ensures Live(Live(s, t), now) == Live(s, now)
  {
    if s != [] {
      LiveLater(s[1..], t, now);
      var head := if s[0].time < t - TTL_MS then [] else [s[0]];
      LiveAppend(head, Live(s[1..], t), now);
    }
  }

  lemma {:induction false} RemoveAppend(s: seq<Access>, r: seq<Access>, id: SessionId)
    ensures Remove(s + r, id) == Remove(s, id) + Remove(r, id)
  {
    if s == [] {
      assert s + r == r;
    } else {
      assert (s + r)[1..] == s[1..] + r;
      RemoveAppend(s[1..], r, id);
    }
  }

  lemma {:induction false} LiveRemove(s: seq<Access>, id: SessionId, now: int)
    ensures Live(Remove(s, id), now) == Remove(Live(s, now), id)
  {
    if s != [] {
      var others := if s[0].id == id then [] else [s[0]];
      var recent := if s[0].time < now - TTL_MS then [] else [s[0]];
      LiveAppend(others, Remove(s[1..], id), now);
      RemoveAppend(recent, Live(s[1..], now), id);
      LiveRemove(s[1..], id, now);
    }
  }

  lemma {:induction false} RemoveAbsent(s: seq<Access>, id: SessionId)
    requires !Has(s, id)
    ensures Remove(s, id) == s
  {
    if s != [] {
      RemoveAbsent(s[1..], id);
    }
  }

  lemma {:induction false} RemovePresent(s: seq<Access>, id: SessionId)
    requires DistinctIds(s) && Has(s, id)
    ensures |Remove(s, id)| == |s| - 1
  {
    var i :| 0 <= i < |s| && s[i].id == id;
    if i == 0 {
      RemoveAbsent(s[1..], id);
    } else {
      assert s[1..][i - 1] == s[i];
      RemovePresent(s[1..], id);
    }
  }

  lemma LastTail(s: seq<Access>, n: nat)
    requires |s| > n
    ensures Last(s, n) == Last(s[1..], n)
  {
  }

  lemma LastAppend(s: seq<Access>, r: seq<Access>, n: nat)
    requires |r| >= n
    ensures Last(s + r, n) == Last(r, n)
  {
  }

  lemma SortedTail(s: seq<Access>)
    requires Nondecreasing(s) && s != []
    ensures Nondecreasing(s[1..])
  {
  }

  lemma SortedLive(s: seq<Access>, n: nat, now: int)
    requires Nondecreasing(s) && s != [] && s[0].time >= now - TTL_MS
    ensures Live(s, now) == s && Live(Last(s, n), now) == Last(s, n)
  {
    forall a | a in s ensures a.time >= now - TTL_MS {
      var i :| 0 <= i < |s| && s[i] == a;
      assert i > 0 ==> s[0].time <= s[i].time;
    }
    LiveAll(s, now);
    assert forall a :: a in Last(s, n) ==> a in s;
    LiveAll(Last(s, n), now);
  }

  /** On a list in time order, expiry and truncation to the newest commute. */
  lemma {:induction false} LiveLast(s: seq<Access>, n: nat, now: int)
    requires Nondecreasing(s)
    ensures Live(Last(s, n), now) == Last(Live(s, now), n)
  {
    LiveMembers(s, now);
    if |s| > n {
      if s[0].time < now - TTL_MS {
        assert Live(s, now) == Live(s[1..], now);
        SortedTail(s);
        LastTail(s, n);
        hide Nondecreasing, Live, Last;
        LiveLast(s[1..], n, now);
      } else {
        SortedLive(s, n, now);
      }
    }
  }

  lemma DistinctTail(m: seq<Access>)
    requires DistinctIds(m) && m != []
    ensures DistinctIds(m[1..]) && !Has(m[1..], m[0].id)
  {
  }

  lemma HasInLast(m: seq<Access>, n: nat, id: SessionId)
    requires Has(Last(m, n), id)
    ensures Has(m, id)
  {
    var i :| 0 <= i < |Last(m, n)| && Last(m, n)[i].id == id;
    assert m[if |m| <= n then i else |m| - n + i].id == id;
  }

  /** Touching an id that is among the newest `n`. */
  lemma {:induction false} RemoveHit(m: seq<Access>, n: nat, id: SessionId)
    requires n > 0 && DistinctIds(m) && Has(Last(m, n), id)
    ensures Remove(Last(m, n), id) == Last(Remove(m, id), n - 1)
  {
    if |m| <= n {
      RemovePresent(m, id);
    } else {
      var rest := m[1..];
      LastTail(m, n);
      DistinctTail(m);
      HasInLast(rest, n, id);
      hide DistinctIds;
      assert m[0].id != id;
      hide Has;
      RemovePresent(rest, id);
      RemoveHit(rest, n, id);
      assert Remove(m, id) == [m[0]] + Remove(rest, id);
      LastAppend([m[0]], Remove(rest, id), n - 1);
      hide Remove, Last;
    }
  }

  /** Touching an id that is not among the newest `n`. */
  lemma {:induction false} RemoveMiss(m: seq<Access>, n: nat, id: SessionId)
    requires n > 0 && !Has(Last(m, n), id)
    ensures Last(Remove(m, id), n - 1) == Last(m, n - 1)
  {
    if |m| <= n {
      RemoveAbsent(m, id);
    } else {
      var rest := m[1..];
      LastTail(m, n);
      LastTail(m, n - 1);
      RemoveMiss(rest, n, id);
      RemoveKeepsLast(rest, n, id);
      hide Has;
      var head := if m[0].id == id then [] else [m[0]];
      assert Remove(m, id) == head + Remove(rest, id);
      LastAppend(head, Remove(rest, id), n - 1);
      hide Remove, Last;
    }
  }

  /** Removing an id that is not among the newest `n` leaves at least those. */
  lemma {:induction false} RemoveKeepsLast(m: seq<Access>, n: nat, id: SessionId)
    requires |m| >= n && !Has(Last(m, n), id)
    ensures |Remove(m, id)| >= n
  {
    if |m| == n {
      RemoveAbsent(m, id);
    } else {
      LastTail(m, n);
      RemoveKeepsLast(m[1..], n, id);
    }
  }

  // ---------------------------------------------------------------------------------------
  // The reference list

  lemma {:induction false} RecentMembers(h: seq<Access>)
    ensures forall k :: 0 <= k < |Recent(h)| ==> Recent(h)[k] in h
    ensures DistinctIds(Recent(h))
  {
    if h != [] {
      var r := Recent(h[1..]);
      RecentMembers(h[1..]);
      assert forall k :: 0 <= k < |r| ==> r[k] in h[1..];
      assert forall b :: b in h[1..] ==> b in h;
    }
  }

  lemma {:induction false} RecentSorted(h: seq<Access>)
    requires Nondecreasing(h)
    ensures Nondecreasing(Recent(h))
  {
    if h != [] {
      RecentMembers(h[1..]);
      RecentSorted(h[1..]);
    }
  }

  lemma HasAppend(s: seq<Access>, r: seq<Access>, id: SessionId)
    ensures Has(s + r, id) <==> Has(s, id) || Has(r, id)
  {
    if Has(s, id) {
      var i :| 0 <= i < |s| && s[i].id == id;
      assert (s + r)[i].id == id;
    }
    if Has(r, id) {
      var i :| 0 <= i < |r| && r[i].id == id;
      assert (s + r)[|s| + i].id == id;
    }
  }

  /** The head of the reference list before and after one more access. */
  lemma HeadAfter(h: seq<Access>, a: Access)
    requires h != []
    ensures Remove(if Has(h[1..], h[0].id) then [] else [h[0]], a.id) ==
            if Has(h[1..] + [a], h[0].id) then [] else [h[0]]
  {
    HasAppend(h[1..], [a], h[0].id);
    assert Has([a], h[0].id) <==> h[0].id == a.id by { assert [a][0] == a; }
    hide Has;
  }

  lemma {:induction false} RecentAppend(h: seq<Access>, a: Access)
    ensures Recent(h + [a]) == Remove(Recent(h), a.id) + [a]
  {
    if h == [] {
      assert h + [a] == [a];
    } else {
      var rest := h[1..];
      assert (h + [a])[1..] == rest + [a] && (h + [a])[0] == h[0];
      var head := if Has(rest, h[0].id) then [] else [h[0]];
      var next := if Has(rest + [a], h[0].id) then [] else [h[0]];
      assert Recent(h) == head + Recent(rest);
      assert Recent(h + [a]) == next + Recent(rest + [a]);
      hide Has, Recent, Remove;
      RecentAppend(rest, a);
      RemoveAppend(head, Recent(rest), a.id);
      HeadAfter(h, a);
    }
  }

  /** After the latest access of an id, the reference list holds exactly the distinct ids
      accessed since. */
  lemma {:induction false} RecentSplit(g: seq<Access>, a: Access, f: seq<Access>) returns (p: seq<Access>)
    requires !Has(f, a.id)
    ensures Recent(g + [a] + f) == p + [a] + Recent(f)
  {
    var h := g + [a] + f;
    if g == [] {
      p := [];
      assert h[0] == a && h[1..] == f;
    } else {
      assert h[0] == g[0] && h[1..] == g[1..] + [a] + f;
      p := RecentSplit(g[1..], a, f);
      if !Has(h[1..], g[0].id) {
        p := [g[0]] + p;
      }
    }
  }

  lemma IdsCons(h: seq<Access>)
    requires h != []
    ensures Ids(h) == {h[0].id} + Ids(h[1..])
    ensures h[0].id in Ids(h[1..]) <==> Has(h[1..], h[0].id)
  {
    forall x | x in Ids(h[1..]) ensures x in Ids(h) {
      var i :| 0 <= i < |h[1..]| && h[1..][i].id == x;
      assert h[i + 1].id == x;
    }
    forall x | x in Ids(h) ensures x == h[0].id || x in Ids(h[1..]) {
      var i :| 0 <= i < |h| && h[i].id == x;
      assert i > 0 ==> h[1..][i - 1].id == x;
    }
  }

  lemma {:induction false} RecentLength(h: seq<Access>)
    ensures |Recent(h)| == |Ids(h)|
  {
    if h != [] {
      RecentLength(h[1..]);
      IdsCons(h);
      if Has(h[1..], h[0].id) {
        assert Ids(h) == Ids(h[1..]);
      } else {
        assert |{h[0].id} + Ids(h[1..])| == 1 + |Ids(h[1..])|;
      }
    }
  }

  // ---------------------------------------------------------------------------------------
  // Refinement: the cache holds the newest distinct ids

  /** What survives the expiry loop of access `a` is the newest `LIMIT` of the live reference
      list. */
  lemma {:induction false} KeptAtAccess(h: seq<Access>, a: Access)
    requires Nondecreasing(h + [a])
    ensures Live(Run(h).order, a.time) == Last(Live(Recent(h), a.time), LIMIT)
    decreases |h|, 2
  {
    if h != [] {
      var t := h[|h| - 1].time;
      assert (h + [a])[|h| - 1] == h[|h| - 1] && (h + [a])[|h|] == a;
      assert t <= a.time;
      assert forall i, j :: 0 <= i < j < |h| ==> (h + [a])[i].time <= (h + [a])[j].time;
      assert Nondecreasing(h) by {
        forall i, j | 0 <= i < j < |h| ensures h[i].time <= h[j].time {
          assert (h + [a])[i] == h[i] && (h + [a])[j] == h[j];
        }
      }
      CacheHoldsNewest(h);
      RecentSorted(h);
      LiveLater(Recent(h), t, a.time);
      LiveSorted(Recent(h), t);
      LiveLast(Live(Recent(h), t), LIMIT, a.time);
    }
  }

  lemma {:induction false} LiveSorted(s: seq<Access>, now: int)
    requires Nondecreasing(s)
    ensures Nondecreasing(Live(s, now))
  {
    if s != [] {
      LiveSorted(s[1..], now);
      LiveMembers(s[1..], now);
    }
  }

  lemma {:induction false} LiveDistinct(s: seq<Access>, now: int)
    requires DistinctIds(s)
    ensures DistinctIds(Live(s, now))
  {
    if s != [] {
      LiveDistinct(s[1..], now);
      LiveMembers(s[1..], now);
    }
  }

  /** The live reference list after one more access. */
  lemma LiveRecentNext(g: seq<Access>, a: Access)
    ensures Live(Recent(g + [a]), a.time) == Remove(Live(Recent(g), a.time), a.id) + [a]
  {
    assert Live([a], a.time) == [a];
    hide Live, Remove, Recent;
    RecentAppend(g, a);
    LiveAppend(Remove(Recent(g), a.id), [a], a.time);
    LiveRemove(Recent(g), a.id, a.time);
  }

  /** What the Map's last step makes of the newest `LIMIT` of a list. */
  lemma TouchNewest(m: seq<Access>, a: Access)
    requires DistinctIds(m)
    ensures var kept := Last(m, LIMIT);
            (if Has(kept, a.id) then Remove(kept, a.id) else Last(kept, LIMIT - 1)) + [a] ==
                Last(Remove(m, a.id) + [a], LIMIT)
  {
    if Has(Last(m, LIMIT), a.id) {
      RemoveHit(m, LIMIT, a.id);
    } else {
      RemoveMiss(m, LIMIT, a.id);
      assert Last(Last(m, LIMIT), LIMIT - 1) == Last(m, LIMIT - 1);
    }
    hide Has, Remove, DistinctIds;
    var r := Remove(m, a.id);
    assert Last(r + [a], LIMIT) == Last(r, LIMIT - 1) + [a];
  }

  /** Main result. After any history with a nondecreasing clock, the Map's keys, order and
      last-seen times are the `LIMIT` most recently accessed distinct ids in recency order,
      less those last seen more than the idle limit before the latest access. */
  lemma {:induction false} CacheHoldsNewest(h: seq<Access>)
    requires h != [] && Nondecreasing(h)
    ensures Run(h).order == Last(Live(Recent(h), h[|h| - 1].time), 128)
    ensures Run(h).order == Live(Last(Recent(h), 128), h[|h| - 1].time)
    decreases |h|, 1
  {
    var g, a := h[..|h| - 1], h[|h| - 1];
    assert h == g + [a];
    assert Run(h) == Step(Run(g), a, |g|);
    hide Live, Remove, Recent, Nondecreasing, DistinctIds, Has, Run, Last;
    KeptAtAccess(g, a);
    LiveRecentNext(g, a);
    RecentMembers(g);
    LiveDistinct(Recent(g), a.time);
    TouchNewest(Live(Recent(g), a.time), a);
    RecentSorted(h);
    LiveLast(Recent(h), LIMIT, a.time);
  }

  /** So the Map is always sorted by last-seen time, without repeated keys, within its bound,
      and the newest access is its last slot: deleting the first key removes the least
      recently used session. */
  lemma {:induction false} CacheOrder(h: seq<Access>)
    requires h != [] && Nondecreasing(h)
    ensures Nondecreasing(Run(h).order) && DistinctIds(Run(h).order)
    ensures 0 < |Run(h).order| <= 128
    ensures Run(h).order[|Run(h).order| - 1] == h[|h| - 1]
    ensures Run(h).born.Keys == Ids(Run(h).order)
  {
    var t := h[|h| - 1].time;
    CacheHoldsNewest(h);
    RecentMembers(h);
    RecentSorted(h);
    LiveSorted(Recent(h), t);
    LiveDistinct(Recent(h), t);
  }

  // ---------------------------------------------------------------------------------------
  // Survival of an entry object

  lemma {:induction false} BornBefore(h: seq<Access>)
    ensures forall x :: x in Run(h).born ==> Run(h).born[x] < |h|
  {
    if h != [] { BornBefore(h[..|h| - 1]); }
  }

  lemma StepKeys(c: Cache, a: Access, serial: nat)
    ensures Step(c, a, serial).born.Keys == Ids(Step(c, a, serial).order)
    ensures a.id in Step(c, a, serial).born
  {
    var order := Step(c, a, serial).order;
    assert order[|order| - 1] == a;
  }

  /** The entry an access finds, or makes. */
  lemma StepBorn(c: Cache, a: Access, serial: nat)
    ensures a.id in Step(c, a, serial).born
    ensures Step(c, a, serial).born[a.id] ==
            if Has(Live(c.order, a.time), a.id) && a.id in c.born then c.born[a.id] else serial
  {
    StepKeys(c, a, serial);
  }

  lemma {:induction false} BornKeys(h: seq<Access>)
    ensures Run(h).born.Keys == Ids(Run(h).order)
  {
    if h != [] { StepKeys(Run(h[..|h| - 1]), h[|h| - 1], |h| - 1); }
  }

  lemma StepSlots(c: Cache, a: Access, serial: nat, x: SessionId)
    requires c.born.Keys == Ids(c.order)
    requires x != a.id && x in Step(c, a, serial).born
    ensures x in c.born && Step(c, a, serial).born[x] == c.born[x]
  {
    var kept := Live(c.order, a.time);
    var order := Step(c, a, serial).order;
    LiveMembers(c.order, a.time);
    RemoveMembers(kept, a.id);
    hide Live, Remove;
    var i :| 0 <= i < |order| && order[i].id == x;
    assert order[i] in kept;
    var k :| 0 <= k < |kept| && kept[k] == order[i];
    assert Has(kept, x);
    var q :| 0 <= q < |c.order| && c.order[q] == order[i];
  }

  /** Until it is accessed again, an id that is still cached has the entry object of its last
      access. */
  lemma {:induction false} BornStable(h: seq<Access>, i: nat, k: nat)
    requires i < k <= |h|
    requires forall m :: i < m < k ==> h[m].id != h[i].id
    requires h[i].id in Run(h[..k]).born
    ensures Run(h[..k]).born[h[i].id] == EntryUsed(h, i)
    decreases k
  {
    if k > i + 1 {
      assert h[..k][..k - 1] == h[..k - 1];
      BornKeys(h[..k - 1]);
      StepSlots(Run(h[..k - 1]), h[k - 1], k - 1, h[i].id);
      BornStable(h, i, k - 1);
    }
  }

  /** Where an id sits in a list of distinct ids decides whether truncation keeps it. */
  lemma HasLast(p: seq<Access>, a: Access, r: seq<Access>, n: nat)
    requires DistinctIds(p + [a] + r)
    ensures Has(Last(p + [a] + r, n), a.id) <==> |r| + 1 <= n
  {
    var m := p + [a] + r;
    assert m[|p|] == a;
    if |r| + 1 <= n && |m| > n {
      assert Last(m, n)[|p| - (|m| - n)] == a;
    }
  }

  /** Expiry and truncation together, on a list whose later part is no older than `a`. */
  lemma LiveLastHas(p: seq<Access>, a: Access, r: seq<Access>, now: int, n: nat)
    requires DistinctIds(p + [a] + r)
    requires forall k :: 0 <= k < |r| ==> a.time <= r[k].time
    ensures Has(Last(Live(p + [a] + r, now), n), a.id) <==> now - a.time <= TTL_MS && |r| + 1 <= n
  {
    var s := p + [a] + r;
    if now - a.time <= TTL_MS {
      LiveDistinct(s, now);
      LiveAppend(p + [a], r, now);
      LiveAppend(p, [a], now);
      assert Live([a], now) == [a];
      LiveAll(r, now);
      HasLast(Live(p, now), a, r, n);
    } else {
      LiveMembers(s, now);
      var m := Live(s, now);
      forall k | 0 <= k < |m| ensures m[k].id != a.id {
        assert m[k] in m;
        var q :| 0 <= q < |s| && s[q] == m[k];
        assert s[|p|] == a;
      }
    }
  }

  lemma {:induction false} RecentNotOlder(f: seq<Access>, a: Access)
    requires forall k :: 0 <= k < |f| ==> a.time <= f[k].time
    ensures forall k :: 0 <= k < |Recent(f)| ==> a.time <= Recent(f)[k].time
  {
    if f != [] { RecentNotOlder(f[1..], a); }
  }

  lemma SincePrevious(h: seq<Access>, i: nat, j: nat)
    requires i < j < |h| && Nondecreasing(h) && forall m :: i < m < j ==> h[m].id != h[i].id
    ensures Nondecreasing(h[..j] + [h[j]]) && !Has(h[i + 1..j], h[i].id)
    ensures var f := h[i + 1..j];
            forall k :: 0 <= k < |f| ==> h[i].time <= f[k].time
    ensures h[..j] == h[..i] + [h[i]] + h[i + 1..j]
  {
    assert h[..j] + [h[j]] == h[..j + 1];
  }

  /** Whether access `j` finds the entry of the previous access `i` of its id. */
  lemma {:induction false} HitExactly(h: seq<Access>, i: nat, j: nat)
    requires i < j < |h| && Nondecreasing(h) && h[i].id == h[j].id
    requires forall m :: i < m < j ==> h[m].id != h[i].id
    ensures Has(Live(Run(h[..j]).order, h[j].time), h[j].id) <==>
              h[j].time - h[i].time <= TTL_MS && |Ids(h[i + 1..j])| <= LIMIT - 1
  {
    hide Nondecreasing, Has, Live, Last, Run, Recent, Ids;
    var a, f, now := h[i], h[i + 1..j], h[j].time;
    SincePrevious(h, i, j);
    KeptAtAccess(h[..j], h[j]);
    var p := RecentSplit(h[..i], a, f);
    RecentLength(f);
    RecentNotOlder(f, a);
    RecentMembers(h[..j]);
    LiveLastHas(p, a, Recent(f), now, LIMIT);
  }

  /** A session keeps its entry object from one access to the next exactly when the gap is at
      most the idle limit and at most `LIMIT - 1` other ids were accessed in between. */
  lemma {:induction false} EntrySurvivesExactly(h: seq<Access>, i: nat, j: nat)
    requires i < j < |h| && Nondecreasing(h) && h[i].id == h[j].id
    requires forall m :: i < m < j ==> h[m].id != h[i].id
    ensures EntryUsed(h, j) == EntryUsed(h, i) <==>
              h[j].time - h[i].time <= 1_800_000 && |Ids(h[i + 1..j])| <= 127
  {
    HitExactly(h, i, j);
    HitDecides(h, i, j);
  }

  lemma {:induction false} HitDecides(h: seq<Access>, i: nat, j: nat)
    requires i < j < |h| && h[i].id == h[j].id
    requires forall m :: i < m < j ==> h[m].id != h[i].id
    ensures EntryUsed(h, j) == EntryUsed(h, i) <==> Has(Live(Run(h[..j]).order, h[j].time), h[j].id)
  {
    hide Has, Live, Step, Ids;
    var c, x := Run(h[..j]), h[j].id;
    assert Run(h[..j + 1]) == Step(c, h[j], j) by { assert h[..j + 1][..j] == h[..j]; }
    StepKeys(c, h[j], j);
    BornKeys(h[..j]);
    StepBorn(c, h[j], j);
    if Has(Live(c.order, h[j].time), x) {
      LiveHas(c.order, h[j].time, x);
      BornStable(h, i, j);
    } else {
      BornBefore(h[..i + 1]);
      assert Run(h[..i + 1]) == Step(Run(h[..i]), h[i], i) by { assert h[..i + 1][..i] == h[..i]; }
      StepKeys(Run(h[..i]), h[i], i);
    }
  }

  lemma LiveHas(s: seq<Access>, now: int, x: SessionId)
    requires Has(Live(s, now), x)
    ensures x in Ids(s)
  {
    LiveMembers(s, now);
    var m := Live(s, now);
    var k :| 0 <= k < |m| && m[k].id == x;
    assert m[k] in m;
    var q :| 0 <= q < |s| && s[q] == m[k];
  }

  // ---------------------------------------------------------------------------------------
  // The Map itself

  /** The part of a session entry that requests share and change; `born` (specification only)
      is the access that created it. */
  class SessionEntry {
    var mutationCount: nat
    ghost const born: nat

    constructor (ghost born: nat)
      ensures mutationCount == 0 && this.born == born
    {
      mutationCount := 0;
      this.born := born;
    }
  }

  /** One Map slot: key, last-seen time, entry object. */
  datatype Slot = Slot(id: SessionId, lastSeenAt: int, entry: SessionEntry)

  function Seen(slots: seq<Slot>): seq<Access> {
    seq(|slots|, i requires 0 <= i < |slots| => Access(slots[i].id, slots[i].lastSeenAt))
  }

  function KeepLive(slots: seq<Slot>, now: int): seq<Slot> {
    if slots == [] then []
    else (if slots[0].lastSeenAt < now - 1_800_000 then [] else [slots[0]]) + KeepLive(slots[1..], now)
  }

  function Drop(slots: seq<Slot>, id: SessionId): seq<Slot> {
    if slots == [] then []
    else (if slots[0].id == id then [] else [slots[0]]) + Drop(slots[1..], id)
  }

  lemma {:induction false} SeenKeepLive(slots: seq<Slot>, now: int)
    ensures Seen(KeepLive(slots, now)) == Live(Seen(slots), now)
    ensures forall x :: x in KeepLive(slots, now) ==> x in slots
  {
    if slots != [] {
      SeenKeepLive(slots[1..], now);
      assert Seen(slots)[1..] == Seen(slots[1..]);
      assert Seen(KeepLive(slots, now)) ==
        (if slots[0].lastSeenAt < now - TTL_MS then [] else [Seen(slots)[0]]) + Seen(KeepLive(slots[1..], now));
    }
  }

  lemma {:induction false} SeenDrop(slots: seq<Slot>, id: SessionId)
    ensures Seen(Drop(slots, id)) == Remove(Seen(slots), id)
    ensures forall x :: x in Drop(slots, id) ==> x in slots
  {
    if slots != [] {
      SeenDrop(slots[1..], id);
      assert Seen(slots)[1..] == Seen(slots[1..]);
      assert Seen(Drop(slots, id)) ==
        (if slots[0].id == id then [] else [Seen(slots)[0]]) + Seen(Drop(slots[1..], id));
    }
  }

  lemma {:induction false} KeepLiveAppend(s: seq<Slot>, r: seq<Slot>, now: int)
    ensures KeepLive(s + r, now) == KeepLive(s, now) + KeepLive(r, now)
  {
    if s == [] {
      assert s + r == r;
    } else {
      var head := if s[0].lastSeenAt < now - TTL_MS then [] else [s[0]];
      assert KeepLive(s, now) == head + KeepLive(s[1..], now);
      assert KeepLive(s + r, now) == head + KeepLive((s + r)[1..], now);
      hide KeepLive;
      assert (s + r)[1..] == s[1..] + r;
      KeepLiveAppend(s[1..], r, now);
      assert head + (KeepLive(s[1..], now) + KeepLive(r, now)) == head + KeepLive(s[1..], now) + KeepLive(r, now);
    }
  }

  /** Deleting the slot at position `n` when no other slot has its id. */
  lemma {:induction false} DropAt(s: seq<Slot>, n: nat)
    requires n < |s| && forall i :: 0 <= i < |s| && i != n ==> s[i].id != s[n].id
    ensures Drop(s, s[n].id) == s[..n] + s[n + 1..]
    decreases |s|
  {
    if n > 0 {
      assert s[1..][n - 1] == s[n];
      DropAt(s[1..], n - 1);
      assert s[1..][..n - 1] == s[1..n] && s[1..][n..] == s[n + 1..];
    } else {
      DropNone(s[1..], s[0].id);
    }
  }

  lemma {:induction false} DropNone(s: seq<Slot>, id: SessionId)
    requires forall i :: 0 <= i < |s| ==> s[i].id != id
    ensures Drop(s, id) == s
  {
    if s != [] { DropNone(s[1..], id); }
  }

  ghost predicate DistinctKeys(s: seq<Slot>) {
    forall i, j :: 0 <= i < j < |s| ==> s[i].id != s[j].id
  }

  /** One turn of the expiry loop: the slot at the boundary is kept or deleted. */
  lemma ExpireOne(s: seq<Slot>, k: nat, now: int)
    requires k < |s| && DistinctKeys(s)
    ensures KeepLive(s[..k + 1], now) + s[k + 1..] ==
              if s[k].lastSeenAt < now - TTL_MS then Drop(KeepLive(s[..k], now) + s[k..], s[k].id)
              else KeepLive(s[..k], now) + s[k..]
  {
    assert s[..k + 1] == s[..k] + [s[k]];
    KeepLiveAppend(s[..k], [s[k]], now);
    assert s[k..] == [s[k]] + s[k + 1..];
    assert KeepLive([s[k]], now) == if s[k].lastSeenAt < now - TTL_MS then [] else [s[k]];
    SeenKeepLive(s[..k], now);
    hide KeepLive, Drop, Seen;
    if s[k].lastSeenAt < now - TTL_MS {
      var done := KeepLive(s[..k], now);
      var all := done + s[k..];
      forall i | 0 <= i < |all| && i != |done| ensures all[i].id != s[k].id {
        if i < |done| {
          assert done[i] in s[..k];
        }
      }
      DropAt(all, |done|);
    }
  }

  /** The value `Map.get` finds. */
  predicate Stored(slots: seq<Slot>, id: SessionId) {
    exists k :: 0 <= k < |slots| && slots[k].id == id
  }

  /** The Map's slots and entry objects are those of the abstract cache. */
  ghost predicate Agrees(slots: seq<Slot>, c: Cache) {
    Seen(slots) == c.order && forall x :: x in slots ==> x.id in c.born && x.entry.born == c.born[x.id]
  }

  class SessionCache {
    /** The Map in iteration order. */
    var slots: seq<Slot>
    /** Every call of `EntryForSession` so far (specification only). */
    ghost var history: seq<Access>

    ghost predicate Valid()
      reads this
    {
      Nondecreasing(history) && Agrees(slots, Run(history))
    }

    constructor ()
      ensures Valid() && history == []
    {
      slots, history := [], [];
    }

    lemma ValidKeys()
      requires Valid()
      ensures DistinctKeys(slots)
    {
      if history != [] {
        CacheOrder(history);
        assert forall k :: 0 <= k < |slots| ==> Seen(slots)[k].id == slots[k].id;
      }
    }

    /** The expiry loop: every idle slot goes, the others keep their order and entry. */
    method Expire(now: int)
      requires DistinctKeys(slots)
      modifies this`slots
      ensures slots == KeepLive(old(slots), now)
    {
      var snapshot := slots;
      assert KeepLive(snapshot[..0], now) + snapshot[0..] == snapshot;
      for k := 0 to |snapshot|
        invariant slots == KeepLive(snapshot[..k], now) + snapshot[k..]
      {
        ExpireOne(snapshot, k, now);
        if snapshot[k].lastSeenAt < now - TTL_MS {
          slots := Drop(slots, snapshot[k].id);
        }
      }
      assert snapshot[..|snapshot|] == snapshot;
    }

    /** The eviction loop: the oldest slots go until there is room for one more. */
    method Evict() returns (ghost n: nat)
      requires DistinctKeys(slots)
      modifies this`slots
      ensures n <= |old(slots)| && slots == old(slots)[n..]
      ensures n == if |old(slots)| < 128 then 0 else |old(slots)| - 127
    {
      ghost var start := slots;
      n := 0;
      while |slots| >= LIMIT
        invariant n <= |start| && slots == start[n..]
        invariant n > 0 ==> |slots| >= LIMIT - 1
      {
        assert DistinctKeys(slots);
        DropAt(slots, 0);
        slots := Drop(slots, slots[0].id);
        n := n + 1;
      }
    }

    /** The rest of the call: move a stored slot to the end, or make room and add a new one. */
    method Touch(id: SessionId, now: int, ghost serial: nat) returns (entry: SessionEntry, ghost rest: seq<Slot>)
      requires DistinctKeys(slots)
      modifies this`slots
      ensures slots == rest + [Slot(id, now, entry)]
      ensures forall x :: x in rest ==> x in old(slots)
      ensures Stored(old(slots), id) ==> Seen(rest) == Remove(Seen(old(slots)), id)
      ensures forall k :: 0 <= k < |old(slots)| && old(slots)[k].id == id ==> entry == old(slots)[k].entry
      ensures !Stored(old(slots), id) ==>
                && Seen(rest) == Last(Seen(old(slots)), LIMIT - 1)
                && fresh(entry) && entry.mutationCount == 0 && entry.born == serial
    {
      if Stored(slots, id) {
        var k :| 0 <= k < |slots| && slots[k].id == id;
        entry := slots[k].entry;
        SeenDrop(slots, id);
        slots := Drop(slots, id);
      } else {
        ghost var n := Evict();
        entry := new SessionEntry(serial);
      }
      rest := slots;
      slots := slots + [Slot(id, now, entry)];
    }

    /** Expiry, then `Touch`. */
    method Renew(id: SessionId, now: int, ghost serial: nat)
        returns (entry: SessionEntry, ghost kept: seq<Slot>, ghost rest: seq<Slot>)
      requires DistinctKeys(slots)
      modifies this`slots
      ensures slots == rest + [Slot(id, now, entry)] && Seen(kept) == Live(Seen(old(slots)), now)
      ensures (forall x :: x in kept ==> x in old(slots)) && forall x :: x in rest ==> x in kept
      ensures Stored(kept, id) ==>
                Seen(rest) == Remove(Seen(kept), id) && exists x :: x in kept && x.id == id && x.entry == entry
      ensures !Stored(kept, id) ==> Seen(rest) == Last(Seen(kept), LIMIT - 1) && entry.born == serial
      ensures forall k :: 0 <= k < |old(slots)| && LiveSlot(old(slots)[k], id, now) ==> entry == old(slots)[k].entry
      ensures (forall k :: 0 <= k < |old(slots)| ==> !LiveSlot(old(slots)[k], id, now)) ==>
                fresh(entry) && entry.mutationCount == 0
    {
      Expire(now);
      kept := slots;
      KeptSlots(old(slots), now);
      entry, rest := Touch(id, now, serial);
      if Stored(kept, id) {
        var k :| 0 <= k < |kept| && kept[k].id == id;
        assert kept[k] in kept;
      }
      assert forall k :: 0 <= k < |old(slots)| && LiveSlot(old(slots)[k], id, now) ==> old(slots)[k] in kept;
    }

    /** `entryForSession`: the Map afterwards is the one the history prescribes; the caller gets
        the stored entry object when its slot is still live, a new one otherwise. */
    method EntryForSession(id: SessionId, now: int) returns (entry: SessionEntry)
      requires Valid() && (history != [] ==> history[|history| - 1].time <= now)
      modifies this
      ensures Valid() && history == old(history) + [Access(id, now)]
      ensures slots != [] && slots[|slots| - 1] == Slot(id, now, entry)
      ensures forall k :: 0 <= k < |old(slots)| && LiveSlot(old(slots)[k], id, now) ==> entry == old(slots)[k].entry
      ensures (forall k :: 0 <= k < |old(slots)| ==> !LiveSlot(old(slots)[k], id, now)) ==>
                fresh(entry) && entry.mutationCount == 0
    {
      ghost var h, kept, rest := history, [], [];
      ValidKeys();
      entry, kept, rest := Renew(id, now, |h|);
      StepAgrees(Run(h), old(slots), kept, rest, Slot(id, now, entry), |h|);
      RunAppend(h, Access(id, now));
      history := h + [Access(id, now)];
    }
  }

  predicate LiveSlot(s: Slot, id: SessionId, now: int) {
    s.id == id && s.lastSeenAt >= now - 1_800_000
  }

  lemma KeptSlots(before: seq<Slot>, now: int)
    requires DistinctKeys(before)
    ensures var kept := KeepLive(before, now);
            DistinctKeys(kept) && Seen(kept) == Live(Seen(before), now) &&
            (forall x :: x in kept <==> x in before && x.lastSeenAt >= now - TTL_MS)
  {
    SeenKeepLive(before, now);
    var kept := KeepLive(before, now);
    LiveDistinct(Seen(before), now);
    assert forall k :: 0 <= k < |kept| ==> Seen(kept)[k].id == kept[k].id;
    KeepLiveMembers(before, now);
  }

  lemma {:induction false} KeepLiveMembers(before: seq<Slot>, now: int)
    ensures forall x :: x in KeepLive(before, now) <==> x in before && x.lastSeenAt >= now - TTL_MS
  {
    if before != [] { KeepLiveMembers(before[1..], now); assert before == [before[0]] + before[1..]; }
  }

  lemma RunNext(h: seq<Access>, a: Access)
    ensures Run(h + [a]) == Step(Run(h), a, |h|)
  {
    hide Step;
    assert (h + [a])[..|h|] == h;
  }

  lemma RunAppend(h: seq<Access>, a: Access)
    requires Nondecreasing(h) && (h != [] ==> h[|h| - 1].time <= a.time)
    ensures Run(h + [a]) == Step(Run(h), a, |h|) && Nondecreasing(h + [a])
  {
    RunNext(h, a);
    hide Run, Step;
  }

  /** The new Map and the recorded creations are those of `Step`. */
  lemma StepAgrees(c: Cache, before: seq<Slot>, kept: seq<Slot>, rest: seq<Slot>, last: Slot, serial: nat)
    requires Agrees(before, c) && Seen(kept) == Live(c.order, last.lastSeenAt)
    requires (forall x :: x in kept ==> x in before) && forall x :: x in rest ==> x in kept
    requires Stored(kept, last.id) ==>
               Seen(rest) == Remove(Seen(kept), last.id) &&
               exists x :: x in kept && x.id == last.id && x.entry == last.entry
    requires !Stored(kept, last.id) ==> Seen(rest) == Last(Seen(kept), LIMIT - 1) && last.entry.born == serial
    ensures Agrees(rest + [last], Step(c, Access(last.id, last.lastSeenAt), serial))
  {
    var a := Access(last.id, last.lastSeenAt);
    var next, slots := Step(c, a, serial), rest + [last];
    StoredSeen(kept);
    assert Seen(slots) == Seen(rest) + [a];
    StepKeys(c, a, serial);
    forall x | x in slots ensures x.id in next.born && x.entry.born == next.born[x.id] {
      var k :| 0 <= k < |slots| && slots[k] == x;
      assert Seen(slots)[k].id == x.id;
      if x in kept {
        var q :| 0 <= q < |kept| && kept[q] == x;
        assert Stored(kept, x.id);
      }
    }
  }

  lemma StoredSeen(slots: seq<Slot>)
    ensures forall x :: Stored(slots, x) <==> Has(Seen(slots), x)
  {
    forall x ensures Stored(slots, x) <==> Has(Seen(slots), x) {
      if Stored(slots, x) {
        var k :| 0 <= k < |slots| && slots[k].id == x;
        assert Seen(slots)[k].id == x;
      }
      if Has(Seen(slots), x) {
        var k :| 0 <= k < |slots| && Seen(slots)[k].id == x;
        assert slots[k].id == x;
      }
    }
  }
}

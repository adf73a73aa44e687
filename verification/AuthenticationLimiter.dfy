/**
 The database-backed limiter in front of the public authentication routes. One conditional
 upsert per request keeps a single counter row per route and network; the window start is the
 clock rounded down to a multiple of ten minutes.
 */
module AuthenticationLimiter {
  import opened Options

  const WINDOW_MS: int := 10 * 60_000

  /** What the bucket hash is taken over; the hash is injective. */
  datatype Key = Key(route: string, network: string)

  /** A row of the bucket table; `own` says that its dimension and quota class are this
      limiter's. */
  datatype Row = Row(own: bool, windowStartedAt: int, used: nat, limit: nat, version: nat)

  datatype Outcome = Unlimited | Admitted | Exhausted | Unavailable

  function LimitOf(route: string): (r: Option<nat>)
    ensures r.Some? ==> r.value >= 10
  {
    if route == "GET /auth/v1/options" || route == "HEAD /auth/v1/options" then Some(120)
    else if route in {"GET /auth/v1/login", "GET /auth/v1/callback",
                      "POST /auth/v1/wallet/challenge", "POST /auth/v1/wallet/verify"} then Some(10)
    else if route in {"POST /auth/v1/wallet/invalidate", "POST /auth/v1/logout"} then Some(30)
    else None
  }

  function WindowOf(now: int): int {
    now / WINDOW_MS * WINDOW_MS
  }

  /** The limits, route by route. */
  const PER_ROUTE: map<string, nat> := map[
    "GET /auth/v1/options" := 120, "HEAD /auth/v1/options" := 120,
    "GET /auth/v1/login" := 10, "GET /auth/v1/callback" := 10,
    "POST /auth/v1/wallet/challenge" := 10, "POST /auth/v1/wallet/verify" := 10,
    "POST /auth/v1/wallet/invalidate" := 30, "POST /auth/v1/logout" := 30]

  lemma LimitsExactly(route: string)
    ensures LimitOf(route) == if route in PER_ROUTE then Some(PER_ROUTE[route]) else None
  {
  }

  /** A window starts at the last multiple of ten minutes. */
  lemma WindowExactly(now: int)
    ensures WindowOf(now) <= now < WindowOf(now) + 600_000 && WindowOf(now) % 600_000 == 0
  {
  }

  /** The count the upsert would store. */
  function Proposed(rows: map<Key, Row>, key: Key, window: int): nat {
    if key in rows && rows[key].windowStartedAt == window then rows[key].used + 1 else 1
  }

  /** INSERT ... ON CONFLICT DO UPDATE ... WHERE: whether a row comes back. */
  predicate Returns(rows: map<Key, Row>, key: Key, window: int, limit: nat) {
    key in rows ==> rows[key].own && Proposed(rows, key, window) <= limit
  }

  function Upsert(rows: map<Key, Row>, key: Key, window: int, limit: nat): map<Key, Row> {
    if !Returns(rows, key, window, limit) then rows
    else rows[key := Row(true, window, Proposed(rows, key, window), limit,
                         if key in rows then rows[key].version + 1 else 1)]
  }

  class Limiter {
    var rows: map<Key, Row>

    constructor ()
      ensures rows == map[]
    {
      rows := map[];
    }

    /** `admit`: `network` is absent when the network context cannot be derived, and a failing
        database transaction leaves the table alone. */
    method Admit(route: string, network: Option<string>, databaseUp: bool, now: int) returns (r: Outcome)
      modifies this
      ensures route !in PER_ROUTE ==> r == Unlimited && rows == old(rows)
      ensures route in PER_ROUTE && (network.None? || !databaseUp) ==> r == Unavailable && rows == old(rows)
      ensures route in PER_ROUTE && network.Some? && databaseUp ==>
                var key, window := Key(route, network.value), WindowOf(now);
                var used := if key in old(rows) && old(rows)[key].windowStartedAt == window then old(rows)[key].used + 1
                            else 1;
                if key in old(rows) && (!old(rows)[key].own || used > PER_ROUTE[route])
                then r == Exhausted && rows == old(rows)
                else
                  var version := if key in old(rows) then old(rows)[key].version + 1 else 1;
                  r == Admitted && rows == old(rows)[key := Row(true, window, used, PER_ROUTE[route], version)]
      ensures LimitOf(route).Some? && network.Some? && databaseUp ==>
                var key, limit := Key(route, network.value), LimitOf(route).value;
                r == (if Returns(old(rows), key, WindowOf(now), limit) then Admitted else Exhausted) &&
                rows == Upsert(old(rows), key, WindowOf(now), limit)
    {
      LimitsExactly(route);
      var limit := LimitOf(route);
      if limit.None? { return Unlimited; }
      if network.None? { return Unavailable; }
      if !databaseUp { return Unavailable; }
      var key, window := Key(route, network.value), WindowOf(now);
      if key !in rows {
        rows := rows[key := Row(true, window, 1, limit.value, 1)];
        return Admitted;
      }
      var row := rows[key];
      var used := if row.windowStartedAt == window then row.used + 1 else 1;
      if row.own && used <= limit.value {
        rows := rows[key := Row(true, window, used, limit.value, row.version + 1)];
        return Admitted;
      }
      return Exhausted;
    }
  }

  // ---------------------------------------------------------------------------------------
  // Histories and the log they should amount to

  /** A request on a limited route that reaches the table. */
  datatype Request = Request(key: Key, now: int)

  function Window(r: Request): int { WindowOf(r.now) }

  ghost predicate Limited(h: seq<Request>) {
    forall i :: 0 <= i < |h| ==> LimitOf(h[i].key.route).Some?
  }

  /** The table and the admitted requests. */
  datatype Run = Run(rows: map<Key, Row>, log: seq<Request>)

  function Step(s: Run, r: Request): Run {
    match LimitOf(r.key.route)
    case None => s
    case Some(limit) =>
      Run(Upsert(s.rows, r.key, Window(r), limit),
          if Returns(s.rows, r.key, Window(r), limit) then s.log + [r] else s.log)
  }

  function After(h: seq<Request>): Run {
    if h == [] then Run(map[], []) else Step(After(h[..|h| - 1]), h[|h| - 1])
  }

  /** Admitted requests of a key in one window. */
  function Count(log: seq<Request>, key: Key, window: int): nat {
    if log == [] then 0
    else Count(log[..|log| - 1], key, window) +
         if log[|log| - 1].key == key && Window(log[|log| - 1]) == window then 1 else 0
  }

  /** Reference: admit a request when fewer than the limit were admitted before it for its key
      in its window. */
  function Reference(h: seq<Request>): seq<Request> {
    if h == [] then []
    else
      var log, r := Reference(h[..|h| - 1]), h[|h| - 1];
      match LimitOf(r.key.route)
      case None => log
      case Some(limit) => if Count(log, r.key, Window(r)) < limit then log + [r] else log
  }

  /** Every counter is the number of admissions on record for its key and window. */
  ghost predicate CountersExact(s: Run) {
    forall k :: k in s.rows ==> s.rows[k].used == Count(s.log, k, s.rows[k].windowStartedAt)
  }

  /** Between requests `i` and `l` in one window, the same key has request `j` in another. */
  ghost predicate Revisit(h: seq<Request>, i: nat, j: nat, l: nat) {
    i < j < l < |h| && h[i].key == h[j].key == h[l].key && Window(h[i]) == Window(h[l]) && Window(h[j]) != Window(h[i])
  }

  /** No key comes back to a window it has left. */
  ghost predicate Contiguous(h: seq<Request>) {
    forall i: nat, j: nat, l: nat :: !Revisit(h, i, j, l)
  }

  // ---------------------------------------------------------------------------------------
  // The row of each key

  /** The window of a key's latest request. */
  function LastWindow(h: seq<Request>, key: Key): Option<int> {
    if h == [] then None
    else if h[|h| - 1].key == key then Some(Window(h[|h| - 1]))
    else LastWindow(h[..|h| - 1], key)
  }

  ghost predicate Requested(h: seq<Request>, key: Key, window: int) {
    exists i :: 0 <= i < |h| && h[i].key == key && Window(h[i]) == window
  }

  lemma CountAppend(log: seq<Request>, r: Request, key: Key, window: int)
    ensures Count(log + [r], key, window) ==
              Count(log, key, window) + if r.key == key && Window(r) == window then 1 else 0
  {
    assert (log + [r])[..|log|] == log;
  }

  /** A key has a row exactly when it was requested; the row carries the window of its latest
      request and a count within the limit. */
  lemma {:induction false} RowOfKey(h: seq<Request>, key: Key)
    requires Limited(h)
    ensures match LastWindow(h, key)
            case None => key !in After(h).rows
            case Some(w) =>
              && key in After(h).rows && LimitOf(key.route).Some?
              && After(h).rows[key].own && After(h).rows[key].windowStartedAt == w
              && 1 <= After(h).rows[key].used <= LimitOf(key.route).value
  {
    if h != [] {
      RowOfKey(h[..|h| - 1], key);
      var r := h[|h| - 1];
      if r.key != key { RowOfKey(h[..|h| - 1], r.key); }
    }
  }

  lemma {:induction false} LastIndex(h: seq<Request>, key: Key) returns (p: nat)
    requires LastWindow(h, key).Some?
    ensures p < |h| && h[p].key == key && Some(Window(h[p])) == LastWindow(h, key)
    ensures forall j :: p < j < |h| ==> h[j].key != key
  {
    if h[|h| - 1].key == key {
      p := |h| - 1;
    } else {
      p := LastIndex(h[..|h| - 1], key);
    }
  }

  /** A window has an admission on record exactly when it was requested: the first request of a
      window is never turned away. */
  lemma {:induction false} LoggedWhenRequested(h: seq<Request>, key: Key, window: int)
    requires Limited(h)
    ensures Count(After(h).log, key, window) > 0 <==> Requested(h, key, window)
  {
    if h != [] {
      var g, r := h[..|h| - 1], h[|h| - 1];
      LoggedWhenRequested(g, key, window);
      RequestedStep(h, key, window);
      RowOfKey(g, r.key);
      CountAppend(After(g).log, r, key, window);
      if r.key == key && Window(r) == window && LastWindow(g, key) == Some(window) {
        var p := LastIndex(g, key);
        assert Requested(g, key, window);
      }
    }
  }

  lemma RequestedStep(h: seq<Request>, key: Key, window: int)
    requires h != []
    ensures Requested(h, key, window) <==>
              Requested(h[..|h| - 1], key, window) || (h[|h| - 1].key == key && Window(h[|h| - 1]) == window)
  {
    var g := h[..|h| - 1];
    if Requested(g, key, window) {
      var i :| 0 <= i < |g| && g[i].key == key && Window(g[i]) == window;
      assert h[i] == g[i];
    }
    if Requested(h, key, window) {
      var i :| 0 <= i < |h| && h[i].key == key && Window(h[i]) == window;
      assert i < |g| ==> g[i] == h[i];
    }
  }

  // ---------------------------------------------------------------------------------------
  // Exactness

  lemma ContiguousPrefix(h: seq<Request>)
    requires h != [] && Contiguous(h)
    ensures Contiguous(h[..|h| - 1])
  {
    var g := h[..|h| - 1];
    assert forall i: nat, j: nat, l: nat :: Revisit(g, i, j, l) ==> Revisit(h, i, j, l);
  }

  /** When windows are not revisited, a request that opens a window is its first. */
  lemma OpensWindow(h: seq<Request>)
    requires h != [] && Contiguous(h)
    requires var g, r := h[..|h| - 1], h[|h| - 1]; LastWindow(g, r.key) != Some(Window(r))
    ensures !Requested(h[..|h| - 1], h[|h| - 1].key, Window(h[|h| - 1]))
  {
    var g, r := h[..|h| - 1], h[|h| - 1];
    if i :| 0 <= i < |g| && g[i].key == r.key && Window(g[i]) == Window(r) {
      LastWindowSome(g, i);
      var p := LastIndex(g, r.key);
      assert Revisit(h, i, p, |g|);
    }
  }

  lemma {:induction false} LastWindowSome(h: seq<Request>, i: nat)
    requires i < |h|
    ensures LastWindow(h, h[i].key).Some?
  {
    if h[|h| - 1].key != h[i].key { LastWindowSome(h[..|h| - 1], i); }
  }

  lemma StepExact(g: seq<Request>, r: Request)
    requires Limited(g + [r]) && Contiguous(g + [r]) && CountersExact(After(g))
    ensures CountersExact(Step(After(g), r))
    ensures var limit := LimitOf(r.key.route);
            limit.Some? && (Returns(After(g).rows, r.key, Window(r), limit.value) <==>
                            Count(After(g).log, r.key, Window(r)) < limit.value)
  {
    var h := g + [r];
    assert h[|g|] == r && h[..|g|] == g;
    assert Limited(g) by { assert forall i :: 0 <= i < |g| ==> h[i] == g[i]; }
    RowOfKey(g, r.key);
    LoggedWhenRequested(g, r.key, Window(r));
    if LastWindow(g, r.key) != Some(Window(r)) { OpensWindow(h); }
    var s, next := After(g), Step(After(g), r);
    forall k | k in next.rows ensures next.rows[k].used == Count(next.log, k, next.rows[k].windowStartedAt) {
      CountAppend(s.log, r, k, next.rows[k].windowStartedAt);
    }
  }

  /** The limiter refines the log: as long as no key comes back to a window it has left, a
      request is admitted exactly when fewer than the limit were admitted before it for its
      route and network in its window, and every counter is that number. */
  lemma {:induction false} RefinesLog(h: seq<Request>)
    requires Limited(h) && Contiguous(h)
    ensures After(h).log == Reference(h) && CountersExact(After(h))
  {
    if h != [] {
      var g, r := h[..|h| - 1], h[|h| - 1];
      assert h == g + [r];
      ContiguousPrefix(h);
      RefinesLog(g);
      StepExact(g, r);
    }
  }

  /** A key that has left a window is in another one, or has come back before the end. */
  lemma LeftWindow(g: seq<Request>, i: nat, j: nat) returns (p: nat)
    requires i < j < |g| && g[i].key == g[j].key && Window(g[i]) != Window(g[j])
    ensures LastWindow(g, g[i].key).Some?
    ensures LastWindow(g, g[i].key) != Some(Window(g[i])) || Revisit(g, i, j, p)
  {
    hide WindowOf;
    LastWindowSome(g, j);
    p := LastIndex(g, g[i].key);
  }

  /** A request that reopens a window leaves a counter of one beside two or more admissions. */
  lemma Reopened(g: seq<Request>, r: Request)
    requires Limited(g + [r]) && Requested(g, r.key, Window(r))
    requires LastWindow(g, r.key).Some? && LastWindow(g, r.key) != Some(Window(r))
    ensures !CountersExact(Step(After(g), r))
  {
    var h := g + [r];
    assert h[|g|] == r;
    assert Limited(g) by { assert forall i :: 0 <= i < |g| ==> h[i] == g[i]; }
    RowOfKey(g, r.key);
    LoggedWhenRequested(g, r.key, Window(r));
    CountAppend(After(g).log, r, r.key, Window(r));
    assert Step(After(g), r).rows[r.key].used == 1;
  }

  lemma FirstRevisit(h: seq<Request>, i: nat, j: nat, l: nat)
    requires Revisit(h, i, j, l) && Contiguous(h[..|h| - 1])
    ensures l == |h| - 1 && LastWindow(h[..l], h[l].key).Some?
    ensures LastWindow(h[..l], h[l].key) != Some(Window(h[l])) && Requested(h[..l], h[l].key, Window(h[l]))
  {
    var g := h[..|h| - 1];
    assert g[i] == h[i] && g[j] == h[j];
    assert l < |g| ==> Revisit(g, i, j, l);
    var p := LeftWindow(g, i, j);
  }

  /** A revisit by the last request: the counter it leaves is wrong. */
  lemma LastRevisitBreaks(h: seq<Request>, i: nat, j: nat, l: nat)
    requires Limited(h) && h != [] && Contiguous(h[..|h| - 1]) && Revisit(h, i, j, l)
    ensures !CountersExact(After(h))
  {
    hide Limited, Contiguous, Revisit, CountersExact, LastWindow, Requested, Step, LimitOf, WindowOf;
    FirstRevisit(h, i, j, l);
    var g, r := h[..|h| - 1], h[|h| - 1];
    assert h == g + [r];
    Reopened(g, r);
    assert After(h) == Step(After(g), r);
  }

  lemma {:induction false} RevisitBreaksCounter(h: seq<Request>) returns (n: nat)
    requires Limited(h) && !Contiguous(h)
    ensures n <= |h| && !CountersExact(After(h[..n]))
  {
    var g := h[..|h| - 1];
    if !Contiguous(g) {
      hide Contiguous, CountersExact, After;
      n := RevisitBreaksCounter(g);
      assert g[..n] == h[..n];
    } else {
      var i: nat, j: nat, l: nat :| Revisit(h, i, j, l);
      hide Contiguous, Revisit, CountersExact, After;
      n := |h|;
      assert h[..n] == h;
      LastRevisitBreaks(h, i, j, l);
    }
  }

  /** Exactly when: the counters agree with the log at every point of a history if and only if
      no key comes back to a window it has left. */
  lemma {:induction false} ExactlyContiguous(h: seq<Request>)
    requires Limited(h)
    ensures Contiguous(h) <==> forall n :: 0 <= n <= |h| ==> CountersExact(After(h[..n]))
  {
    if Contiguous(h) {
      forall n | 0 <= n <= |h| ensures CountersExact(After(h[..n])) {
        var g := h[..n];
        assert Contiguous(g) by {
          assert forall i: nat, j: nat, l: nat :: Revisit(g, i, j, l) ==> Revisit(h, i, j, l);
        }
        RefinesLog(g);
      }
    } else {
      var n := RevisitBreaksCounter(h);
    }
  }

  /** In particular when requests of a key arrive with nondecreasing window starts. */
  lemma OrderedIsContiguous(h: seq<Request>)
    requires forall i, j :: 0 <= i < j < |h| && h[i].key == h[j].key ==> Window(h[i]) <= Window(h[j])
    ensures Contiguous(h)
  {
  }

  // ---------------------------------------------------------------------------------------
  // Consequences

  lemma {:induction false} WindowCap(h: seq<Request>, key: Key, window: int)
    requires Limited(h) && LimitOf(key.route).Some?
    ensures Count(Reference(h), key, window) <= LimitOf(key.route).value
  {
    if h != [] {
      var g, r := h[..|h| - 1], h[|h| - 1];
      WindowCap(g, key, window);
      CountAppend(Reference(g), r, key, window);
    }
  }

  /** Admitted requests of a key in a closed span of one window's length. */
  function InSpan(log: seq<Request>, key: Key, from: int): nat {
    if log == [] then 0
    else InSpan(log[..|log| - 1], key, from) +
         if log[|log| - 1].key == key && from <= log[|log| - 1].now <= from + 600_000 then 1 else 0
  }

  lemma {:induction false} SpanWithin(log: seq<Request>, key: Key, from: int)
    ensures InSpan(log, key, from) <= Count(log, key, WindowOf(from)) + Count(log, key, WindowOf(from) + WINDOW_MS)
  {
    if log != [] {
      SpanWithin(log[..|log| - 1], key, from);
    }
  }

  /** Any ten-minute span admits at most twice the limit for a route and network. */
  lemma SpanBound(h: seq<Request>, key: Key, from: int)
    requires Limited(h) && Contiguous(h) && key.route in PER_ROUTE
    ensures InSpan(After(h).log, key, from) <= 2 * PER_ROUTE[key.route]
  {
    LimitsExactly(key.route);
    RefinesLog(h);
    WindowCap(h, key, WindowOf(from));
    WindowCap(h, key, WindowOf(from) + WINDOW_MS);
    SpanWithin(After(h).log, key, from);
  }

  function OnlyKey(h: seq<Request>, key: Key): seq<Request> {
    if h == [] then []
    else OnlyKey(h[..|h| - 1], key) + if h[|h| - 1].key == key then [h[|h| - 1]] else []
  }

  /** Two states in which a key has the same row and the same admitted requests. */
  predicate SameFor(s: Run, t: Run, key: Key) {
    && OnlyKey(s.log, key) == OnlyKey(t.log, key)
    && (key in s.rows <==> key in t.rows) && (key in s.rows ==> s.rows[key] == t.rows[key])
  }

  lemma OnlyKeyAppend(h: seq<Request>, r: Request, key: Key)
    ensures OnlyKey(h + [r], key) == OnlyKey(h, key) + if r.key == key then [r] else []
  {
    assert (h + [r])[..|h|] == h;
  }

  lemma StepElsewhere(s: Run, r: Request, key: Key)
    requires r.key != key
    ensures SameFor(Step(s, r), s, key)
  {
    OnlyKeyAppend(s.log, r, key);
  }

  lemma StepAlike(s: Run, t: Run, r: Request)
    requires SameFor(s, t, r.key)
    ensures SameFor(Step(s, r), Step(t, r), r.key)
  {
    OnlyKeyAppend(s.log, r, r.key);
    OnlyKeyAppend(t.log, r, r.key);
    hide OnlyKey;
  }

  lemma {:induction false} OnlyKeyTwice(h: seq<Request>, key: Key)
    ensures OnlyKey(OnlyKey(h, key), key) == OnlyKey(h, key)
  {
    if h != [] {
      var g, r := h[..|h| - 1], h[|h| - 1];
      OnlyKeyTwice(g, key);
      if r.key == key {
        OnlyKeyAppend(OnlyKey(g, key), r, key);
      } else {
        assert OnlyKey(h, key) == OnlyKey(g, key);
      }
    }
  }

  lemma StepLog(s: Run, r: Request)
    ensures Step(s, r).log == s.log || Step(s, r).log == s.log + [r]
  {
  }

  lemma OnlyKeyLast(h: seq<Request>, key: Key)
    requires h != [] && OnlyKey(h, key) == h
    ensures h[|h| - 1].key == key && OnlyKey(h[..|h| - 1], key) == h[..|h| - 1]
  {
    var g := h[..|h| - 1];
    OnlyKeyShort(g, key);
    assert OnlyKey(g, key) == OnlyKey(h, key)[..|g|];
  }

  lemma {:induction false} LogOfOne(h: seq<Request>, key: Key)
    requires OnlyKey(h, key) == h
    ensures OnlyKey(After(h).log, key) == After(h).log
  {
    if h != [] {
      var g, r := h[..|h| - 1], h[|h| - 1];
      OnlyKeyLast(h, key);
      assert After(h) == Step(After(g), r);
      hide Step, OnlyKey, After;
      LogOfOne(g, key);
      StepLog(After(g), r);
      OnlyKeyAppend(After(g).log, r, key);
    }
  }

  lemma {:induction false} OnlyKeyShort(h: seq<Request>, key: Key)
    ensures |OnlyKey(h, key)| <= |h|
  {
    if h != [] { OnlyKeyShort(h[..|h| - 1], key); }
  }

  /** Keys do not interfere: what happens to a key is what would happen to it alone. */
  lemma {:induction false} KeysIndependent(h: seq<Request>, key: Key)
    ensures OnlyKey(After(h).log, key) == After(OnlyKey(h, key)).log
    ensures SameFor(After(h), After(OnlyKey(h, key)), key)
  {
    OnlyKeyTwice(h, key);
    LogOfOne(OnlyKey(h, key), key);
    AloneAlike(h, key);
  }

  lemma {:induction false} AloneAlike(h: seq<Request>, key: Key)
    ensures SameFor(After(h), After(OnlyKey(h, key)), key)
  {
    if h != [] {
      var g, r := h[..|h| - 1], h[|h| - 1];
      var mine := OnlyKey(g, key);
      AloneAlike(g, key);
      assert After(h) == Step(After(g), r);
      if r.key == key {
        assert OnlyKey(h, key) == mine + [r];
        assert (mine + [r])[..|mine|] == mine;
        assert After(mine + [r]) == Step(After(mine), r);
        hide SameFor, Step;
        StepAlike(After(g), After(mine), r);
      } else {
        assert OnlyKey(h, key) == mine;
        hide Step, After;
        StepElsewhere(After(g), r, key);
      }
    }
  }

  /** A concrete history on which the counter forgets an admission: the clock is read before the row
      is locked, so a request stamped before a window boundary can reach the table after one
      stamped behind it. */
  lemma ClockBackExample(h: seq<Request>, key: Key)
    requires key == Key("GET /auth/v1/login", "net")
    requires h == [Request(key, 0), Request(key, WINDOW_MS), Request(key, 1)]
    ensures After(h).log == h && Count(After(h).log, key, 0) == 2 && After(h).rows[key].used == 1
  {
    assert h[..2][..1][..0] == [] && h[..2][..1] == [h[0]] && h[..2] == [h[0], h[1]];
    assert After([]) == Run(map[], []);
    assert After([h[0]]).log == [h[0]] && After([h[0]]).rows == map[key := Row(true, 0, 1, 10, 1)];
    assert After([h[0], h[1]]).log == [h[0], h[1]] && After([h[0], h[1]]).rows[key] == Row(true, WINDOW_MS, 1, 10, 2);
    CountAppend([h[0], h[1]], h[2], key, 0);
    CountAppend([h[0]], h[1], key, 0);
    CountAppend([], h[0], key, 0);
    assert [] + [h[0]] == [h[0]] && [h[0]] + [h[1]] == [h[0], h[1]] && [h[0], h[1]] + [h[2]] == h;
  }
}

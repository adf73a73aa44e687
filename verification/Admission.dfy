/**
 Admission of requests to the API server: a fixed window that restarts at the first arrival
 60 seconds or more after the previous start, a cap on admissions per window, and a cap on
 requests in flight.
 */
module Admission {
  import opened Options

  const WINDOW_MS: int := 60_000
  const PER_WINDOW: nat := 600
  const CONCURRENT: nat := 64

  datatype Verdict = Admitted | RateLimited | Busy

  /** The three module variables of the server. */
  datatype Gate = Gate(windowStartedAt: int, windowCount: nat, active: nat)

  /** What happens to the gate: a request arrives, or an admitted request finishes. */
  datatype Event = Arrive(now: int) | Finish

  function Roll(g: Gate, now: int): Gate {
    if now - g.windowStartedAt >= WINDOW_MS then g.(windowStartedAt := now, windowCount := 0) else g
  }

  function VerdictAt(g: Gate, now: int): Verdict {
    var w := Roll(g, now);
    if w.windowCount >= PER_WINDOW then RateLimited
    else if w.active >= CONCURRENT then Busy
    else Admitted
  }

  function Arrived(g: Gate, now: int): Gate {
    var w := Roll(g, now);
    if VerdictAt(g, now) == Admitted then w.(windowCount := w.windowCount + 1, active := w.active + 1) else w
  }

  /** The gate as the server runs it. */
  class AdmissionGate {
    var windowStartedAt: int
    var windowCount: nat
    var active: nat

    ghost function State(): Gate
      reads this
    {
      Gate(windowStartedAt, windowCount, active)
    }

    constructor (now: int)
      ensures State() == Gate(now, 0, 0)
    {
      windowStartedAt, windowCount, active := now, 0, 0;
    }

    method AdmitRequest(now: int) returns (verdict: Verdict)
      modifies this
      ensures verdict == VerdictAt(old(State()), now)
      ensures State() == Arrived(old(State()), now)
    {
      if now - windowStartedAt >= WINDOW_MS {
        windowStartedAt, windowCount := now, 0;
      }
      if windowCount >= PER_WINDOW { return RateLimited; }
      if active >= CONCURRENT { return Busy; }
      windowCount := windowCount + 1;
      active := active + 1;
      return Admitted;
    }

    /** The `finally` block of an admitted request. */
    method Release()
      requires active > 0
      modifies this`active
      ensures active == old(active) - 1
    {
      active := active - 1;
    }
  }

  // ---------------------------------------------------------------------------------------
  // Whole runs

  /** An admission on record: when, and in the window started when. */
  datatype Entry = Entry(time: int, window: int)

  /** A run: the gate, every admission so far, and how many admitted requests have finished. */
  datatype Run = Run(gate: Gate, log: seq<Entry>, finished: nat, clock: int)

  function Start(now: int): Run {
    Run(Gate(now, 0, 0), [], 0, now)
  }

  /** A request can only finish when one is in flight, and the clock does not go back. */
  predicate Possible(r: Run, e: Event) {
    match e
    case Arrive(now) => r.clock <= now
    case Finish => r.finished < |r.log|
  }

  function Next(r: Run, e: Event): Run
    requires Possible(r, e)
  {
    match e
    case Arrive(now) =>
      var g := Arrived(r.gate, now);
      var log := if VerdictAt(r.gate, now) == Admitted then r.log + [Entry(now, g.windowStartedAt)] else r.log;
      Run(g, log, r.finished, now)
    case Finish =>
      r.(gate := r.gate.(active := if r.gate.active > 0 then r.gate.active - 1 else 0), finished := r.finished + 1)
  }

  /** The run a sequence of events leads to, if every one of them is possible in turn. */
  function After(start: int, events: seq<Event>): Option<Run> {
    if events == [] then Some(Start(start))
    else match After(start, events[..|events| - 1])
      case Some(r) => if Possible(r, events[|events| - 1]) then Some(Next(r, events[|events| - 1])) else None
      case None => None
  }

  function InWindow(log: seq<Entry>, window: int): nat {
    if log == [] then 0
    else InWindow(log[..|log| - 1], window) + if log[|log| - 1].window == window then 1 else 0
  }

  /** Admissions in a closed span of one window's length. */
  function InSpan(log: seq<Entry>, from: int): nat {
    if log == [] then 0
    else InSpan(log[..|log| - 1], from) + if Within(log[|log| - 1], from) then 1 else 0
  }

  ghost predicate Inv(r: Run) {
    && r.gate.active == |r.log| - r.finished && r.gate.active <= 64
    && r.gate.windowCount == InWindow(r.log, r.gate.windowStartedAt)
    && r.gate.windowStartedAt <= r.clock
    && (forall w :: InWindow(r.log, w) <= 600)
    && (forall i :: 0 <= i < |r.log| ==>
          r.log[i].window <= r.log[i].time < r.log[i].window + 60_000 && r.log[i].time <= r.clock)
    && (forall i :: 0 <= i < |r.log| ==> Apart(r.log[i].window, r.gate.windowStartedAt))
    && (forall i, j :: 0 <= i < j < |r.log| ==> Apart(r.log[i].window, r.log[j].window))
  }

  /** Two window starts in order: the same, or at least a window's length apart. */
  predicate Apart(earlier: int, later: int) {
    earlier == later || earlier + 60_000 <= later
  }

  lemma {:induction false} InWindowLater(log: seq<Entry>, w: int)
    requires forall i :: 0 <= i < |log| ==> log[i].window < w
    ensures InWindow(log, w) == 0
  {
    if log != [] { InWindowLater(log[..|log| - 1], w); }
  }

  lemma RollInv(r: Run, now: int)
    requires Inv(r) && r.clock <= now
    ensures Inv(r.(gate := Roll(r.gate, now), clock := now))
  {
    if now - r.gate.windowStartedAt >= WINDOW_MS {
      InWindowLater(r.log, now);
    }
  }

  lemma AdmitInv(r: Run)
    requires Inv(r) && r.clock - r.gate.windowStartedAt < WINDOW_MS
    requires r.gate.windowCount < PER_WINDOW && r.gate.active < CONCURRENT
    ensures Inv(Run(r.gate.(windowCount := r.gate.windowCount + 1, active := r.gate.active + 1),
                    r.log + [Entry(r.clock, r.gate.windowStartedAt)], r.finished, r.clock))
  {
    var log := r.log + [Entry(r.clock, r.gate.windowStartedAt)];
    assert log[..|log| - 1] == r.log;
    forall w ensures InWindow(log, w) <= PER_WINDOW {
      assert InWindow(log, w) == InWindow(r.log, w) + if r.gate.windowStartedAt == w then 1 else 0;
    }
  }

  lemma NextInv(r: Run, e: Event)
    requires Inv(r) && Possible(r, e)
    ensures Inv(Next(r, e))
  {
    match e
    case Arrive(now) =>
      RollInv(r, now);
      if VerdictAt(r.gate, now) == Admitted {
        AdmitInv(r.(gate := Roll(r.gate, now), clock := now));
      }
    case Finish =>
  }

  /** In every run, the active counter is the number of admitted requests that have not
      finished and never exceeds the cap, no window admits more than its cap, and the window
      counter is the number of admissions of the current window. */
  lemma {:induction false} EveryRun(start: int, events: seq<Event>)
    ensures After(start, events).Some? ==> Inv(After(start, events).value)
  {
    if events != [] {
      EveryRun(start, events[..|events| - 1]);
      var p := After(start, events[..|events| - 1]);
      if p.Some? && Possible(p.value, events[|events| - 1]) {
        NextInv(p.value, events[|events| - 1]);
      }
    }
  }

  predicate Within(e: Entry, from: int) {
    from <= e.time <= from + 60_000
  }

  /** The admissions of a span belong to at most two windows. */
  lemma TwoWindows(log: seq<Entry>, from: int) returns (v: int, w: int)
    requires forall i :: 0 <= i < |log| ==> log[i].window <= log[i].time < log[i].window + WINDOW_MS
    requires forall i, j :: 0 <= i < j < |log| ==> Apart(log[i].window, log[j].window)
    ensures forall i :: 0 <= i < |log| && Within(log[i], from) ==> log[i].window == v || log[i].window == w
  {
    v, w := 0, 0;
    if i :| 0 <= i < |log| && Within(log[i], from) {
      v, w := log[i].window, log[i].window;
      if j :| 0 <= j < |log| && Within(log[j], from) && log[j].window != v {
        w := log[j].window;
      }
    }
  }

  lemma {:induction false} SpanWithin(log: seq<Entry>, from: int, v: int, w: int)
    requires forall i :: 0 <= i < |log| && Within(log[i], from) ==> log[i].window == v || log[i].window == w
    ensures InSpan(log, from) <= InWindow(log, v) + InWindow(log, w)
  {
    if log != [] { SpanWithin(log[..|log| - 1], from, v, w); }
  }

  /** No closed span of 60 seconds admits more than two windows' worth. */
  lemma {:induction false} SpanBound(start: int, events: seq<Event>, from: int)
    requires After(start, events).Some?
    ensures InSpan(After(start, events).value.log, from) <= 1200
  {
    EveryRun(start, events);
    var log := After(start, events).value.log;
    var v, w := TwoWindows(log, from);
    SpanWithin(log, from, v, w);
  }

  /** When the window an arrival at `now` falls in started, from the arrivals alone: every
      arrival counts, admitted or not. */
  function WindowStart(start: int, events: seq<Event>): int {
    if events == [] then start
    else
      var w, e := WindowStart(start, events[..|events| - 1]), events[|events| - 1];
      if e.Arrive? && e.now - w >= 60_000 then e.now else w
  }

  lemma {:induction false} WindowFromArrivals(start: int, events: seq<Event>)
    requires After(start, events).Some?
    ensures After(start, events).value.gate.windowStartedAt == WindowStart(start, events)
  {
    if events != [] { WindowFromArrivals(start, events[..|events| - 1]); }
  }

  /** At any point of any run, what an arrival gets is decided by the arrivals, the admissions
      and the completions so far: the window follows from the arrivals, the counts from the
      admissions of that window and the requests still unfinished. */
  lemma VerdictFromRecord(start: int, events: seq<Event>, now: int)
    requires After(start, events).Some? && After(start, events).value.clock <= now
    ensures var r := After(start, events).value;
            VerdictAt(r.gate, now) ==
              if InWindow(r.log, WindowStart(start, events + [Arrive(now)])) >= 600 then RateLimited
              else if |r.log| - r.finished >= 64 then Busy
              else Admitted
  {
    EveryRun(start, events);
    RollInv(After(start, events).value, now);
    WindowFromArrivals(start, events);
    assert (events + [Arrive(now)])[..|events|] == events;
  }
}

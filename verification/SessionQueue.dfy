/**
 The per-session operation queue of the API server: a promise chain stored on the session
 entry, and the mutation budget that queued operations spend.

 Each enqueued operation owns two promises: `pending`, which runs the operation once the
 previous tail has settled either way, and `tail`, which absorbs a rejection. Steps of
 different operations, of the event loop and of the operations themselves may interleave in
 any order that the promises allow.
 */
module SessionQueue {
  import opened Options
  import opened SandboxSessions

  const MAX_MUTATIONS: nat := 32

  /** A request that changes nothing counted, a counted mutation, or the reset. */
  datatype Kind = Read | Mutation | Reset

  datatype Promise = Pending | Fulfilled | Rejected

  datatype Job = Job(kind: Kind, started: bool, refused: bool, cleared: bool, pending: Promise, tail: Promise)

  /** What an observer sees, in order of occurrence. */
  datatype Mark = Began(job: nat, counted: bool) | Ended(job: nat, ok: bool) | Cleared(job: nat)

  datatype State = State(jobs: seq<Job>, mutationCount: nat, trace: seq<Mark>)

  datatype Step =
    | Enqueue(kind: Kind)
    | Begin(job: nat)            // the previous tail settled: the operation is called
    | Clear(job: nat)            // a running reset has reset the demo and zeroes the count
    | Settle(job: nat, ok: bool) // the operation returns or throws
    | Drain(job: nat)            // the catch on `pending` has run

  predicate Refuses(kind: Kind, count: nat) {
    kind == Mutation && count >= MAX_MUTATIONS
  }

  function Charge(kind: Kind, count: nat): nat {
    if kind == Mutation && count < MAX_MUTATIONS then count + 1 else count
  }

  /** `consumeMutationBudget`, called first thing by every queued POST mutation. */
  method ConsumeMutationBudget(entry: SessionEntry, kind: Kind) returns (ok: bool)
    modifies entry`mutationCount
    ensures ok <==> kind == Mutation ==> old(entry.mutationCount) < 32
    ensures entry.mutationCount == old(entry.mutationCount) + if ok && kind == Mutation then 1 else 0
  {
    if kind != Mutation { return true; }
    if entry.mutationCount >= MAX_MUTATIONS { return false; }
    entry.mutationCount := entry.mutationCount + 1;
    return true;
  }

  predicate Running(j: Job) {
    j.started && j.pending == Pending
  }

  predicate Enabled(s: State, step: Step) {
    match step
    case Enqueue(_) => true
    case Begin(i) => i < |s.jobs| && !s.jobs[i].started && (i > 0 ==> s.jobs[i - 1].tail != Pending)
    case Clear(i) => i < |s.jobs| && Running(s.jobs[i]) && s.jobs[i].kind == Reset && !s.jobs[i].cleared
    case Settle(i, ok) =>
      i < |s.jobs| && Running(s.jobs[i]) &&
      (ok ==> !s.jobs[i].refused && (s.jobs[i].kind == Reset ==> s.jobs[i].cleared))
    case Drain(i) => i < |s.jobs| && s.jobs[i].pending != Pending && s.jobs[i].tail == Pending
  }

  function Next(s: State, step: Step): State
    requires Enabled(s, step)
  {
    match step
    case Enqueue(kind) => s.(jobs := s.jobs + [Job(kind, false, false, false, Pending, Pending)])
    case Begin(i) =>
      var j := s.jobs[i];
      var refused := Refuses(j.kind, s.mutationCount);
      State(s.jobs[i := j.(started := true, refused := refused)],
            Charge(j.kind, s.mutationCount),
            s.trace + [Began(i, j.kind == Mutation && !refused)])
    case Clear(i) =>
      State(s.jobs[i := s.jobs[i].(cleared := true)], 0, s.trace + [Cleared(i)])
    case Settle(i, ok) =>
      s.(jobs := s.jobs[i := s.jobs[i].(pending := if ok then Fulfilled else Rejected)],
         trace := s.trace + [Ended(i, ok)])
    case Drain(i) =>
      s.(jobs := s.jobs[i := s.jobs[i].(tail := Fulfilled)])
  }

  const Idle: State := State([], 0, [])

  /** The state after a schedule, if each of its steps is enabled in turn. */
  function After(schedule: seq<Step>): Option<State> {
    if schedule == [] then Some(Idle)
    else match After(schedule[..|schedule| - 1])
      case Some(s) => if Enabled(s, schedule[|schedule| - 1]) then Some(Next(s, schedule[|schedule| - 1])) else None
      case None => None
  }

  // ---------------------------------------------------------------------------------------
  // What a trace should look like

  /** The begin and end marks of a trace. */
  function Turns(trace: seq<Mark>): seq<Mark> {
    if trace == [] then []
    else Turns(trace[..|trace| - 1]) + if trace[|trace| - 1].Cleared? then [] else [trace[|trace| - 1]]
  }

  /** Begin 0, end 0, begin 1, end 1, ...: one at a time, in enqueue order, once each. */
  ghost predicate InTurn(turns: seq<Mark>) {
    forall k :: 0 <= k < |turns| ==>
      turns[k].job == k / 2 && if k % 2 == 0 then turns[k].Began? else turns[k].Ended?
  }

  /** Mutations begun and counted since the last reset. */
  function Since(trace: seq<Mark>): nat {
    if trace == [] then 0
    else if trace[|trace| - 1].Cleared? then 0
    else Since(trace[..|trace| - 1]) + if trace[|trace| - 1].Began? && trace[|trace| - 1].counted then 1 else 0
  }

  /** Mutations begun and counted in a stretch of the trace. */
  function Counted(marks: seq<Mark>): nat {
    if marks == [] then 0
    else Counted(marks[..|marks| - 1]) + if marks[|marks| - 1].Began? && marks[|marks| - 1].counted then 1 else 0
  }

  // ---------------------------------------------------------------------------------------
  // Invariant: jobs before `k` are through, jobs after it have not begun

  predicate Through(j: Job) {
    j.started && j.pending != Pending && j.tail == Fulfilled
  }

  predicate Waiting(j: Job) {
    !j.started && j.pending == Pending && j.tail == Pending && !j.refused && !j.cleared
  }

  ghost predicate Inv(s: State, k: nat) {
    && k <= |s.jobs|
    && (forall i :: 0 <= i < k ==> Through(s.jobs[i]))
    && (forall i :: k < i < |s.jobs| ==> Waiting(s.jobs[i]))
    && (k < |s.jobs| ==> s.jobs[k].tail == Pending && (!s.jobs[k].started ==> Waiting(s.jobs[k])))
    && InTurn(Turns(s.trace))
    && |Turns(s.trace)| == 2 * k + (if k == |s.jobs| ||
        !s.jobs[k].started then 0 else if s.jobs[k].pending == Pending then 1 else 2)
    && s.mutationCount == Since(s.trace)
    && forall n :: 0 <= n <= |s.trace| ==> Since(s.trace[..n]) <= MAX_MUTATIONS
  }

  lemma MarkAppended(trace: seq<Mark>, m: Mark)
    ensures Turns(trace + [m]) == Turns(trace) + if m.Cleared? then [] else [m]
    ensures Since(trace + [m]) ==
              if m.Cleared? then 0 else Since(trace) + if m.Began? && m.counted then 1 else 0
  {
    assert (trace + [m])[..|trace|] == trace;
  }

  lemma BudgetAppended(trace: seq<Mark>, m: Mark)
    requires forall n :: 0 <= n <= |trace| ==> Since(trace[..n]) <= MAX_MUTATIONS
    requires Since(trace + [m]) <= MAX_MUTATIONS
    ensures forall n :: 0 <= n <= |trace + [m]| ==> Since((trace + [m])[..n]) <= MAX_MUTATIONS
  {
    forall n | 0 <= n <= |trace + [m]| ensures Since((trace + [m])[..n]) <= MAX_MUTATIONS {
      if n <= |trace| {
        assert (trace + [m])[..n] == trace[..n];
      } else {
        assert (trace + [m])[..n] == trace + [m];
      }
    }
  }

  lemma TurnAppended(turns: seq<Mark>, k: nat, m: Mark)
    requires InTurn(turns) && m.job == k && !m.Cleared?
    requires |turns| == if m.Began? then 2 * k else 2 * k + 1
    ensures InTurn(turns + [m])
  {
  }

  lemma BeginInv(s: State, k: nat)
    requires Inv(s, k) && Enabled(s, Begin(k))
    ensures Inv(Next(s, Begin(k)), k)
  {
    assert s.trace[..|s.trace|] == s.trace;
    var m := Began(k, s.jobs[k].kind == Mutation && !Refuses(s.jobs[k].kind, s.mutationCount));
    MarkAppended(s.trace, m);
    BudgetAppended(s.trace, m);
    TurnAppended(Turns(s.trace), k, m);
  }

  lemma ClearInv(s: State, k: nat)
    requires Inv(s, k) && Enabled(s, Clear(k))
    ensures Inv(Next(s, Clear(k)), k)
  {
    MarkAppended(s.trace, Cleared(k));
    BudgetAppended(s.trace, Cleared(k));
  }

  lemma SettleInv(s: State, k: nat, ok: bool)
    requires Inv(s, k) && Enabled(s, Settle(k, ok))
    ensures Inv(Next(s, Settle(k, ok)), k)
  {
    assert s.trace[..|s.trace|] == s.trace;
    MarkAppended(s.trace, Ended(k, ok));
    BudgetAppended(s.trace, Ended(k, ok));
    TurnAppended(Turns(s.trace), k, Ended(k, ok));
  }

  lemma DrainInv(s: State, k: nat)
    requires Inv(s, k) && Enabled(s, Drain(k))
    ensures Inv(Next(s, Drain(k)), k + 1)
  {
  }

  /** Only the operation at the head of the queue can take a step. */
  lemma AtHead(s: State, k: nat, step: Step)
    requires Inv(s, k) && Enabled(s, step) && !step.Enqueue?
    ensures step.job == k
  {
  }

  lemma StepInv(s: State, k: nat, step: Step) returns (next: nat)
    requires Inv(s, k) && Enabled(s, step)
    ensures Inv(Next(s, step), next)
  {
    next := k;
    if !step.Enqueue? { AtHead(s, k, step); }
    match step
    case Enqueue(_) =>
    case Begin(_) => BeginInv(s, k);
    case Clear(_) => ClearInv(s, k);
    case Settle(_, ok) => SettleInv(s, k, ok);
    case Drain(_) =>
      DrainInv(s, k);
      next := k + 1;
  }

  lemma {:induction false} EverySchedule(schedule: seq<Step>) returns (k: nat)
    requires After(schedule).Some?
    ensures Inv(After(schedule).value, k)
  {
    if schedule == [] {
      k := 0;
    } else {
      var before := EverySchedule(schedule[..|schedule| - 1]);
      k := StepInv(After(schedule[..|schedule| - 1]).value, before, schedule[|schedule| - 1]);
    }
  }

  /** In every interleaving, operations run one at a time, in enqueue order, at most once each. */
  lemma OneAtATime(schedule: seq<Step>)
    requires After(schedule).Some?
    ensures InTurn(Turns(After(schedule).value.trace))
  {
    var k := EverySchedule(schedule);
  }

  lemma {:induction false} SinceCoversStretch(trace: seq<Mark>, a: nat)
    requires a <= |trace| && forall i :: a <= i < |trace| ==> !trace[i].Cleared?
    ensures Counted(trace[a..]) <= Since(trace)
    decreases |trace|
  {
    if a < |trace| {
      var rest := trace[..|trace| - 1];
      SinceCoversStretch(rest, a);
      assert trace[a..][..|trace[a..]| - 1] == rest[a..];
    } else {
      assert trace[a..] == [];
    }
  }

  /** In every interleaving, at most 32 counted mutations begin in any stretch of the trace in
      which no reset succeeds; further ones are refused before they do anything. */
  lemma BudgetHolds(schedule: seq<Step>, a: nat, b: nat)
    requires After(schedule).Some?
    requires a <= b <= |After(schedule).value.trace|
    requires forall i :: a <= i < b ==> !After(schedule).value.trace[i].Cleared?
    ensures Counted(After(schedule).value.trace[a..b]) <= 32
  {
    var k := EverySchedule(schedule);
    var trace := After(schedule).value.trace;
    SinceCoversStretch(trace[..b], a);
    assert trace[..b][a..] == trace[a..b];
  }

  // ---------------------------------------------------------------------------------------
  // The budget is spent in full and no further

  /** The stretch from `a` to `n` is all that happened since the last reset. */
  ghost predicate FreshStart(trace: seq<Mark>, a: nat, n: nat) {
    a <= n <= |trace| && (a > 0 ==> trace[a - 1].Cleared?) && forall i :: a <= i < n ==> !trace[i].Cleared?
  }

  lemma {:induction false} SinceIsStretch(trace: seq<Mark>, a: nat)
    requires FreshStart(trace, a, |trace|)
    ensures Since(trace) == Counted(trace[a..])
    decreases |trace|
  {
    if a < |trace| {
      var rest := trace[..|trace| - 1];
      SinceIsStretch(rest, a);
      assert trace[a..][..|trace[a..]| - 1] == rest[a..];
    } else {
      assert trace[a..] == [];
    }
  }

  /** What a mark says of its job: a begin is counted while less than the budget has been spent,
      and refused after that; only what was not refused succeeds, a reset only with its clear. */
  predicate MarkExact(s: State, n: nat)
    requires n < |s.trace|
  {
    s.trace[n].job < |s.jobs| &&
    var j := s.jobs[s.trace[n].job];
    match s.trace[n]
    case Began(_, counted) =>
      && j.started && (counted <==> j.kind == Mutation && Since(s.trace[..n]) < 32)
      && (j.refused <==> j.kind == Mutation && Since(s.trace[..n]) >= 32)
    case Ended(i, ok) => j.started && (ok ==> !j.refused && (j.kind == Reset ==> Cleared(i) in s.trace[..n]))
    case Cleared(_) => j.kind == Reset && j.started
  }

  ghost predicate Exact(s: State) {
    && (forall n :: 0 <= n < |s.trace| ==> MarkExact(s, n))
    && (forall i :: 0 <= i < |s.jobs| && s.jobs[i].cleared ==> Cleared(i) in s.trace)
  }

  /** A later step changes nothing that a mark speaks of. */
  lemma OldMark(s: State, step: Step, n: nat)
    requires Exact(s) && Enabled(s, step) && n < |s.trace|
    ensures MarkExact(Next(s, step), n)
  {
    var t := Next(s, step);
    assert MarkExact(s, n);
    hide Exact, Since;
    assert t.trace[..n] == s.trace[..n] && t.trace[n] == s.trace[n];
    assert forall i :: 0 <= i < |s.jobs| ==> t.jobs[i].kind == s.jobs[i].kind;
    assert forall i :: 0 <= i < |s.jobs| && s.jobs[i].started ==>
      t.jobs[i].started && t.jobs[i].refused == s.jobs[i].refused;
  }

  lemma NewMark(s: State, step: Step)
    requires Exact(s) && Enabled(s, step) && s.mutationCount == Since(s.trace)
    requires |Next(s, step).trace| > |s.trace|
    ensures MarkExact(Next(s, step), |s.trace|)
  {
    hide Since;
    assert Next(s, step).trace[..|s.trace|] == s.trace;
  }

  lemma ExactStep(s: State, k: nat, step: Step)
    requires Inv(s, k) && Exact(s) && Enabled(s, step)
    ensures Exact(Next(s, step))
  {
    var t := Next(s, step);
    assert s.mutationCount == Since(s.trace);
    hide Inv, Since, MarkExact;
    assert |t.trace| <= |s.trace| + 1;
    forall n | 0 <= n < |t.trace| ensures MarkExact(t, n) {
      if n < |s.trace| { OldMark(s, step, n); } else { NewMark(s, step); }
    }
  }

  lemma {:induction false} EveryMark(schedule: seq<Step>)
    requires After(schedule).Some?
    ensures Exact(After(schedule).value)
  {
    if schedule != [] {
      var front := schedule[..|schedule| - 1];
      EveryMark(front);
      var k := EverySchedule(front);
      hide Exact, Inv;
      ExactStep(After(front).value, k, schedule[|schedule| - 1]);
    }
  }

  /** The kinds of the operations enqueued, in order. */
  function Enqueued(schedule: seq<Step>): seq<Kind> {
    if schedule == [] then []
    else
      var last := schedule[|schedule| - 1];
      Enqueued(schedule[..|schedule| - 1]) + if last.Enqueue? then [last.kind] else []
  }

  lemma {:induction false} KindsEnqueued(schedule: seq<Step>)
    requires After(schedule).Some?
    ensures var s := After(schedule).value;
            && |s.jobs| == |Enqueued(schedule)|
            && forall i :: 0 <= i < |s.jobs| ==> s.jobs[i].kind == Enqueued(schedule)[i]
  {
    if schedule != [] { KindsEnqueued(schedule[..|schedule| - 1]); }
  }

  /** In every interleaving, an operation that begins is counted exactly when it is a mutation
      and fewer than 32 counted ones began since the last reset; from the 32nd on mutations are
      refused, and what was refused does not succeed. */
  lemma BudgetExactly(schedule: seq<Step>, a: nat, n: nat)
    requires After(schedule).Some? && n < |After(schedule).value.trace|
    requires FreshStart(After(schedule).value.trace, a, n) && After(schedule).value.trace[n].Began?
    ensures var s, kinds := After(schedule).value, Enqueued(schedule);
            var mark := s.trace[n];
            && mark.job < |kinds| == |s.jobs|
            && (mark.counted <==> kinds[mark.job] == Mutation && Counted(s.trace[a..n]) < 32)
            && (s.jobs[mark.job].refused <==> kinds[mark.job] == Mutation && Counted(s.trace[a..n]) >= 32)
            && (forall m, ok :: 0 <= m < |s.trace| && s.trace[m] == Ended(mark.job, ok) && ok ==>
                  !s.jobs[mark.job].refused)
  {
    EveryMark(schedule);
    KindsEnqueued(schedule);
    var s := After(schedule).value;
    assert MarkExact(s, n);
    SinceIsStretch(s.trace[..n], a);
    assert s.trace[..n][a..] == s.trace[a..n];
    forall m, ok | 0 <= m < |s.trace| && s.trace[m] == Ended(s.trace[n].job, ok) && ok
      ensures !s.jobs[s.trace[n].job].refused
    {
      assert MarkExact(s, m);
    }
  }

  /** A reset that succeeds has cleared the count before it ended. */
  lemma ResetClears(schedule: seq<Step>, n: nat)
    requires After(schedule).Some? && n < |After(schedule).value.trace|
    requires var m := After(schedule).value.trace[n];
             m.Ended? && m.ok && m.job < |Enqueued(schedule)| && Enqueued(schedule)[m.job] == Reset
    ensures var trace := After(schedule).value.trace;
            exists i :: 0 <= i < n && trace[i] == Cleared(trace[n].job)
  {
    EveryMark(schedule);
    KindsEnqueued(schedule);
    var s := After(schedule).value;
    assert MarkExact(s, n);
    var i :| 0 <= i < n && s.trace[..n][i] == Cleared(s.trace[n].job);
  }

  /** A failed operation never blocks the ones behind it: whenever an operation is not through,
      some step of the chain is enabled, and once nothing but enqueueing is enabled every
      operation has begun and ended exactly once. One that was not refused may succeed. */
  lemma NeverStuck(schedule: seq<Step>)
    requires After(schedule).Some?
    ensures var s := After(schedule).value;
            (exists i :: 0 <= i < |s.jobs| && !Through(s.jobs[i])) ==>
              exists i :: Enabled(s, Begin(i)) || Enabled(s, Settle(i, false)) || Enabled(s, Drain(i))
    ensures var s := After(schedule).value;
            (forall i :: 0 <= i < |s.jobs| ==> Through(s.jobs[i])) ==> |Turns(s.trace)| == 2 * |s.jobs|
    ensures var s := After(schedule).value;
            forall i :: 0 <= i < |s.jobs| && Running(s.jobs[i]) && !s.jobs[i].refused ==>
              Enabled(s, Settle(i, true)) || (Enabled(s, Clear(i)) && Enabled(Next(s, Clear(i)), Settle(i, true)))
  {
    var k := EverySchedule(schedule);
    var s := After(schedule).value;
    if k < |s.jobs| {
      assert Enabled(s, Begin(k)) || Enabled(s, Settle(k, false)) || Enabled(s, Drain(k));
      assert !Through(s.jobs[k]);
    }
  }

  /** Steps a job still has to take at most: begin, clear, settle, drain. */
  function Left(j: Job): nat {
    if Through(j) then 0
    else if !j.started then 4
    else if j.pending == Pending then (if j.kind == Reset && !j.cleared then 3 else 2)
    else 1
  }

  function LeftIn(jobs: seq<Job>): nat {
    if jobs == [] then 0 else LeftIn(jobs[..|jobs| - 1]) + Left(jobs[|jobs| - 1])
  }

  lemma {:induction false} LeftUpdate(jobs: seq<Job>, i: nat, j: Job)
    requires i < |jobs|
    ensures LeftIn(jobs[i := j]) == LeftIn(jobs) - Left(jobs[i]) + Left(j)
    decreases |jobs|
  {
    var n := |jobs| - 1;
    if i < n {
      assert jobs[i := j][..n] == jobs[..n][i := j];
      LeftUpdate(jobs[..n], i, j);
    } else {
      assert jobs[i := j][..n] == jobs[..n];
    }
  }

  /** Every step but an enqueue uses up some of what is left: a queue that takes in nothing new
      is through after at most four steps for each operation, whatever fails. */
  lemma EachStepDrains(schedule: seq<Step>, step: Step)
    requires After(schedule).Some? && Enabled(After(schedule).value, step) && !step.Enqueue?
    ensures LeftIn(Next(After(schedule).value, step).jobs) < LeftIn(After(schedule).value.jobs)
  {
    var k := EverySchedule(schedule);
    var s := After(schedule).value;
    AtHead(s, k, step);
    hide After, Turns, InTurn, Since;
    var t := Next(s, step);
    assert t.jobs == s.jobs[k := t.jobs[k]];
    LeftUpdate(s.jobs, k, t.jobs[k]);
  }

  lemma {:induction false} LeftAtMost(jobs: seq<Job>)
    ensures LeftIn(jobs) <= 4 * |jobs|
    ensures LeftIn(jobs) == 0 <==> forall i :: 0 <= i < |jobs| ==> Through(jobs[i])
  {
    if jobs != [] { LeftAtMost(jobs[..|jobs| - 1]); }
  }
}

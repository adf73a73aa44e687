/**
 The stdio server: a JSON-RPC handler behind a chain of promises, one link per input line.
 Lines arrive, links run and tools finish in any interleaving.
 */
module StdioServer {
  import opened Options

  datatype Json =
    | Null | Bool(b: bool) | Number(n: int) | Text(s: string)
    | List(items: seq<Json>) | Object(fields: map<string, Json>)

  /** An input line: over the size limit, not JSON, or a JSON value. */
  datatype Line = TooLong | Unreadable | Message(value: Json)

  /** How an adapter call ends. */
  datatype Outcome = Returned(result: Json) | Threw(code: Option<string>)

  datatype Body =
    | Initialized
    | Pong
    | Result(value: Json)
    | Error(code: int, message: string)

  datatype Response = Response(id: Json, body: Body)

  const INVALID_REQUEST: int := -32600
  const PARSE_ERROR: int := -32700
  const INVALID_PARAMS: int := -32602
  const METHOD_NOT_FOUND: int := -32601
  const TOOL_FAILED: int := -32000

  // ---------------------------------------------------------------------------------------
  // The handler

  /** `message?.id ?? null`. */
  function IdField(message: Json): Json {
    if message.Object? && "id" in message.fields then message.fields["id"] else Null
  }

  predicate IsRequest(message: Json) {
    message.Object? && "jsonrpc" in message.fields && message.fields["jsonrpc"] == Text("2.0")
  }

  function MethodOf(message: Json): Option<string> {
    if message.Object? && "method" in message.fields && message.fields["method"].Text?
    then Some(message.fields["method"].s) else None
  }

  /** A tool call's parameters: an object with a string name and nothing but name and arguments. */
  predicate CallParams(message: Json) {
    message.Object? && "params" in message.fields && message.fields["params"].Object? &&
    var p := message.fields["params"].fields;
    p.Keys <= {"name", "arguments"} && "name" in p && p["name"].Text?
  }

  /** `params.arguments ?? {}`. */
  function Arguments(p: map<string, Json>): Json {
    if "arguments" in p && p["arguments"] != Null then p["arguments"] else Object(map[])
  }

  datatype Call = Call(id: Json, name: string, arguments: Json)

  /** What a message leads to at once: an answer (or silence), or a call to wait for. */
  datatype Reaction = Answer(response: Option<Response>) | Wait(call: Call)

  function OfOutcome(id: Json, outcome: Outcome): Response {
    match outcome
    case Returned(result) => Response(id, Result(result))
    case Threw(code) => Response(id, Error(TOOL_FAILED, if code.Some? then code.value else "mcp_tool_failed"))
  }

  /** The handler; `listing` is how the adapter's tool listing ends. */
  function Handle(message: Json, listing: Outcome): Reaction {
    var id := IdField(message);
    if !IsRequest(message) then Answer(Some(Response(id, Error(INVALID_REQUEST, "Invalid Request"))))
    else
      var name := MethodOf(message);
      if name == Some("initialize") then Answer(Some(Response(id, Initialized)))
      else if name == Some("ping") then Answer(Some(Response(id, Pong)))
      else if name == Some("tools/list") then Answer(Some(OfOutcome(id, listing)))
      else if name == Some("tools/call") then
        if !CallParams(message) then Answer(Some(Response(id, Error(INVALID_PARAMS, "Invalid params"))))
        else
          var p := message.fields["params"].fields;
          Wait(Call(id, p["name"].s, Arguments(p)))
      else if name == Some("notifications/initialized") then Answer(None)
      else Answer(Some(Response(id, Error(METHOD_NOT_FOUND, "Method not found"))))
  }

  function React(line: Line, listing: Outcome): Reaction {
    match line
    case TooLong => Answer(Some(Response(Null, Error(INVALID_REQUEST, "Invalid Request"))))
    case Unreadable => Answer(Some(Response(Null, Error(PARSE_ERROR, "Parse error"))))
    case Message(value) => Handle(value, listing)
  }

  // ---------------------------------------------------------------------------------------
  // The chain of promises

  /** Where the callback of a link stands. It runs once the promise before it has settled, may
      wait for a tool, writes what it has to write, and only then does its own promise settle. */
  datatype Stage =
    | Waiting
    | Calling(call: Call)
    | Ready(response: Option<Response>)
    | Written
    | Settled

  /** One line and its promise; `outcome` is how the adapter call made for it ended. */
  datatype Link = Link(line: Line, stage: Stage, outcome: Option<Outcome>)

  /** The links in the order in which lines arrived, what was written, the tool calls made, and
      for each close the promise it awaits: the tail of the chain at that moment, counted from
      one, or zero for the promise the chain starts from. */
  datatype State = State(links: seq<Link>, output: seq<Response>, called: seq<Call>, closes: seq<nat>, closed: set<nat>)

  const START: State := State([], [], [], [], {})

  datatype Step =
    | Arrive(line: Line)
    | Begin(link: nat, listing: Outcome)
    | Finish(link: nat, outcome: Outcome)
    | Write(link: nat)
    | Settle(link: nat)
    | Close
    | Resolve(close: nat)

  /** Promise `n` has settled; promise zero is settled from the start. */
  predicate HasSettled(s: State, n: nat) {
    n == 0 || (n <= |s.links| && s.links[n - 1].stage == Settled)
  }

  /** What the promises allow. Nothing here speaks of any link but the one named, or the one
      whose promise it was chained to. */
  predicate Enabled(s: State, step: Step) {
    match step
    case Arrive(_) => true
    case Begin(i, _) => i < |s.links| && s.links[i].stage == Waiting && HasSettled(s, i)
    case Finish(i, _) => i < |s.links| && s.links[i].stage.Calling?
    case Write(i) => i < |s.links| && s.links[i].stage.Ready?
    case Settle(i) => i < |s.links| && s.links[i].stage == Written
    case Close => true
    case Resolve(c) => c < |s.closes| && HasSettled(s, s.closes[c])
  }

  function Begun(link: Link, listing: Outcome): Link {
    match React(link.line, listing)
    case Answer(r) => link.(stage := Ready(r), outcome := Some(listing))
    case Wait(call) => link.(stage := Calling(call))
  }

  function ToWrite(r: Option<Response>): seq<Response> {
    if r.Some? then [r.value] else []
  }

  function Next(s: State, step: Step): State
    requires Enabled(s, step)
  {
    match step
    case Arrive(line) => s.(links := s.links + [Link(line, Waiting, None)])
    case Begin(i, listing) =>
      var link := Begun(s.links[i], listing);
      s.(links := s.links[i := link], called := if link.stage.Calling? then s.called + [link.stage.call] else s.called)
    case Finish(i, outcome) =>
      var link := s.links[i];
      s.(links :=
           s.links[i := link.(stage := Ready(Some(OfOutcome(link.stage.call.id, outcome))), outcome := Some(outcome))])
    case Write(i) =>
      s.(links := s.links[i := s.links[i].(stage := Written)], output := s.output + ToWrite(s.links[i].stage.response))
    case Settle(i) => s.(links := s.links[i := s.links[i].(stage := Settled)])
    case Close => s.(closes := s.closes + [|s.links|])
    case Resolve(c) => s.(closed := s.closed + {c})
  }

  /** The state after a schedule, each step being enabled in turn. */
  function After(s: State, schedule: seq<Step>): Option<State>
    decreases |schedule|
  {
    if schedule == [] then Some(s)
    else if Enabled(s, schedule[0]) then After(Next(s, schedule[0]), schedule[1..])
    else None
  }

  /** The lines that arrived, in order. */
  function Arrivals(schedule: seq<Step>): seq<Line>
    decreases |schedule|
  {
    if schedule == [] then [] else (if schedule[0].Arrive? then [schedule[0].line] else []) + Arrivals(schedule[1..])
  }

  function Lines(links: seq<Link>): seq<Line> {
    seq(|links|, i requires 0 <= i < |links| => links[i].line)
  }

  // ---------------------------------------------------------------------------------------
  // What a client may expect

  /** A well-formed initialized notification. */
  predicate Silent(line: Line) {
    line.Message? && line.value.Object? &&
    "jsonrpc" in line.value.fields && line.value.fields["jsonrpc"] == Text("2.0") &&
    "method" in line.value.fields && line.value.fields["method"] == Text("notifications/initialized")
  }

  /** The id an answer must carry: the request's, or null when there is none to read. */
  function ExpectedId(line: Line): Json {
    if line.Message? && line.value.Object? && "id" in line.value.fields then line.value.fields["id"] else Null
  }

  /** A JSON-RPC request of version 2.0. */
  predicate Versioned(line: Line) {
    line.Message? && line.value.Object? &&
    "jsonrpc" in line.value.fields && line.value.fields["jsonrpc"] == Text("2.0")
  }

  predicate Asks(line: Line, name: string) {
    Versioned(line) && "method" in line.value.fields && line.value.fields["method"] == Text(name)
  }

  predicate Known(line: Line) {
    Asks(line, "initialize") || Asks(line, "ping") || Asks(line, "tools/list") || Asks(line, "tools/call")
  }

  /** A tool call that can be made: its parameters are an object with a string name and nothing
      else but arguments. */
  predicate Callable(line: Line) {
    Asks(line, "tools/call") && "params" in line.value.fields && line.value.fields["params"].Object? &&
    var params := line.value.fields["params"].fields;
    "name" in params && params["name"].Text? && forall key :: key in params ==> key == "name" || key == "arguments"
  }

  /** The call such a line asks for: its own id, name and arguments, which default to none. */
  function ExpectedCall(line: Line): Call
    requires Callable(line)
  {
    var params := line.value.fields["params"].fields;
    Call(ExpectedId(line), params["name"].s,
         if "arguments" !in params || params["arguments"].Null? then Object(map[]) else params["arguments"])
  }

  /** What an adapter call that ended so is to be reported as. */
  predicate Reports(body: Body, outcome: Outcome) {
    match outcome
    case Returned(result) => body == Result(result)
    case Threw(code) => body == Error(-32000, if code.Some? then code.value else "mcp_tool_failed")
  }

  /** A response that fits a line: its id, the error its shape calls for, and for a tool call or
      listing the outcome of that line's own adapter call. */
  predicate Fits(r: Response, line: Line, outcome: Option<Outcome>) {
    && r.id == ExpectedId(line)
    && (line == Unreadable ==> r.body == Error(-32700, "Parse error"))
    && (line == TooLong || (line.Message? && !Versioned(line)) ==> r.body == Error(-32600, "Invalid Request"))
    && (Asks(line, "initialize") ==> r.body == Initialized)
    && (Asks(line, "ping") ==> r.body == Pong)
    && (Asks(line, "tools/list") || Callable(line) ==> outcome.Some? && Reports(r.body, outcome.value))
    && (Asks(line, "tools/call") && !Callable(line) ==> r.body == Error(-32602, "Invalid params"))
    && (Versioned(line) && !Known(line) ==> r.body == Error(-32601, "Method not found"))
  }

  /** The links to be answered, in input order. */
  function Answerable(links: seq<Link>): seq<Link> {
    if links == [] then []
    else Answerable(links[..|links| - 1]) + if Silent(links[|links| - 1].line) then [] else [links[|links| - 1]]
  }

  /** The output answers the links one by one, in order. */
  ghost predicate AnswersInOrder(output: seq<Response>, links: seq<Link>) {
    |output| == |Answerable(links)| &&
    forall i :: 0 <= i < |output| ==> Fits(output[i], Answerable(links)[i].line, Answerable(links)[i].outcome)
  }

  /** The tool calls among the lines, in order. */
  function Calls(lines: seq<Line>): seq<Call> {
    if lines == [] then []
    else
      var last := lines[|lines| - 1];
      Calls(lines[..|lines| - 1]) + if Callable(last) then [ExpectedCall(last)] else []
  }

  // ---------------------------------------------------------------------------------------
  // Invariant: links before `k` have settled, links after it have not begun

  /** The stage of the one link that may be under way. */
  predicate UnderWay(link: Link) {
    match link.stage
    case Calling(call) => Callable(link.line) && call == ExpectedCall(link.line)
    case Ready(r) => (r.None? <==> Silent(link.line)) && (r.Some? ==> Fits(r.value, link.line, link.outcome))
    case Settled => false
    case _ => true
  }

  /** How many links have written what they had to. */
  function Done(s: State, k: nat): nat
    requires k <= |s.links|
  {
    if k < |s.links| && s.links[k].stage == Written then k + 1 else k
  }

  /** How many links have begun. */
  function Started(s: State, k: nat): nat
    requires k <= |s.links|
  {
    if k < |s.links| && s.links[k].stage != Waiting then k + 1 else k
  }

  ghost predicate Inv(s: State, k: nat) {
    && k <= |s.links|
    && (forall i :: 0 <= i < k ==> s.links[i].stage == Settled)
    && (forall i :: k < i < |s.links| ==> s.links[i].stage == Waiting)
    && (k < |s.links| ==> UnderWay(s.links[k]))
    && AnswersInOrder(s.output, s.links[..Done(s, k)])
    && s.called == Calls(Lines(s.links[..Started(s, k)]))
    && (forall c :: 0 <= c < |s.closes| ==> s.closes[c] <= |s.links|)
    && (forall c :: c in s.closed ==> c < |s.closes| && s.closes[c] <= k)
  }

  // ---------------------------------------------------------------------------------------
  // Each line's own answer

  /** A reaction to a line: silence or a fitting answer, or the call the line asks for. */
  predicate Suits(r: Reaction, line: Line, listing: Outcome) {
    match r
    case Answer(response) =>
      && !Callable(line) && (response.None? <==> Silent(line))
      && (response.Some? ==> Fits(response.value, line, Some(listing)))
    case Wait(call) => Callable(line) && call == ExpectedCall(line)
  }

  /** The handler's reaction to a line suits it, however adapter calls end. */
  lemma ReactFits(line: Line, listing: Outcome)
    ensures Suits(React(line, listing), line, listing)
  {
    if line.Message? {
      hide *;
      HandleFits(line.value, listing);
    }
  }

  lemma HandleFits(value: Json, listing: Outcome)
    ensures Suits(React(Message(value), listing), Message(value), listing)
  {
    hide IsRequest, MethodOf, CallParams, Versioned, Asks, Callable, IdField, ExpectedId, Silent, ExpectedCall;
    Readings(value);
  }

  /** The handler's tests on a message read it as intended. */
  lemma Readings(value: Json)
    ensures var line := Message(value);
            && (IsRequest(value) <==> Versioned(line)) && IdField(value) == ExpectedId(line)
            && (forall name: string :: Asks(line, name) <==> IsRequest(value) && MethodOf(value) == Some(name))
            && (Callable(line) <==> Asks(line, "tools/call") && CallParams(value))
            && (Callable(line) ==>
                  value.Object? && "params" in value.fields && value.fields["params"].Object? &&
                  var p := value.fields["params"].fields;
                  "name" in p && p["name"].Text? &&
                  ExpectedCall(line) == Call(IdField(value), p["name"].s, Arguments(p)))
            && (Silent(line) <==> Asks(line, "notifications/initialized"))
  {
  }

  /** What is reported of the call a line asks for fits it. */
  lemma OutcomeFits(line: Line, outcome: Outcome)
    requires Callable(line)
    ensures !Silent(line) && Fits(OfOutcome(ExpectedCall(line).id, outcome), line, Some(outcome))
  {
  }

  lemma AnswerableNext(links: seq<Link>, link: Link)
    ensures Answerable(links + [link]) == Answerable(links) + if Silent(link.line) then [] else [link]
  {
    assert (links + [link])[..|links|] == links;
  }

  lemma CallsNext(lines: seq<Line>, line: Line)
    ensures Calls(lines + [line]) == Calls(lines) + if Callable(line) then [ExpectedCall(line)] else []
  {
    assert (lines + [line])[..|lines|] == lines;
  }

  lemma LinesNext(links: seq<Link>, link: Link)
    ensures Lines(links + [link]) == Lines(links) + [link.line]
  {
  }

  lemma WrittenNext(output: seq<Response>, links: seq<Link>, link: Link, r: Option<Response>)
    requires AnswersInOrder(output, links) && (r.None? <==> Silent(link.line))
    requires r.Some? ==> Fits(r.value, link.line, link.outcome)
    ensures AnswersInOrder(output + ToWrite(r), links + [link])
  {
    hide Fits, Silent;
    AnswerableNext(links, link);
    hide Answerable;
  }

  // ---------------------------------------------------------------------------------------
  // Every step keeps the invariant

  /** Only the link after the settled ones can take a step. */
  lemma AtHead(s: State, k: nat, step: Step)
    requires Inv(s, k) && Enabled(s, step) && (step.Begin? || step.Finish? || step.Write? || step.Settle?)
    ensures step.link == k
  {
    hide AnswersInOrder, Calls;
  }

  /** Replacing the link under way leaves the settled ones and the waiting ones alone. */
  lemma HeadReplaced(s: State, k: nat, link: Link)
    requires Inv(s, k) && k < |s.links|
    ensures var links := s.links[k := link];
            && links[..k] == s.links[..k] && links[..k + 1] == s.links[..k] + [link]
            && (forall i :: 0 <= i < k ==> links[i].stage == Settled)
            && (forall i :: k < i < |links| ==> links[i].stage == Waiting)
  {
  }

  lemma BeginKeeps(s: State, k: nat, listing: Outcome)
    requires Inv(s, k) && Enabled(s, Begin(k, listing))
    ensures Inv(Next(s, Begin(k, listing)), k)
  {
    hide AnswersInOrder, Calls, Fits, Lines, React, Callable;
    var link, t := Begun(s.links[k], listing), Next(s, Begin(k, listing));
    HeadReplaced(s, k, link);
    ReactFits(link.line, listing);
    LinesNext(s.links[..k], link);
    CallsNext(Lines(s.links[..k]), link.line);
    assert t.links[..Done(t, k)] == s.links[..Done(s, k)];
  }

  lemma FinishKeeps(s: State, k: nat, outcome: Outcome)
    requires Inv(s, k) && Enabled(s, Finish(k, outcome))
    ensures Inv(Next(s, Finish(k, outcome)), k)
  {
    hide AnswersInOrder, React, Calls, Fits, Silent, Callable, Lines;
    var t := Next(s, Finish(k, outcome));
    HeadReplaced(s, k, t.links[k]);
    HeadReplaced(s, k, s.links[k]);
    OutcomeFits(s.links[k].line, outcome);
    LinesNext(s.links[..k], t.links[k]);
    LinesNext(s.links[..k], s.links[k]);
    assert s.links[k := s.links[k]] == s.links;
    hide AnswersInOrder, React, Calls, Fits, Silent, Callable, Lines;
    assert t.links[..Done(t, k)] == s.links[..Done(s, k)];
  }

  lemma WriteKeeps(s: State, k: nat)
    requires Inv(s, k) && Enabled(s, Write(k))
    ensures Inv(Next(s, Write(k)), k)
  {
    hide AnswersInOrder, React, Calls, Fits, Silent, Callable, Lines;
    var t := Next(s, Write(k));
    HeadReplaced(s, k, t.links[k]);
    HeadReplaced(s, k, s.links[k]);
    WrittenNext(s.output, s.links[..k], t.links[k], s.links[k].stage.response);
    LinesNext(s.links[..k], t.links[k]);
    LinesNext(s.links[..k], s.links[k]);
    assert s.links[k := s.links[k]] == s.links;
  }

  /** A link only settles: what it was and how it was answered stays. */
  lemma {:induction false} SettledAlike(a: seq<Link>, b: seq<Link>)
    requires |a| == |b| && forall i :: 0 <= i < |a| ==> a[i].line == b[i].line && a[i].outcome == b[i].outcome
    ensures |Answerable(a)| == |Answerable(b)|
    ensures forall i :: 0 <= i < |Answerable(a)| ==>
              Answerable(a)[i].line == Answerable(b)[i].line && Answerable(a)[i].outcome == Answerable(b)[i].outcome
  {
    if a != [] { SettledAlike(a[..|a| - 1], b[..|b| - 1]); }
  }

  lemma SettleKeeps(s: State, k: nat)
    requires Inv(s, k) && Enabled(s, Settle(k))
    ensures Inv(Next(s, Settle(k)), k + 1)
  {
    var t := Next(s, Settle(k));
    HeadReplaced(s, k, t.links[k]);
    HeadReplaced(s, k, s.links[k]);
    assert s.links[k := s.links[k]] == s.links;
    SettledAlike(s.links[..k + 1], t.links[..k + 1]);
    LinesNext(s.links[..k], t.links[k]);
    LinesNext(s.links[..k], s.links[k]);
    hide React, Calls, Fits, Silent, Callable, Lines, Answerable;
    assert AnswersInOrder(t.output, t.links[..k + 1]);
  }

  lemma ArriveKeeps(s: State, k: nat, line: Line)
    requires Inv(s, k)
    ensures Inv(Next(s, Arrive(line)), k)
  {
    hide AnswersInOrder, React, Calls, Fits, Silent, Callable;
    var t := Next(s, Arrive(line));
    assert t.links[..Done(t, k)] == s.links[..Done(s, k)] && t.links[..Started(t, k)] == s.links[..Started(s, k)];
  }

  lemma StepKeeps(s: State, k: nat, step: Step) returns (next: nat)
    requires Inv(s, k) && Enabled(s, step)
    ensures Inv(Next(s, step), next)
  {
    hide AnswersInOrder, React, Calls, Fits, Silent, Callable;
    next := k;
    if step.Begin? || step.Finish? || step.Write? || step.Settle? { AtHead(s, k, step); }
    match step {
      case Arrive(line) => ArriveKeeps(s, k, line);
      case Begin(_, listing) => BeginKeeps(s, k, listing);
      case Finish(_, outcome) => FinishKeeps(s, k, outcome);
      case Write(_) => WriteKeeps(s, k);
      case Settle(_) =>
        SettleKeeps(s, k);
        next := k + 1;
      case Close =>
      case Resolve(_) =>
    }
  }

  lemma LinesGrow(s: State, step: Step)
    requires Enabled(s, step)
    ensures Lines(Next(s, step).links) == Lines(s.links) + if step.Arrive? then [step.line] else []
  {
    hide React;
  }

  lemma {:induction false} ScheduleKeeps(s: State, schedule: seq<Step>, k: nat) returns (last: nat)
    requires Inv(s, k) && After(s, schedule).Some?
    ensures Inv(After(s, schedule).value, last)
    decreases |schedule|
  {
    hide Inv, Next, Enabled;
    if schedule == [] {
      last := k;
    } else {
      var next := StepKeeps(s, k, schedule[0]);
      last := ScheduleKeeps(Next(s, schedule[0]), schedule[1..], next);
    }
  }

  lemma {:induction false} LinesTaken(s: State, schedule: seq<Step>)
    requires After(s, schedule).Some?
    ensures Lines(After(s, schedule).value.links) == Lines(s.links) + Arrivals(schedule)
    decreases |schedule|
  {
    hide Next, Enabled, Lines;
    if schedule != [] {
      LinesGrow(s, schedule[0]);
      LinesTaken(Next(s, schedule[0]), schedule[1..]);
    }
  }

  // ---------------------------------------------------------------------------------------
  // Each link keeps the outcome it was told

  /** How the adapter call of link `i` ended in a schedule: the last outcome a step named. */
  function Told(schedule: seq<Step>, i: nat): Option<Outcome>
    decreases |schedule|
  {
    if schedule == [] then None
    else if Told(schedule[1..], i).Some? then Told(schedule[1..], i)
    else match schedule[0]
      case Begin(j, listing) => if j == i then Some(listing) else None
      case Finish(j, outcome) => if j == i then Some(outcome) else None
      case _ => None
  }

  function OutcomeAt(s: State, i: nat): Option<Outcome> {
    if i < |s.links| then s.links[i].outcome else None
  }

  predicate Over(link: Link) {
    link.stage.Ready? || link.stage == Written || link.stage == Settled
  }

  lemma {:induction false} OutcomesTold(s: State, schedule: seq<Step>, i: nat)
    requires After(s, schedule).Some? && i < |After(s, schedule).value.links|
    ensures var link := After(s, schedule).value.links[i];
            && (Told(schedule, i).None? && (i < |s.links| ==> !Over(s.links[i])) ==> !Over(link))
            && (Over(link) ==> link.outcome == if Told(schedule, i).Some? then Told(schedule, i) else OutcomeAt(s, i))
    decreases |schedule|
  {
    if schedule != [] {
      var t := Next(s, schedule[0]);
      OutcomesTold(t, schedule[1..], i);
      hide After, React;
      assert i < |s.links| && !(schedule[0].Begin? && schedule[0].link == i) &&
             !(schedule[0].Finish? && schedule[0].link == i) ==>
               i < |t.links| && t.links[i].outcome == s.links[i].outcome && (Over(t.links[i]) <==> Over(s.links[i]));
    }
  }

  // ---------------------------------------------------------------------------------------
  // Every schedule

  /** Begun, and not settled. */
  predicate Busy(link: Link) {
    link.stage != Waiting && link.stage != Settled
  }

  ghost predicate AllSettled(s: State) {
    forall i :: 0 <= i < |s.links| ==> s.links[i].stage == Settled
  }

  /** The first `n` lines are answered, among them all whose promise has settled or that a
      resolved close awaited. */
  ghost predicate Answered(s: State, n: nat) {
    && n <= |s.links| && AnswersInOrder(s.output, s.links[..n])
    && (forall i :: 0 <= i < |s.links| && s.links[i].stage == Settled ==> i < n)
    && (forall c :: c in s.closed ==> c < |s.closes| && s.closes[c] <= n)
  }

  /** In every schedule the output answers exactly the first `n` lines, in input order: one
      fitting response for each, except initialized notifications, with the outcome of the line's
      own adapter call. At most one link is under way, and tools were called for the call lines
      only, in order. Once every promise has settled, all lines are answered and all calls
      made. */
  lemma EveryRun(schedule: seq<Step>) returns (n: nat)
    requires After(START, schedule).Some?
    ensures var s := After(START, schedule).value;
            && Lines(s.links) == Arrivals(schedule) && Answered(s, n)
            && (forall i :: 0 <= i < n ==> s.links[i].outcome == Told(schedule, i))
            && (forall i, j :: 0 <= i < j < |s.links| ==> !Busy(s.links[i]) || !Busy(s.links[j]))
            && s.called <= Calls(Arrivals(schedule))
            && (AllSettled(s) ==> n == |s.links| && s.called == Calls(Arrivals(schedule)))
  {
    hide *;
    StartInv();
    var k := ScheduleKeeps(START, schedule, 0);
    LinesTaken(START, schedule);
    NoLines();
    var s := After(START, schedule).value;
    DoneAll(s, k);
    n := Done(s, k);
    PrefixCalls(s, k);
    OneBusy(s, k);
    forall i | 0 <= i < n ensures s.links[i].outcome == Told(schedule, i) {
      OutcomesTold(START, schedule, i);
      DoneOver(s, k, i);
      FromStart(i);
    }
  }

  lemma DoneOver(s: State, k: nat, i: nat)
    requires Inv(s, k) && i < Done(s, k)
    ensures i < |s.links| && Over(s.links[i])
  {
    hide AnswersInOrder, Calls, React, Fits, Silent, Callable;
  }

  lemma FromStart(i: nat)
    ensures OutcomeAt(START, i) == None
  {
  }

  lemma DoneAll(s: State, k: nat)
    requires Inv(s, k)
    ensures k <= |s.links| && Done(s, k) <= |s.links| && (k == |s.links| ==> Done(s, k) == |s.links|)
  {
    hide AnswersInOrder, Calls, React, Fits, Silent, Callable;
  }

  lemma NoLines()
    ensures Lines(START.links) == []
  {
  }

  lemma OneBusy(s: State, k: nat)
    requires Inv(s, k)
    ensures Answered(s, Done(s, k)) && (AllSettled(s) ==> k == |s.links|)
    ensures forall i, j :: 0 <= i < j < |s.links| ==> !Busy(s.links[i]) || !Busy(s.links[j])
  {
    hide AnswersInOrder, Calls, React, Fits, Silent, Callable;
    if k < |s.links| { assert s.links[k].stage != Settled; }
  }

  lemma StartInv()
    ensures Inv(START, 0)
  {
  }

  lemma PrefixCalls(s: State, k: nat)
    requires Inv(s, k)
    ensures s.called <= Calls(Lines(s.links)) && (k == |s.links| ==> s.called == Calls(Lines(s.links)))
  {
    hide AnswersInOrder, Calls, React;
    var n := Started(s, k);
    assert Lines(s.links) == Lines(s.links[..n]) + Lines(s.links[n..]);
    assert k == |s.links| ==> s.links[..n] == s.links;
    CallsPrefix(Lines(s.links[..n]), Lines(s.links[n..]));
  }

  lemma {:induction false} CallsPrefix(lines: seq<Line>, more: seq<Line>)
    ensures Calls(lines) <= Calls(lines + more)
    decreases |more|
  {
    if more == [] {
      assert lines + more == lines;
    } else {
      var n := |more| - 1;
      CallsPrefix(lines, more[..n]);
      assert lines + more == (lines + more[..n]) + [more[n]];
      CallsNext(lines + more[..n], more[n]);
    }
  }

  /** A close resolves only once every line that arrived before it has been answered. */
  lemma CloseWaits(before: seq<Step>, more: seq<Step>) returns (n: nat)
    requires After(START, before + [Close] + more).Some?
    ensures After(START, before).Some?
    ensures var c := |After(START, before).value.closes|;
            var s := After(START, before + [Close] + more).value;
            && Answered(s, n) && Lines(s.links) == Arrivals(before + [Close] + more)
            && (c in s.closed ==> |Arrivals(before)| <= n && Arrivals(before) == Lines(s.links)[..|Arrivals(before)|])
  {
    assert before + ([Close] + more) == before + [Close] + more;
    AfterSplits(START, before, [Close] + more);
    n := EveryRun(before + [Close] + more);
    var m := EveryRun(before);
    hide AnswersInOrder, Calls, Answerable, React;
    var t := After(START, before).value;
    assert |t.links| == |Lines(t.links)|;
    assert ([Close] + more)[1..] == more;
    ClosesStay(Next(t, Close), more, |t.closes|);
    ArrivalsSplit(before, [Close] + more);
  }

  /** Once every promise has settled, every close can resolve. */
  lemma CloseResolves(schedule: seq<Step>, c: nat)
    requires After(START, schedule).Some? && c < |After(START, schedule).value.closes|
    requires AllSettled(After(START, schedule).value)
    ensures Enabled(After(START, schedule).value, Resolve(c))
  {
    StartInv();
    var k := ScheduleKeeps(START, schedule, 0);
    hide After, AnswersInOrder, Calls, React, Fits, Silent, Callable;
  }

  lemma {:induction false} AfterSplits(s: State, schedule: seq<Step>, more: seq<Step>)
    requires After(s, schedule + more).Some?
    ensures After(s, schedule).Some? && After(s, schedule + more) == After(After(s, schedule).value, more)
    decreases |schedule|
  {
    hide Next, Enabled;
    if schedule == [] {
      assert schedule + more == more;
    } else {
      assert (schedule + more)[0] == schedule[0] && (schedule + more)[1..] == schedule[1..] + more;
      AfterSplits(Next(s, schedule[0]), schedule[1..], more);
    }
  }

  lemma {:induction false} ArrivalsSplit(schedule: seq<Step>, more: seq<Step>)
    ensures Arrivals(schedule + more) == Arrivals(schedule) + Arrivals(more)
    decreases |schedule|
  {
    if schedule == [] {
      assert schedule + more == more;
    } else {
      assert (schedule + more)[0] == schedule[0] && (schedule + more)[1..] == schedule[1..] + more;
      ArrivalsSplit(schedule[1..], more);
    }
  }

  lemma {:induction false} ClosesStay(s: State, schedule: seq<Step>, c: nat)
    requires c < |s.closes| && After(s, schedule).Some?
    ensures c < |After(s, schedule).value.closes| && After(s, schedule).value.closes[c] == s.closes[c]
    decreases |schedule|
  {
    hide React;
    if schedule != [] { ClosesStay(Next(s, schedule[0]), schedule[1..], c); }
  }

  // ---------------------------------------------------------------------------------------
  // The chain drains

  /** Steps a link still has to take at most: begin, finish, write, settle. */
  function Left(link: Link): nat {
    match link.stage
    case Waiting => 4
    case Calling(_) => 3
    case Ready(_) => 2
    case Written => 1
    case Settled => 0
  }

  function LeftIn(links: seq<Link>): nat {
    if links == [] then 0 else LeftIn(links[..|links| - 1]) + Left(links[|links| - 1])
  }

  lemma {:induction false} LeftUpdate(links: seq<Link>, i: nat, link: Link)
    requires i < |links|
    ensures LeftIn(links[i := link]) == LeftIn(links) - Left(links[i]) + Left(link)
    decreases |links|
  {
    hide Left;
    var n := |links| - 1;
    if i < n {
      assert links[i := link][..n] == links[..n][i := link];
      LeftUpdate(links[..n], i, link);
    } else {
      assert links[i := link][..n] == links[..n];
    }
  }

  predicate LinkStep(step: Step) {
    step.Begin? || step.Finish? || step.Write? || step.Settle?
  }

  /** Every step a link takes uses up some of what is left, whatever adapter calls come to; a
      close or its resolution uses up nothing and adds nothing. */
  lemma EachStepDrains(s: State, step: Step)
    requires Enabled(s, step) && !step.Arrive?
    ensures LinkStep(step) ==> LeftIn(Next(s, step).links) < LeftIn(s.links)
    ensures !LinkStep(step) ==> Next(s, step).links == s.links
  {
    if LinkStep(step) {
      var link := Next(s, step).links[step.link];
      assert Next(s, step).links == s.links[step.link := link];
      assert Left(link) < Left(s.links[step.link]) by { hide React; }
      hide Left, Next;
      LeftUpdate(s.links, step.link, link);
    }
  }

  lemma {:induction false} LeftAtMost(links: seq<Link>)
    ensures LeftIn(links) <= 4 * |links|
    ensures LeftIn(links) == 0 <==> forall i :: 0 <= i < |links| ==> links[i].stage == Settled
  {
    if links != [] { LeftAtMost(links[..|links| - 1]); }
  }

  /** In every schedule, while some promise has not settled a link can take a step, with any
      outcome. With `EachStepDrains` every schedule that takes in nothing new and goes on settles
      every promise after at most four steps a line. */
  lemma NeverStuck(schedule: seq<Step>, outcome: Outcome)
    requires After(START, schedule).Some? && !AllSettled(After(START, schedule).value)
    ensures exists i :: Movable(After(START, schedule).value, i, outcome)
  {
    StartInv();
    var k := ScheduleKeeps(START, schedule, 0);
    var s := After(START, schedule).value;
    hide After, AnswersInOrder, Calls, React, Fits, Silent;
    assert k < |s.links|;
    assert Movable(s, k, outcome);
  }

  predicate Movable(s: State, i: nat, outcome: Outcome) {
    Enabled(s, Begin(i, outcome)) || Enabled(s, Finish(i, outcome)) || Enabled(s, Write(i)) || Enabled(s, Settle(i))
  }
}

/**
 The local Agent's resume workflow against a gateway with idempotency keys. Requests travel
 through a network that may delay, repeat or drop them; any number of resumes and single
 runtime steps run at the same time, crash, and start again. Interest accrues and servicing
 reclassifies obligations at any moment.
 */
module AgentResume {
  import opened Options
  import opened Runs

  type MandateId = string
  type ObligationId = string

  /** `Troubled` stands for the five other repayable states, `Ended` for closed and written off. */
  datatype Status = Created | Active | PartiallyRepaid | FullyRepaid | Troubled | Ended

  /** Amounts in minor units; `accrued` and `repaid` are the running totals. */
  datatype Obligation = Obligation(
    mandate: MandateId, status: Status, executed: bool,
    principal: nat, interest: nat, fees: nat, accrued: nat, repaid: nat)

  function Total(o: Obligation): nat { o.principal + o.interest + o.fees }

  // ---------------------------------------------------------------------------------------
  // What a command does to an obligation

  function Min(a: nat, b: nat): nat { if a <= b then a else b }

  /** Interest accrues on principal only. */
  function Accrue(o: Obligation, amount: nat): Obligation {
    if o.executed && o.principal > 0 then o.(interest := o.interest + amount, accrued := o.accrued + amount) else o
  }

  function Execute(o: Obligation): Option<Obligation> {
    if o.status == Created && !o.executed then Some(o.(status := Active, executed := true)) else None
  }

  predicate Repayable(o: Obligation) {
    o.executed && o.status in {Active, PartiallyRepaid, Troubled}
  }

  /** Fees first, then interest, then principal; a surplus is not taken. */
  function Repay(o: Obligation, amount: nat): Option<Obligation> {
    if !Repayable(o) || amount == 0 || Total(o) == 0 then None
    else
      var fee := Min(amount, o.fees);
      var interest := Min(amount - fee, o.interest);
      var principal := Min(amount - fee - interest, o.principal);
      var rest := o.(fees := o.fees - fee, interest := o.interest - interest, principal := o.principal - principal,
                     repaid := o.repaid + fee + interest + principal);
      Some(rest.(status := if Total(rest) == 0 then FullyRepaid else PartiallyRepaid))
  }

  // ---------------------------------------------------------------------------------------
  // The gateway

  /** Where a repayment comes from; a resume always names revenue. */
  datatype Source = Wallet | Bank | Revenue

  /** The commands the workflow sends. Their idempotency keys depend on the mandate and the
      step only. */
  datatype Command =
    | ExecuteUse(mandate: MandateId, obligation: ObligationId)
    | PostRepayment(mandate: MandateId, obligation: ObligationId, amount: nat, source: Source)

  datatype Key = Key(mandate: MandateId, sequence: nat)

  function KeyOf(c: Command): Key {
    Key(c.mandate, if c.ExecuteUse? then 2 else 3)
  }

  /** An applied command, with the obligation just before it (interest accrued) and after. */
  datatype Record = Record(command: Command, before: Obligation, after: Obligation)

  datatype Reply = Accepted(record: Record) | Rejected(command: Command)

  /** Where a resume stands. `read` is the obligation it saw first, `last` the latest one. */
  datatype Progress =
    | Reading
    | Executing(read: Obligation)
    | Repaying(read: Obligation, last: Obligation)
    | Reporting(read: Obligation, last: Obligation)
    | Completed(read: Obligation, last: Obligation)
    | Failed

  datatype Resume = Resume(mandate: MandateId, obligation: ObligationId, at: Progress)

  datatype World = World(
    obligations: map<ObligationId, Obligation>,
    keys: map<Key, Record>,
    applied: seq<Record>,
    sent: set<Command>,
    replies: set<Reply>,
    resumes: map<nat, Resume>)

  datatype Step =
    | Submit(command: Command)                       // a single runtime step, or a repeat of anything
    | Start(id: nat, mandate: MandateId, obligation: ObligationId)
    | Read(id: nat)
    | Process(command: Command, interest: nat)       // the gateway takes a request from the network
    | Receive(id: nat, reply: Reply)
    | Report(id: nat)                                // the evidence was read
    | Crash(id: nat)
    | Interest(obligation: ObligationId, amount: nat)
    | Reclassify(obligation: ObligationId, status: Status)

  /** A command's effect on the obligation it names. */
  function Effect(o: Obligation, c: Command): Option<Obligation> {
    match c
    case ExecuteUse(_, _) => Execute(o)
    case PostRepayment(_, _, amount, _) => Repay(o, amount)
  }

  /** The obligation as the command finds it; only a repayment accrues interest first. */
  function Found(o: Obligation, c: Command, interest: nat): Obligation {
    if c.PostRepayment? then Accrue(o, interest) else o
  }

  /** The gateway: replay the key's first result, reject another command under it, or apply
      the command and remember it. A command that fails leaves nothing behind. */
  function Handle(w: World, c: Command, interest: nat): World {
    var key := KeyOf(c);
    if key in w.keys then
      if w.keys[key].command == c then w.(replies := w.replies + {Accepted(w.keys[key])})
      else w.(replies := w.replies + {Rejected(c)})
    else if c.obligation !in w.obligations then w.(replies := w.replies + {Rejected(c)})
    else
      var before := Found(w.obligations[c.obligation], c, interest);
      var after := Effect(before, c);
      if after.None? then w.(replies := w.replies + {Rejected(c)})
      else
        var record := Record(c, before, after.value);
        w.(obligations := w.obligations[c.obligation := after.value], keys := w.keys[key := record],
           applied := w.applied + [record], replies := w.replies + {Accepted(record)})
  }

  // ---------------------------------------------------------------------------------------
  // The resume workflow

  /** What a resume accepts as the existing obligation. */
  predicate Resumable(o: Obligation, m: MandateId) {
    o.mandate == m && o.status in {Active, FullyRepaid}
  }

  /** Where to go once an executed obligation is at hand. */
  function AfterExecution(read: Obligation, o: Obligation): Progress {
    if o.status != FullyRepaid then Repaying(read, o) else Reporting(read, o)
  }

  function AfterRead(o: Obligation, m: MandateId): Progress {
    if !Resumable(o, m) then Failed
    else if !o.executed then Executing(o)
    else AfterExecution(o, o)
  }

  /** The request a resume is waiting for, if any. */
  function Pending(r: Resume): Option<Command> {
    match r.at
    case Executing(_) => Some(ExecuteUse(r.mandate, r.obligation))
    case Repaying(_, o) => Some(PostRepayment(r.mandate, r.obligation, Total(o), Revenue))
    case _ => None
  }

  /** A resume moves on, and the request it then waits for goes out. */
  function Move(w: World, id: nat, at: Progress): World
    requires id in w.resumes
  {
    var r := w.resumes[id].(at := at);
    w.(resumes := w.resumes[id := r],
       sent := if Pending(r).Some? then w.sent + {Pending(r).value} else w.sent)
  }

  function Receiving(r: Resume, reply: Reply): Progress {
    if reply.Rejected? then Failed
    else
      match r.at
      case Executing(read) => if reply.record.after.executed then AfterExecution(read, reply.record.after) else Failed
      case Repaying(read, _) => Reporting(read, reply.record.after)
      case other => other
  }

  predicate Answers(reply: Reply, c: Command) {
    match reply
    case Accepted(record) => record.command == c
    case Rejected(d) => d == c
  }

  /** What servicing may make of an obligation: its performing status, troubled, or ended. */
  function Performing(o: Obligation): Status {
    if Total(o) == 0 then FullyRepaid else if o.repaid > 0 then PartiallyRepaid else Active
  }

  predicate Reclassifiable(o: Obligation, s: Status) {
    Repayable(o) && s in {Troubled, Ended, Performing(o)}
  }

  function After(w: World, s: Step): World {
    match s
    case Submit(c) => w.(sent := w.sent + {c})
    case Start(id, m, o) => if id in w.resumes then w else w.(resumes := w.resumes[id := Resume(m, o, Reading)])
    case Read(id) =>
      if id !in w.resumes || w.resumes[id].at != Reading then w
      else
        var r := w.resumes[id];
        Move(w, id, if r.obligation in w.obligations then AfterRead(w.obligations[r.obligation], r.mandate) else Failed)
    case Process(c, interest) => if c in w.sent then Handle(w, c, interest) else w
    case Receive(id, reply) =>
      if id in w.resumes && reply in w.replies && Pending(w.resumes[id]).Some? &&
         Answers(reply, Pending(w.resumes[id]).value)
      then Move(w, id, Receiving(w.resumes[id], reply)) else w
    case Report(id) =>
      if id in w.resumes && w.resumes[id].at.Reporting?
      then Move(w, id, Completed(w.resumes[id].at.read, w.resumes[id].at.last)) else w
    case Crash(id) => if id in w.resumes && !w.resumes[id].at.Completed? then Move(w, id, Failed) else w
    case Interest(o, amount) =>
      if o in w.obligations then w.(obligations := w.obligations[o := Accrue(w.obligations[o], amount)]) else w
    case Reclassify(o, status) =>
      if o in w.obligations && Reclassifiable(w.obligations[o], status)
      then w.(obligations := w.obligations[o := w.obligations[o].(status := status)]) else w
  }

  function Run(w: World, steps: seq<Step>): World {
    RunFrom(After, w, steps)
  }

  // ---------------------------------------------------------------------------------------
  // What every step keeps

  /** What the domain guarantees of an obligation. */
  predicate Sane(o: Obligation) {
    && (o.status == FullyRepaid ==> Total(o) == 0)
    && (if o.executed then o.status != Created else o.status in {Created, Ended})
    && (o.status in {Created, Active} ==> o.repaid == 0)
  }

  /** Outstanding plus repaid minus accrued: what was lent, fees included. */
  function Lent(o: Obligation): int { Total(o) + o.repaid - o.accrued }

  /** A sane state of obligation `id`, whose loan is on record in `base`. */
  predicate StateOf(o: Obligation, id: ObligationId, base: map<ObligationId, int>) {
    Sane(o) && id in base && Lent(o) == base[id]
  }

  predicate Genuine(r: Record, base: map<ObligationId, int>) {
    StateOf(r.before, r.command.obligation, base) && StateOf(r.after, r.command.obligation, base) &&
    Effect(r.before, r.command) == Some(r.after)
  }

  predicate Recorded(w: World, r: Record) {
    KeyOf(r.command) in w.keys && w.keys[KeyOf(r.command)] == r
  }

  /** One state of an obligation can follow another: repayments add up and zero stays zero. */
  predicate Follows(o: Obligation, p: Obligation) {
    p.repaid >= o.repaid && (Total(o) == 0 ==> Total(p) == 0)
  }

  predicate Superseded(w: World, o: Obligation, id: ObligationId) {
    id in w.obligations && Follows(o, w.obligations[id])
  }

  /** How a resume can have come to hold `last`: it found the loan repaid, or the mandate's one
      repayment is of the amount it read. */
  predicate Settled(w: World, r: Resume, read: Obligation, last: Obligation) {
    Superseded(w, last, r.obligation) &&
    if read.status == FullyRepaid then last == read
    else
      read.status == Active && Key(r.mandate, 3) in w.keys &&
      var record := w.keys[Key(r.mandate, 3)];
      record.command == PostRepayment(r.mandate, r.obligation, Total(read), Revenue) && last == record.after
  }

  predicate ResumeOk(w: World, r: Resume, base: map<ObligationId, int>) {
    match r.at
    case Reading | Failed => true
    case Executing(_) => false
    case Repaying(read, last) => StateOf(read, r.obligation, base) && read == last && read.status == Active
    case Reporting(read, last) => StateOf(read, r.obligation, base) && Settled(w, r, read, last)
    case Completed(read, last) => StateOf(read, r.obligation, base) && Settled(w, r, read, last)
  }

  ghost predicate ObligationsOk(w: World, base: map<ObligationId, int>) {
    forall id :: id in w.obligations ==> StateOf(w.obligations[id], id, base)
  }

  ghost predicate RecordsOk(w: World, base: map<ObligationId, int>) {
    && (forall k :: k in w.keys ==>
          KeyOf(w.keys[k].command) == k && Genuine(w.keys[k], base) && Superseded(w, w.keys[k].after,
                w.keys[k].command.obligation))
    && (forall i :: 0 <= i < |w.applied| ==> Recorded(w, w.applied[i]))
    && (forall i, j :: 0 <= i < j < |w.applied| ==> KeyOf(w.applied[i].command) != KeyOf(w.applied[j].command))
    && (forall r :: Accepted(r) in w.replies ==> Recorded(w, r))
  }

  ghost predicate ResumesOk(w: World, base: map<ObligationId, int>) {
    forall id :: id in w.resumes ==> ResumeOk(w, w.resumes[id], base)
  }

  ghost predicate Inv(w: World, base: map<ObligationId, int>) {
    ObligationsOk(w, base) && RecordsOk(w, base) && ResumesOk(w, base)
  }

  /** Where a run begins: sane obligations, nothing sent, applied or under way. */
  ghost predicate Initial(w: World) {
    && (forall id :: id in w.obligations ==> Sane(w.obligations[id]))
    && w.keys == map[] && w.applied == [] && w.sent == {} && w.replies == {} && w.resumes == map[]
  }

  function Base(w: World): map<ObligationId, int> {
    map id | id in w.obligations :: Lent(w.obligations[id])
  }

  // Single obligations

  lemma AccrueKeeps(o: Obligation, amount: nat)
    requires Sane(o)
    ensures Sane(Accrue(o, amount)) && Lent(Accrue(o, amount)) == Lent(o) && Follows(o, Accrue(o, amount))
  {
  }

  lemma EffectKeeps(o: Obligation, c: Command)
    requires Sane(o) && Effect(o, c).Some?
    ensures var p := Effect(o, c).value;
            && Sane(p) && Lent(p) == Lent(o) && Follows(o, p)
            && (c.PostRepayment? ==> p.repaid > 0 && (Total(p) == 0 <==> c.amount >= Total(o)))
  {
  }

  /** The waterfall: what is taken is the smaller of the amount and the debt, interest is only
      paid once the fees are, and principal once both are. */
  lemma Waterfall(o: Obligation, amount: nat)
    requires Repay(o, amount).Some?
    ensures var p := Repay(o, amount).value;
            && p.repaid - o.repaid == Min(amount, Total(o)) == Total(o) - Total(p)
            && p.fees <= o.fees && p.interest <= o.interest && p.principal <= o.principal
            && (p.interest < o.interest ==> p.fees == 0)
            && (p.principal < o.principal ==> p.fees == 0 && p.interest == 0)
            && (p.status == FullyRepaid <==> amount >= Total(o))
            && p == o.(fees := p.fees, interest := p.interest, principal := p.principal,
                       repaid := p.repaid, status := p.status)
  {
  }

  // The world moves without touching keys: obligations may change if they stay as they should

  ghost predicate Later(w: World, v: World) {
    forall id :: id in w.obligations ==> id in v.obligations && Follows(w.obligations[id], v.obligations[id])
  }

  lemma ResumesCarry(w: World, v: World, base: map<ObligationId, int>)
    requires ResumesOk(w, base) && Later(w, v) && v.resumes == w.resumes
    requires forall k :: k in w.keys ==> k in v.keys && v.keys[k] == w.keys[k]
    ensures ResumesOk(v, base)
  {
    hide StateOf;
    forall id | id in v.resumes ensures ResumeOk(v, v.resumes[id], base) {
      assert ResumeOk(w, w.resumes[id], base);
    }
  }

  lemma ServicingKeeps(w: World, id: ObligationId, o: Obligation, base: map<ObligationId, int>)
    requires Inv(w, base) && id in w.obligations && StateOf(o, id, base) && Follows(w.obligations[id], o)
    ensures Inv(w.(obligations := w.obligations[id := o]), base)
  {
    hide StateOf, Genuine, Total, KeyOf, ResumesOk;
    var v := w.(obligations := w.obligations[id := o]);
    assert Later(w, v);
    ResumesCarry(w, v, base);
  }

  lemma RecordKept(w: World, v: World, base: map<ObligationId, int>)
    requires RecordsOk(w, base) && v == w.(resumes := v.resumes, sent := v.sent)
    ensures RecordsOk(v, base)
  {
    hide Genuine;
    forall k | k in v.keys ensures Superseded(v, v.keys[k].after, v.keys[k].command.obligation) {
      assert Superseded(w, w.keys[k].after, w.keys[k].command.obligation);
    }
    forall r | Accepted(r) in v.replies ensures Recorded(v, r) { assert Recorded(w, r); }
  }

  lemma MoveKeeps(w: World, id: nat, at: Progress, base: map<ObligationId, int>)
    requires Inv(w, base) && id in w.resumes && ResumeOk(w, w.resumes[id].(at := at), base)
    ensures Inv(Move(w, id, at), base)
  {
    hide StateOf, Genuine, RecordsOk;
    var v := Move(w, id, at);
    RecordKept(w, v, base);
    forall x | x in v.resumes ensures ResumeOk(v, v.resumes[x], base) {
      if x != id { assert ResumeOk(w, w.resumes[x], base); }
    }
  }

  /** A command that is applied for the first time. */
  lemma ApplyKeeps(w: World, c: Command, record: Record, base: map<ObligationId, int>)
    requires Inv(w, base) && KeyOf(c) !in w.keys && c.obligation in w.obligations
    requires record.command == c && Genuine(record, base)
    requires Follows(w.obligations[c.obligation], record.after)
    ensures Inv(w.(obligations := w.obligations[c.obligation := record.after], keys := w.keys[KeyOf(c) := record],
                   applied := w.applied + [record], replies := w.replies + {Accepted(record)}), base)
  {
    var v := w.(obligations := w.obligations[c.obligation := record.after], keys := w.keys[KeyOf(c) := record],
                applied := w.applied + [record], replies := w.replies + {Accepted(record)});
    assert StateOf(record.after, c.obligation, base);
    hide StateOf, Genuine, Total, KeyOf;
    assert Later(w, v);
    ResumesCarry(w, v, base);
    hide ResumesOk, ObligationsOk, Follows;
    RecordsGrow(w, v, record, base);
  }

  lemma RecordsGrow(w: World, v: World, record: Record, base: map<ObligationId, int>)
    requires RecordsOk(w, base) && KeyOf(record.command) !in w.keys && Genuine(record, base) && Later(w, v)
    requires v.keys == w.keys[KeyOf(record.command) := record] && v.applied == w.applied + [record]
    requires v.replies == w.replies + {Accepted(record)} && Superseded(v, record.after, record.command.obligation)
    ensures RecordsOk(v, base)
  {
    hide Genuine, KeyOf, Total;
    var c := record.command;
    forall k | k in v.keys
      ensures KeyOf(v.keys[k].command) == k && Genuine(v.keys[k], base) &&
              Superseded(v, v.keys[k].after, v.keys[k].command.obligation)
    {
      if k != KeyOf(c) { assert Superseded(w, w.keys[k].after, w.keys[k].command.obligation); }
    }
    forall r | Accepted(r) in v.replies ensures Recorded(v, r) {
      if r != record { assert Accepted(r) in w.replies && Recorded(w, r); }
    }
    forall i | 0 <= i < |w.applied| ensures KeyOf(w.applied[i].command) != KeyOf(c) && Recorded(v, w.applied[i]) {
      assert Recorded(w, w.applied[i]);
    }
  }

  lemma RejectKeeps(w: World, reply: Reply, base: map<ObligationId, int>)
    requires Inv(w, base) && (reply.Accepted? ==> Recorded(w, reply.record))
    ensures Inv(w.(replies := w.replies + {reply}), base)
  {
    hide StateOf, Genuine, ResumesOk, ObligationsOk, Total;
    var v := w.(replies := w.replies + {reply});
    assert ObligationsOk(v, base) by { ObligationsSame(w, v, base); }
    assert ResumesOk(v, base) by { assert Later(w, v); ResumesCarry(w, v, base); }
    forall k | k in v.keys ensures Superseded(v, v.keys[k].after, v.keys[k].command.obligation) {
      assert Superseded(w, w.keys[k].after, w.keys[k].command.obligation);
    }
    forall r | Accepted(r) in v.replies ensures Recorded(v, r) {
      if Accepted(r) in w.replies { assert Recorded(w, r); }
    }
    forall i | 0 <= i < |v.applied| ensures Recorded(v, v.applied[i]) { assert Recorded(w, w.applied[i]); }
  }

  lemma ObligationsSame(w: World, v: World, base: map<ObligationId, int>)
    requires ObligationsOk(w, base) && v.obligations == w.obligations
    ensures ObligationsOk(v, base)
  {
  }

  lemma HandleKeeps(w: World, c: Command, interest: nat, base: map<ObligationId, int>)
    requires Inv(w, base)
    ensures Inv(Handle(w, c, interest), base)
  {
    if KeyOf(c) in w.keys {
      assert Recorded(w, w.keys[KeyOf(c)]);
      RejectKeeps(w, if w.keys[KeyOf(c)].command == c then Accepted(w.keys[KeyOf(c)]) else Rejected(c), base);
    } else if c.obligation !in w.obligations || Effect(Found(w.obligations[c.obligation], c, interest), c).None? {
      RejectKeeps(w, Rejected(c), base);
    } else {
      var o := w.obligations[c.obligation];
      assert StateOf(o, c.obligation, base);
      var before := Found(o, c, interest);
      AccrueKeeps(o, interest);
      EffectKeeps(before, c);
      ApplyKeeps(w, c, Record(c, before, Effect(before, c).value), base);
    }
  }

  lemma ReadKeeps(w: World, id: nat, base: map<ObligationId, int>)
    requires Inv(w, base)
    ensures Inv(After(w, Read(id)), base)
  {
    if id in w.resumes && w.resumes[id].at == Reading {
      var r := w.resumes[id];
      if r.obligation in w.obligations {
        assert StateOf(w.obligations[r.obligation], r.obligation, base);
        MoveKeeps(w, id, AfterRead(w.obligations[r.obligation], r.mandate), base);
      } else {
        MoveKeeps(w, id, Failed, base);
      }
    }
  }

  lemma ReceiveKeeps(w: World, id: nat, reply: Reply, base: map<ObligationId, int>)
    requires Inv(w, base)
    ensures Inv(After(w, Receive(id, reply)), base)
  {
    if id in w.resumes && reply in w.replies && Pending(w.resumes[id]).Some? &&
       Answers(reply, Pending(w.resumes[id]).value)
    {
      var r := w.resumes[id];
      assert ResumeOk(w, r, base);
      if reply.Accepted? {
        assert Recorded(w, reply.record);
        assert Superseded(w, reply.record.after, r.obligation);
      }
      MoveKeeps(w, id, Receiving(r, reply), base);
    }
  }

  lemma SubmitKeeps(w: World, c: Command, base: map<ObligationId, int>)
    requires Inv(w, base)
    ensures Inv(After(w, Submit(c)), base)
  {
    RecordKept(w, After(w, Submit(c)), base);
    ResumesCarry(w, After(w, Submit(c)), base);
  }

  lemma ReportKeeps(w: World, id: nat, base: map<ObligationId, int>)
    requires Inv(w, base)
    ensures Inv(After(w, Report(id)), base)
  {
    if id in w.resumes && w.resumes[id].at.Reporting? {
      assert ResumeOk(w, w.resumes[id], base);
      MoveKeeps(w, id, Completed(w.resumes[id].at.read, w.resumes[id].at.last), base);
    }
  }

  lemma ServicingStep(w: World, s: Step, base: map<ObligationId, int>)
    requires Inv(w, base) && (s.Interest? || s.Reclassify?)
    ensures Inv(After(w, s), base)
  {
    var o := s.obligation;
    if o in w.obligations {
      assert StateOf(w.obligations[o], o, base);
      if s.Interest? {
        AccrueKeeps(w.obligations[o], s.amount);
        ServicingKeeps(w, o, Accrue(w.obligations[o], s.amount), base);
      } else if Reclassifiable(w.obligations[o], s.status) {
        ServicingKeeps(w, o, w.obligations[o].(status := s.status), base);
      }
    }
  }

  lemma StepKeeps(w: World, s: Step, base: map<ObligationId, int>)
    requires Inv(w, base)
    ensures Inv(After(w, s), base)
  {
    hide Handle, RecordsOk, ResumesOk, StateOf, Move;
    match s {
      case Submit(c) => SubmitKeeps(w, c, base);
      case Start(id, m, o) => StartKeeps(w, id, m, o, base);
      case Read(id) => ReadKeeps(w, id, base);
      case Process(c, interest) => HandleKeeps(w, c, interest, base);
      case Receive(id, reply) => ReceiveKeeps(w, id, reply, base);
      case Report(id) => ReportKeeps(w, id, base);
      case Crash(id) =>
        if id in w.resumes && !w.resumes[id].at.Completed? { MoveKeeps(w, id, Failed, base); }
      case Interest(_, _) => ServicingStep(w, s, base);
      case Reclassify(_, _) => ServicingStep(w, s, base);
    }
  }

  lemma StartKeeps(w: World, id: nat, m: MandateId, o: ObligationId, base: map<ObligationId, int>)
    requires Inv(w, base)
    ensures Inv(After(w, Start(id, m, o)), base)
  {
    var v := After(w, Start(id, m, o));
    RecordKept(w, v, base);
    forall x | x in v.resumes ensures ResumeOk(v, v.resumes[x], base) {
      if x in w.resumes { assert ResumeOk(w, w.resumes[x], base); }
    }
  }

  lemma {:induction false} RunKeeps(w: World, steps: seq<Step>, base: map<ObligationId, int>)
    requires Inv(w, base)
    ensures Inv(Run(w, steps), base)
    decreases |steps|
  {
    hide Inv, After;
    if steps != [] {
      StepKeeps(w, steps[0], base);
      RunKeeps(After(w, steps[0]), steps[1..], base);
    }
  }

  lemma Reaches(w: World, steps: seq<Step>)
    requires Initial(w)
    ensures Inv(Run(w, steps), Base(w))
  {
    assert Inv(w, Base(w));
    RunKeeps(w, steps, Base(w));
  }

  // ---------------------------------------------------------------------------------------
  // The main results

  /** In every run at most one execution and at most one repayment is applied per mandate. */
  lemma AtMostOncePerMandate(w: World, steps: seq<Step>, i: nat, j: nat)
    requires Initial(w) && i < j < |Run(w, steps).applied|
    ensures var a, b := Run(w, steps).applied[i].command, Run(w, steps).applied[j].command;
            a.mandate == b.mandate ==> a.ExecuteUse? != b.ExecuteUse?
  {
    Reaches(w, steps);
    var v := Run(w, steps);
    assert KeyOf(v.applied[i].command) != KeyOf(v.applied[j].command);
  }

  /** Nothing is lost or made up: what is outstanding and repaid is what was lent and accrued. */
  lemma Conserved(w: World, steps: seq<Step>, id: ObligationId)
    requires Initial(w) && id in w.obligations && id in Run(w, steps).obligations
    ensures Lent(Run(w, steps).obligations[id]) == Lent(w.obligations[id])
  {
    Reaches(w, steps);
    assert StateOf(Run(w, steps).obligations[id], id, Base(w));
  }

  /** A resume never gets as far as sending an execution: the statuses it accepts exclude an
      obligation that is still pending. */
  lemma NeverExecutes(w: World, steps: seq<Step>, id: nat)
    requires Initial(w) && id in Run(w, steps).resumes
    ensures !Run(w, steps).resumes[id].at.Executing?
  {
    Reaches(w, steps);
    assert ResumeOk(Run(w, steps), Run(w, steps).resumes[id], Base(w));
  }

  /** A completed resume either found the loan repaid, or the mandate's one repayment is of the
      amount it read; then the loan is at zero exactly when the interest accrued from the read
      to the repayment is covered by what others had repaid by then. Zero is final. */
  lemma CompletedExactly(w: World, steps: seq<Step>, id: nat)
    requires Initial(w) && id in Run(w, steps).resumes && Run(w, steps).resumes[id].at.Completed?
    ensures var v := Run(w, steps);
            var r := v.resumes[id];
            var read, last := r.at.read, r.at.last;
            && r.obligation in v.obligations
            && (Total(last) == 0 ==>
                  && v.obligations[r.obligation].principal == 0
                  && v.obligations[r.obligation].interest == 0 && v.obligations[r.obligation].fees == 0)
            && (read.status == FullyRepaid ==> Total(last) == 0)
            && (read.status != FullyRepaid ==>
                  && Key(r.mandate, 3) in v.keys
                  && var record := v.keys[Key(r.mandate, 3)];
                  && record.command == PostRepayment(r.mandate, r.obligation, Total(read), Revenue) &&
                      last == record.after
                  && (Total(last) == 0 <==> record.before.accrued - read.accrued <= record.before.repaid))
  {
    Reaches(w, steps);
    var v := Run(w, steps);
    var r := v.resumes[id];
    assert ResumeOk(v, r, Base(w));
    if r.at.read.status != FullyRepaid {
      var record := v.keys[Key(r.mandate, 3)];
      assert Genuine(record, Base(w));
      EffectKeeps(record.before, record.command);
    }
  }

  // ---------------------------------------------------------------------------------------
  // Runs without accrual

  predicate NoInterest(s: Step) {
    (s.Process? ==> s.interest == 0) && (s.Interest? ==> s.amount == 0)
  }

  /** The first obligation a resume saw, if it got that far. */
  function ReadBy(r: Resume): Option<Obligation> {
    match r.at
    case Executing(read) => Some(read)
    case Repaying(read, _) => Some(read)
    case Reporting(read, _) => Some(read)
    case Completed(read, _) => Some(read)
    case _ => None
  }

  predicate AccruedIs(o: Obligation, id: ObligationId, accrued: map<ObligationId, nat>) {
    id in accrued && o.accrued == accrued[id]
  }

  /** Every state in the world has the same accrued interest. */
  ghost predicate Flat(w: World, accrued: map<ObligationId, nat>) {
    && (forall id :: id in w.obligations ==> AccruedIs(w.obligations[id], id, accrued))
    && (forall k :: k in w.keys ==> AccruedIs(w.keys[k].before, w.keys[k].command.obligation, accrued))
    && (forall id :: id in w.resumes && ReadBy(w.resumes[id]).Some? ==>
          AccruedIs(ReadBy(w.resumes[id]).value, w.resumes[id].obligation, accrued))
  }

  lemma HandleFlat(w: World, c: Command, accrued: map<ObligationId, nat>)
    requires Flat(w, accrued)
    ensures Flat(Handle(w, c, 0), accrued)
  {
    hide KeyOf;
    if c.obligation in w.obligations {
      assert Found(w.obligations[c.obligation], c, 0) == w.obligations[c.obligation];
    }
  }

  lemma StepFlat(w: World, s: Step, accrued: map<ObligationId, nat>)
    requires Flat(w, accrued) && NoInterest(s)
    ensures Flat(After(w, s), accrued)
  {
    hide Handle, Answers;
    match s {
      case Process(c, _) => HandleFlat(w, c, accrued);
      case Interest(o, _) =>
        if o in w.obligations { assert Accrue(w.obligations[o], 0) == w.obligations[o]; }
      case _ =>
    }
  }

  lemma {:induction false} RunFlat(w: World, steps: seq<Step>, accrued: map<ObligationId, nat>)
    requires Flat(w, accrued) && forall i :: 0 <= i < |steps| ==> NoInterest(steps[i])
    ensures Flat(Run(w, steps), accrued)
    decreases |steps|
  {
    hide Flat, After, NoInterest;
    if steps != [] {
      StepFlat(w, steps[0], accrued);
      RunFlat(After(w, steps[0]), steps[1..], accrued);
    }
  }

  /** If no interest accrues, every completed resume leaves principal, interest and fees at
      zero, whatever crashed, was repeated or ran beside it. */
  lemma CompletedLeavesNothing(w: World, steps: seq<Step>, id: nat)
    requires Initial(w) && forall i :: 0 <= i < |steps| ==> NoInterest(steps[i])
    requires id in Run(w, steps).resumes && Run(w, steps).resumes[id].at.Completed?
    ensures var v := Run(w, steps);
            var r := v.resumes[id];
            r.obligation in v.obligations && v.obligations[r.obligation].principal == 0 &&
            v.obligations[r.obligation].interest == 0 && v.obligations[r.obligation].fees == 0
  {
    var accrued := map o | o in w.obligations :: w.obligations[o].accrued;
    assert Flat(w, accrued);
    RunFlat(w, steps, accrued);
    CompletedExactly(w, steps, id);
    hide Run;
    var v := Run(w, steps);
    var r := v.resumes[id];
    assert ReadBy(r) == Some(r.at.read);
    if r.at.read.status != FullyRepaid {
      assert AccruedIs(v.keys[Key(r.mandate, 3)].before, r.obligation, accrued);
    }
  }

  // ---------------------------------------------------------------------------------------
  // A mandate's key is spent once

  lemma {:induction false} KeysStay(w: World, steps: seq<Step>, k: Key)
    requires k in w.keys
    ensures k in Run(w, steps).keys && Run(w, steps).keys[k] == w.keys[k]
    decreases |steps|
  {
    if steps != [] {
      var v := After(w, steps[0]);
      assert k in v.keys && v.keys[k] == w.keys[k];
      KeysStay(v, steps[1..], k);
    }
  }

  lemma {:induction false} RepaidStays(w: World, steps: seq<Step>, id: ObligationId)
    requires id in w.obligations
    ensures id in Run(w, steps).obligations && Run(w, steps).obligations[id].repaid >= w.obligations[id].repaid
    decreases |steps|
  {
    if steps != [] {
      var v := After(w, steps[0]);
      assert id in v.obligations && v.obligations[id].repaid >= w.obligations[id].repaid;
      RepaidStays(v, steps[1..], id);
    }
  }

  /** Once the mandate's repayment has been applied, a resume that reads the obligation later
      can only report a loan it finds fully repaid: if the repayment fell short, it fails. */
  lemma LateResume(w: World, steps: seq<Step>, more: seq<Step>, id: nat)
    requires Initial(w) && id in Run(w, steps + more).resumes && Run(w, steps + more).resumes[id].at == Reading
    requires Key(Run(w, steps + more).resumes[id].mandate, 3) in Run(w, steps).keys
    requires Run(w, steps).keys[Key(Run(w, steps + more).resumes[id].mandate, 3)].command.obligation ==
               Run(w, steps + more).resumes[id].obligation
    ensures var v := Run(w, steps + more);
            var r, u := v.resumes[id], After(v, Read(id)).resumes[id].at;
            && r.obligation in v.obligations
            && var o := v.obligations[r.obligation];
            u == if o.status == FullyRepaid && o.mandate == r.mandate then Reporting(o, o) else Failed
  {
    RunSplits(After, w, steps, more);
    Reaches(w, steps);
    Reaches(w, steps + more);
    var v, m := Run(w, steps), Run(w, steps + more);
    var r := m.resumes[id];
    var record := v.keys[Key(r.mandate, 3)];
    assert Genuine(record, Base(w)) && KeyOf(record.command) == Key(r.mandate, 3) &&
        Superseded(v, record.after, r.obligation);
    EffectKeeps(record.before, record.command);
    RepaidStays(v, more, r.obligation);
    assert StateOf(m.obligations[r.obligation], r.obligation, Base(w));
  }

  // ---------------------------------------------------------------------------------------
  // Accrual between the read and the repayment leaves a debt nobody can resume

  function NewLoan(m: MandateId, principal: nat): Obligation {
    Obligation(m, Active, true, principal, 0, 0, 0, 0)
  }

  function OneLoan(m: MandateId, id: ObligationId, principal: nat): World {
    World(map[id := NewLoan(m, principal)], map[], [], {}, {}, map[])
  }

  /** What a repayment of the principal leaves once interest has accrued. */
  lemma FallsShort(m: MandateId, id: ObligationId, principal: nat, interest: nat) returns (r: Record)
    requires principal > 0 && interest > 0
    ensures r.command == PostRepayment(m, id, principal, Revenue) && r.before == Accrue(NewLoan(m, principal), interest)
    ensures Effect(r.before, r.command) == Some(r.after)
    ensures Total(r.after) == interest && r.after.status == PartiallyRepaid && r.after.mandate == m
  {
    var c := PostRepayment(m, id, principal, Revenue);
    var before := Accrue(NewLoan(m, principal), interest);
    r := Record(c, before, Effect(before, c).value);
  }

  lemma ReadsAndPosts(m: MandateId, id: ObligationId, principal: nat, interest: nat, r: Record)
    requires principal > 0 && r.command == PostRepayment(m, id, principal, Revenue) &&
             r.before == Accrue(NewLoan(m, principal), interest)
    requires Effect(r.before, r.command) == Some(r.after)
    ensures var w2 := After(After(OneLoan(m, id, principal), Start(0, m, id)), Read(0));
            var w3 := After(w2, Process(r.command, interest));
            && w3.obligations == map[id := r.after] && Accepted(r) in w3.replies
            && w3.resumes == map[0 := Resume(m, id, Repaying(NewLoan(m, principal), NewLoan(m, principal)))]
  {
    hide Effect, Accrue, Total;
    assert Total(NewLoan(m, principal)) == principal by { PrincipalOnly(m, principal); }
    var w1 := After(OneLoan(m, id, principal), Start(0, m, id));
    assert w1.resumes == map[0 := Resume(m, id, Reading)];
    var w2 := After(w1, Read(0));
    assert w2.resumes == map[0 := Resume(m, id, Repaying(NewLoan(m, principal), NewLoan(m, principal)))];
    assert r.command in w2.sent && w2.keys == map[];
  }

  lemma PrincipalOnly(m: MandateId, principal: nat)
    ensures Total(NewLoan(m, principal)) == principal
  {
  }

  lemma CompletesAndBlocks(w: World, m: MandateId, id: ObligationId, read: Obligation, r: Record)
    requires w.obligations == map[id := r.after] && Accepted(r) in w.replies &&
             w.resumes == map[0 := Resume(m, id, Repaying(read, read))]
    requires r.command == PostRepayment(m, id, Total(read), Revenue) && r.after.status == PartiallyRepaid
    ensures var v := After(After(After(After(w, Receive(0, Accepted(r))), Report(0)), Start(1, m, id)), Read(1));
            && v.obligations == w.obligations && v.resumes.Keys == {0, 1}
            && v.resumes[0].at == Completed(read, r.after) && v.resumes[1].at == Failed
  {
    hide Total, Effect;
    var w4 := After(w, Receive(0, Accepted(r)));
    assert w4.resumes[0].at == Reporting(read, r.after) && w4.resumes.Keys == {0};
    var w6 := After(After(w4, Report(0)), Start(1, m, id));
    assert w6.resumes.Keys == {0, 1} && w6.resumes[1].at == Reading;
  }

  /** One resume completed on a loan that still owes `interest`, the next one refused it. */
  predicate Stuck(v: World, id: ObligationId, interest: nat) {
    && v.resumes.Keys == {0, 1} && v.resumes[0].at.Completed? && v.resumes[1].at == Failed
    && id in v.obligations && Total(v.obligations[id]) == interest && v.obligations[id].status == PartiallyRepaid
  }

  lemma StuckAfter(m: MandateId, id: ObligationId, principal: nat, interest: nat, r: Record)
    requires principal > 0 && r.command == PostRepayment(m, id, principal, Revenue) &&
             r.before == Accrue(NewLoan(m, principal), interest)
    requires Effect(r.before, r.command) == Some(r.after) && Total(r.after) == interest &&
             r.after.status == PartiallyRepaid
    ensures var w2 := After(After(OneLoan(m, id, principal), Start(0, m, id)), Read(0));
            var w3 := After(w2, Process(r.command, interest));
            Stuck(After(After(After(After(w3, Receive(0, Accepted(r))), Report(0)), Start(1, m, id)), Read(1)), id,
                  interest)
  {
    PrincipalOnly(m, principal);
    ReadsAndPosts(m, id, principal, interest, r);
    hide After, Effect, Total;
    var w3 := After(After(After(OneLoan(m, id, principal), Start(0, m, id)), Read(0)), Process(r.command, interest));
    CompletesAndBlocks(w3, m, id, NewLoan(m, principal), r);
  }

  /** Interest accrued between the read and the repayment stays owed: the resume completes on
      a partially repaid loan, and the next resume refuses it. */
  lemma AccrualLeavesDebt(m: MandateId, id: ObligationId, principal: nat, interest: nat)
    requires principal > 0 && interest > 0
    ensures Initial(OneLoan(m, id, principal))
    ensures exists steps :: Stuck(Run(OneLoan(m, id, principal), steps), id, interest)
  {
    var r := FallsShort(m, id, principal, interest);
    StuckAfter(m, id, principal, interest, r);
    var w0 := OneLoan(m, id, principal);
    hide After, Effect, Stuck, Accrue, Total;
    var w1 := After(w0, Start(0, m, id));
    var w2 := After(w1, Read(0));
    var w3 := After(w2, Process(r.command, interest));
    var w4 := After(w3, Receive(0, Accepted(r)));
    var w5 := After(w4, Report(0));
    var w6 := After(w5, Start(1, m, id));
    var s6 := RunCons(w6, Read(1), []);
    var s5 := RunCons(w5, Start(1, m, id), s6);
    var s4 := RunCons(w4, Report(0), s5);
    var s3 := RunCons(w3, Receive(0, Accepted(r)), s4);
    var s2 := RunCons(w2, Process(r.command, interest), s3);
    var s1 := RunCons(w1, Read(0), s2);
    var s0 := RunCons(w0, Start(0, m, id), s1);
    assert Stuck(Run(w0, s0), id, interest);
  }

  lemma RunCons(w: World, s: Step, rest: seq<Step>) returns (steps: seq<Step>)
    ensures Run(w, steps) == Run(After(w, s), rest)
    ensures rest == [] ==> Run(w, steps) == After(w, s)
  {
    hide After;
    steps := [s] + rest;
    assert steps[1..] == rest;
  }
}

/**
 The resume workflow step by step: what the gateway makes of each command, what a resume makes
 of the loan it reads, and that an undisturbed resume ends with the loan at zero.
 */
module ResumeSteps {
  import opened Options
  import opened Runs
  import opened AgentResume

  // ---------------------------------------------------------------------------------------
  // The gateway

  predicate Owes(o: Obligation) {
    o.principal > 0 || o.interest > 0 || o.fees > 0
  }

  /** Executed, and active, partly repaid or in trouble. */
  predicate TakesRepayments(o: Obligation) {
    o.executed && (o.status == Active || o.status == PartiallyRepaid || o.status == Troubled)
  }

  /** A command that the obligation allows. */
  predicate Allows(o: Obligation, c: Command, interest: nat) {
    match c
    case ExecuteUse(_, _) => o.status == Created && !o.executed
    case PostRepayment(_, _, amount, _) => TakesRepayments(o) && amount > 0 && Owes(o)
  }

  /** The obligation once the command's own accrual is in: only a repayment accrues, and only on
      the principal of an executed loan. */
  predicate AccruedBy(o: Obligation, p: Obligation, c: Command, interest: nat) {
    var more := if c.PostRepayment? && o.executed && o.principal > 0 then interest else 0;
    p == o.(interest := o.interest + more, accrued := o.accrued + more)
  }

  /** What an applied command does: an execution activates the loan; a repayment takes fees
      first, then interest, then principal, and closes the loan once nothing is owed. */
  predicate Effects(o: Obligation, p: Obligation, c: Command) {
    match c
    case ExecuteUse(_, _) => p == o.(status := Active, executed := true)
    case PostRepayment(_, _, amount, _) =>
      && p == o.(principal := p.principal, interest := p.interest, fees := p.fees, repaid := p.repaid,
                 status := if Owes(p) then PartiallyRepaid else FullyRepaid)
      && p.fees <= o.fees && p.interest <= o.interest && p.principal <= o.principal
      && (p.interest < o.interest ==> p.fees == 0) && (p.principal < o.principal ==> p.fees == 0 && p.interest == 0)
      && var taken := (o.fees - p.fees) + (o.interest - p.interest) + (o.principal - p.principal);
      && p.repaid == o.repaid + taken && taken <= amount && (Owes(p) ==> taken == amount)
  }

  /** The idempotency key: executions are step 2 of a mandate's workflow, repayments step 3. */
  predicate Keys(c: Command, k: Key) {
    k.mandate == c.mandate && k.sequence == if c.ExecuteUse? then 2 else 3
  }

  lemma EffectExactly(o: Obligation, c: Command, interest: nat)
    ensures AccruedBy(o, Found(o, c, interest), c, interest)
    ensures Effect(Found(o, c, interest), c).Some? <==> Allows(o, c, interest)
    ensures Effect(Found(o, c, interest), c).Some? ==>
              Effects(Found(o, c, interest), Effect(Found(o, c, interest), c).value, c)
  {
  }

  /** What the gateway makes of a request: under a spent key it repeats the first answer or
      rejects another command; otherwise it applies the command exactly when the obligation
      allows it, once and for all, and answers. Nothing else changes. */
  ghost predicate Handled(w: World, v: World, c: Command, k: Key, interest: nat) {
    && v == w.(obligations := v.obligations, keys := v.keys, applied := v.applied, replies := v.replies)
    && if k in w.keys then
         v == w.(replies := w.replies + {if w.keys[k].command == c then Accepted(w.keys[k]) else Rejected(c)})
       else if c.obligation in w.obligations && Allows(w.obligations[c.obligation], c, interest) then
         exists r: Record ::
           && r.command == c && AccruedBy(w.obligations[c.obligation], r.before, c, interest)
           && Effects(r.before, r.after, c)
           && v.obligations == w.obligations[c.obligation := r.after] && v.keys == w.keys[k := r]
           && v.applied == w.applied + [r] && v.replies == w.replies + {Accepted(r)}
       else v == w.(replies := w.replies + {Rejected(c)})
  }

  lemma GatewayExactly(w: World, c: Command, interest: nat, k: Key)
    requires c in w.sent && Keys(c, k)
    ensures Handled(w, After(w, Process(c, interest)), c, k, interest)
  {
    if c.obligation in w.obligations { EffectExactly(w.obligations[c.obligation], c, interest); }
    hide Effect, Found, Allows, AccruedBy, Effects;
    assert KeyOf(c) == k;
    if k !in w.keys && c.obligation in w.obligations && Allows(w.obligations[c.obligation], c, interest) {
      var before := Found(w.obligations[c.obligation], c, interest);
      var r := Record(c, before, Effect(before, c).value);
      assert r.command == c;
    }
  }

  /** What was never sent is not handled. */
  lemma OnlySentHandled(w: World, c: Command, interest: nat)
    requires c !in w.sent
    ensures After(w, Process(c, interest)) == w
  {
  }

  // ---------------------------------------------------------------------------------------
  // A resume's read

  /** What a resume does with the loan it reads: refuse a missing one, another mandate's and any
      that is neither active nor repaid; report a repaid one; and ask for the whole debt of an
      active one, out of revenue. */
  predicate ReadsAs(w: World, v: World, id: nat)
    requires id in w.resumes && id in v.resumes
  {
    var r := w.resumes[id];
    if r.obligation !in w.obligations then v.resumes[id].at == Failed && v.sent == w.sent
    else
      var o := w.obligations[r.obligation];
      if o.mandate != r.mandate || (o.status != Active && o.status != FullyRepaid) then
        v.resumes[id].at == Failed && v.sent == w.sent
      else if o.status == FullyRepaid then v.resumes[id].at == Reporting(o, o) && v.sent == w.sent
      else
        && v.resumes[id].at == Repaying(o, o)
        && v.sent == w.sent + {PostRepayment(r.mandate, r.obligation, o.principal + o.interest + o.fees, Revenue)}
  }

  /** In every run a resume that reads does so, and nothing else moves. */
  lemma ReadExactly(w: World, steps: seq<Step>, id: nat)
    requires Initial(w) && id in Run(w, steps).resumes && Run(w, steps).resumes[id].at == Reading
    ensures var v := Run(w, steps);
            var u := After(v, Read(id));
            && id in u.resumes && ReadsAs(v, u, id) && u == v.(resumes := u.resumes, sent := u.sent)
            && u.resumes == v.resumes[id := v.resumes[id].(at := u.resumes[id].at)]
  {
    Reaches(w, steps);
    var v := Run(w, steps);
    var o := v.resumes[id].obligation;
    if o in v.obligations { assert Sane(v.obligations[o]) by { assert StateOf(v.obligations[o], o, Base(w)); } }
    hide Inv, Run;
  }

  /** The command a reply is about. */
  function About(reply: Reply): Command {
    match reply
    case Accepted(record) => record.command
    case Rejected(c) => c
  }

  /** In every run a resume takes a reply that the gateway gave exactly when it waits for one to
      this very repayment: it then has the loan as it was after the repayment, or it has failed. */
  lemma ReceiveExactly(w: World, steps: seq<Step>, id: nat, reply: Reply)
    requires Initial(w) && id in Run(w, steps).resumes
    ensures var v := Run(w, steps);
            var r, u := v.resumes[id], After(v, Receive(id, reply));
            if r.at.Repaying? && reply in v.replies &&
               About(reply) == PostRepayment(r.mandate, r.obligation,
                                             r.at.last.principal + r.at.last.interest + r.at.last.fees, Revenue)
            then
              u == v.(resumes := v.resumes[id := r.(at := if reply.Rejected? then Failed
                                                         else Reporting(r.at.read, reply.record.after))])
            else u == v
  {
    NeverExecutes(w, steps, id);
    hide Run;
  }

  // ---------------------------------------------------------------------------------------
  // A resume that nobody disturbs

  /** A resume whose repayment has gone out and whose key is unspent. */
  ghost predicate AboutToRepay(v: World, id: nat, o: Obligation) {
    && id in v.resumes && v.resumes[id].at == Repaying(o, o)
    && Key(v.resumes[id].mandate, 3) !in v.keys
    && v.resumes[id].obligation in v.obligations && v.obligations[v.resumes[id].obligation] == o
    && o.executed && o.status == Active && Owes(o)
    && PostRepayment(v.resumes[id].mandate, v.resumes[id].obligation, o.principal + o.interest + o.fees, Revenue)
         in v.sent
  }

  lemma RepaysInFull(o: Obligation, c: Command)
    requires c.PostRepayment? && c.amount == o.principal + o.interest + o.fees && Owes(o) && TakesRepayments(o)
    ensures Effect(o, c).Some? && Effect(o, c).value.status == FullyRepaid && !Owes(Effect(o, c).value)
  {
  }

  /** Once the gateway takes the request, answers, and the answer is received and the evidence
      read, the resume is complete and nothing is owed. */
  lemma Undisturbed(v: World, id: nat, o: Obligation)
    requires AboutToRepay(v, id, o)
    ensures exists reply ::
              var u := After(After(After(v, Process(Pending(v.resumes[id]).value, 0)), Receive(id, reply)), Report(id));
              && id in u.resumes && u.resumes[id].at.Completed? && u.resumes[id].at.read == o
              && v.resumes[id].obligation in u.obligations && !Owes(u.obligations[v.resumes[id].obligation])
              && u.obligations[v.resumes[id].obligation].status == FullyRepaid
  {
    var r := v.resumes[id];
    var c := PostRepayment(r.mandate, r.obligation, o.principal + o.interest + o.fees, Revenue);
    assert Pending(r) == Some(c) && KeyOf(c) == Key(r.mandate, 3);
    RepaysInFull(o, c);
    assert Found(o, c, 0) == o;
    hide Effect, Found, KeyOf, Owes;
    var record := Record(c, o, Effect(o, c).value);
    var v1 := After(v, Process(c, 0));
    assert v1.obligations[r.obligation] == record.after && Accepted(record) in v1.replies && v1.resumes == v.resumes;
    var v2 := After(v1, Receive(id, Accepted(record)));
    assert v2.resumes[id].at == Reporting(o, record.after) && v2.obligations == v1.obligations;
    var v3 := After(v2, Report(id));
    assert v3.resumes[id].at == Completed(o, record.after) && v3.obligations == v1.obligations;
  }

  /** From any reachable state a resume that reads an active loan of its mandate, with something
      owed and the mandate's repayment still to come, can end with the loan repaid. */
  lemma ResumeCanComplete(w: World, steps: seq<Step>, id: nat)
    requires Initial(w) && id in Run(w, steps).resumes && Run(w, steps).resumes[id].at == Reading
    requires var v := Run(w, steps);
             var r := v.resumes[id];
             && Key(r.mandate, 3) !in v.keys && r.obligation in v.obligations
             && v.obligations[r.obligation].mandate == r.mandate && v.obligations[r.obligation].status == Active
             && Owes(v.obligations[r.obligation])
    ensures exists more ::
              var u := Run(w, steps + more);
              && id in u.resumes && u.resumes[id].at.Completed?
              && Run(w, steps).resumes[id].obligation in u.obligations
              && !Owes(u.obligations[Run(w, steps).resumes[id].obligation])
  {
    var v := Run(w, steps);
    ReadExactly(w, steps, id);
    Reaches(w, steps);
    var o := v.obligations[v.resumes[id].obligation];
    assert Sane(o) by { assert StateOf(o, v.resumes[id].obligation, Base(w)); }
    var u := After(v, Read(id));
    assert AboutToRepay(u, id, o);
    hide Inv, After, Run, Owes, Sane, Initial;
    Undisturbed(u, id, o);
    var c := Pending(u.resumes[id]).value;
    var reply :| var x := After(After(After(u, Process(c, 0)), Receive(id, reply)), Report(id));
                 && id in x.resumes && x.resumes[id].at.Completed? && x.resumes[id].at.read == o
                 && u.resumes[id].obligation in x.obligations && !Owes(x.obligations[u.resumes[id].obligation]);
    var more := FourSteps(v, Read(id), Process(c, 0), Receive(id, reply), Report(id));
    RunSplit(w, steps, more);
  }

  lemma RunSplit(w: World, steps: seq<Step>, more: seq<Step>)
    ensures Run(w, steps + more) == Run(Run(w, steps), more)
  {
    hide After;
    RunSplits(After, w, steps, more);
  }

  lemma FourSteps(v: World, a: Step, b: Step, c: Step, d: Step) returns (more: seq<Step>)
    ensures Run(v, more) == After(After(After(After(v, a), b), c), d)
  {
    hide After, Run;
    var v1 := After(v, a);
    var v2 := After(v1, b);
    var v3 := After(v2, c);
    var s3 := RunCons(v3, d, []);
    var s2 := RunCons(v2, c, s3);
    var s1 := RunCons(v1, b, s2);
    more := RunCons(v, a, s1);
  }
}

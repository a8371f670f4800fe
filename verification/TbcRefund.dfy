/**
 * TBC refunds of one request: cancelling is not idempotent, so it may happen once. Executions of
 * the job follow one another; any of them may die between two of its steps.
 */
module TbcRefund {
  import opened Wrappers
  import opened CreditBooks
  import opened RefundRow

  datatype PaymentStatus = Returned | PartialReturned | CancelProcessing | Succeeded | OtherStatus

  datatype GetReply = GetNetworkError | GetFailed | Details(status: PaymentStatus)

  datatype CancelReply = Confirmed | Ambiguous | Rejected | Unexpected

  /** `Cancelled` is the window between the provider call and the first write after it. */
  datatype Phase =
    | Idle
    | Claimed(attempted: bool)
    | Cancelling
    | Cancelled(reply: CancelReply)
    | Checking(ok: bool)
    | Waiting
    | Refunding
    | Reviewing(marked: bool)
    | Failing

  /** `cancels` and `gets` count provider calls; `lost` counts executions that died in the window. */
  datatype State = State(row: Row, phase: Phase, cancels: nat, gets: nat, lost: nat)

  datatype Step =
    | Load(purchaseOk: bool)
    | Get(answer: GetReply)
    | Cancel(reply: CancelReply)
    | Record
    | Finish(local: bool)
    | Crash

  predicate IsRefundSuccess(status: PaymentStatus) { status == Returned || status == PartialReturned }

  /** Read the row, refuse rows that cannot be refunded, and claim the request. */
  function LoadStep(s: State, purchaseOk: bool): State {
    if s.phase != Idle || !InFlight(s.row.status) then s
    else if s.row.amount.None? || !purchaseOk then s.(phase := Failing)
    else s.(row := s.row.(status := Processing), phase := Claimed(Attempted(s.row)))
  }

  function AfterFirstGet(attempted: bool, answer: GetReply): Phase {
    match answer
    case GetNetworkError => Idle
    case GetFailed => Reviewing(false)
    case Details(status) =>
      if IsRefundSuccess(status) then Refunding
      else if status == CancelProcessing then Idle
      else if attempted then Reviewing(false)
      else Cancelling
  }

  function AfterCancelGet(ok: bool, answer: GetReply): Phase {
    match answer
    case Details(status) =>
      if IsRefundSuccess(status) then Refunding
      else if status == CancelProcessing then Idle
      else if ok then Waiting
      else Reviewing(true)
    case _ => Reviewing(!ok)
  }

  function GetStep(s: State, answer: GetReply): State {
    match s.phase
    case Claimed(attempted) => s.(phase := AfterFirstGet(attempted, answer), gets := s.gets + 1)
    case Checking(ok) => s.(phase := AfterCancelGet(ok, answer), gets := s.gets + 1)
    case _ => s
  }

  function CancelStep(s: State, reply: CancelReply): State {
    if s.phase == Cancelling then s.(phase := Cancelled(reply), cancels := s.cancels + 1) else s
  }

  function Close(s: State, status: Status, reference: bool, marked: bool): State {
    if InFlight(s.row.status)
    then s.(row := s.row.(status := status, reference := s.row.reference || reference, marked := marked), phase := Idle)
    else s.(phase := Idle)
  }

  /** The first write after the cancel call. */
  function RecordStep(s: State): State {
    match s.phase
    case Cancelled(reply) =>
      (match reply
       case Confirmed => s.(row := if s.row.status == Processing then s.row.(reference := true) else s.row, phase := Checking(true))
       case Ambiguous => s.(row := if s.row.status == Processing then s.row.(marked := true) else s.row, phase := Checking(false))
       case Rejected => Close(s, Failed, false, false)
       case Unexpected => Close(s, NeedsReview, false, false))
    case _ => s
  }

  /** The last write of an execution. */
  function FinishStep(s: State, local: bool): State {
    match s.phase
    case Waiting => s.(row := if s.row.status == Processing then s.row.(reference := true, marked := true) else s.row, phase := Idle)
    case Refunding => if local then Close(s, Refunded, true, false) else Close(s, NeedsReview, false, false)
    case Reviewing(marked) => Close(s, NeedsReview, false, marked)
    case Failing => Close(s, Failed, false, false)
    case _ => s
  }

  function CrashStep(s: State): State { s.(phase := Idle, lost := if s.phase.Cancelled? then s.lost + 1 else s.lost) }

  function Next(s: State, step: Step): State {
    match step
    case Load(purchaseOk) => LoadStep(s, purchaseOk)
    case Get(answer) => GetStep(s, answer)
    case Cancel(reply) => CancelStep(s, reply)
    case Record => RecordStep(s)
    case Finish(local) => FinishStep(s, local)
    case Crash => CrashStep(s)
  }

  function Run(s: State, steps: seq<Step>): State
    decreases |steps|
  {
    if |steps| == 0 then s else Run(Next(s, steps[0]), steps[1..])
  }

  // ----- never cancel twice -----

  /** Calls that left no trace in the row are the lost ones, plus at most the one still in the window. */
  ghost predicate Inv(s: State) {
    && s.cancels <= s.lost + 1
    && (s.cancels == s.lost + 1 ==> s.phase.Cancelled? || Attempted(s.row) || !InFlight(s.row.status))
    && (s.phase.Claimed? ==> s.phase.attempted == Attempted(s.row))
    && (s.phase.Cancelling? ==> !Attempted(s.row))
    && (s.phase.Cancelled? ==> !Attempted(s.row) && s.row.amount.Some?)
    && (s.phase.Claimed? || s.phase.Cancelling? ==> s.row.amount.Some?)
    && (s.phase != Idle && s.phase != Failing ==> s.row.status == Processing)
  }

  lemma StepKeepsInv(s: State, step: Step)
    requires Inv(s)
    ensures Inv(Next(s, step))
  {
  }

  lemma {:induction false} RunKeepsInv(s: State, steps: seq<Step>)
    requires Inv(s)
    ensures Inv(Run(s, steps))
    decreases |steps|
  {
    if |steps| > 0 {
      StepKeepsInv(s, steps[0]);
      RunKeepsInv(Next(s, steps[0]), steps[1..]);
    }
  }

  /** No execution dies between the provider call and the write that records it. */
  ghost predicate NoneLost(s: State, steps: seq<Step>)
    decreases |steps|
  {
    |steps| > 0 ==> !(steps[0].Crash? && s.phase.Cancelled?) && NoneLost(Next(s, steps[0]), steps[1..])
  }

  /** How many executions die so. */
  ghost function LostCalls(s: State, steps: seq<Step>): nat
    decreases |steps|
  {
    if |steps| == 0 then 0 else (if steps[0].Crash? && s.phase.Cancelled? then 1 else 0) + LostCalls(Next(s, steps[0]), steps[1..])
  }

  lemma {:induction false} LostCounts(s: State, steps: seq<Step>)
    ensures Run(s, steps).lost == s.lost + LostCalls(s, steps)
    ensures NoneLost(s, steps) <==> LostCalls(s, steps) == 0
    decreases |steps|
  {
    if |steps| > 0 {
      LostCounts(Next(s, steps[0]), steps[1..]);
    }
  }

  ghost predicate Start(s: State) { s.phase == Idle && s.cancels == 0 && s.lost == 0 }

  /**
   * Whatever the provider answers and however often the job is retried: the payment is cancelled
   * at most once, plus once for each execution that died before recording its call.
   */
  lemma CancelledAtMostOnce(start: State, steps: seq<Step>)
    requires Start(start)
    ensures Run(start, steps).cancels <= 1 + LostCalls(start, steps)
    ensures NoneLost(start, steps) ==> Run(start, steps).cancels <= 1
  {
    RunKeepsInv(start, steps);
    LostCounts(start, steps);
  }

  /** One execution that dies in the window, and one that does not know of it: two cancels. */
  function LostRun(): seq<Step> {
    [Load(true), Get(Details(Succeeded)), Cancel(Confirmed), Crash, Load(true), Get(Details(Succeeded)), Cancel(Confirmed)]
  }

  lemma LostCallIsRepeated()
    ensures var start := State(Row(Approved, Some(1), false, false), Idle, 0, 0, 0);
      Start(start) && Run(start, LostRun()).cancels == 2 && !NoneLost(start, LostRun())
  {
  }

  // ----- exactly when a payment is cancelled again -----

  /** What the job checks before it cancels: the request is in flight, has its amount, and carries no attempt marker. */
  predicate MayCancel(row: Row) { InFlight(row.status) && row.amount.Some? && !Attempted(row) }

  /** No execution that is under way, nor any later one, will cancel. */
  predicate NeverCancels(s: State) {
    && !MayCancel(s.row) && !s.phase.Cancelling? && !s.phase.Cancelled? && (s.phase.Claimed? ==> s.phase.attempted)
    && (s.phase != Idle && s.phase != Failing ==> Attempted(s.row) && s.row.status == Processing)
  }

  lemma {:induction false} NeverCancelsForGood(s: State, steps: seq<Step>)
    requires NeverCancels(s)
    ensures Run(s, steps).cancels == s.cancels
    decreases |steps|
  {
    if |steps| > 0 {
      NeverCancelsForGood(Next(s, steps[0]), steps[1..]);
    }
  }

  /** An uninterrupted execution cancels a request that may be cancelled. */
  lemma MayCancelCancels(s: State) returns (x: Script)
    requires s.phase == Idle && MayCancel(s.row)
    ensures Run(s, JobSteps(x)).cancels > s.cancels && Jobs(s, [x]).cancels > s.cancels
  {
    x := Script(true, Details(Succeeded), Confirmed, Details(Returned), true);
    assert Job(s, x).cancels == s.cancels + 1;
    JobIsRun(s, x);
    hide Job;
    assert [x][1..] == [];
    assert Jobs(s, [x]) == Jobs(Job(s, x), []);
  }

  /** Between executions, a further cancel can follow exactly when the request still looks uncancelled. */
  lemma CancelsAgainExactly(s: State)
    requires s.phase == Idle
    ensures (exists steps: seq<Step> :: Run(s, steps).cancels > s.cancels) <==> MayCancel(s.row)
    ensures (exists xs: seq<Script> :: Jobs(s, xs).cancels > s.cancels) <==> MayCancel(s.row)
  {
    if MayCancel(s.row) {
      var x := MayCancelCancels(s);
    } else {
      forall steps: seq<Step> ensures Run(s, steps).cancels == s.cancels { NeverCancelsForGood(s, steps); }
      forall xs: seq<Script> ensures Jobs(s, xs).cancels == s.cancels {
        var steps := JobsAreRun(s, xs);
      }
    }
  }

  lemma {:induction false} JobsAreRun(s: State, xs: seq<Script>) returns (steps: seq<Step>)
    ensures Run(s, steps) == Jobs(s, xs)
    decreases |xs|
  {
    if |xs| == 0 {
      steps := [];
    } else {
      JobIsRun(s, xs[0]);
      var rest := JobsAreRun(Job(s, xs[0]), xs[1..]);
      steps := JobSteps(xs[0]) + rest;
      RunConcat(s, JobSteps(xs[0]), rest);
    }
  }

  lemma {:induction false} RunConcat(s: State, first: seq<Step>, second: seq<Step>)
    ensures Run(s, first + second) == Run(Run(s, first), second)
    decreases |first|
  {
    hide Next;
    if |first| == 0 {
      assert first + second == second;
    } else {
      assert (first + second)[1..] == first[1..] + second;
      RunConcat(Next(s, first[0]), first[1..], second);
    }
  }

  /**
   * After any history: a payment already cancelled can be cancelled again exactly when its request
   * is still in flight without a marker, and then an execution died for each cancel so far. Dying
   * between the call and its record always leaves it so.
   */
  lemma CancelledAgainExactly(start: State, steps: seq<Step>)
    requires Start(start)
    ensures var s := Run(start, steps);
      s.phase == Idle && s.cancels > 0 ==>
        && ((exists more: seq<Step> :: Run(s, more).cancels > s.cancels) <==> MayCancel(s.row))
        && (MayCancel(s.row) ==> s.cancels <= LostCalls(start, steps))
    ensures var s := Run(start, steps); s.phase.Cancelled? ==> MayCancel(CrashStep(s).row)
  {
    RunKeepsInv(start, steps);
    LostCounts(start, steps);
    var s := Run(start, steps);
    if s.phase == Idle { CancelsAgainExactly(s); }
  }

  // ----- terminal rows -----

  /** A refunded, rejected, failed or reviewed request causes no write and no provider call. */
  lemma {:induction false} TerminalIsAbsorbing(s: State, steps: seq<Step>)
    requires s.phase == Idle && !InFlight(s.row.status)
    ensures Run(s, steps) == s
    decreases |steps|
  {
    if |steps| > 0 {
      assert Next(s, steps[0]) == s;
      TerminalIsAbsorbing(s, steps[1..]);
    }
  }

  // ----- one whole execution -----

  /** Everything one execution meets on its way. */
  datatype Script = Script(purchaseOk: bool, first: GetReply, cancel: CancelReply, second: GetReply, local: bool)

  function JobSteps(x: Script): seq<Step> {
    [Load(x.purchaseOk), Get(x.first), Cancel(x.cancel), Record, Get(x.second), Finish(x.local)]
  }

  function Job(s: State, x: Script): State {
    FinishStep(GetStep(RecordStep(CancelStep(GetStep(LoadStep(s, x.purchaseOk), x.first), x.cancel)), x.second), x.local)
  }

  lemma JobIsRun(s: State, x: Script)
    ensures Job(s, x) == Run(s, JobSteps(x))
  {
    hide LoadStep;
    hide GetStep;
    hide CancelStep;
    hide RecordStep;
    hide FinishStep;
    RunThree(s, Load(x.purchaseOk), Get(x.first), Cancel(x.cancel), [Record, Get(x.second), Finish(x.local)]);
    var mid := Next(Next(Next(s, Load(x.purchaseOk)), Get(x.first)), Cancel(x.cancel));
    RunThree(mid, Record, Get(x.second), Finish(x.local), []);
    assert JobSteps(x) == [Load(x.purchaseOk), Get(x.first), Cancel(x.cancel)] + [Record, Get(x.second), Finish(x.local)];
    assert [Record, Get(x.second), Finish(x.local)] + [] == [Record, Get(x.second), Finish(x.local)];
  }

  lemma RunThree(s: State, a: Step, b: Step, c: Step, rest: seq<Step>)
    ensures Run(s, [a, b, c] + rest) == Run(Next(Next(Next(s, a), b), c), rest)
  {
    hide Next;
    var steps := [a, b, c] + rest;
    assert steps[1..] == [b, c] + rest && ([b, c] + rest)[1..] == [c] + rest && ([c] + rest)[1..] == rest;
    assert Run(s, steps) == Run(Next(s, a), [b, c] + rest);
    assert Run(Next(s, a), [b, c] + rest) == Run(Next(Next(s, a), b), [c] + rest);
  }

  /** Executions one after another, none of them interrupted. */
  function Jobs(s: State, scripts: seq<Script>): State
    decreases |scripts|
  {
    if |scripts| == 0 then s else Jobs(Job(s, scripts[0]), scripts[1..])
  }

  lemma JobKeepsInv(s: State, x: Script)
    requires Inv(s)
    ensures Inv(Job(s, x))
  {
    JobIsRun(s, x);
    RunKeepsInv(s, JobSteps(x));
  }

  lemma JobEnds(s: State, x: Script)
    requires s.phase == Idle
    ensures Job(s, x).phase == Idle && Job(s, x).lost == s.lost
  {
  }

  /** Once an uninterrupted execution has cancelled, no later execution cancels again. */
  lemma {:induction false} LaterJobsOnlyReconcile(s: State, scripts: seq<Script>)
    requires Inv(s) && s.phase == Idle && s.lost == 0 && s.cancels == 1
    ensures Jobs(s, scripts).cancels == 1
    decreases |scripts|
  {
    if |scripts| > 0 {
      JobKeepsInv(s, scripts[0]);
      JobEnds(s, scripts[0]);
      JobNeverUncancels(s, scripts[0]);
      LaterJobsOnlyReconcile(Job(s, scripts[0]), scripts[1..]);
    }
  }

  lemma JobNeverUncancels(s: State, x: Script)
    ensures s.cancels <= Job(s, x).cancels <= s.cancels + 1
  {
  }
}

/**
 * As long as a payment has one open request at a time, as the API checks before it creates one, no
 * interleaving of executions ends short.
 */
module FlittOneOpen {
  import opened Wrappers
  import opened Sums
  import opened CreditBooks
  import opened RefundRow
  import opened FlittMachine
  import opened FlittConvergence

  /** A request is approved only while no other one of the payment is open. */
  predicate OpensOne(s: State, steps: seq<Step>)
    decreases |steps|
  {
    |steps| == 0 || ((steps[0].Approve? ==> NoneDue(s.rows)) && OpensOne(Next(s, steps[0]), steps[1..]))
  }

  predicate NoneDue(rows: seq<Row>) { forall i :: 0 <= i < |rows| ==> !InFlight(rows[i].status) }

  /** Only the last request can be open, and the reversal covers all that is refunded or had its own reverse taken. */
  ghost predicate OneOpen(s: State) {
    (|s.rows| > 0 ==> NoneDue(s.rows[..|s.rows| - 1])) && s.reversal >= Covered(s.rows, s.taken)
  }

  lemma OnlyLastDue(s: State)
    requires OneOpen(s)
    ensures forall i :: 0 <= i < |s.rows| && Due(s, i) ==> i == |s.rows| - 1
  {
    var n := |s.rows| - 1;
    forall i | 0 <= i < n ensures !Due(s, i) { assert s.rows[..n][i] == s.rows[i]; }
  }

  /** Rewriting the open request, backed by the provider if it is now refunded, leaves the reversal covering. */
  lemma WriteKeepsOneOpen(s: State, opening: nat, i: nat, row: Row, next: State)
    requires Inv(s, opening) && OneOpen(s) && i < |s.rows| && Due(s, i) && row.amount == s.rows[i].amount
    requires row.status == Refunded ==> s.reversal >= UpTo(s, i)
    requires next.rows == s.rows[i := row] && next.reversal == s.reversal && next.taken == s.taken
    ensures OneOpen(next)
  {
    var n := |s.rows| - 1;
    OnlyLastDue(s);
    assert s.rows[i := row][..n] == s.rows[..n];
    CoveredAfterWrite(s.rows, s.taken, i, row);
    if row.status == Refunded {
      Update(s.rows, i, row, Money());
      CoveredWithin(next.rows, s.taken);
      assert s.rows[..i + 1] == s.rows;
    }
  }

  lemma CloseKeepsOneOpen(s: State, opening: nat, w: nat, i: nat, status: Status, reference: bool, marked: bool)
    requires Inv(s, opening) && OneOpen(s)
    requires status == Refunded ==> i < |s.rows| && s.reversal >= UpTo(s, i)
    ensures OneOpen(Close(s, w, i, status, reference, marked))
  {
    hide Inv;
    hide OneOpen;
    var after := Close(s, w, i, status, reference, marked);
    if i < |s.rows| && Due(s, i) {
      WriteKeepsOneOpen(s, opening, i, after.rows[i], after);
    } else {
      SameBooks(s, after);
    }
  }

  lemma SameBooks(s: State, next: State)
    requires OneOpen(s) && next.rows == s.rows && next.reversal == s.reversal && next.taken == s.taken
    ensures OneOpen(next)
  {
  }

  lemma TakeKeepsOneOpen(s: State, i: nat)
    requires OneOpen(s) && i < |s.rows| && s.rows[i].amount.Some?
    ensures OneOpen(Take(s, i, s.rows[i].amount.value))
  {
    if i !in s.taken {
      CoveredAfterLateTake(s.rows, s.taken, i);
    }
  }

  /** A reverse taken late, for a request settled meanwhile, covers at most its amount. */
  lemma {:induction false} CoveredAfterLateTake(rows: seq<Row>, taken: set<nat>, i: nat)
    ensures Covered(rows, taken + {i}) <= Covered(rows, taken) + if i < |rows| && rows[i].amount.Some? then rows[i].amount.value else 0
  {
    var n := |rows| - 1;
    if n >= 0 {
      CoveredAfterLateTake(rows[..n], taken, i);
    }
  }

  lemma ApproveKeepsOneOpen(s: State, opening: nat, amount: Option<nat>)
    requires Inv(s, opening) && OneOpen(s) && NoneDue(s.rows)
    ensures OneOpen(ApproveStep(s, amount))
  {
    var after := ApproveStep(s, amount);
    if after != s {
      assert after.rows[..|s.rows|] == s.rows;
      assert |s.rows| !in s.taken;
    }
  }

  lemma WorkKeepsOneOpen(s: State, opening: nat, w: nat)
    requires Inv(s, opening) && OneOpen(s)
    ensures OneOpen(ClaimStep(s, w)) && OneOpen(NoteStep(s, w)) && OneOpen(AwaitStep(s, w))
  {
    AtOk(s, opening, w);
    hide Inv;
    hide OneOpen;
    match At(s, w)
    case Loaded(i, was, _) =>
      if was != Processing && s.rows[i].status == Approved { WriteKeepsOneOpen(s, opening, i, ClaimStep(s, w).rows[i], ClaimStep(s, w)); } else { SameBooks(s, ClaimStep(s, w)); }
    case Noting(i, _, _) =>
      if s.rows[i].status == Processing { WriteKeepsOneOpen(s, opening, i, NoteStep(s, w).rows[i], NoteStep(s, w)); } else { SameBooks(s, NoteStep(s, w)); }
    case Waiting(i) =>
      if s.rows[i].status == Processing { WriteKeepsOneOpen(s, opening, i, AwaitStep(s, w).rows[i], AwaitStep(s, w)); } else { SameBooks(s, AwaitStep(s, w)); }
    case _ =>
  }

  lemma ReverseKeepsOneOpen(s: State, opening: nat, w: nat, takes: bool, reply: ReverseReply)
    requires Inv(s, opening) && OneOpen(s)
    ensures OneOpen(ReverseStep(s, w, takes, reply))
  {
    AtOk(s, opening, w);
    hide Inv;
    hide OneOpen;
    var worker := At(s, w);
    if worker.Reversing? && s.rows[worker.request].amount.Some? {
      var i, amount := worker.request, s.rows[worker.request].amount.value;
      TakeKeepsOneOpen(s, i);
      SameBooks(if takes && amount != 0 then Take(s, i, amount) else s, ReverseStep(s, w, takes, reply));
    }
  }

  lemma EndKeepsOneOpen(s: State, opening: nat, w: nat, local: bool)
    requires Inv(s, opening) && OneOpen(s)
    ensures OneOpen(SettleStep(s, w, local)) && OneOpen(ReviewStep(s, w)) && OneOpen(FailStep(s, w))
  {
    AtOk(s, opening, w);
    hide Inv;
    hide OneOpen;
    match At(s, w)
    case Refunding(i) =>
      if local { CloseKeepsOneOpen(s, opening, w, i, Refunded, true, false); } else { CloseKeepsOneOpen(s, opening, w, i, NeedsReview, false, false); }
    case Reviewing(i, marked) => CloseKeepsOneOpen(s, opening, w, i, NeedsReview, false, marked);
    case Failing(i) => CloseKeepsOneOpen(s, opening, w, i, Failed, false, false);
    case _ =>
  }

  lemma StepKeepsOneOpen(s: State, opening: nat, step: Step)
    requires Inv(s, opening) && OneOpen(s) && (step.Approve? ==> NoneDue(s.rows))
    ensures OneOpen(Next(s, step))
  {
    hide Inv;
    hide OneOpen;
    match step
    case Approve(amount) => ApproveKeepsOneOpen(s, opening, amount);
    case Claim(w) => WorkKeepsOneOpen(s, opening, w);
    case Reverse(w, takes, reply) => ReverseKeepsOneOpen(s, opening, w, takes, reply);
    case ProviderTakes(i) => if i < |s.rows| && s.rows[i].amount.Some? { TakeKeepsOneOpen(s, i); }
    case Note(w) => WorkKeepsOneOpen(s, opening, w);
    case Await(w) => WorkKeepsOneOpen(s, opening, w);
    case Settle(w, local) => EndKeepsOneOpen(s, opening, w, local);
    case Review(w) => EndKeepsOneOpen(s, opening, w, true);
    case Fail(w) => EndKeepsOneOpen(s, opening, w, true);
    case _ => SameBooks(s, Next(s, step));
  }

  lemma {:induction false} RunKeepsOneOpen(s: State, opening: nat, steps: seq<Step>)
    requires Inv(s, opening) && OneOpen(s) && OpensOne(s, steps)
    ensures Inv(Run(s, steps), opening) && OneOpen(Run(s, steps))
    decreases |steps|
  {
    hide Inv;
    hide OneOpen;
    if |steps| > 0 {
      StepKeepsInv(s, opening, steps[0]);
      StepKeepsOneOpen(s, opening, steps[0]);
      RunKeepsOneOpen(Next(s, steps[0]), opening, steps[1..]);
    }
  }

  /** The open request, if any, has an amount, and its reverse was taken or still fits the charge. */
  ghost predicate OpenFits(s: State) { forall i :: 0 <= i < |s.rows| && Due(s, i) ==> Fits(s, i) }

  ghost predicate Fits(s: State, i: nat)
    requires i < |s.rows|
  {
    s.rows[i].amount.Some? && s.rows[i].amount.value > 0 && (i in s.taken || s.reversal + s.rows[i].amount.value <= s.charge)
  }

  lemma OneOpenIsReady(s: State, opening: nat, w: nat)
    requires Inv(s, opening) && OneOpen(s) && OpenFits(s) && At(s, w) == Idle
    ensures Ready(s, w)
  {
    var n := |s.rows| - 1;
    OnlyLastDue(s);
    CoveredWithin(s.rows, s.taken);
    if n >= 0 && Due(s, n) && n !in s.taken {
      assert Fits(s, n);
      CoveredAfterTake(s.rows, s.taken, n);
      CoveredWithin(s.rows, s.taken + {n});
    }
  }

  /**
   * With one open request at a time, whatever executions overlapped, crashed or heard wrong answers:
   * if the open request still fits the charge, the next two passes settle it.
   */
  lemma OneOpenAlwaysSettles(start: State, opening: nat, steps: seq<Step>, w: nat, first: seq<Visit>, second: seq<Visit>)
    requires Start(start, opening) && OpensOne(start, steps)
    requires OpenFits(Run(start, steps)) && At(Run(start, steps), w) == Idle
    requires Covers(first, |Run(start, steps).rows|) && Covers(second, |Run(start, steps).rows|)
    ensures var s := Run(start, steps);
      var after := Pass(Pass(s, w, first), w, second);
      && |after.rows| == |s.rows| && (forall i :: 0 <= i < |s.rows| ==> Finishes(s.rows[i], after.rows[i]))
  {
    RunKeepsOneOpen(start, opening, steps);
    OneOpenIsReady(Run(start, steps), opening, w);
    TwoPassesSettleEverything(Run(start, steps), w, first, second);
  }
}

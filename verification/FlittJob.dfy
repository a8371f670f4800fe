/** The Flitt refund job as it runs: one execution over the request rows and the provider's order. */
module FlittJob {
  import opened Wrappers
  import opened CreditBooks
  import opened RefundRow
  import opened FlittMachine
  import opened FlittConvergence

  datatype Outcome = NotFound | AlreadyTerminal | RefundCompleted | NeedsReviewing | FailedForGood | Retry

  /** The rest of an execution whose answers and replies are in `x`, from wherever the worker stands. */
  function Finished(b: State, w: nat, x: Script): State { End(Attempt(b, w, x), w, x) }

  predicate LastWriteLeft(worker: Worker) { worker.Idle? || worker.Refunding? || worker.Reviewing? || worker.Failing? }

  /** What the last write does. */
  function Written(b: State, w: nat, local: bool): State {
    match At(b, w)
    case Refunding(i) => if local then Close(b, w, i, Refunded, true, false) else Close(b, w, i, NeedsReview, false, false)
    case Reviewing(i, marked) => Close(b, w, i, NeedsReview, false, marked)
    case Failing(i) => Close(b, w, i, Failed, false, false)
    case _ => b
  }

  lemma LastWrite(b: State, w: nat, x: Script)
    requires LastWriteLeft(At(b, w))
    ensures Finished(b, w, x) == End(b, w, x) == Written(b, w, x.local)
    ensures AwaitStep(GetStep(NoteStep(b, w), w, x.second), w) == b
  {
  }

  class Desk {
    var rows: seq<Row>
    var charge: nat
    var reversal: nat
    var taken: set<nat>

    function View(): State
      reads this
    {
      State(rows, map[], charge, reversal, taken)
    }

    constructor (s: State)
      ensures View() == s.(workers := map[])
    {
      rows, charge, reversal, taken := s.rows, s.charge, s.reversal, s.taken;
    }

    /** Close an in-flight request; rows in any other status are left alone. */
    method CloseRow(i: nat, status: Status, reference: bool, marked: bool)
      modifies this`rows
      ensures rows == Close(old(View()), 0, i, status, reference, marked).rows
    {
      if i < |rows| && InFlight(rows[i].status) {
        rows := rows[i := rows[i].(status := status, reference := rows[i].reference || reference, marked := marked)];
      }
    }

    /** The provider's side of a reverse call. */
    method ProviderReverse(i: nat, amount: nat, takes: bool)
      modifies this`reversal, this`taken
      ensures View() == if takes then Take(old(View()), i, amount) else old(View())
    {
      if takes && i !in taken && reversal + amount <= charge {
        reversal := reversal + amount;
        taken := taken + {i};
      }
    }

    method MarkRefunded(i: nat, local: bool) returns (outcome: Outcome)
      modifies this`rows
      ensures rows == (if local then Close(old(View()), 0, i, Refunded, true, false) else Close(old(View()), 0, i, NeedsReview, false, false)).rows
      ensures outcome == if local then RefundCompleted else NeedsReviewing
    {
      if !local {
        CloseRow(i, NeedsReview, false, false);
        return NeedsReviewing;
      }
      CloseRow(i, Refunded, true, false);
      return RefundCompleted;
    }

    method SumCounted() returns (sum: nat)
      ensures sum == CountedSum(rows)
    {
      sum := 0;
      var k := 0;
      while k < |rows|
        invariant 0 <= k <= |rows| && sum == CountedSum(rows[..k])
      {
        assert rows[..k + 1][..k] == rows[..k];
        sum := sum + Money()(rows[k]);
        k := k + 1;
      }
      assert rows[..k] == rows;
    }

    /** One execution; it does to rows and order exactly what the step machine's job does. */
    method ProcessFlittRefundJob(i: nat, x: Script) returns (outcome: Outcome)
      modifies this`rows, this`reversal, this`taken
      ensures View() == Job(old(View()), 0, i, x).(workers := map[])
      ensures Matches(outcome, i)
      ensures outcome == NotFound || outcome == AlreadyTerminal ==> View() == old(View())
    {
      ghost var s := View();
      if i >= |rows| || !InFlight(rows[i].status) {
        SkippedJob(s, 0, i, x);
        return if i >= |rows| then NotFound else AlreadyTerminal;
      }
      var attempted := Attempted(rows[i]);
      ghost var loaded := LoadStep(s, 0, i, x.purchaseOk);
      ghost var claimed := ClaimStep(loaded, 0);
      ghost var seen := GetStep(claimed, 0, x.first);
      ghost var b := ReadStep(seen, 0);
      assert b == Begin(s, 0, i, x);
      if rows[i].amount.None? || !x.purchaseOk {
        assert At(b, 0) == Failing(i) && b.rows == rows;
        LastWrite(b, 0, x);
        CloseRow(i, Failed, false, false);
        return FailedForGood;
      }
      if rows[i].status == Approved {
        rows := rows[i := rows[i].(status := Processing)];
      }
      assert At(claimed, 0) == Claimed(i, attempted) && claimed.(workers := map[]) == View();
      hide LoadStep;
      hide ClaimStep;
      hide Begin;
      hide Finished;
      outcome := ReconcileAndReverse(i, x, attempted, claimed);
    }

    /** What the caller hears about the request is what its row says. */
    predicate Matches(outcome: Outcome, i: nat)
      reads this
    {
      match outcome
      case RefundCompleted => i < |rows| && rows[i].status == Refunded
      case NeedsReviewing => i < |rows| && rows[i].status == NeedsReview
      case FailedForGood => i < |rows| && rows[i].status == Failed
      case Retry => i < |rows| && rows[i].status == Processing
      case NotFound => i >= |rows|
      case AlreadyTerminal => i < |rows| && !InFlight(rows[i].status)
    }

    /** Look before reversing: the order may already show everything that is counted. */
    method ReconcileAndReverse(i: nat, x: Script, attempted: bool, ghost claimed: State) returns (outcome: Outcome)
      requires i < |rows| && rows[i].status == Processing && rows[i].amount.Some?
      requires claimed.(workers := map[]) == View() && At(claimed, 0) == Claimed(i, attempted)
      modifies this`rows, this`reversal, this`taken
      ensures View() == Finished(ReadStep(GetStep(claimed, 0, x.first), 0), 0, x).(workers := map[])
      ensures Matches(outcome, i) && outcome != NotFound && outcome != AlreadyTerminal
    {
      ghost var b := ReadStep(GetStep(claimed, 0, x.first), 0);
      if !x.first.Answer? {
        assert At(b, 0) == (if x.first.GetFailed? then Reviewing(i, false) else Idle) && b.rows == rows;
        LastWrite(b, 0, x);
        if x.first.GetNetworkError? {
          return Retry;
        }
        CloseRow(i, NeedsReview, false, false);
        return NeedsReviewing;
      }
      var shown, reversed := ShownBy(View(), x.first), ReversalBy(View(), x.first);
      var expected := SumCounted();
      assert At(b, 0) == Decide(i, attempted, shown, reversed, expected, charge) && b.(workers := map[]) == View();
      hide GetStep;
      hide ReadStep;
      hide Finished;
      outcome := DecideAndReverse(i, x, attempted, shown, reversed, expected, b);
    }

    method DecideAndReverse(i: nat, x: Script, attempted: bool, shown: Shown, reversed: nat, expected: nat, ghost b: State)
      returns (outcome: Outcome)
      requires i < |rows| && rows[i].status == Processing && rows[i].amount.Some?
      requires b.(workers := map[]) == View() && At(b, 0) == Decide(i, attempted, shown, reversed, expected, charge)
      modifies this`rows, this`reversal, this`taken
      ensures View() == Finished(b, 0, x).(workers := map[])
      ensures Matches(outcome, i) && outcome != NotFound && outcome != AlreadyTerminal
    {
      hide Finished;
      if IsRefundApplied(shown, reversed, expected, charge) {
        LastWrite(b, 0, x);
        outcome := MarkRefunded(i, x.local);
        return;
      }
      if attempted && !(shown == ShownApproved && reversed < expected) {
        LastWrite(b, 0, x);
        CloseRow(i, NeedsReview, false, false);
        return NeedsReviewing;
      }
      outcome := ReverseAndCheck(i, x, expected, b);
    }

    /** The reverse call: a reply that settles the matter, or one that calls for another look. */
    method ReverseAndCheck(i: nat, x: Script, expected: nat, ghost b: State) returns (outcome: Outcome)
      requires i < |rows| && rows[i].status == Processing && rows[i].amount.Some?
      requires b.(workers := map[]) == View() && At(b, 0) == Reversing(i, expected)
      modifies this`rows, this`reversal, this`taken
      ensures View() == Finished(b, 0, x).(workers := map[])
      ensures Matches(outcome, i) && outcome != NotFound && outcome != AlreadyTerminal
    {
      hide NoteStep;
      hide GetStep;
      hide AwaitStep;
      var amount := rows[i].amount.value;
      ghost var called := ReverseStep(b, 0, x.takes, x.reverse);
      ghost var a := AwaitStep(GetStep(NoteStep(called, 0), 0, x.second), 0);
      if amount != 0 {
        ProviderReverse(i, amount, x.takes);
      }
      assert called.(workers := map[]) == View();
      if amount == 0 || x.reverse.Rejected? {
        assert At(called, 0) == Failing(i);
        LastWrite(called, 0, x);
        CloseRow(i, Failed, false, false);
        return FailedForGood;
      }
      if x.reverse.Unexpected? {
        assert At(called, 0) == Reviewing(i, false);
        LastWrite(called, 0, x);
        CloseRow(i, NeedsReview, false, false);
        return NeedsReviewing;
      }
      assert At(called, 0) == Noting(i, expected, x.reverse.Confirmed?);
      hide ReverseStep;
      outcome := NoteAndCheck(i, x, expected, x.reverse.Confirmed?, called);
    }

    /** Leave the attempt marker first, then look whether the reversal arrived. */
    method NoteAndCheck(i: nat, x: Script, expected: nat, ok: bool, ghost called: State) returns (outcome: Outcome)
      requires i < |rows| && rows[i].status == Processing
      requires called.(workers := map[]) == View() && At(called, 0) == Noting(i, expected, ok)
      modifies this`rows
      ensures View() == End(AwaitStep(GetStep(NoteStep(called, 0), 0, x.second), 0), 0, x).(workers := map[])
      ensures Matches(outcome, i) && outcome != NotFound && outcome != AlreadyTerminal
    {
      if ok {
        rows := rows[i := rows[i].(reference := true)];
      } else {
        rows := rows[i := rows[i].(marked := true)];
      }
      ghost var noted := NoteStep(called, 0);
      assert noted.(workers := map[]) == View() && At(noted, 0) == Checking(i, expected, ok);
      hide NoteStep;
      hide End;
      outcome := CheckAgain(i, x, expected, ok, noted);
    }

    method CheckAgain(i: nat, x: Script, expected: nat, ok: bool, ghost noted: State) returns (outcome: Outcome)
      requires i < |rows| && rows[i].status == Processing
      requires noted.(workers := map[]) == View() && At(noted, 0) == Checking(i, expected, ok)
      modifies this`rows
      ensures View() == End(AwaitStep(GetStep(noted, 0, x.second), 0), 0, x).(workers := map[])
      ensures Matches(outcome, i) && outcome != NotFound && outcome != AlreadyTerminal
    {
      hide End;
      ghost var checked := GetStep(noted, 0, x.second);
      if !x.second.Answer? {
        LastWrite(checked, 0, x);
        CloseRow(i, NeedsReview, false, !ok);
        return NeedsReviewing;
      }
      if IsRefundApplied(ShownBy(View(), x.second), ReversalBy(View(), x.second), expected, charge) {
        LastWrite(checked, 0, x);
        outcome := MarkRefunded(i, x.local);
        return;
      }
      LastWrite(AwaitStep(checked, 0), 0, x);
      if ok {
        rows := rows[i := rows[i].(reference := true, marked := true)];
      }
      return Retry;
    }
  }
}

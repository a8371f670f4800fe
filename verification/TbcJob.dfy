/** The TBC refund job as it runs: one execution over the request row and the provider. */
module TbcJob {
  import opened Wrappers
  import opened CreditBooks
  import opened RefundRow
  import opened TbcRefund

  datatype Outcome = AlreadyTerminal | RefundCompleted | SentToReview | FailedForGood | Retry

  function AfterLook(s: State, x: Script): State { FinishStep(GetStep(RecordStep(CancelStep(s, x.cancel)), x.second), x.local) }

  function AfterClaim(s: State, x: Script): State { AfterLook(GetStep(s, x.first), x) }

  /** Without a cancel to make, only the last write is left. */
  lemma OnlyLastWrite(s: State, x: Script)
    requires s.phase.Idle? || s.phase.Refunding? || s.phase.Reviewing?
    ensures AfterLook(s, x) == FinishStep(s, x.local)
  {
  }

  class Desk {
    var row: Row
    var cancels: nat
    var gets: nat
    ghost const lost: nat

    ghost function View(): State
      reads this
    {
      State(row, Idle, cancels, gets, lost)
    }

    constructor (s: State)
      requires s.phase == Idle
      ensures View() == s
    {
      row, cancels, gets, lost := s.row, s.cancels, s.gets, s.lost;
    }

    method CloseRow(status: Status, reference: bool, marked: bool)
      modifies this`row
      ensures View() == Close(old(View()), status, reference, marked)
    {
      if InFlight(row.status) {
        row := row.(status := status, reference := row.reference || reference, marked := marked);
      }
    }

    method MarkNeedsReview(marked: bool) returns (outcome: Outcome)
      modifies this`row
      ensures View() == Close(old(View()), NeedsReview, false, marked) && outcome == SentToReview
    {
      CloseRow(NeedsReview, false, marked);
      return SentToReview;
    }

    /** The local effects and the status in one transaction; a refusal of the books asks for review. */
    method MarkRefunded(local: bool) returns (outcome: Outcome)
      modifies this`row
      ensures View() == if local then Close(old(View()), Refunded, true, false) else Close(old(View()), NeedsReview, false, false)
      ensures outcome == if local then RefundCompleted else SentToReview
    {
      if !local {
        outcome := MarkNeedsReview(false);
        return;
      }
      CloseRow(Refunded, true, false);
      return RefundCompleted;
    }

    /** One execution: look, cancel only if no attempt is on record, record the attempt, look again. */
    method ProcessTbcRefundJob(x: Script) returns (outcome: Outcome)
      modifies this
      ensures View() == Job(old(View()), x)
      ensures match outcome
              case AlreadyTerminal => View() == old(View()) && !InFlight(row.status)
              case RefundCompleted => row.status == Refunded
              case SentToReview => row.status == NeedsReview
              case FailedForGood => row.status == Failed
              case Retry => row.status == Processing
    {
      assert Job(View(), x) == AfterClaim(LoadStep(View(), x.purchaseOk), x);
      hide Job;
      if !InFlight(row.status) {
        return AlreadyTerminal;
      }
      if row.amount.None? || !x.purchaseOk {
        CloseRow(Failed, false, false);
        return FailedForGood;
      }
      hide AfterClaim;
      var attempted := Attempted(row);
      row := row.(status := Processing);
      outcome := LookThenCancel(attempted, x);
    }

    method LookThenCancel(attempted: bool, x: Script) returns (outcome: Outcome)
      requires row.status == Processing
      modifies this
      ensures View() == AfterClaim(old(View()).(phase := Claimed(attempted)), x)
      ensures outcome == RefundCompleted ==> row.status == Refunded
      ensures outcome == SentToReview ==> row.status == NeedsReview
      ensures outcome == FailedForGood ==> row.status == Failed
      ensures outcome == Retry ==> row.status == Processing
      ensures outcome != AlreadyTerminal
    {
      ghost var seen := GetStep(View().(phase := Claimed(attempted)), x.first);
      if seen.phase != Cancelling { OnlyLastWrite(seen, x); }
      hide AfterLook;
      gets := gets + 1;
      match x.first
      case GetNetworkError => return Retry;
      case GetFailed => outcome := MarkNeedsReview(false);
      case Details(status) =>
        if IsRefundSuccess(status) {
          outcome := MarkRefunded(x.local);
        } else if status == CancelProcessing {
          return Retry;
        } else if attempted {
          outcome := MarkNeedsReview(false);
        } else {
          outcome := CancelOnce(x);
        }
    }

    method CancelOnce(x: Script) returns (outcome: Outcome)
      requires row.status == Processing
      modifies this
      ensures View() == AfterLook(old(View()).(phase := Cancelling), x)
      ensures outcome == RefundCompleted ==> row.status == Refunded
      ensures outcome == SentToReview ==> row.status == NeedsReview
      ensures outcome == FailedForGood ==> row.status == Failed
      ensures outcome == Retry ==> row.status == Processing
      ensures outcome != AlreadyTerminal
    {
      cancels := cancels + 1;
      match x.cancel
      case Confirmed =>
        row := row.(reference := true);
        outcome := Reconcile(true, x);
      case Ambiguous =>
        row := row.(marked := true);
        outcome := Reconcile(false, x);
      case Rejected =>
        CloseRow(Failed, false, false);
        return FailedForGood;
      case Unexpected =>
        outcome := MarkNeedsReview(false);
    }

    method Reconcile(ok: bool, x: Script) returns (outcome: Outcome)
      requires row.status == Processing
      modifies this
      ensures View() == FinishStep(GetStep(old(View()).(phase := Checking(ok)), x.second), x.local)
      ensures outcome == RefundCompleted ==> row.status == Refunded
      ensures outcome == SentToReview ==> row.status == NeedsReview
      ensures outcome == Retry ==> row.status == Processing
      ensures outcome != AlreadyTerminal && outcome != FailedForGood
    {
      gets := gets + 1;
      if !x.second.Details? {
        outcome := MarkNeedsReview(!ok);
      } else if IsRefundSuccess(x.second.status) {
        outcome := MarkRefunded(x.local);
      } else if x.second.status == CancelProcessing {
        return Retry;
      } else if ok {
        row := row.(reference := true, marked := true);
        return Retry;
      } else {
        outcome := MarkNeedsReview(true);
      }
    }
  }
}

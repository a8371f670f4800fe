/** What one TBC execution makes of its request, for every answer it may hear; and what a refunded request proves. */
module TbcOutcome {
  import opened Wrappers
  import opened CreditBooks
  import opened RefundRow
  import opened TbcRefund

  ghost predicate ShowsReturned(answer: GetReply) { answer == Details(Returned) || answer == Details(PartialReturned) }

  ghost predicate ShowsCancelling(answer: GetReply) { answer == Details(CancelProcessing) }

  ghost predicate UnderWay(row: Row) { row.status == Approved || row.status == Processing }

  /** No call, and the row is left as it is. */
  lemma IdleJob(s: State, x: Script)
    requires s.phase == Idle && !UnderWay(s.row)
    ensures Job(s, x) == s
  {
  }

  /** Without an amount or a payment to cancel the request fails, before any call. */
  lemma UnpayableJob(s: State, x: Script)
    requires s.phase == Idle && UnderWay(s.row) && (s.row.amount.None? || !x.purchaseOk)
    ensures Job(s, x) == s.(row := s.row.(status := Failed, marked := false))
  {
  }

  ghost predicate Payable(s: State, x: Script) { s.phase == Idle && UnderWay(s.row) && s.row.amount.Some? && x.purchaseOk }

  /** The row of a request that was claimed. */
  ghost function Taken(row: Row): Row { row.(status := Processing) }

  /** Paid: refunded if the books take it, else under review. */
  ghost function Paid(row: Row, local: bool): Row {
    if local then row.(status := Refunded, reference := true, marked := false) else row.(status := NeedsReview, marked := false)
  }

  /** What the first look at the payment settles by itself. */
  ghost predicate SettledByLook(row: Row, answer: GetReply) {
    !answer.Details? || ShowsReturned(answer) || ShowsCancelling(answer) || row.reference || row.marked
  }

  /**
   * One call when the first look settles the matter: a payment already returned is recorded, a
   * pending one or a network error leaves the request for the next execution, and everything else
   * goes to review; so does a payment still there after an earlier attempt.
   */
  lemma LookedJob(s: State, x: Script)
    requires Payable(s, x) && SettledByLook(s.row, x.first)
    ensures var after := Job(s, x);
      && after.phase == Idle && after.cancels == s.cancels && after.gets == s.gets + 1 && after.lost == s.lost
      && after.row == if ShowsReturned(x.first) then Paid(s.row, x.local)
                      else if x.first == GetNetworkError || ShowsCancelling(x.first) then Taken(s.row)
                      else s.row.(status := NeedsReview, marked := false)
  {
  }

  /** A rejected cancel fails the request, an unexpected one sends it to review; neither looks again. */
  lemma RefusedJob(s: State, x: Script)
    requires Payable(s, x) && !SettledByLook(s.row, x.first) && (x.cancel == CancelReply.Rejected || x.cancel == Unexpected)
    ensures var after := Job(s, x);
      && after.phase == Idle && after.cancels == s.cancels + 1 && after.gets == s.gets + 1 && after.lost == s.lost
      && after.row == s.row.(status := if x.cancel == CancelReply.Rejected then Failed else NeedsReview, marked := false)
  {
  }

  /**
   * After a cancel that was confirmed, or whose answer was ambiguous, the attempt is on record and
   * the payment is looked at once more: returned is recorded, being cancelled waits. Anything else
   * waits after a confirmed cancel and goes to review after an ambiguous one; no answer is reviewed.
   */
  lemma CancelledJob(s: State, x: Script)
    requires Payable(s, x) && !SettledByLook(s.row, x.first) && (x.cancel == Confirmed || x.cancel == Ambiguous)
    ensures var after := Job(s, x);
      var noted := if x.cancel == Confirmed then Taken(s.row).(reference := true) else Taken(s.row).(marked := true);
      && after.phase == Idle && after.cancels == s.cancels + 1 && after.gets == s.gets + 2 && after.lost == s.lost
      && after.row == if ShowsReturned(x.second) then Paid(noted, x.local)
                      else if ShowsCancelling(x.second) then noted
                      else if !x.second.Details? then noted.(status := NeedsReview, marked := x.cancel == Ambiguous)
                      else if x.cancel == Confirmed then noted.(marked := true)
                      else noted.(status := NeedsReview, marked := true)
  {
  }

  // ----- refunded means returned -----

  /** An answer of the provider that was read while it still mattered. */
  ghost predicate Heard(s: State, step: Step) { step.Get? && ShowsReturned(step.answer) && (s.phase.Claimed? || s.phase.Checking?) }

  ghost predicate HeardIn(s: State, steps: seq<Step>) { exists i :: 0 <= i < |steps| && Heard(Run(s, steps[..i]), steps[i]) }

  lemma RunPrefix(s: State, steps: seq<Step>)
    requires |steps| > 0
    ensures Run(s, steps) == Next(Run(s, steps[..|steps| - 1]), steps[|steps| - 1])
  {
    hide Next;
    var n := |steps| - 1;
    assert steps == steps[..n] + [steps[n]];
    RunConcat(s, steps[..n], [steps[n]]);
    assert [steps[n]][1..] == [];
  }

  /** Whoever is about to record a refund, or did, heard that the payment was returned. */
  lemma {:induction false} RefundedHeard(s: State, steps: seq<Step>)
    requires s.phase == Idle && s.row.status != Refunded
    ensures var after := Run(s, steps); after.phase == Refunding || after.row.status == Refunded ==> HeardIn(s, steps)
    decreases |steps|
  {
    if |steps| > 0 {
      var n := |steps| - 1;
      var before := Run(s, steps[..n]);
      RefundedHeard(s, steps[..n]);
      RunPrefix(s, steps);
      if HeardIn(s, steps[..n]) {
        var i :| 0 <= i < n && Heard(Run(s, steps[..n][..i]), steps[..n][i]);
        assert steps[..n][..i] == steps[..i] && Heard(Run(s, steps[..i]), steps[i]);
      } else if Next(before, steps[n]).phase == Refunding {
        assert Heard(Run(s, steps[..n]), steps[n]);
      }
    }
  }

  /** The step that records a refund: the books took it, by an execution that had heard so. */
  lemma RefundedByLastWrite(s: State, step: Step)
    requires s.row.status != Refunded && Next(s, step).row.status == Refunded
    ensures s.phase == Refunding && step == Finish(true) && UnderWay(s.row)
  {
  }

  /**
   * Over any executions, retries and crashes: a request becomes refunded only after an execution
   * read the payment as returned.
   */
  lemma RefundedMeansReturned(s: State, steps: seq<Step>)
    requires s.phase == Idle && s.row.status != Refunded && Run(s, steps).row.status == Refunded
    ensures HeardIn(s, steps)
  {
    RefundedHeard(s, steps);
  }
}

/** What the Flitt step machine guarantees over every run. */
module FlittSafety {
  import opened Wrappers
  import opened Sums
  import opened CreditBooks
  import opened RefundRow
  import opened FlittMachine

  function RefundedMoney(): Row -> int { (r: Row) => if r.status == Refunded && r.amount.Some? then r.amount.value else 0 }

  lemma {:induction false} RefundedWithin(s: State, opening: nat, n: nat)
    requires Inv(s, opening) && n <= |s.rows|
    ensures Sum(s.rows[..n], RefundedMoney()) <= s.reversal
  {
    if n > 0 {
      if s.rows[n - 1].status == Refunded {
        AtMost(s.rows[..n], RefundedMoney(), s.rows[..n], Money());
        assert UpTo(s, n - 1) <= s.reversal;
      } else {
        RefundedWithin(s, opening, n - 1);
        assert s.rows[..n][..n - 1] == s.rows[..n - 1];
      }
    }
  }

  /**
   * However jobs interleave, crash, retry and hear ambiguous or lagging answers: the money of the
   * refunded requests never exceeds what the provider reversed, which never exceeds the charge
   * and is exactly one reversal per reverse id the provider took.
   */
  lemma RefundedNeverExceedsReversal(start: State, opening: nat, steps: seq<Step>)
    requires Start(start, opening)
    ensures var s := Run(start, steps);
      && Sum(s.rows, RefundedMoney()) <= s.reversal <= s.charge
      && s.reversal == opening + TakenAmount(s.rows, s.taken)
      && CountedSum(s.rows) <= s.charge
  {
    RunKeepsInv(start, opening, steps);
    var s := Run(start, steps);
    RefundedWithin(s, opening, |s.rows|);
    assert s.rows[..|s.rows|] == s.rows;
  }

  ghost predicate Settled(status: Status) { status == Refunded || status == NeedsReview || status == Failed }

  lemma StepKeepsSettled(s: State, step: Step, i: nat)
    requires i < |s.rows| && Settled(s.rows[i].status)
    ensures i < |Next(s, step).rows| && Next(s, step).rows[i] == s.rows[i]
  {
  }

  /** A request that is refunded, failed or under review is never touched again, whatever stale jobs still run. */
  lemma {:induction false} SettledStaysSettled(s: State, steps: seq<Step>, i: nat)
    requires i < |s.rows| && Settled(s.rows[i].status)
    ensures i < |Run(s, steps).rows| && Run(s, steps).rows[i] == s.rows[i]
    decreases |steps|
  {
    if |steps| > 0 {
      StepKeepsSettled(s, steps[0], i);
      SettledStaysSettled(Next(s, steps[0]), steps[1..], i);
    }
  }
}

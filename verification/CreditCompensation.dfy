/** Exactly when a spend is refunded in credits, and everything such a refund writes. */
module CreditCompensation {
  import opened Wrappers
  import opened Sums
  import opened CreditBooks
  import opened CreditRules
  import opened CreditInvariant
  import opened CreditSteps
  import opened CreditTransactions
  import opened CreditRefunds
  import opened CreditRuns

  /** The request paid for the spend in money, is about to, or may have. */
  ghost predicate MayHavePaid(r: Request, spend: Key) {
    && r.spend == Some(spend) && r.scope == Operation
    && (r.status == Approved || r.status == Processing || r.status == Status.Refunded || (r.status == NeedsReview && (r.reference || r.marked)))
  }

  ghost predicate StampedFor(a: Allocation, spend: Key) { a.spend == spend && a.cash.Some? }

  ghost predicate PaidInCash(b: Books, spend: Key) {
    || (exists i :: 0 <= i < |b.allocations| && StampedFor(b.allocations[i], spend))
    || (exists r :: 0 <= r < |b.requests| && MayHavePaid(b.requests[r], spend))
  }

  lemma AllowedExactly(b: Books, spend: Key)
    ensures CompensationAllowed(b, spend) <==> !PaidInCash(b, spend)
  {
    if CompensationAllowed(b, spend) {
      forall i | 0 <= i < |b.allocations| ensures !StampedFor(b.allocations[i], spend) { assert OfSpendAt(b, spend, i) == (b.allocations[i].spend == spend); }
      forall r | 0 <= r < |b.requests| ensures !MayHavePaid(b.requests[r], spend) { assert !BlocksCompensation(b.requests[r], spend); }
    }
    if !PaidInCash(b, spend) {
      forall i | 0 <= i < |b.allocations| && OfSpendAt(b, spend, i) ensures b.allocations[i].cash.None? { assert !StampedFor(b.allocations[i], spend); }
      forall r | 0 <= r < |b.requests| ensures !BlocksCompensation(b.requests[r], spend) { assert !MayHavePaid(b.requests[r], spend); }
    }
  }

  // ----- what a refund gives back -----

  ghost predicate StillOut(a: Allocation, spend: Key) { a.spend == spend && !a.restored && a.cash.None? }

  /** Units of a spend that are out of lot k and may go back. */
  ghost function OutOf(spend: Key, k: nat): Allocation -> int { (a: Allocation) => if a.lot == k && StillOut(a, spend) then a.amount else 0 }

  /** An unclawed lot gets its units back; a clawed one keeps none. */
  ghost predicate LotAfterRefund(was: Lot, now: Lot, units: int) {
    if was.status == Clawed then now == was.(forfeited := was.forfeited + units) else now == was.(remaining := was.remaining + units)
  }

  lemma {:induction false} RestoredLots(b: Books, spend: Key, n: nat, k: nat)
    requires n <= |b.allocations| && k < |b.lots|
    ensures |RestoreUpTo(b, spend, n).lots| == |b.lots|
    ensures LotAfterRefund(b.lots[k], RestoreUpTo(b, spend, n).lots[k], Sum(b.allocations[..n], OutOf(spend, k)))
  {
    hide RestoreOne;
    hide StillOut;
    hide CanRestore;
    if n > 0 {
      var before := RestoreUpTo(b, spend, n - 1);
      RestoredLots(b, spend, n - 1, k);
      RestoredAllocations(b, spend, n - 1);
      assert before.allocations[n - 1] == b.allocations[n - 1];
      RestoreOneLot(before, spend, n - 1, k);
      assert b.allocations[..n] == b.allocations[..n - 1] + [b.allocations[n - 1]];
      Append(b.allocations[..n - 1], b.allocations[n - 1], OutOf(spend, k));
    }
  }

  lemma RestoreOneLot(b: Books, spend: Key, i: nat, k: nat)
    requires i < |b.allocations| && k < |b.lots|
    ensures |RestoreOne(b, spend, i).lots| == |b.lots|
    ensures LotAfterRefund(b.lots[k], RestoreOne(b, spend, i).lots[k], OutOf(spend, k)(b.allocations[i]))
  {
  }

  /** The spend a refund names, if the user has such a spend. */
  ghost function NamedSpend(b: Books, input: Input): Option<Key> {
    if input.source.Some? && SpendRow(b, input.source.value, input.user) then input.source else None
  }

  /** All that is still out for the named spend goes back where it came from. */
  ghost predicate Returned(b: Books, spend: Option<Key>, after: Books) {
    && after.requests == b.requests && after.purchases == b.purchases
    && |after.allocations| == |b.allocations| && |after.lots| == |b.lots|
    && (forall i :: 0 <= i < |b.allocations| ==>
        after.allocations[i] == if spend.Some? && StillOut(b.allocations[i], spend.value) then b.allocations[i].(restored := true) else b.allocations[i])
    && (forall k :: 0 <= k < |b.lots| ==>
        LotAfterRefund(b.lots[k], after.lots[k], if spend.Some? then Sum(b.allocations, OutOf(spend.value, k)) else 0))
  }

  /** One row, and that. */
  ghost predicate RefundDone(b: Books, input: Input, spend: Option<Key>, after: Books) {
    && after.ledger == b.ledger + [Entry(input.key, input.user, Refund, input.amount, input.purchase, input.at, spend)]
    && Returned(b, spend, after)
  }

  lemma ResolvedExactly(b: Books, input: Input)
    requires DistinctKeys(b.ledger)
    ensures ResolveSpend(b.ledger, input.user, input.source) == NamedSpend(b, input)
  {
    if ResolveSpend(b.ledger, input.user, input.source).Some? { ResolvedIsSpendRow(b, input.user, input.source); }
    if NamedSpend(b, input).Some? { KeyOfSpendRow(b, input.source.value, input.user); }
  }

  /**
   * A refund under a fresh key is refused exactly when the user has the spend it names and an
   * allocation of that spend is stamped, or an operation request paid for it, is about to, or may
   * have. Refused, it writes nothing; otherwise it writes exactly this.
   */
  lemma RefundRefusedExactly(b: Books, input: Input)
    requires DistinctKeys(b.ledger) && input.kind == Refund && !HasKey(b.ledger, input.key)
    ensures var spend := NamedSpend(b, input);
      var (after, result) := WriteFresh(b, input);
      if spend.Some? && PaidInCash(b, spend.value) then result == SpendAlreadyCashRefunded && after == b
      else result == Written && RefundDone(b, input, spend, after)
  {
    var spend := NamedSpend(b, input);
    ResolvedExactly(b, input);
    RefundWrites(b, input);
    RestoreReturns(b, input);
    if spend.Some? { AllowedExactly(b, spend.value); }
    hide WriteFresh;
    hide PaidInCash;
    hide CompensationAllowed;
    hide RestoreForSource;
  }

  lemma RestoreReturns(b: Books, input: Input)
    requires DistinctKeys(b.ledger)
    ensures var after := RestoreForSource(b, input.user, input.source); after.ledger == b.ledger && Returned(b, NamedSpend(b, input), after)
  {
    var spend := NamedSpend(b, input);
    ResolvedExactly(b, input);
    if spend.Some? {
      RestoredAllocations(b, spend.value, |b.allocations|);
      assert b.allocations[..|b.allocations|] == b.allocations;
      forall k | 0 <= k < |b.lots|
        ensures LotAfterRefund(b.lots[k], Restore(b, spend.value).lots[k], Sum(b.allocations, OutOf(spend.value, k)))
      {
        RestoredLots(b, spend.value, |b.allocations|, k);
      }
    }
  }

  /** A refund whose key is used writes no row, asks no guard, and returns what is still out for the spend it names. */
  lemma UsedKeyReturns(b: Books, input: Input)
    requires DistinctKeys(b.ledger) && input.kind == Refund && HasKey(b.ledger, input.key)
    ensures WriteOnce(b, input) == WriteEntry(b, input) && WriteOnce(b, input).1 == Duplicate
    ensures var after := WriteOnce(b, input).0; after.ledger == b.ledger && Returned(b, NamedSpend(b, input), after)
  {
    RestoreReturns(b, input);
  }

  /** A used refund key repeats its answer. */
  lemma UsedKeyOutcome(b: Books, user: Id, spendKey: Key, refundKey: Key)
    requires HasKey(b.ledger, refundKey)
    ensures var amount := FindEntry(b.ledger, refundKey).value.amount;
      RefundSpend(b, user, spendKey, refundKey).1 == if amount == 0 then NothingToRefund(Some(0)) else CreditRefunded(if amount < 0 then -amount else amount)
  {
  }

  /**
   * Refunding an original spend: without a row that took units there is nothing to refund.
   * Otherwise the user is credited exactly what the row took; only if the row is a spend of the
   * user is the guard asked, and do the lots get units back.
   */
  lemma RefundSpendOutcome(b: Books, user: Id, spendKey: Key, refundKey: Key)
    requires DistinctKeys(b.ledger) && !HasKey(b.ledger, refundKey)
    ensures var (after, result) := RefundSpend(b, user, spendKey, refundKey);
      var row := FindEntry(b.ledger, spendKey);
      if row.None? || row.value.amount >= 0 then after == b && result == NothingToRefund(None)
      else
        var input := Input(Refund, user, -row.value.amount, refundKey, None, Some(spendKey), 0);
        if NamedSpend(b, input).Some? && PaidInCash(b, spendKey) then after == b && result == BlockedByCashRefund
        else result == CreditRefunded(-row.value.amount) && RefundDone(b, input, NamedSpend(b, input), after)
  {
    hide WriteFresh;
    hide RefundDone;
    var row := FindEntry(b.ledger, spendKey);
    if row.Some? && row.value.amount < 0 {
      RefundRefusedExactly(b, RefundInput(user, -row.value.amount, spendKey, refundKey));
    }
  }

  // ----- a reviewed request with an attempt on record -----

  function AttemptThenReview(r: nat, reference: bool, noted: bool, kept: bool): seq<Command> {
    [StartJob(r), LeaveMarker(r, reference, noted), Review(r, kept)]
  }

  /** The review keeps the provider reference; the other marker is what the review makes it. */
  lemma ReviewedRow(b: Books, r: nat, reference: bool, noted: bool, kept: bool)
    requires r < |b.requests| && b.requests[r].status == Approved
    ensures var row := b.requests[r];
      Run(b, AttemptThenReview(r, reference, noted, kept))
        == b.(requests := b.requests[r := row.(status := NeedsReview, reference := row.reference || reference, marked := kept)])
  {
    hide WriteEntry;
    hide WriteOnce;
    hide RefundSpend;
    hide Approve;
    hide ApproveLegacy;
    hide Reserve;
    hide MarkFailed;
    hide MarkRefunded;
    var c := AttemptThenReview(r, reference, noted, kept);
    var x, y := Apply(b, c[0]), Apply(Apply(b, c[0]), c[1]);
    assert x.requests == b.requests[r := b.requests[r].(status := Processing)];
    assert c[1..] == [c[1], c[2]] && c[1..][1..] == [c[2]] && c[1..][1..][1..] == [];
    assert Run(b, c) == Run(x, c[1..]) && Run(x, c[1..]) == Run(y, [c[2]]) && Run(y, [c[2]]) == Run(Apply(y, c[2]), []);
    var row := b.requests[r];
    assert y.requests == b.requests[r := row.(status := Processing, reference := row.reference || reference, marked := row.marked || noted)];
  }

  /**
   * Once a job left a trace of its provider call and the request went to review, its spend is not
   * refunded in credits: under any fresh refund key the call changes nothing.
   */
  lemma ReviewedAttemptBlocksRefund(b: Books, r: nat, reference: bool, noted: bool, kept: bool, user: Id, spendKey: Key, refundKey: Key)
    requires DistinctKeys(b.ledger) && r < |b.requests| && b.requests[r].status == Approved
    requires b.requests[r].scope == Operation && b.requests[r].spend == Some(spendKey) && SpendRow(b, spendKey, user)
    requires reference || b.requests[r].reference || kept
    requires !HasKey(b.ledger, refundKey)
    ensures var reviewed := Run(b, AttemptThenReview(r, reference, noted, kept));
      RefundSpend(reviewed, user, spendKey, refundKey).0 == reviewed
  {
    ReviewedRow(b, r, reference, noted, kept);
    var reviewed := Run(b, AttemptThenReview(r, reference, noted, kept));
    hide Run;
    hide RefundSpend;
    hide RefundDone;
    assert MayHavePaid(reviewed.requests[r], spendKey) && PaidInCash(reviewed, spendKey);
    SpendRowSame(b, reviewed, spendKey, user);
    hide PaidInCash;
    hide SpendRow;
    RefundSpendOutcome(reviewed, user, spendKey, refundKey);
  }
}

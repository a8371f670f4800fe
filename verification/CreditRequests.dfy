/** The life of a refund request: how it moves, what it keeps, and what becomes of a lot held for it. */
module CreditRequests {
  import opened Wrappers
  import opened Sums
  import opened CreditBooks
  import opened CreditRules
  import opened CreditInvariant
  import opened CreditSteps
  import opened CreditFinalize
  import opened CreditRuns
  import CreditTotals
  import opened CreditMoney
  import opened CreditApproval
  import opened CreditSettlement
  import Money = CashRefundMath

  // ----- moves between statuses -----

  /** Where a request can go from where it is; nothing leaves the other four statuses. */
  ghost predicate MayMove(was: Status, now: Status) {
    || now == was
    || (was == Requested && (now == Approved || now == Rejected || now == NeedsReview))
    || (was == Approved && (now == Processing || now == Refunded || now == NeedsReview || now == Failed))
    || (was == Processing && (now == Refunded || now == NeedsReview || now == Failed))
  }

  ghost predicate Ended(s: Status) { s == Refunded || s == Rejected || s == Failed || s == NeedsReview }

  /** What a request keeps for good; its terms are fixed once it is no longer waiting. */
  ghost predicate KeepsTerms(was: Request, now: Request) {
    && now.user == was.user && now.payment == was.payment && now.scope == was.scope && MayMove(was.status, now.status)
    && (was.status != Requested ==> now.units == was.units && now.spend == was.spend && now.amount == was.amount)
    && (was.reference ==> now.reference) && (Ended(was.status) ==> now == was)
  }

  ghost predicate RequestsKept(b: Books, after: Books) {
    |b.requests| <= |after.requests| && forall r :: 0 <= r < |b.requests| ==> KeepsTerms(b.requests[r], after.requests[r])
  }

  lemma SettleKeepsRequests(b: Books, r: nat)
    ensures RequestsKept(b, MarkRefunded(b, r))
  {
    hide FinalizeEffects;
    forall user, purchase { CreditTotals.EffectsKeepGrants(b, user, purchase, r); }
  }

  lemma WrittenKeepsRequests(b: Books, c: Command)
    requires LedgerKey(c).Some?
    ensures Apply(b, c).requests == b.requests
  {
    match c
    case WriteInTransaction(input) => WriteLeavesRequests(b, input);
    case Write(input) => WriteLeavesRequests(b, input);
    case RefundOriginal(user, spendKey, refundKey) => forall units: int { WriteLeavesRequests(b, RefundInput(user, units, spendKey, refundKey)); }
  }

  lemma WriteLeavesRequests(b: Books, input: Input)
    ensures WriteEntry(b, input).0.requests == b.requests && WriteOnce(b, input).0.requests == b.requests
  {
    FreshKeepsRequests(b, input);
    RestoreForSourceLeavesRequests(b, input.user, input.source);
    hide WriteFresh;
  }

  lemma ApproveKeepsRequests(b: Books, r: nat, mode: ApprovalMode)
    ensures RequestsKept(b, Approve(b, r, mode))
  {
    hide OperationEntitlement;
    hide RemainderEntitlement;
  }

  lemma StepKeepsRequests(b: Books, c: Command)
    ensures RequestsKept(b, Apply(b, c))
  {
    hide FirstLot;
    if LedgerKey(c).Some? {
      WrittenKeepsRequests(b, c);
    } else if c.Settle? {
      SettleKeepsRequests(b, c.request);
    } else if c.ApproveRequest? {
      ApproveKeepsRequests(b, c.request, c.mode);
    }
    hide WriteEntry;
    hide WriteOnce;
    hide RefundSpend;
    hide MarkRefunded;
    hide Approve;
  }

  /** Whatever happens later, a request keeps its terms and moves only along these lines; once it has ended it never changes. */
  lemma {:induction false} RequestsMoveOnce(b: Books, commands: seq<Command>, r: nat)
    requires r < |b.requests|
    ensures r < |Run(b, commands).requests|
    ensures var was, now := b.requests[r], Run(b, commands).requests[r];
      && now.user == was.user && now.payment == was.payment && now.scope == was.scope && (was.reference ==> now.reference)
      && (was.status != Requested ==> now.status != Requested && now.units == was.units && now.spend == was.spend && now.amount == was.amount)
      && (Ended(was.status) ==> now == was)
    decreases |commands|
  {
    hide Apply;
    if |commands| > 0 {
      StepKeepsRequests(b, commands[0]);
      assert KeepsTerms(b.requests[r], Apply(b, commands[0]).requests[r]);
      RequestsMoveOnce(Apply(b, commands[0]), commands[1..], r);
    }
  }

  // ----- each move, and nothing else -----

  ghost predicate OnlyRequest(b: Books, after: Books, r: nat, row: Request) {
    r < |b.requests| && after == b.(requests := b.requests[r := row])
  }

  /** The job claims an approved request, and leaves its markers only while it is processing. */
  lemma JobMoves(b: Books, r: nat, reference: bool, marked: bool)
    requires r < |b.requests|
    ensures var row := b.requests[r];
      && (if row.status == Approved then OnlyRequest(b, StartProcessing(b, r), r, row.(status := Processing)) else StartProcessing(b, r) == b)
      && (if row.status == Processing
          then OnlyRequest(b, NoteAttempt(b, r, reference, marked), r, row.(reference := row.reference || reference, marked := row.marked || marked))
          else NoteAttempt(b, r, reference, marked) == b)
  {
  }

  /** Review takes a request under way, with the marker it is told; rejection takes one that waits. */
  lemma ReviewMoves(b: Books, r: nat, marked: bool)
    requires r < |b.requests|
    ensures var row := b.requests[r];
      && (if UnderWay(row) then OnlyRequest(b, SendToReview(b, r, marked), r, row.(status := NeedsReview, marked := marked)) else SendToReview(b, r, marked) == b)
      && (if row.status == Requested then OnlyRequest(b, Reject(b, r), r, row.(status := Rejected)) else Reject(b, r) == b)
  {
  }

  /** A new request waits, with no terms yet; one from before unit snapshots is approved with an amount alone, and only for a whole purchase. */
  lemma OpeningMoves(b: Books, user: Id, p: Id, scope: Scope, spend: Option<Key>, r: nat, amount: nat)
    requires r < |b.requests|
    ensures Apply(b, OpenRequest(user, p, scope, spend)) == b.(requests := b.requests + [Request(user, p, Requested, scope, None, spend, None, false, false)])
    ensures var row := b.requests[r];
      if row.status == Requested && row.scope == PurchaseRemainder
      then OnlyRequest(b, Apply(b, ApproveWithoutSnapshot(r, amount)), r, row.(status := Approved, amount := Some(amount)))
      else Apply(b, ApproveWithoutSnapshot(r, amount)) == b
  {
  }

  // ----- lots held for a request -----

  ghost predicate HeldBy(b: Books, r: nat) { exists k :: 0 <= k < |b.lots| && b.lots[k].reservedFor == Some(r) }

  /** The user's oldest lot of the purchase is open and whole. */
  ghost predicate Reservable(b: Books, user: Id, p: Id, k: nat) {
    && OldestLot(b, p, user, k) && b.lots[k].status == Open && b.lots[k].reserved == 0 && b.lots[k].reservedFor.None?
    && b.lots[k].remaining == b.lots[k].grant
  }

  /** Reserving succeeds exactly on such a lot, for a request that holds none, and holds the whole grant. */
  lemma ReservedExactly(b: Books, user: Id, p: Id, r: nat)
    ensures Reserve(b, user, p, r).Some? <==> !HeldBy(b, r) && exists k: nat :: Reservable(b, user, p, k)
    ensures forall k: nat :: Reservable(b, user, p, k) && !HeldBy(b, r) ==>
      Reserve(b, user, p, r) == Some(b.(lots := b.lots[k := b.lots[k].(status := Reserved, reserved := b.lots[k].grant, reservedFor := Some(r))]))
  {
    var found := FirstLot(b.lots, p, Some(user));
    if found.Some? { OldestIsFirst(b, p, user, found.value); }
    forall k: nat | Reservable(b, user, p, k) ensures found == Some(k) { OldestIsFirst(b, p, user, k); }
    hide FirstLot;
    hide OldestLot;
    if Reserve(b, user, p, r).Some? { assert Reservable(b, user, p, found.value); }
  }

  ghost function Freed(lot: Lot): Lot { lot.(status := Open, reserved := 0, reservedFor := None) }

  /** A failed request is marked so, every lot held for it is open again, and no other lot changes. */
  lemma FailedExactly(b: Books, r: nat)
    requires r < |b.requests|
    ensures var after := MarkFailed(b, r);
      && |after.lots| == |b.lots| && after == b.(lots := after.lots, requests := after.requests)
      && (forall k :: 0 <= k < |b.lots| ==>
          after.lots[k] == if b.lots[k].reservedFor == Some(r) && b.lots[k].status != Clawed then Freed(b.lots[k]) else b.lots[k])
      && after.requests == if UnderWay(b.requests[r]) then b.requests[r := b.requests[r].(status := Failed, marked := false)] else b.requests
  {
  }

  /** In sound books nothing is held for a request any more once it failed. */
  lemma FailedHoldsNothing(b: Books, r: nat)
    requires Inv(b) && r < |b.requests|
    ensures !HeldBy(MarkFailed(b, r), r)
  {
    FailedExactly(b, r);
    forall k | 0 <= k < |b.lots| ensures MarkFailed(b, r).lots[k].reservedFor != Some(r) { assert LotShape(b.lots[k]); }
    hide MarkFailed;
  }

  // ----- from approval to the money -----

  function RefundSteps(r: nat): seq<Command> { [ApproveRequest(r, Full), StartJob(r), Settle(r)] }

  lemma RunThree(b: Books, first: Command, second: Command, third: Command)
    ensures Run(b, [first, second, third]) == Apply(Apply(Apply(b, first), second), third)
  {
    hide Apply;
    assert [first, second, third][1..] == [second, third] && [second, third][1..] == [third] && [third][1..] == [];
    assert Run(Apply(b, first), [second, third]) == Run(Apply(Apply(b, first), second), [third]);
    assert Run(Apply(Apply(b, first), second), [third]) == Run(Apply(Apply(Apply(b, first), second), third), []);
  }

  lemma NotClawedBefore(b: Books, r: nat)
    requires Inv(b) && Waiting(b, r)
    ensures !ClawedBack(b, r)
  {
    assert TraceOk(b, r);
  }

  /** What was due when a request was approved still goes through when nothing happened in between. */
  lemma DueGoesThrough(b: Books, r: nat, k: nat, units: int, money: int, s: Books)
    requires Inv(b) && Waiting(b, r) && Due(b, b.requests[r], b.requests[r].payment, k, units, money)
    requires s == b.(requests := b.requests[r := Granted(b.requests[r], units, money).(status := Processing)])
    ensures GoesThrough(s, r)
  {
    var row := b.requests[r];
    hide Inv;
    hide Worth;
    if row.scope == Operation {
      var spend := row.spend.value;
      forall i | 0 <= i < |b.allocations|
        ensures PaidPart(s, spend, b.allocations[i]) == PaidPart(b, spend, b.allocations[i]) && !GivenBack(b.allocations[i], spend)
        ensures PaidPart(b, spend, b.allocations[i]) ==> b.allocations[i].cash.None?
      {
        assert Intact(b.allocations[i], spend);
      }
      Equal(b.allocations, PartOf(b, spend), s.allocations, PartOf(s, spend));
      assert units > 0 by { DueIsPositive(b, row, k, units, money); }
      assert StampDue(s, spend, units);
    } else {
      assert units > 0 by { DueIsPositive(b, row, k, units, money); }
      assert OldestLot(s, row.payment, row.user, k);
      assert Holds(s, row.user, row.payment, units, k);
    }
  }

  lemma DueIsPositive(b: Books, row: Request, k: nat, units: int, money: int)
    requires Due(b, row, row.payment, k, units, money)
    ensures units > 0 && row.payment in b.purchases && b.purchases[row.payment].owner == Some(row.user)
  {
  }

  /** The books after approval and claim, and what settling makes of them. */
  lemma DueSettles(b: Books, r: nat, k: nat, units: int, money: int) returns (s: Books)
    requires Inv(b) && r < |b.requests| && Waiting(b, r) && Due(b, b.requests[r], b.requests[r].payment, k, units, money) && FitsPrice(b, b.requests[r].payment, money)
    ensures s == StartProcessing(Approve(b, r, Full), r) && |s.requests| == |b.requests|
    ensures |MarkRefunded(s, r).requests| == |b.requests| && MarkRefunded(s, r).requests[r].status == Refunded
  {
    hide *;
    var row := b.requests[r];
    SoundBooks(b);
    EntitledApproval(b, r, row.payment, k, units, money);
    ApproveKeepsInv(b, r, Full);
    var approved := Approve(b, r, Full);
    GrantedRow(row, units, money);
    JobMoves(approved, r, false, false);
    ProcessingKeepsInv(approved, r, false, false);
    s := StartProcessing(approved, r);
    ClaimedBooks(b, approved, s, r, units, money);
    DueGoesThrough(b, r, k, units, money, s);
    DueIsPositive(b, row, k, units, money);
    PaidBooks(s, r);
  }

  lemma SoundBooks(b: Books)
    requires Inv(b)
    ensures Sound(b)
  {
  }

  lemma GrantedRow(row: Request, units: int, money: int)
    ensures var now := Granted(row, units, money);
      now.status == Approved && now.payment == row.payment && now.user == row.user
  {
  }

  lemma ClaimedBooks(b: Books, approved: Books, s: Books, r: nat, units: int, money: int)
    requires r < |b.requests| && approved == b.(requests := b.requests[r := Granted(b.requests[r], units, money)])
    requires OnlyRequest(approved, s, r, approved.requests[r].(status := Processing))
    ensures s == b.(requests := b.requests[r := Granted(b.requests[r], units, money).(status := Processing)])
  {
  }

  lemma PaidBooks(s: Books, r: nat)
    requires Inv(s) && r < |s.requests| && s.requests[r].status == Processing && s.requests[r].payment in s.purchases
    requires s.purchases[s.requests[r].payment].owner == Some(s.requests[r].user) && GoesThrough(s, r)
    ensures |MarkRefunded(s, r).requests| == |s.requests| && MarkRefunded(s, r).requests[r].status == Refunded
  {
    hide GoesThrough;
    hide EffectDone;
    hide Inv;
    SettledExactly(s, r);
    hide MarkRefunded;
  }

  lemma RefundStepsAre(b: Books, r: nat)
    ensures Run(b, RefundSteps(r)) == MarkRefunded(StartProcessing(Approve(b, r, Full), r), r)
  {
    RunThree(b, ApproveRequest(r, Full), StartJob(r), Settle(r));
    hide Run;
    hide Approve;
    hide StartProcessing;
    hide MarkRefunded;
  }

  /** A request that is due its money, approved, claimed and paid with nothing in between, ends refunded. */
  lemma DueIsRefunded(b: Books, r: nat)
    requires Inv(b) && Waiting(b, r) && DueAndFits(b, b.requests[r])
    ensures |Run(b, RefundSteps(r)).requests| == |b.requests| && Run(b, RefundSteps(r)).requests[r].status == Refunded
  {
    var row := b.requests[r];
    var k: nat, units, money :| Due(b, row, row.payment, k, units, money) && FitsPrice(b, row.payment, money);
    RefundStepsAre(b, r);
    hide *;
    var s := DueSettles(b, r, k, units, money);
  }
}

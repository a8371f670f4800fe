/** Cash refunds: approval, and the local effects once the provider has paid. */
module CreditFinalize {
  import opened Wrappers
  import opened Sums
  import opened CreditBooks
  import opened CreditRules
  import opened CreditInvariant
  import opened CreditSteps
  import opened LotPlan
  import Money = CashRefundMath

  // ----- request rows -----

  lemma SameMoneyKeepsInv(b: Books, r: nat, row: Request)
    requires Inv(b) && r < |b.requests| && RequestMove(b, r, row)
    ensures Inv(SetRequest(b, r, row))
  {
    hide Sound;
    MoveRequest(b, r, row);
    forall u ensures Balance(SetRequest(b, r, row), u) >= Remaining(SetRequest(b, r, row), u) {
      assert Balance(b, u) >= Remaining(b, u);
    }
  }

  lemma OpenRequestKeepsInv(b: Books, row: Request)
    requires Inv(b) && row.status == Requested && row.units.None?
    ensures Inv(b.(requests := b.requests + [row]))
  {
    hide Sound;
    AppendRequest(b, row);
    var after := b.(requests := b.requests + [row]);
    forall u ensures Balance(after, u) >= Remaining(after, u) { assert Balance(b, u) >= Remaining(b, u); }
  }

  /** An operation is only entitled to money while nothing was given back for its spend. */
  lemma EntitledSpendHasNoCreditRefund(b: Books, user: Id, spend: Key)
    requires Sound(b) && OperationEntitlement(b, user, spend).Ok?
    ensures forall j :: 0 <= j < |b.ledger| ==> b.ledger[j].source != Some(spend)
    ensures OperationEntitlement(b, user, spend).value.spend == Some(spend)
  {
  }

  lemma ApproveKeepsInv(b: Books, r: nat, mode: ApprovalMode)
    requires Inv(b)
    ensures Inv(Approve(b, r, mode))
  {
    if r < |b.requests| && b.requests[r].status == Requested && Approve(b, r, mode) != b {
      var was, row := b.requests[r], Approve(b, r, mode).requests[r];
      assert RequestOk(b, r);
      if row.status == Approved && row.scope == Operation {
        EntitledSpendHasNoCreditRefund(b, was.user, was.spend.value);
      }
      hide OperationEntitlement;
      hide RemainderEntitlement;
      SameMoneyKeepsInv(b, r, row);
    }
  }

  /** The snapshot of an approved request, against the books it was approved in. */
  ghost predicate CarriesSnapshot(b: Books, row: Request) {
    && row.units.Some? && row.units.value > 0 && row.amount.Some? && row.payment in b.purchases
    && (row.scope == Operation ==> row.spend.Some? && row.units.value == PaidUnits(b, row.spend.value))
    && FirstLot(b.lots, row.payment, Some(row.user)).Some?
    && var lot, already, price := b.lots[FirstLot(b.lots, row.payment, Some(row.user)).value],
                                  Sum(b.requests, CountedUnits(row.payment)), b.purchases[row.payment].price;
      && 0 <= already && already + row.units.value <= lot.grant
      && (row.scope == PurchaseRemainder ==> row.units.value == Min(lot.remaining, lot.grant - already))
      && row.amount.value == Money.Increment(price, lot.grant, already, row.units.value)
      && 0 < row.amount.value <= price - Sum(b.requests, CountedMoney(row.payment))
  }

  /**
   * An approved request carries a snapshot: positive units that still fit the lot's grant beside
   * everything counted, and their cumulative share of the price, within what the price still
   * allows. An operation's units are exactly its spend's paid units; a remainder's are all that is
   * left of the lot and not counted yet.
   */
  lemma ApprovedSnapshot(b: Books, r: nat, mode: ApprovalMode)
    requires r < |b.requests| && b.requests[r].status == Requested
    ensures Approve(b, r, mode).requests[r].status == Approved ==> CarriesSnapshot(b, Approve(b, r, mode).requests[r])
  {
    hide Money.CumulativeCashRefund;
    var row := Approve(b, r, mode).requests[r];
    if row.status == Approved {
      var grant := b.lots[FirstLot(b.lots, row.payment, Some(row.user)).value].grant;
      Money.IncrementIsComputed(b.purchases[row.payment].price, grant, Sum(b.requests, CountedUnits(row.payment)), row.units.value);
    }
  }

  /**
   * A spend is entitled to an operation refund exactly when it is the user's own, nothing was
   * given back or paid out for it, its paid allocations come from one purchase the user owns, and
   * their units still fit that grant and are worth at least one minor unit. In sound books the lot
   * is always there and the units are always positive.
   */
  lemma OperationEntitledExactly(b: Books, user: Id, spend: Key, payment: Id)
    requires Sound(b)
    ensures OperationEntitlement(b, user, spend).Ok? && OperationEntitlement(b, user, spend).value.payment == payment
      <==> Untouched(b, user, spend) && PaidBy(b, user, spend, payment) && WorthPaying(b, user, spend, payment)
    ensures OperationEntitlement(b, user, spend) != Err(LotMissing)
  {
    hide Sound;
    hide OperationEntitlement;
    hide Untouched;
    hide PaidBy;
    hide WorthPaying;
    LotIsNeverMissing(b, user, spend);
    EntitledOnlyIf(b, user, spend);
    if Untouched(b, user, spend) && PaidBy(b, user, spend, payment) && WorthPaying(b, user, spend, payment) {
      EntitledIf(b, user, spend, payment);
    }
  }

  lemma EntitledOnlyIf(b: Books, user: Id, spend: Key)
    requires Sound(b)
    ensures OperationEntitlement(b, user, spend).Ok? ==>
      var payment := OperationEntitlement(b, user, spend).value.payment;
      Untouched(b, user, spend) && PaidBy(b, user, spend, payment) && WorthPaying(b, user, spend, payment)
  {
    SpendRowFound(b, spend, user);
    hide Sound;
    hide SpendRow;
    hide PaidPurchase;
    hide FirstLot;
    hide BuildMoney;
    hide PaidUnits;
    hide AnyRestored;
    hide AnyStamped;
    hide CashRequestExists;
    hide OnePurchase;
    hide FindEntry;
  }

  lemma LotIsNeverMissing(b: Books, user: Id, spend: Key)
    requires Sound(b)
    ensures OperationEntitlement(b, user, spend) != Err(LotMissing)
  {
    SpendRowFound(b, spend, user);
    if SpendRow(b, spend, user) && AnyPaid(b, spend) {
      PaidSpendFacts(b, user, spend);
    }
    hide Sound;
    hide SpendRow;
    hide PaidPurchase;
    hide FirstLot;
    hide BuildMoney;
    hide PaidUnits;
    hide AnyRestored;
    hide AnyStamped;
    hide CashRequestExists;
    hide OnePurchase;
    hide FindEntry;
  }

  lemma EntitledIf(b: Books, user: Id, spend: Key, payment: Id)
    requires Sound(b) && Untouched(b, user, spend) && PaidBy(b, user, spend, payment) && WorthPaying(b, user, spend, payment)
    ensures OperationEntitlement(b, user, spend).Ok? && OperationEntitlement(b, user, spend).value.payment == payment
  {
    SpendRowFound(b, spend, user);
    PaidPurchaseIsOne(b, spend, |b.allocations|);
    PaidSpendFacts(b, user, spend);
    hide Sound;
    hide SpendRow;
    hide PaidPurchase;
    hide FirstLot;
    hide BuildMoney;
    hide PaidUnits;
    hide AnyRestored;
    hide AnyStamped;
    hide CashRequestExists;
    hide OnePurchase;
  }

  lemma SpendRowFound(b: Books, spend: Key, user: Id)
    requires LedgerOk(b)
    ensures SpendRow(b, spend, user)
      <==> FindEntry(b.ledger, spend).Some? && FindEntry(b.ledger, spend).value.user == user && FindEntry(b.ledger, spend).value.kind == Spend
  {
    if SpendRow(b, spend, user) { KeyOfSpendRow(b, spend, user); }
    if HasKey(b.ledger, spend) { var j := FindHits(b.ledger, spend); }
  }

  /** A paid spend has positive paid units, and a lot of its purchase that belongs to its user. */
  lemma PaidSpendFacts(b: Books, user: Id, spend: Key)
    requires Sound(b) && SpendRow(b, spend, user) && AnyPaid(b, spend)
    ensures PaidUnits(b, spend) > 0
    ensures forall p: Id :: OnePurchase(b, spend, p) ==> FirstLot(b.lots, p, Some(user)).Some?
  {
    var i :| 0 <= i < |b.allocations| && Paid(b, spend, i);
    assert AllocationOk(b, b.allocations[i]);
    KeyOfSpendRow(b, spend, b.lots[b.allocations[i].lot].user);
    KeyOfSpendRow(b, spend, user);
    PaidUnitsPositive(b, spend, i);
    PaidLotIsFound(b, spend, i);
  }

  /** The user's own spend, with nothing given back, stamped, or counted as paid out for it. */
  ghost predicate Untouched(b: Books, user: Id, spend: Key) {
    SpendRow(b, spend, user) && !CashRequestExists(b, spend) && !AnyRestored(b, spend) && !AnyStamped(b, spend)
  }

  ghost predicate PaidBy(b: Books, user: Id, spend: Key, payment: Id) {
    AnyPaid(b, spend) && OnePurchase(b, spend, payment) && Owns(b, user, payment)
  }

  ghost predicate WorthPaying(b: Books, user: Id, spend: Key, payment: Id) {
    var lot := FirstLot(b.lots, payment, Some(user));
    && payment in b.purchases && lot.Some?
    && Sum(b.requests, CountedUnits(payment)) + PaidUnits(b, spend) <= b.lots[lot.value].grant
    && BuildMoney(b, payment, b.lots[lot.value].grant, Sum(b.requests, CountedUnits(payment)), PaidUnits(b, spend)).Some?
  }

  lemma PaidLotIsFound(b: Books, spend: Key, i: nat)
    requires i < |b.allocations| && Paid(b, spend, i)
    ensures var lot := b.lots[b.allocations[i].lot]; FirstLot(b.lots, lot.purchase.value, Some(lot.user)).Some?
  {
    var k := b.allocations[i].lot;
    FirstLotIsOldest(b.lots, b.lots[k].purchase.value, Some(b.lots[k].user));
  }

  lemma {:induction false} PaidPurchaseIsOne(b: Books, spend: Key, n: nat)
    requires n <= |b.allocations|
    ensures forall p: Id :: OnePurchase(b, spend, p) && PaidPurchase(b, spend, n).Some? ==> PaidPurchase(b, spend, n) == Some(p)
  {
    if n > 0 { PaidPurchaseIsOne(b, spend, n - 1); }
  }

  /** From its approval on, an operation's cash refund keeps its spend from being refunded in credits. */
  lemma ApprovedOperationBlocksCreditRefund(b: Books, r: nat, mode: ApprovalMode, spend: Key)
    requires r < |b.requests| && b.requests[r].status == Requested
    requires b.requests[r].scope == Operation && b.requests[r].spend == Some(spend)
    ensures Approve(b, r, mode).requests[r].status == Approved ==>
      !CompensationAllowed(Approve(b, r, mode), spend) && !AnyStamped(b, spend) && !AnyRestored(b, spend)
  {
    if Approve(b, r, mode).requests[r].status == Approved {
      assert BlocksCompensation(Approve(b, r, mode).requests[r], spend);
    }
  }

  lemma ApproveLegacyKeepsInv(b: Books, r: nat, amount: nat)
    requires Inv(b)
    ensures Inv(ApproveLegacy(b, r, amount))
  {
    if ApproveLegacy(b, r, amount) != b {
      assert RequestOk(b, r);
      SameMoneyKeepsInv(b, r, b.requests[r].(status := Approved, amount := Some(amount)));
    }
  }

  lemma ReviewKeepsInv(b: Books, r: nat, marked: bool)
    requires Inv(b)
    ensures Inv(SendToReview(b, r, marked))
  {
    if SendToReview(b, r, marked) != b {
      SameMoneyKeepsInv(b, r, b.requests[r].(status := NeedsReview, marked := marked));
    }
  }

  lemma ProcessingKeepsInv(b: Books, r: nat, reference: bool, marked: bool)
    requires Inv(b)
    ensures Inv(StartProcessing(b, r)) && Inv(NoteAttempt(b, r, reference, marked))
  {
    if StartProcessing(b, r) != b {
      SameMoneyKeepsInv(b, r, b.requests[r].(status := Processing));
    }
    if NoteAttempt(b, r, reference, marked) != b {
      SameMoneyKeepsInv(b, r, NoteAttempt(b, r, reference, marked).requests[r]);
    }
  }

  // ----- lots held for a request -----

  lemma OneLotRewritten(b: Books, k: nat, lot: Lot)
    requires LotsOk(b) && k < |b.lots| && SameLot(b.lots[k], lot) && LotShape(lot)
    ensures LotsRewritten(b.lots, b.lots[k := lot])
  {
  }

  lemma RewriteKeepsInv(b: Books, lots: seq<Lot>)
    requires Inv(b) && LotsRewritten(b.lots, lots)
    requires forall k :: 0 <= k < |lots| ==> lots[k].remaining <= b.lots[k].remaining
    ensures Inv(b.(lots := lots))
  {
    hide Sound;
    RewriteLots(b, lots);
    var after := b.(lots := lots);
    forall u ensures Balance(after, u) >= Remaining(after, u) {
      assert Balance(b, u) >= Remaining(b, u);
      forall k | 0 <= k < |lots| ensures RemainingOf(u)(lots[k]) <= RemainingOf(u)(b.lots[k]) {
        assert SameLot(b.lots[k], lots[k]);
      }
      AtMost(lots, RemainingOf(u), b.lots, RemainingOf(u));
    }
  }

  lemma ReserveKeepsInv(b: Books, user: Id, purchase: Id, r: nat)
    requires Inv(b)
    ensures Reserve(b, user, purchase, r).Some? ==> Inv(Reserve(b, user, purchase, r).value)
  {
    if Reserve(b, user, purchase, r).Some? {
      var k := FirstLot(b.lots, purchase, Some(user)).value;
      var lot := b.lots[k].(reserved := b.lots[k].remaining, reservedFor := Some(r), status := Reserved);
      assert LotShape(b.lots[k]);
      OneLotRewritten(b, k, lot);
      hide Inv;
      hide LotsRewritten;
      RewriteKeepsInv(b, b.lots[k := lot]);
    }
  }

  lemma ReleaseKeepsInv(b: Books, r: nat)
    requires Inv(b)
    ensures Inv(Release(b, r))
  {
    forall k | 0 <= k < |b.lots| ensures LotShape(b.lots[k]) {}
    RewriteKeepsInv(b, Release(b, r).lots);
  }

  lemma FailKeepsInv(b: Books, r: nat)
    requires Inv(b)
    ensures Inv(MarkFailed(b, r))
  {
    hide Sound;
    ReleaseKeepsInv(b, r);
    var released := Release(b, r);
    if r < |b.requests| && InFlight(b.requests[r].status) {
      SameMoneyKeepsInv(released, r, b.requests[r].(status := Failed, marked := false));
    }
  }

  // ----- debits -----

  /** A request whose job ran has left the requested state for good. */
  ghost predicate Started(b: Books, r: nat) {
    r < |b.requests| && b.requests[r].status != Requested && b.requests[r].status != Rejected
  }

  /** Debiting one of the owner's lots together with a clawback row of the same units. */
  lemma DebitKeepsInv(b: Books, user: Id, purchase: Id, r: nat, k: nat, lot: Lot, units: int)
    requires Inv(b) && k < |b.lots| && b.lots[k].user == user && SameLot(b.lots[k], lot) && LotShape(lot)
    requires Started(b, r) && !HasKey(b.ledger, ClawbackOf(r))
    requires b.requests[r].units.Some? ==> b.requests[r].scope == PurchaseRemainder && units == b.requests[r].units.value
    requires lot.remaining <= b.lots[k].remaining - units
    ensures Inv(b.(ledger := b.ledger + [ClawbackRow(user, purchase, r, units)], lots := b.lots[k := lot]))
  {
    var lots := b.lots[k := lot];
    var row := ClawbackRow(user, purchase, r, units);
    var debited := b.(lots := lots);
    var after := debited.(ledger := b.ledger + [row]);
    OneLotRewritten(b, k, lot);
    RewriteLots(b, lots);
    hide Sound;
    hide LotsRewritten;
    AppendRow(debited, row);
    DebitKeepsBacking(b, row, k, lot, units);
    hide Backed;
  }

  lemma DebitKeepsBacking(b: Books, row: Entry, k: nat, lot: Lot, units: int)
    requires Backed(b) && k < |b.lots| && b.lots[k].user == lot.user == row.user && row.amount == -units
    requires lot.remaining <= b.lots[k].remaining - units
    ensures Backed(b.(ledger := b.ledger + [row], lots := b.lots[k := lot]))
  {
    var after := b.(ledger := b.ledger + [row], lots := b.lots[k := lot]);
    forall u ensures Balance(after, u) >= Remaining(after, u) {
      assert Balance(b, u) >= Remaining(b, u);
      Append(b.ledger, row, EntryAmount(u));
      Update(b.lots, k, lot, RemainingOf(u));
    }
  }

  lemma RemainderIsSettled(b: Books, user: Id, purchase: Id, r: nat, units: int)
    requires Inv(b) && Started(b, r) && b.requests[r].units == Some(units) && b.requests[r].scope == PurchaseRemainder
    ensures var (after, effect) := FinalizeRemainder(b, user, purchase, r, units);
      && Inv(after) && after.requests == b.requests && after.purchases == b.purchases
      && (effect.Violated? ==> after == b)
      && (effect.Applied? ==> EffectApplied(after, r))
  {
    if HasKey(b.ledger, ClawbackOf(r)) {
      var j := FindHits(b.ledger, ClawbackOf(r));
      assert TraceOk(b, r);
    } else {
      var (after, effect) := FinalizeRemainder(b, user, purchase, r, units);
      if effect.Applied? {
        var k := FirstLot(b.lots, purchase, Some(user)).value;
        assert LotShape(b.lots[k]);
        DebitKeepsInv(b, user, purchase, r, k, DebitedLot(b.lots[k], units), units);
        assert after.ledger[|b.ledger|] == ClawbackRow(user, purchase, r, units);
      }
    }
  }

  lemma StampKeepsInv(b: Books, spend: Key, r: nat)
    requires Inv(b) && Stampable(b, spend, r)
    ensures Inv(StampPaid(b, spend, r)) && EffectApplied(StampPaid(b, spend, r), r)
  {
    var after := StampPaid(b, spend, r);
    StampStep(b, spend, r);
    hide Sound;
    forall i | 0 <= i < |b.allocations| && b.allocations[i].spend == spend ensures !b.allocations[i].restored {
      assert OfSpendAt(b, spend, i);
    }
    forall u ensures Balance(after, u) >= Remaining(after, u) { assert Balance(b, u) >= Remaining(b, u); }
  }

  /** A spend already stamped by this request carries its whole effect. */
  lemma StampedIsApplied(b: Books, spend: Key, r: nat)
    requires Inv(b) && r < |b.requests| && b.requests[r].units.Some? && AnyPaid(b, spend) && AllPaidStampedBy(b, spend, r)
    ensures EffectApplied(b, r)
  {
    var i :| 0 <= i < |b.allocations| && Paid(b, spend, i);
    assert b.allocations[i].cash == Some(r) && TraceOk(b, r);
  }

  lemma OperationIsSettled(b: Books, r: nat)
    requires Inv(b) && Started(b, r) && b.requests[r].units.Some? && b.requests[r].scope == Operation
    ensures var (after, effect) := FinalizeOperation(b, r, b.requests[r].spend, b.requests[r].units.value);
      && Inv(after) && after.requests == b.requests && after.purchases == b.purchases
      && (effect.Violated? ==> after == b)
      && (effect.Applied? ==> EffectApplied(after, r))
  {
    hide Inv;
    hide EffectApplied;
    var row := b.requests[r];
    var effect := FinalizeOperation(b, r, row.spend, row.units.value).1;
    if effect.Applied? {
      if effect.already {
        StampedIsApplied(b, row.spend.value, r);
      } else {
        StampKeepsInv(b, row.spend.value, r);
      }
    }
  }

  /** The legacy clawback only ever takes a lot nobody spent from: remaining equals the full grant. */
  lemma LegacyClawsFullGrant(b: Books, user: Id, purchase: Id, r: nat)
    requires Inv(b) && FirstLot(b.lots, purchase, None).Some?
    ensures var k := FirstLot(b.lots, purchase, None).value;
      var plan := PlanClawback(user, purchase, r, Some(b.lots[k]), HasKey(b.ledger, ClawbackOf(r)));
      plan.Claw? ==>
        && plan.units == b.lots[k].grant == b.lots[k].remaining
        && b.lots[k].user == user && !HasKey(b.ledger, ClawbackOf(r))
  {
    var k := FirstLot(b.lots, purchase, None).value;
    assert LotShape(b.lots[k]) && Conserved(b, k);
    forall i | 0 <= i < |b.allocations| ensures Outstanding(k)(b.allocations[i]) >= 0 { assert AllocationOk(b, b.allocations[i]); }
    NonNegative(b.allocations, Outstanding(k));
  }

  lemma LegacyIsSettled(b: Books, user: Id, purchase: Id, r: nat)
    requires Inv(b) && Started(b, r) && b.requests[r].units.None?
    ensures var (after, effect) := FinalizeLegacy(b, user, purchase, r);
      && Inv(after) && after.requests == b.requests && after.purchases == b.purchases
      && (effect.Violated? ==> after == b)
  {
    var found := FirstLot(b.lots, purchase, None);
    if found.Some? {
      var k := found.value;
      LegacyClawsFullGrant(b, user, purchase, r);
      assert LotShape(b.lots[k]);
      match PlanClawback(user, purchase, r, Some(b.lots[k]), HasKey(b.ledger, ClawbackOf(r)))
      case Refuse(_) =>
      case Settled(_, mark) =>
        if mark {
          var lots := b.lots[k := ClawedLot(b.lots[k], 0)];
          OneLotRewritten(b, k, ClawedLot(b.lots[k], 0));
          RewriteKeepsInv(b, lots);
        }
      case Claw(units) =>
        if Balance(b, user) >= units {
          DebitKeepsInv(b, user, purchase, r, k, ClawedLot(b.lots[k], units), units);
        }
    }
  }

  /** Local effects are all or nothing, and a request with a snapshot has its effect once they succeed. */
  lemma EffectsAreSettled(b: Books, user: Id, purchase: Id, r: nat)
    requires Inv(b) && Started(b, r)
    ensures var (after, effect) := FinalizeEffects(b, user, purchase, r);
      && Inv(after) && after.requests == b.requests && after.purchases == b.purchases
      && (effect.Violated? ==> after == b)
      && (effect.Applied? && b.requests[r].units.Some? ==> EffectApplied(after, r))
  {
    hide Sound;
    var row := b.requests[r];
    if row.user == user && row.payment == purchase {
      if row.units.None? { LegacyIsSettled(b, user, purchase, r); }
      else if row.scope == Operation { OperationIsSettled(b, r); }
      else { RemainderIsSettled(b, user, purchase, r, row.units.value); }
    }
  }

  /** Marking a request refunded keeps the invariant: it happens together with the local effect, or not at all. */
  lemma MarkRefundedKeepsInv(b: Books, r: nat)
    requires Inv(b) && Started(b, r)
    ensures Inv(MarkRefunded(b, r))
  {
    hide Sound;
    hide Backed;
    var payment := b.requests[r].payment;
    ReviewKeepsInv(b, r, false);
    if payment in b.purchases {
      var owner := b.purchases[payment].owner;
      if owner.Some? { EffectsAreSettled(b, owner.value, payment, r); }
      var (after, effect) := if owner.Some? then FinalizeEffects(b, owner.value, payment, r) else (b, Applied(0, true));
      if effect.Applied? && InFlight(after.requests[r].status) {
        SameMoneyKeepsInv(after, r, after.requests[r].(status := Refunded, reference := true, marked := false));
      }
    }
  }

  lemma PaidUnitsPositive(b: Books, spend: Key, p: nat)
    requires AllocationsOk(b) && p < |b.allocations| && Paid(b, spend, p)
    ensures PaidUnits(b, spend) > 0
  {
    forall i | 0 <= i < |b.allocations| ensures PaidAmount(b.lots, spend)(b.allocations[i]) >= 0 {
      assert AllocationOk(b, b.allocations[i]);
    }
    Share(b.allocations, p, PaidAmount(b.lots, spend));
  }

  /**
   * Running the local effects of a refunded request again changes nothing: its clawback row or
   * its stamps are already there, and are recognised.
   */
  lemma RefundedEffectsAreFinal(b: Books, r: nat)
    requires Inv(b) && r < |b.requests| && b.requests[r].units.Some? && EffectApplied(b, r)
    ensures var row := b.requests[r];
      FinalizeEffects(b, row.user, row.payment, r)
        == (b, Applied(if row.scope == Operation then 0 else Abs(row.units.value), true))
  {
    var row := b.requests[r];
    if row.scope == Operation {
      var spend := row.spend.value;
      var p :| 0 <= p < |b.allocations| && Paid(b, spend, p);
      assert AllocationOk(b, b.allocations[p]);
      assert b.allocations[p].cash == Some(r);
      assert !AnyRestored(b, spend);
      PaidUnitsPositive(b, spend, p);
    } else {
      var j :| 0 <= j < |b.ledger| && b.ledger[j].key == ClawbackOf(r) && b.ledger[j].amount == -row.units.value;
      FindRow(b.ledger, j);
    }
  }
}

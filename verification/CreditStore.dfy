/** The tables as they are updated in place, one method per source function. */
module CreditStore {
  import opened Wrappers
  import opened Sums
  import opened CreditBooks
  import opened CreditRules
  import opened CreditInvariant
  import opened CreditFinalize
  import opened CreditRuns
  import opened LotPlan

  class Store {
    var ledger: seq<Entry>
    var lots: seq<Lot>
    var allocations: seq<Allocation>
    var requests: seq<Request>
    var purchases: map<Id, PurchaseRow>

    function View(): Books
      reads this
    {
      Books(ledger, lots, allocations, requests, purchases)
    }

    constructor (b: Books)
      ensures View() == b
    {
      ledger, lots, allocations, requests, purchases := b.ledger, b.lots, b.allocations, b.requests, b.purchases;
    }

    /** A transaction that throws leaves the tables as it found them. */
    method Rollback(saved: Books)
      modifies this
      ensures View() == saved
    {
      ledger, lots, allocations, requests, purchases := saved.ledger, saved.lots, saved.allocations, saved.requests, saved.purchases;
    }

    // ----- lots -----

    method EnsureLotForGrant(grant: Entry)
      modifies this`lots
      ensures View() == EnsureLot(old(View()), grant)
    {
      if grant.amount <= 0 {
        return;
      }
      var k := 0;
      while k < |lots|
        invariant 0 <= k <= |lots| && lots == old(lots)
        invariant forall n :: 0 <= n < k ==> lots[n].entry != grant.key
      {
        if lots[k].entry == grant.key {
          return;
        }
        k := k + 1;
      }
      lots := lots + [Lot(grant.user, grant.purchase, grant.key, grant.amount, grant.amount, 0, None, Open, grant.at, 0, 0)];
    }

    /** The first match in creation order; among equal times the one inserted first. */
    method FindFirstLot(purchase: Id, user: Option<Id>) returns (found: Option<nat>)
      ensures found == FirstLot(lots, purchase, user)
      ensures found.Some? ==> OldestMatch(lots, purchase, user, found.value)
      ensures found.None? ==> forall n :: 0 <= n < |lots| ==> !OfPurchase(lots[n], purchase, user)
    {
      found := None;
      var n := 0;
      while n < |lots|
        invariant 0 <= n <= |lots|
        invariant found == FirstLot(lots[..n], purchase, user)
      {
        assert lots[..n + 1][..n] == lots[..n];
        if OfPurchase(lots[n], purchase, user) && (found.None? || lots[n].createdAt < lots[found.value].createdAt) {
          found := Some(n);
        }
        n := n + 1;
      }
      assert lots[..n] == lots;
      FirstLotIsOldest(lots, purchase, user);
    }

    /** Subtract from a lot only if it is not clawed and still holds enough. */
    method TakeFromLot(d: Draw) returns (count: nat)
      modifies this`lots
      ensures count == if CanDraw(old(View()), d) then 1 else 0
      ensures if CanDraw(old(View()), d) then lots == old(lots)[d.lot := old(lots)[d.lot].(remaining := old(lots)[d.lot].remaining - d.amount)]
              else lots == old(lots)
    {
      if d.lot < |lots| && lots[d.lot].status != Clawed && lots[d.lot].remaining >= d.amount {
        lots := lots[d.lot := lots[d.lot].(remaining := lots[d.lot].remaining - d.amount)];
        return 1;
      }
      return 0;
    }

    /** Fails exactly when there is no plan or a planned lot changed; then the caller rolls back. */
    method ConsumeLotsForSpend(user: Id, spend: Key, amount: int, balanceBefore: int) returns (ok: bool)
      modifies this`lots, this`allocations
      ensures ok <==> ConsumeLots(old(View()), user, spend, amount, balanceBefore).Some?
      ensures ok ==> View() == ConsumeLots(old(View()), user, spend, amount, balanceBefore).value
    {
      hide LoadLots;
      hide PlanFifo;
      var loaded := LoadLots(lots, user);
      var plan := PlanFifoLotConsumption(loaded, UnlottedUnits(balanceBefore, Sum(loaded, RowRemaining())), amount);
      if plan.None? {
        return false;
      }
      var draws := plan.value.draws;
      var i := 0;
      while i < |draws|
        invariant 0 <= i <= |draws|
        invariant ConsumeDraws(old(View()), spend, draws) == ConsumeDraws(View(), spend, draws[i..])
      {
        assert draws[i..][1..] == draws[i + 1..];
        var count := TakeFromLot(draws[i]);
        if count != 1 {
          return false;
        }
        allocations := allocations + [Allocation(draws[i].lot, spend, draws[i].amount, false, None)];
        i := i + 1;
      }
      return true;
    }

    method RestoreAllocation(spend: Key, i: nat)
      requires i < |allocations|
      modifies this`allocations, this`lots
      ensures View() == RestoreOne(old(View()), spend, i)
    {
      var a := allocations[i];
      if a.spend != spend || a.restored || a.cash.Some? {
        return;
      }
      allocations := allocations[i := a.(restored := true)];
      if a.lot >= |lots| {
        return;
      }
      lots := lots[a.lot := RestoredLot(lots[a.lot], a.amount)];
    }

    method RestoreLotsForSpend(spend: Key)
      modifies this`allocations, this`lots
      ensures View() == Restore(old(View()), spend)
    {
      var n := |allocations|;
      var i := 0;
      while i < n
        invariant 0 <= i <= n == old(|allocations|) == |allocations|
        invariant View() == RestoreUpTo(old(View()), spend, i)
      {
        RestoreAllocation(spend, i);
        i := i + 1;
      }
    }

    method RestoreLotsForSource(user: Id, source: Option<Key>)
      modifies this`allocations, this`lots
      ensures View() == RestoreForSource(old(View()), user, source)
    {
      var spend := ResolveSpend(ledger, user, source);
      if spend.Some? {
        RestoreLotsForSpend(spend.value);
      }
    }

    // ----- ledger writes -----

    /** A row under a fresh key. When it throws, whatever it wrote so far is the caller's to roll back. */
    method CreateEntry(input: Input) returns (result: WriteResult)
      modifies this`ledger, this`lots, this`allocations
      ensures result == WriteFresh(old(View()), input).1
      ensures result == Written ==> View() == WriteFresh(old(View()), input).0
    {
      hide ConsumeLots;
      hide RestoreForSource;
      if input.kind == Purchase {
        var row := Row(input, input.amount, None);
        ledger := ledger + [row];
        EnsureLotForGrant(row);
      } else if input.kind == Refund {
        var spend := ResolveSpend(ledger, input.user, input.source);
        if spend.Some? && !CompensationAllowed(View(), spend.value) {
          return SpendAlreadyCashRefunded;
        }
        ledger := ledger + [Row(input, input.amount, spend)];
        RestoreLotsForSource(input.user, input.source);
      } else {
        var balance := Balance(View(), input.user);
        if balance < input.amount {
          return InsufficientCredits;
        }
        ledger := ledger + [Row(input, -input.amount, None)];
        var ok := ConsumeLotsForSpend(input.user, input.key, input.amount, balance);
        if !ok {
          return InsufficientCredits;
        }
      }
      return Written;
    }

    /** The write as a step of a caller's transaction. */
    method WriteLedgerEntry(input: Input) returns (result: WriteResult)
      modifies this`ledger, this`lots, this`allocations
      ensures result == WriteEntry(old(View()), input).1
      ensures result == Written || result == Duplicate ==> View() == WriteEntry(old(View()), input).0
    {
      hide WriteFresh;
      var duplicate := FindEntry(ledger, input.key);
      if duplicate.None? {
        result := CreateEntry(input);
        NeverDuplicate(old(View()), input);
        return;
      }
      if input.kind == Purchase {
        EnsureLotForGrant(duplicate.value);
      } else if input.kind == Refund {
        RestoreLotsForSource(input.user, input.source);
      }
      return Duplicate;
    }

    /** The write as its own transaction. */
    method WriteIdempotentTransaction(input: Input) returns (result: WriteResult)
      modifies this
      ensures View() == WriteOnce(old(View()), input).0 && result == WriteOnce(old(View()), input).1
    {
      hide WriteFresh;
      if FindEntry(ledger, input.key).Some? {
        if input.kind == Refund {
          RestoreLotsForSource(input.user, input.source);
        }
        return Duplicate;
      }
      var saved := View();
      result := WriteLedgerEntry(input);
      ThrowChangesNothing(saved, input);
      if result == InsufficientCredits || result == SpendAlreadyCashRefunded {
        Rollback(saved);
      }
    }

    method RefundOriginalSpend(user: Id, spendKey: Key, refundKey: Key) returns (result: RefundResult)
      modifies this
      ensures View() == RefundSpend(old(View()), user, spendKey, refundKey).0
      ensures result == RefundSpend(old(View()), user, spendKey, refundKey).1
    {
      hide WriteOnce;
      var spend := FindEntry(ledger, spendKey);
      var existing := FindEntry(ledger, refundKey);
      var units := if existing.Some? then Some(Abs(existing.value.amount)) else OriginalUnits(spend);
      if units.None? || units.value == 0 {
        return NothingToRefund(units);
      }
      var written := WriteIdempotentTransaction(RefundInput(user, units.value, spendKey, refundKey));
      if written == SpendAlreadyCashRefunded {
        return BlockedByCashRefund;
      }
      return CreditRefunded(units.value);
    }

    // ----- lots held for a request -----

    method ReservePurchaseLotForRefund(user: Id, purchase: Id, r: nat) returns (ok: bool)
      modifies this`lots
      ensures ok <==> Reserve(old(View()), user, purchase, r).Some?
      ensures View() == if ok then Reserve(old(View()), user, purchase, r).value else old(View())
    {
      var found := FindFirstLot(purchase, Some(user));
      if found.None? {
        return false;
      }
      var lot := lots[found.value];
      if lot.status != Open || lot.reserved != 0 || lot.reservedFor.Some? || lot.remaining != lot.grant {
        return false;
      }
      // A request id reserves at most one lot: the column is unique.
      if exists j :: 0 <= j < |lots| && lots[j].reservedFor == Some(r) {
        return false;
      }
      lots := lots[found.value := lot.(reserved := lot.remaining, reservedFor := Some(r), status := Reserved)];
      return true;
    }

    method ReleasePurchaseLotReservation(r: nat)
      modifies this`lots
      ensures View() == Release(old(View()), r)
    {
      var k := 0;
      while k < |lots|
        invariant 0 <= k <= |lots| == old(|lots|)
        invariant forall n :: 0 <= n < k ==> lots[n] == Release(old(View()), r).lots[n]
        invariant forall n :: k <= n < |lots| ==> lots[n] == old(lots)[n]
      {
        if HeldFor(lots[k], r) {
          lots := lots[k := lots[k].(reserved := 0, reservedFor := None, status := Open)];
        }
        k := k + 1;
      }
    }

    // ----- local effects of a monetary refund -----

    method FinalizeCreditPackRefundClawback(user: Id, purchase: Id, r: nat) returns (effect: Effect)
      modifies this`ledger, this`lots
      ensures View() == FinalizeLegacy(old(View()), user, purchase, r).0 && effect == FinalizeLegacy(old(View()), user, purchase, r).1
    {
      var existing := HasKey(ledger, ClawbackOf(r));
      var k := FindFirstLot(purchase, None);
      var plan := PlanClawback(user, purchase, r, if k.None? then None else Some(lots[k.value]), existing);
      if plan.Refuse? {
        return Violated(plan.why);
      }
      if plan.Settled? {
        if plan.markClawed && k.Some? {
          lots := lots[k.value := ClawedLot(lots[k.value], 0)];
        }
        return Applied(plan.units, true);
      }
      if Balance(View(), user) < plan.units {
        return Violated(InsufficientLedgerBalance);
      }
      ledger := ledger + [ClawbackRow(user, purchase, r, plan.units)];
      if k.Some? {
        lots := lots[k.value := ClawedLot(lots[k.value], plan.units)];
      }
      return Applied(plan.units, false);
    }

    /** Mark one allocation as paid out, only if it was neither stamped nor given back. */
    method StampAllocation(i: nat, r: nat) returns (count: nat)
      requires i < |allocations|
      modifies this`allocations
      ensures var a := old(allocations)[i];
        if a.cash.None? && !a.restored then count == 1 && allocations == old(allocations)[i := a.(cash := Some(r))]
        else count == 0 && allocations == old(allocations)
    {
      if allocations[i].cash.Some? || allocations[i].restored {
        return 0;
      }
      allocations := allocations[i := allocations[i].(cash := Some(r))];
      return 1;
    }

    method FinalizeOperationCashEffects(r: nat, spend: Option<Key>, expected: int) returns (effect: Effect)
      modifies this`allocations
      ensures View() == FinalizeOperation(old(View()), r, spend, expected).0 && effect == FinalizeOperation(old(View()), r, spend, expected).1
    {
      hide PaidUnits;
      if spend.None? || expected <= 0 {
        return Violated(OperationIncomplete);
      }
      var b, key := View(), spend.value;
      if AnyRestored(b, key) {
        return Violated(OperationCreditCompensated);
      }
      if AnyPaid(b, key) && AllPaidStampedBy(b, key, r) {
        return Applied(0, true);
      }
      if AnyPaidStamped(b, key) {
        return Violated(OperationCashRefunded);
      }
      if PaidUnits(b, key) != expected {
        return Violated(OperationUnitsMismatch);
      }
      StampAllPaid(key, r);
      return Applied(0, false);
    }

    /** The stamping loop: with nothing stamped or given back before, every conditional update hits. */
    method StampAllPaid(spend: Key, r: nat)
      requires !AnyRestored(View(), spend) && !AnyPaidStamped(View(), spend)
      modifies this`allocations
      ensures View() == StampPaid(old(View()), spend, r)
    {
      ghost var before := View();
      var i := 0;
      while i < |allocations|
        invariant 0 <= i <= |allocations| == |before.allocations| && lots == before.lots
        invariant forall n :: 0 <= n < i ==> allocations[n] == StampedAllocation(before, spend, n, r)
        invariant forall n :: i <= n < |allocations| ==> allocations[n] == before.allocations[n]
      {
        if Paid(View(), spend, i) {
          assert Paid(before, spend, i) && OfSpendAt(before, spend, i);
          var count := StampAllocation(i, r);
          assert count == 1;
        }
        i := i + 1;
      }
    }

    method FinalizePurchaseRemainderEffects(user: Id, purchase: Id, r: nat, units: int) returns (effect: Effect)
      modifies this`ledger, this`lots
      ensures View() == FinalizeRemainder(old(View()), user, purchase, r, units).0
      ensures effect == FinalizeRemainder(old(View()), user, purchase, r, units).1
    {
      var existing := FindEntry(ledger, ClawbackOf(r));
      if existing.Some? {
        return Applied(Abs(existing.value.amount), true);
      }
      if units <= 0 {
        return Violated(RemainderUnitsInvalid);
      }
      var found := FindFirstLot(purchase, Some(user));
      if found.None? {
        return Violated(RemainderLotMissing);
      }
      var k := found.value;
      if lots[k].remaining < units || Balance(View(), user) < units {
        return Violated(CreditsConsumed);
      }
      lots := lots[k := lots[k].(remaining := lots[k].remaining - units, debited := lots[k].debited + units)];
      if lots[k].remaining == 0 {
        lots := lots[k := lots[k].(reserved := 0, reservedFor := None, status := Clawed)];
      }
      ledger := ledger + [ClawbackRow(user, purchase, r, units)];
      return Applied(units, false);
    }

    method FinalizeUserCashRefundLocalEffects(user: Id, purchase: Id, r: nat) returns (effect: Effect)
      modifies this`ledger, this`lots, this`allocations
      ensures View() == FinalizeEffects(old(View()), user, purchase, r).0 && effect == FinalizeEffects(old(View()), user, purchase, r).1
    {
      hide FinalizeLegacy;
      hide FinalizeOperation;
      hide FinalizeRemainder;
      if r >= |requests| || requests[r].user != user || requests[r].payment != purchase {
        return Violated(RefundRowMismatch);
      }
      var row := requests[r];
      if row.units.None? {
        effect := FinalizeCreditPackRefundClawback(user, purchase, r);
      } else if row.scope == Operation {
        effect := FinalizeOperationCashEffects(r, row.spend, row.units.value);
      } else {
        effect := FinalizePurchaseRemainderEffects(user, purchase, r, row.units.value);
      }
    }

    // ----- request statuses -----

    method MarkNeedsReview(r: nat, marked: bool)
      modifies this`requests
      ensures View() == SendToReview(old(View()), r, marked)
    {
      if r < |requests| && InFlight(requests[r].status) {
        requests := requests[r := requests[r].(status := NeedsReview, marked := marked)];
      }
    }

    /** One transaction for the local effects and the status; a violation rolls it back and asks for review. */
    method MarkRequestRefunded(r: nat)
      modifies this
      ensures View() == MarkRefunded(old(View()), r)
    {
      hide FinalizeEffects;
      if r >= |requests| {
        return;
      }
      var payment := requests[r].payment;
      if payment !in purchases {
        MarkNeedsReview(r, false);
        return;
      }
      var saved := View();
      var owner := purchases[payment].owner;
      if owner.Some? {
        var effect := FinalizeUserCashRefundLocalEffects(owner.value, payment, r);
        if effect.Violated? {
          Rollback(saved);
          MarkNeedsReview(r, false);
          return;
        }
      }
      if InFlight(requests[r].status) {
        requests := requests[r := requests[r].(status := Refunded, reference := true, marked := false)];
      }
    }

    method MarkRequestFailed(r: nat)
      modifies this`lots, this`requests
      ensures View() == MarkFailed(old(View()), r)
    {
      ReleasePurchaseLotReservation(r);
      if r < |requests| && InFlight(requests[r].status) {
        requests := requests[r := requests[r].(status := Failed, marked := false)];
      }
    }

    // ----- whole histories on the store -----

    /** Any disciplined call, run on tables that satisfy the invariant, is the abstract step and keeps the invariant. */
    method Execute(c: Command)
      requires Inv(View()) && Disciplined(View(), c)
      modifies this
      ensures View() == Apply(old(View()), c) && Inv(View())
    {
      hide Inv;
      hide Disciplined;
      StepKeepsInv(View(), c);
      match c
      case Write(input) => var _ := WriteIdempotentTransaction(input);
      case WriteInTransaction(input) => ExecuteInTransaction(input);
      case RefundOriginal(user, spendKey, refundKey) => var _ := RefundOriginalSpend(user, spendKey, refundKey);
      case ReserveLot(user, purchase, r) => var _ := ReservePurchaseLotForRefund(user, purchase, r);
      case Review(r, marked) => MarkNeedsReview(r, marked);
      case FailRequest(r) => MarkRequestFailed(r);
      case Settle(r) => MarkRequestRefunded(r);
      // The API opens, rejects and approves requests; the job claims and marks them: request rows only.
      case _ => requests := Apply(View(), c).requests;
    }

    /** A caller's transaction around one ledger write, rolled back when the write throws. */
    method ExecuteInTransaction(input: Input)
      modifies this
      ensures View() == WriteEntry(old(View()), input).0
    {
      var saved := View();
      var result := WriteLedgerEntry(input);
      ThrowChangesNothing(saved, input);
      if result == InsufficientCredits || result == SpendAlreadyCashRefunded {
        Rollback(saved);
      }
    }
  }

  lemma NeverDuplicate(b: Books, input: Input)
    ensures WriteFresh(b, input).1 != Duplicate
  {
  }

  /** A write that throws is, seen from outside, a write that did not happen. */
  lemma ThrowChangesNothing(b: Books, input: Input)
    ensures var (after, result) := WriteEntry(b, input);
      result == InsufficientCredits || result == SpendAlreadyCashRefunded ==> after == b
  {
  }
}

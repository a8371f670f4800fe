/** Exactly when a refund request is approved, for how much, and what happens to it otherwise. */
module CreditApproval {
  import opened Wrappers
  import opened Sums
  import opened CreditBooks
  import opened CreditRules
  import opened CreditInvariant
  import opened CreditSteps
  import opened CreditFinalize
  import Money = CashRefundMath

  // ----- what was paid out before -----

  ghost predicate PaysFor(r: Request, p: Id) {
    r.payment == p && (r.status == Approved || r.status == Processing || r.status == Refunded)
  }

  ghost function UnitsPaid(p: Id): Request -> int { (r: Request) => if PaysFor(r, p) && r.units.Some? then r.units.value else 0 }

  ghost function MoneyPaid(p: Id): Request -> int { (r: Request) => if PaysFor(r, p) && r.amount.Some? then r.amount.value else 0 }

  ghost function Already(b: Books, p: Id): int { Sum(b.requests, UnitsPaid(p)) }

  lemma CountedExactly(b: Books, p: Id)
    ensures Sum(b.requests, CountedUnits(p)) == Already(b, p)
    ensures Sum(b.requests, CountedMoney(p)) == Sum(b.requests, MoneyPaid(p))
  {
    Equal(b.requests, CountedUnits(p), b.requests, UnitsPaid(p));
    Equal(b.requests, CountedMoney(p), b.requests, MoneyPaid(p));
  }

  /** The money of some units is their positive increment of the price, beside the units paid out before. */
  ghost predicate Worth(b: Books, p: Id, grant: int, units: int, money: int) {
    && p in b.purchases && units > 0 && Already(b, p) >= 0 && Already(b, p) + units <= grant
    && money == Money.Increment(b.purchases[p].price, grant, Already(b, p), units) && money > 0
  }

  lemma BuildMoneyExactly(b: Books, p: Id, grant: int, units: int, money: int)
    requires p in b.purchases && units > 0
    ensures BuildMoney(b, p, grant, Already(b, p), units) == Some(money) <==> Worth(b, p, grant, units, money)
  {
    hide Money.CumulativeCashRefund;
    hide Money.Increment;
    Money.IncrementIsComputed(b.purchases[p].price, grant, Already(b, p), units);
  }

  lemma OldestIsFirst(b: Books, p: Id, user: Id, k: nat)
    ensures FirstLot(b.lots, p, Some(user)) == Some(k) <==> OldestLot(b, p, user, k)
  {
    FirstLotIsOldest(b.lots, p, Some(user));
    var found := FirstLot(b.lots, p, Some(user));
    if OldestLot(b, p, user, k) {
      assert Belongs(b.lots[k], p, user) && OfPurchase(b.lots[k], p, Some(user));
      assert OfPurchase(b.lots[found.value], p, Some(user)) && Belongs(b.lots[found.value], p, user);
    }
    if found == Some(k) {
      forall n | 0 <= n < |b.lots| && Belongs(b.lots[n], p, user) ensures !Before(b.lots, n, k) { assert OfPurchase(b.lots[n], p, Some(user)); }
    }
  }

  ghost predicate Belongs(lot: Lot, p: Id, user: Id) { lot.purchase == Some(p) && lot.user == user }

  ghost predicate Before(lots: seq<Lot>, n: nat, k: nat)
    requires n < |lots| && k < |lots|
  {
    lots[n].createdAt < lots[k].createdAt || (lots[n].createdAt == lots[k].createdAt && n < k)
  }

  /** The user's oldest lot of a purchase, the first inserted among equally old ones. */
  ghost predicate OldestLot(b: Books, p: Id, user: Id, k: nat) {
    k < |b.lots| && Belongs(b.lots[k], p, user) && forall n :: 0 <= n < |b.lots| && Belongs(b.lots[n], p, user) ==> !Before(b.lots, n, k)
  }

  // ----- the unused rest of a purchase -----

  /** The user owns the purchase, and these units are what is left of its lot and was not paid out, worth this much. */
  ghost predicate RemainderDue(b: Books, user: Id, p: Id, k: nat, units: int, money: int) {
    && p in b.purchases && b.purchases[p].owner == Some(user) && OldestLot(b, p, user, k)
    && units == (if b.lots[k].remaining <= b.lots[k].grant - Already(b, p) then b.lots[k].remaining else b.lots[k].grant - Already(b, p))
    && Worth(b, p, b.lots[k].grant, units, money)
  }

  lemma RemainderEntitledExactly(b: Books, user: Id, p: Id, k: nat, units: int, money: int)
    ensures RemainderDue(b, user, p, k, units, money) ==> RemainderEntitlement(b, user, p) == Ok(Entitlement(p, units, money, None))
  {
    CountedExactly(b, p);
    OldestIsFirst(b, p, user, k);
    if RemainderDue(b, user, p, k, units, money) { BuildMoneyExactly(b, p, b.lots[k].grant, units, money); }
    hide FirstLot;
    hide BuildMoney;
    hide OldestLot;
  }

  lemma RemainderEntitled(b: Books, user: Id, p: Id) returns (k: nat)
    requires RemainderEntitlement(b, user, p).Ok?
    ensures var e := RemainderEntitlement(b, user, p).value;
      e.payment == p && e.spend == None && RemainderDue(b, user, p, k, e.units, e.money)
  {
    CountedExactly(b, p);
    k := FirstLot(b.lots, p, Some(user)).value;
    OldestIsFirst(b, p, user, k);
    var e := RemainderEntitlement(b, user, p).value;
    BuildMoneyExactly(b, p, b.lots[k].grant, e.units, e.money);
    hide FirstLot;
    hide BuildMoney;
    hide OldestLot;
  }

  // ----- one exact spend -----

  ghost predicate PaidPart(b: Books, spend: Key, a: Allocation) { a.spend == spend && a.lot < |b.lots| && b.lots[a.lot].purchase.Some? }

  ghost function PartOf(b: Books, spend: Key): Allocation -> int { (a: Allocation) => if PaidPart(b, spend, a) then a.amount else 0 }

  ghost predicate Intact(a: Allocation, spend: Key) { a.spend == spend ==> !a.restored && a.cash.None? }

  ghost predicate PaysForSpend(r: Request, spend: Key) {
    r.spend == Some(spend) && (r.status == Approved || r.status == Processing || r.status == Refunded)
  }

  /** The spend is the user's, and nothing was given back, stamped or counted as paid out for it. */
  ghost predicate SpendIntact(b: Books, user: Id, spend: Key) {
    && SpendRow(b, spend, user)
    && (forall r :: 0 <= r < |b.requests| ==> !PaysForSpend(b.requests[r], spend))
    && (forall i :: 0 <= i < |b.allocations| ==> Intact(b.allocations[i], spend))
  }

  /** Its paid parts exist and all come from this purchase. */
  ghost predicate PaidFrom(b: Books, spend: Key, p: Id) {
    && (exists i :: 0 <= i < |b.allocations| && PaidPart(b, spend, b.allocations[i]))
    && (forall i :: 0 <= i < |b.allocations| && PaidPart(b, spend, b.allocations[i]) ==> b.lots[b.allocations[i].lot].purchase == Some(p))
  }

  /** The user owns that purchase, and the paid parts of the intact spend are worth this much. */
  ghost predicate OperationDue(b: Books, user: Id, spend: Key, p: Id, k: nat, units: int, money: int) {
    && SpendIntact(b, user, spend) && PaidFrom(b, spend, p)
    && p in b.purchases && b.purchases[p].owner == Some(user) && OldestLot(b, p, user, k)
    && units == Sum(b.allocations, PartOf(b, spend)) && Worth(b, p, b.lots[k].grant, units, money)
  }

  lemma UntouchedExactly(b: Books, user: Id, spend: Key)
    ensures Untouched(b, user, spend) <==> SpendIntact(b, user, spend)
  {
    if Untouched(b, user, spend) {
      forall r | 0 <= r < |b.requests| ensures !PaysForSpend(b.requests[r], spend) {}
      forall i | 0 <= i < |b.allocations| ensures Intact(b.allocations[i], spend) { assert OfSpendAt(b, spend, i) == (b.allocations[i].spend == spend); }
    }
    if SpendIntact(b, user, spend) {
      forall r | 0 <= r < |b.requests| ensures !(b.requests[r].spend == Some(spend) && Counted(b.requests[r].status)) { assert !PaysForSpend(b.requests[r], spend); }
      forall i | 0 <= i < |b.allocations| && OfSpendAt(b, spend, i) ensures !b.allocations[i].restored && b.allocations[i].cash.None? {
        assert Intact(b.allocations[i], spend);
      }
    }
  }

  lemma PaidExactly(b: Books, spend: Key, p: Id)
    ensures AnyPaid(b, spend) && OnePurchase(b, spend, p) <==> PaidFrom(b, spend, p)
    ensures PaidUnits(b, spend) == Sum(b.allocations, PartOf(b, spend))
  {
    forall i | 0 <= i < |b.allocations| ensures Paid(b, spend, i) == PaidPart(b, spend, b.allocations[i]) {}
    Equal(b.allocations, PaidAmount(b.lots, spend), b.allocations, PartOf(b, spend));
  }

  lemma OperationEntitledIf(b: Books, user: Id, spend: Key, p: Id, k: nat, units: int, money: int)
    requires Sound(b) && OperationDue(b, user, spend, p, k, units, money)
    ensures OperationEntitlement(b, user, spend) == Ok(Entitlement(p, units, money, Some(spend)))
  {
    CountedExactly(b, p);
    UntouchedExactly(b, user, spend);
    PaidExactly(b, spend, p);
    OldestIsFirst(b, p, user, k);
    BuildMoneyExactly(b, p, b.lots[k].grant, units, money);
    hide Sound;
    hide Untouched;
    hide PaidBy;
    OperationEntitledIs(b, user, spend, p, k, money);
  }

  lemma OperationEntitledIs(b: Books, user: Id, spend: Key, p: Id, k: nat, money: int)
    requires Sound(b) && Untouched(b, user, spend) && AnyPaid(b, spend) && OnePurchase(b, spend, p) && Owns(b, user, p)
    requires FirstLot(b.lots, p, Some(user)) == Some(k)
    requires Sum(b.requests, CountedUnits(p)) + PaidUnits(b, spend) <= b.lots[k].grant
    requires BuildMoney(b, p, b.lots[k].grant, Sum(b.requests, CountedUnits(p)), PaidUnits(b, spend)) == Some(money)
    ensures OperationEntitlement(b, user, spend) == Ok(Entitlement(p, PaidUnits(b, spend), money, Some(spend)))
  {
    assert PaidBy(b, user, spend, p) && WorthPaying(b, user, spend, p);
    EntitledIf(b, user, spend, p);
    hide Sound;
    hide Untouched;
    hide PaidBy;
    hide WorthPaying;
    hide BuildMoney;
    hide FirstLot;
    hide PaidUnits;
    hide AnyPaid;
    hide OnePurchase;
    hide AnyRestored;
    hide AnyStamped;
    hide CashRequestExists;
  }

  lemma OperationEntitled(b: Books, user: Id, spend: Key) returns (k: nat)
    requires Sound(b) && OperationEntitlement(b, user, spend).Ok?
    ensures var e := OperationEntitlement(b, user, spend).value;
      e.spend == Some(spend) && OperationDue(b, user, spend, e.payment, k, e.units, e.money)
  {
    var e := OperationEntitlement(b, user, spend).value;
    var p := e.payment;
    EntitledOnlyIf(b, user, spend);
    CountedExactly(b, p);
    UntouchedExactly(b, user, spend);
    PaidExactly(b, spend, p);
    k := FirstLot(b.lots, p, Some(user)).value;
    OldestIsFirst(b, p, user, k);
    hide Sound;
    hide Untouched;
    hide SpendIntact;
    hide PaidFrom;
    hide BuildMoney;
    hide FirstLot;
    hide PaidUnits;
    hide OldestLot;
    hide AnyPaid;
    hide OnePurchase;
    hide AnyRestored;
    hide AnyStamped;
    hide CashRequestExists;
    assert e.units > 0;
    BuildMoneyExactly(b, p, b.lots[k].grant, e.units, e.money);
  }

  // ----- approval -----

  /** What the request's scope entitles its user to, from purchase p. */
  ghost predicate Due(b: Books, row: Request, p: Id, k: nat, units: int, money: int) {
    if row.scope == Operation then row.spend.Some? && OperationDue(b, row.user, row.spend.value, p, k, units, money)
    else p == row.payment && RemainderDue(b, row.user, p, k, units, money)
  }

  ghost predicate FitsPrice(b: Books, p: Id, money: int) { p in b.purchases && Sum(b.requests, MoneyPaid(p)) + money <= b.purchases[p].price }

  ghost predicate Waiting(b: Books, r: nat) { r < |b.requests| && b.requests[r].status == Requested }

  ghost function Granted(row: Request, units: int, money: int): Request {
    row.(status := Approved, units := Some(units), spend := if row.scope == Operation then row.spend else None, amount := Some(money))
  }

  /** An entitled request is approved for just that, if the purchase is its own and the money fits the price; else nothing happens. */
  lemma EntitledApproval(b: Books, r: nat, p: Id, k: nat, units: int, money: int)
    requires Sound(b) && Waiting(b, r) && Due(b, b.requests[r], p, k, units, money)
    ensures Approve(b, r, Full)
      == if p == b.requests[r].payment && FitsPrice(b, p, money) then b.(requests := b.requests[r := Granted(b.requests[r], units, money)]) else b
  {
    var row := b.requests[r];
    CountedExactly(b, p);
    if row.scope == Operation {
      OperationEntitledIf(b, row.user, row.spend.value, p, k, units, money);
    } else {
      RemainderEntitledExactly(b, row.user, p, k, units, money);
    }
    hide Sound;
    hide OperationEntitlement;
    hide RemainderEntitlement;
    hide OperationDue;
    hide RemainderDue;
    assert p in b.purchases && money > 0 by { DueIsWorth(b, row, p, k, units, money); }
  }

  lemma DueIsWorth(b: Books, row: Request, p: Id, k: nat, units: int, money: int)
    requires Due(b, row, p, k, units, money)
    ensures p in b.purchases && money > 0
  {
  }

  ghost predicate AnyDue(b: Books, row: Request) { exists p, k: nat, units, money :: Due(b, row, p, k, units, money) }

  /** Some amount, within the price, is due from the request's own purchase. */
  ghost predicate DueAndFits(b: Books, row: Request) {
    exists k: nat, units, money :: Due(b, row, row.payment, k, units, money) && FitsPrice(b, row.payment, money)
  }

  lemma EntitledIsDue(b: Books, row: Request)
    requires Sound(b)
    ensures row.scope == Operation && row.spend.Some? && OperationEntitlement(b, row.user, row.spend.value).Ok? ==> AnyDue(b, row)
    ensures row.scope == PurchaseRemainder && RemainderEntitlement(b, row.user, row.payment).Ok? ==> AnyDue(b, row)
  {
    if row.scope == Operation {
      if row.spend.Some? && OperationEntitlement(b, row.user, row.spend.value).Ok? {
        var k := OperationEntitled(b, row.user, row.spend.value);
        var e := OperationEntitlement(b, row.user, row.spend.value).value;
        assert Due(b, row, e.payment, k, e.units, e.money);
      }
    } else if RemainderEntitlement(b, row.user, row.payment).Ok? {
      var k := RemainderEntitled(b, row.user, row.payment);
      var e := RemainderEntitlement(b, row.user, row.payment).value;
      assert Due(b, row, e.payment, k, e.units, e.money);
    }
  }

  /** A request that is entitled to nothing goes to review; one for an operation that names no spend stays as it is. */
  lemma RefusedApproval(b: Books, r: nat)
    requires Sound(b) && Waiting(b, r) && !AnyDue(b, b.requests[r])
    ensures Approve(b, r, Full)
      == if b.requests[r].scope == Operation && b.requests[r].spend.None? then b else b.(requests := b.requests[r := b.requests[r].(status := NeedsReview)])
  {
    EntitledIsDue(b, b.requests[r]);
    hide Sound;
    hide OperationEntitlement;
    hide RemainderEntitlement;
    hide AnyDue;
  }

  /**
   * A requested refund is approved in full exactly when its scope entitles its user to some
   * positive amount from its own purchase, and that amount and all that was paid out before fit
   * the price.
   */
  lemma ApprovedExactly(b: Books, r: nat)
    requires Sound(b) && Waiting(b, r)
    ensures var row := b.requests[r];
      Approve(b, r, Full).requests[r].status == Approved <==> DueAndFits(b, row)
  {
    var row := b.requests[r];
    hide Approve;
    hide Sound;
    if AnyDue(b, row) {
      var p, k: nat, units, money :| Due(b, row, p, k, units, money);
      EntitledApproval(b, r, p, k, units, money);
      forall q, m: nat, u, x | Due(b, row, q, m, u, x) ensures q == p && x == money { EntitledOnce(b, row, p, k, units, money, q, m, u, x); }
      hide Due;
    } else {
      RefusedApproval(b, r);
    }
  }

  lemma EntitledOnce(b: Books, row: Request, p: Id, k: nat, units: int, money: int, q: Id, m: nat, u: int, x: int)
    requires Sound(b) && Due(b, row, p, k, units, money) && Due(b, row, q, m, u, x)
    ensures q == p && m == k && u == units && x == money
  {
    hide Sound;
    if row.scope == Operation {
      OperationEntitledIf(b, row.user, row.spend.value, p, k, units, money);
      OperationEntitledIf(b, row.user, row.spend.value, q, m, u, x);
    } else {
      RemainderEntitledExactly(b, row.user, p, k, units, money);
      RemainderEntitledExactly(b, row.user, q, m, u, x);
    }
    OldestIsFirst(b, p, row.user, k);
    OldestIsFirst(b, p, row.user, m);
  }

  /** A partial amount is never approved: the request goes to review with that amount. Requests that are not waiting are left alone. */
  lemma OtherApprovals(b: Books, r: nat, mode: ApprovalMode)
    ensures !Waiting(b, r) ==> Approve(b, r, mode) == b
    ensures Waiting(b, r) && mode.Partial? ==>
      Approve(b, r, mode) == b.(requests := b.requests[r := b.requests[r].(status := NeedsReview, amount := mode.amount)])
  {
  }
}

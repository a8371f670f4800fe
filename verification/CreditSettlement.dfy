/** Exactly when the local effects of a refund go through, what they write, and where the request ends. */
module CreditSettlement {
  import opened Wrappers
  import opened Sums
  import opened CreditBooks
  import opened CreditRules
  import opened CreditInvariant
  import opened CreditSteps
  import opened CreditFinalize
  import opened CreditApproval

  ghost predicate ClawedBack(b: Books, r: nat) { exists j :: 0 <= j < |b.ledger| && b.ledger[j].key == ClawbackOf(r) }

  lemma {:induction false} KeyIsThere(ledger: seq<Entry>, key: Key)
    ensures HasKey(ledger, key) <==> exists j :: 0 <= j < |ledger| && ledger[j].key == key
  {
    if |ledger| > 0 {
      KeyIsThere(ledger[..|ledger| - 1], key);
      forall j | 0 <= j < |ledger| - 1 ensures ledger[j] == ledger[..|ledger| - 1][j] {}
    }
  }

  /** The one row a debit leaves. */
  ghost function Debit(user: Id, p: Id, r: nat, units: int): Entry { Entry(ClawbackOf(r), user, Clawback, -units, Some(p), 0, None) }

  // ----- the rest of a purchase -----

  /** The lot loses the units; with none left it is clawed and held for nobody. */
  ghost predicate LotDebited(was: Lot, now: Lot, units: int) {
    if was.remaining == units then now == was.(remaining := 0, debited := was.debited + units, reserved := 0, reservedFor := None, status := Clawed)
    else now == was.(remaining := was.remaining - units, debited := was.debited + units)
  }

  /** Positive units, and the user's oldest lot of the purchase still holds them. */
  ghost predicate Holds(b: Books, user: Id, p: Id, units: int, k: nat) { units > 0 && OldestLot(b, p, user, k) && b.lots[k].remaining >= units }

  ghost predicate AnyHolds(b: Books, user: Id, p: Id, units: int) { exists k: nat :: Holds(b, user, p, units, k) }

  lemma LotWithinBalance(b: Books, user: Id, k: nat)
    requires Inv(b) && k < |b.lots| && b.lots[k].user == user
    ensures b.lots[k].remaining <= Balance(b, user)
  {
    forall j | 0 <= j < |b.lots| ensures RemainingOf(user)(b.lots[j]) >= 0 { assert LotShape(b.lots[j]); }
    Share(b.lots, k, RemainingOf(user));
    assert Balance(b, user) >= Remaining(b, user);
  }

  /** The lot gave exactly the units, with one row for them; or the row was there before. */
  ghost predicate RemainderDone(b: Books, user: Id, p: Id, r: nat, units: int, after: Books) {
    if ClawedBack(b, r) then after == b else exists k: nat :: Debited(b, user, p, r, units, k, after)
  }

  ghost predicate Debited(b: Books, user: Id, p: Id, r: nat, units: int, k: nat, after: Books) {
    && Holds(b, user, p, units, k) && |after.lots| == |b.lots| && LotDebited(b.lots[k], after.lots[k], units)
    && after == b.(ledger := b.ledger + [Debit(user, p, r, units)], lots := b.lots[k := after.lots[k]])
  }

  /** In any books: a remainder whose lot and balance hold it is debited, once; any other is refused and nothing changes. */
  lemma RemainderSettles(b: Books, user: Id, p: Id, r: nat, units: int)
    ensures var (after, effect) := FinalizeRemainder(b, user, p, r, units);
      if ClawedBack(b, r) || (AnyHolds(b, user, p, units) && Balance(b, user) >= units) then effect.Applied? && RemainderDone(b, user, p, r, units, after)
      else effect.Violated? && after == b
    ensures !ClawedBack(b, r) && FinalizeRemainder(b, user, p, r, units).1.Applied? ==> FinalizeRemainder(b, user, p, r, units).1 == Applied(units, false)
  {
    KeyIsThere(b.ledger, ClawbackOf(r));
    var found := FirstLot(b.lots, p, Some(user));
    if found.Some? { OldestIsFirst(b, p, user, found.value); }
    forall k: nat | Holds(b, user, p, units, k) ensures found == Some(k) { OldestIsFirst(b, p, user, k); }
    hide FirstLot;
    hide OldestLot;
    hide Balance;
    if found.Some? && units > 0 && b.lots[found.value].remaining >= units {
      assert Holds(b, user, p, units, found.value);
      if !ClawedBack(b, r) && Balance(b, user) >= units { assert Debited(b, user, p, r, units, found.value, FinalizeRemainder(b, user, p, r, units).0); }
    }
  }

  /** In sound books the balance never stands in the way: what the lot holds decides. */
  lemma RemainderSettlesExactly(b: Books, user: Id, p: Id, r: nat, units: int)
    requires Inv(b)
    ensures var (after, effect) := FinalizeRemainder(b, user, p, r, units);
      if ClawedBack(b, r) || AnyHolds(b, user, p, units) then effect.Applied? && RemainderDone(b, user, p, r, units, after)
      else effect.Violated? && after == b
  {
    RemainderSettles(b, user, p, r, units);
    if AnyHolds(b, user, p, units) {
      var k: nat :| Holds(b, user, p, units, k);
      LotWithinBalance(b, user, k);
    }
    hide Inv;
    hide FinalizeRemainder;
    hide RemainderDone;
    hide Balance;
  }

  /** A row that is there already is reported with what it took. */
  lemma RemainderRecognised(b: Books, user: Id, p: Id, r: nat, units: int, j: nat)
    requires DistinctKeys(b.ledger) && j < |b.ledger| && b.ledger[j].key == ClawbackOf(r)
    ensures var taken := b.ledger[j].amount;
      FinalizeRemainder(b, user, p, r, units) == (b, Applied(if taken < 0 then -taken else taken, true))
  {
    FindRow(b.ledger, j);
  }

  // ----- one exact spend -----

  ghost predicate Back(b: Books, spend: Key) { exists i :: 0 <= i < |b.allocations| && GivenBack(b.allocations[i], spend) }

  ghost predicate GivenBack(a: Allocation, spend: Key) { a.spend == spend && a.restored }

  ghost predicate SomePart(b: Books, spend: Key) { exists i :: 0 <= i < |b.allocations| && PaidPart(b, spend, b.allocations[i]) }

  ghost predicate AllStamped(b: Books, spend: Key, r: nat) {
    forall i :: 0 <= i < |b.allocations| && PaidPart(b, spend, b.allocations[i]) ==> b.allocations[i].cash == Some(r)
  }

  ghost predicate NoneStamped(b: Books, spend: Key) {
    forall i :: 0 <= i < |b.allocations| && PaidPart(b, spend, b.allocations[i]) ==> b.allocations[i].cash.None?
  }

  /** Nothing was given back for the spend, its paid parts carry no stamp, and they are worth exactly these units. */
  ghost predicate StampDue(b: Books, spend: Key, units: int) {
    units > 0 && !Back(b, spend) && NoneStamped(b, spend) && Sum(b.allocations, PartOf(b, spend)) == units
  }

  /** The request's stamps are already there. */
  ghost predicate StampedBefore(b: Books, spend: Key, r: nat, units: int) {
    units > 0 && !Back(b, spend) && SomePart(b, spend) && AllStamped(b, spend, r)
  }

  ghost predicate PartsStamped(b: Books, spend: Key, r: nat, after: Books) {
    && after == b.(allocations := after.allocations) && |after.allocations| == |b.allocations|
    && (forall i :: 0 <= i < |b.allocations| ==>
        after.allocations[i] == if PaidPart(b, spend, b.allocations[i]) then b.allocations[i].(cash := Some(r)) else b.allocations[i])
  }

  lemma StampFacts(b: Books, spend: Key, r: nat)
    ensures AnyRestored(b, spend) <==> Back(b, spend)
    ensures AnyPaid(b, spend) <==> SomePart(b, spend)
    ensures AllPaidStampedBy(b, spend, r) <==> AllStamped(b, spend, r)
    ensures AnyPaidStamped(b, spend) <==> !NoneStamped(b, spend)
    ensures PaidUnits(b, spend) == Sum(b.allocations, PartOf(b, spend))
  {
    forall i | 0 <= i < |b.allocations|
      ensures Paid(b, spend, i) == PaidPart(b, spend, b.allocations[i])
      ensures (OfSpendAt(b, spend, i) && b.allocations[i].restored) == GivenBack(b.allocations[i], spend)
    {}
    Equal(b.allocations, PaidAmount(b.lots, spend), b.allocations, PartOf(b, spend));
  }

  /** An operation's parts are stamped, all of them, or were stamped before; otherwise nothing changes. */
  lemma OperationSettlesExactly(b: Books, r: nat, spend: Option<Key>, units: int)
    ensures var (after, effect) := FinalizeOperation(b, r, spend, units);
      if spend.Some? && StampedBefore(b, spend.value, r, units) then effect == Applied(0, true) && after == b
      else if spend.Some? && StampDue(b, spend.value, units) then effect == Applied(0, false) && PartsStamped(b, spend.value, r, after)
      else effect.Violated? && after == b
  {
    if spend.Some? {
      StampFacts(b, spend.value, r);
      StampedParts(b, spend.value, r);
    }
    hide StampPaid;
    hide AnyRestored;
    hide AnyPaid;
    hide AllPaidStampedBy;
    hide AnyPaidStamped;
    hide PaidUnits;
    hide PartsStamped;
    hide Back;
    hide SomePart;
    hide AllStamped;
    hide NoneStamped;
  }

  lemma StampedParts(b: Books, spend: Key, r: nat)
    ensures PartsStamped(b, spend, r, StampPaid(b, spend, r))
  {
  }

  // ----- requests from before unit snapshots -----

  ghost predicate FromPurchase(lot: Lot, p: Id) { lot.purchase == Some(p) }

  /** The oldest lot of a purchase, whoever owns it. */
  ghost predicate OldestOf(b: Books, p: Id, k: nat) {
    k < |b.lots| && FromPurchase(b.lots[k], p) && forall n :: 0 <= n < |b.lots| && FromPurchase(b.lots[n], p) ==> !Before(b.lots, n, k)
  }

  lemma OldestOfIsFirst(b: Books, p: Id, k: nat)
    ensures FirstLot(b.lots, p, None) == Some(k) <==> OldestOf(b, p, k)
    ensures FirstLot(b.lots, p, None).None? ==> !OldestOf(b, p, k)
  {
    FirstLotIsOldest(b.lots, p, None);
    var found := FirstLot(b.lots, p, None);
    if OldestOf(b, p, k) {
      assert FromPurchase(b.lots[k], p) && OfPurchase(b.lots[k], p, None);
      assert OfPurchase(b.lots[found.value], p, None) && FromPurchase(b.lots[found.value], p);
    }
    if found == Some(k) {
      forall n | 0 <= n < |b.lots| && FromPurchase(b.lots[n], p) ensures !Before(b.lots, n, k) { assert OfPurchase(b.lots[n], p, None); }
    }
  }

  /** The lot is held for the request of this user and purchase. */
  ghost predicate HeldOpen(lot: Lot, user: Id, p: Id, r: nat) { lot.user == user && FromPurchase(lot, p) && lot.reservedFor == Some(r) && lot.status != Clawed }

  /**
   * The plan, for any lot whatever. With its row there, only a held lot is still to be cleared.
   * Without it, a lot of someone else, of another purchase or already clawed is refused, and a
   * reserved one is clawed by what is reserved if it still holds that much, and else refused.
   */
  lemma PlansExactly(user: Id, p: Id, r: nat, lot: Lot)
    ensures PlanClawback(user, p, r, Some(lot), true) == Settled(if HeldOpen(lot, user, p, r) then lot.reserved else 0, HeldOpen(lot, user, p, r))
    ensures var held := lot.status == Reserved && lot.reservedFor == Some(r) && lot.reserved > 0;
      var plan := PlanClawback(user, p, r, Some(lot), false);
      if lot.user != user || !FromPurchase(lot, p) || lot.status == Clawed || (held && lot.remaining < lot.reserved) then plan.Refuse?
      else plan == if held then Claw(lot.reserved) else Settled(0, false)
    ensures forall existing :: PlanClawback(user, p, r, None, existing) == Settled(0, false)
  {
  }

  ghost predicate HeldWhole(lot: Lot, user: Id, r: nat) { lot.user == user && lot.status == Reserved && lot.reservedFor == Some(r) }

  /** All units leave the lot: the debit as clawed back, the rest as forfeited. */
  ghost predicate LotCleared(was: Lot, now: Lot, debit: int) {
    now == was.(remaining := 0, reserved := 0, reservedFor := None, status := Clawed,
                debited := was.debited + debit, forfeited := was.forfeited + was.remaining - debit)
  }

  /** The user's lot is not clawed; and if it is held for this request, nothing was spent from it. */
  ghost predicate LegacyAllowed(lot: Lot, user: Id, r: nat) {
    lot.user == user && lot.status != Clawed && (HeldWhole(lot, user, r) ==> lot.remaining == lot.grant)
  }

  /** A lot held for the request is cleared, with a row for its whole grant unless that row was there before. */
  ghost predicate LegacyDone(b: Books, user: Id, p: Id, r: nat, k: nat, after: Books)
    requires k < |b.lots|
  {
    if !HeldWhole(b.lots[k], user, r) then after == b
    else
      && |after.lots| == |b.lots| && LotCleared(b.lots[k], after.lots[k], if ClawedBack(b, r) then 0 else b.lots[k].grant)
      && after == b.(ledger := if ClawedBack(b, r) then b.ledger else b.ledger + [Debit(user, p, r, b.lots[k].grant)], lots := b.lots[k := after.lots[k]])
  }

  lemma LegacySettlesExactly(b: Books, user: Id, p: Id, r: nat, k: nat)
    requires Inv(b) && OldestOf(b, p, k)
    ensures var (after, effect) := FinalizeLegacy(b, user, p, r);
      if ClawedBack(b, r) || LegacyAllowed(b.lots[k], user, r)
      then effect == Applied(if HeldWhole(b.lots[k], user, r) then b.lots[k].grant else 0, ClawedBack(b, r) || !HeldWhole(b.lots[k], user, r))
           && LegacyDone(b, user, p, r, k, after)
      else effect.Violated? && after == b
  {
    KeyIsThere(b.ledger, ClawbackOf(r));
    OldestOfIsFirst(b, p, k);
    LegacyClawsFullGrant(b, user, p, r);
    LotWithinBalance(b, b.lots[k].user, k);
    LotWithinGrant(b, k);
    hide Inv;
    hide FirstLot;
    hide OldestOf;
    hide Balance;
  }

  lemma LotWithinGrant(b: Books, k: nat)
    requires Inv(b) && k < |b.lots|
    ensures b.lots[k].remaining <= b.lots[k].grant && LotShape(b.lots[k])
  {
    assert LotShape(b.lots[k]) && Conserved(b, k);
    forall i | 0 <= i < |b.allocations| ensures Outstanding(k)(b.allocations[i]) >= 0 { assert AllocationOk(b, b.allocations[i]); }
    NonNegative(b.allocations, Outstanding(k));
  }

  ghost predicate NoLot(b: Books, p: Id) { forall k :: 0 <= k < |b.lots| ==> !FromPurchase(b.lots[k], p) }

  /** Without any lot of the purchase there is nothing to claw back. */
  lemma LegacyWithoutLot(b: Books, user: Id, p: Id, r: nat)
    requires NoLot(b, p)
    ensures FinalizeLegacy(b, user, p, r) == (b, Applied(0, true))
  {
    FirstLotIsOldest(b.lots, p, None);
    forall k | 0 <= k < |b.lots| ensures !OfPurchase(b.lots[k], p, None) { assert !FromPurchase(b.lots[k], p); }
  }

  lemma OldestOfExists(b: Books, p: Id) returns (k: nat)
    requires !NoLot(b, p)
    ensures OldestOf(b, p, k)
  {
    FirstLotIsOldest(b.lots, p, None);
    var n :| 0 <= n < |b.lots| && FromPurchase(b.lots[n], p);
    assert OfPurchase(b.lots[n], p, None);
    k := FirstLot(b.lots, p, None).value;
    OldestOfIsFirst(b, p, k);
  }

  // ----- the request -----

  /** The books let the request's local effect through. */
  ghost predicate GoesThrough(b: Books, r: nat)
    requires r < |b.requests|
  {
    var row := b.requests[r];
    if row.units.None? then ClawedBack(b, r) || forall k: nat :: OldestOf(b, row.payment, k) ==> LegacyAllowed(b.lots[k], row.user, r)
    else if row.scope == Operation then
      row.spend.Some? && (StampedBefore(b, row.spend.value, r, row.units.value) || StampDue(b, row.spend.value, row.units.value))
    else ClawedBack(b, r) || AnyHolds(b, row.user, row.payment, row.units.value)
  }

  /** Its local effect, spelled out for each kind of request. */
  ghost predicate EffectDone(b: Books, r: nat, after: Books)
    requires r < |b.requests|
  {
    var row := b.requests[r];
    if row.units.None? then (if NoLot(b, row.payment) then after == b else exists k: nat :: OldestOf(b, row.payment, k) && LegacyDone(b, row.user, row.payment, r, k, after))
    else if row.scope == Operation then
      row.spend.Some? && if StampedBefore(b, row.spend.value, r, row.units.value) then after == b else PartsStamped(b, row.spend.value, r, after)
    else RemainderDone(b, row.user, row.payment, r, row.units.value, after)
  }

  lemma LegacyGoesExactly(b: Books, r: nat)
    requires Inv(b) && r < |b.requests| && b.requests[r].units.None?
    ensures var (after, effect) := FinalizeLegacy(b, b.requests[r].user, b.requests[r].payment, r);
      if GoesThrough(b, r) then effect.Applied? && EffectDone(b, r, after) else effect.Violated? && after == b
  {
    var row := b.requests[r];
    if NoLot(b, row.payment) {
      LegacyWithoutLot(b, row.user, row.payment, r);
      assert forall k: nat :: !OldestOf(b, row.payment, k);
    } else {
      var k := OldestOfExists(b, row.payment);
      LegacySettlesExactly(b, row.user, row.payment, r, k);
      forall n: nat | OldestOf(b, row.payment, n) ensures n == k {
        OldestOfIsFirst(b, row.payment, n);
        OldestOfIsFirst(b, row.payment, k);
      }
      hide Inv;
      hide FinalizeLegacy;
      hide OldestOf;
      hide LegacyDone;
      hide LegacyAllowed;
    }
  }

  lemma EffectsGoExactly(b: Books, r: nat)
    requires Inv(b) && r < |b.requests|
    ensures var (after, effect) := FinalizeEffects(b, b.requests[r].user, b.requests[r].payment, r);
      if GoesThrough(b, r) then effect.Applied? && EffectDone(b, r, after) else effect.Violated? && after == b
  {
    var row := b.requests[r];
    hide Inv;
    hide FinalizeLegacy;
    hide FinalizeOperation;
    hide FinalizeRemainder;
    hide StampedBefore;
    hide StampDue;
    hide PartsStamped;
    hide RemainderDone;
    hide AnyHolds;
    if row.units.None? {
      hide GoesThrough;
      hide EffectDone;
      LegacyGoesExactly(b, r);
    } else if row.scope == Operation {
      OperationSettlesExactly(b, r, row.spend, row.units.value);
    } else {
      RemainderSettlesExactly(b, row.user, row.payment, r, row.units.value);
    }
  }

  ghost predicate UnderWay(r: Request) { r.status == Approved || r.status == Processing }

  /** The purchase has no user any more, or it is the request's user and the books let the effect through. */
  ghost predicate Refundable(b: Books, r: nat)
    requires r < |b.requests|
  {
    var row := b.requests[r];
    && row.payment in b.purchases
    && (b.purchases[row.payment].owner.None? || (b.purchases[row.payment].owner == Some(row.user) && GoesThrough(b, r)))
  }

  /**
   * Once the provider paid, a request under way ends refunded, together with exactly its effect in
   * the books, whenever they let it through; otherwise the books stay as they are and it goes to
   * review.
   */
  lemma SettledExactly(b: Books, r: nat)
    requires Inv(b) && r < |b.requests| && UnderWay(b.requests[r])
    ensures var row := b.requests[r];
      var after := MarkRefunded(b, r);
      if Refundable(b, r) then
        && after.requests == b.requests[r := row.(status := Refunded, reference := true, marked := false)]
        && (if b.purchases[row.payment].owner.None? then after.(requests := b.requests) == b else EffectDone(b, r, after.(requests := b.requests)))
      else after == b.(requests := b.requests[r := row.(status := NeedsReview, marked := false)])
  {
    var row := b.requests[r];
    if row.payment in b.purchases && b.purchases[row.payment].owner == Some(row.user) {
      EffectsGoExactly(b, r);
      EffectsAreSettled(b, row.user, row.payment, r);
    }
    hide Inv;
    hide GoesThrough;
    hide EffectDone;
    hide EffectApplied;
    hide FinalizeLegacy;
    hide FinalizeOperation;
    hide FinalizeRemainder;
    var after := MarkRefunded(b, r);
    var effects := FinalizeEffects(b, row.user, row.payment, r).0;
    assert Refundable(b, r) && b.purchases[row.payment].owner.Some? ==> after.(requests := b.requests) == effects;
  }
}

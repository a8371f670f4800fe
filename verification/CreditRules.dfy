/** What each database transaction does to the books. */
module CreditRules {
  import opened Wrappers
  import opened Sums
  import opened CreditBooks
  import opened LotPlan
  import opened Sorting
  import Money = CashRefundMath

  // ----- lots -----

  function EnsureLot(b: Books, grant: Entry): Books {
    if grant.amount <= 0 || (exists k :: 0 <= k < |b.lots| && b.lots[k].entry == grant.key) then b
    else b.(lots := b.lots + [Lot(grant.user, grant.purchase, grant.key, grant.amount, grant.amount, 0, None, Open, grant.at, 0, 0)])
  }

  function SnapshotOf(lot: Lot, id: nat): Snapshot { Snapshot(id, lot.remaining, lot.createdAt) }

  /** The user's lots that are not clawed, oldest first. */
  function LoadLots(lots: seq<Lot>, user: Id): seq<Snapshot> {
    if |lots| == 0 then []
    else
      var n := |lots| - 1;
      var before := LoadLots(lots[..n], user);
      if lots[n].user == user && lots[n].status != Clawed then Insert(before, SnapshotOf(lots[n], n), CreatedAt()) else before
  }

  function RowRemaining(): Snapshot -> int { (s: Snapshot) => s.remaining }

  function UnlottedUnits(balance: int, lotted: int): nat { Max(0, balance - lotted) }

  predicate CanDraw(b: Books, d: Draw) {
    d.lot < |b.lots| && b.lots[d.lot].status != Clawed && b.lots[d.lot].remaining >= d.amount
  }

  function DrawOne(b: Books, spend: Key, d: Draw): Books
    requires CanDraw(b, d)
  {
    var lot := b.lots[d.lot];
    b.(lots := b.lots[d.lot := lot.(remaining := lot.remaining - d.amount)],
       allocations := b.allocations + [Allocation(d.lot, spend, d.amount, false, None)])
  }

  /** All draws or none: a draw whose lot changed underneath rolls the transaction back. */
  function ConsumeDraws(b: Books, spend: Key, draws: seq<Draw>): Option<Books>
    decreases |draws|
  {
    if |draws| == 0 then Some(b)
    else if !CanDraw(b, draws[0]) then None
    else ConsumeDraws(DrawOne(b, spend, draws[0]), spend, draws[1..])
  }

  function ConsumeLots(b: Books, user: Id, spend: Key, amount: int, balanceBefore: int): Option<Books> {
    var lots := LoadLots(b.lots, user);
    match PlanFifo(lots, UnlottedUnits(balanceBefore, Sum(lots, RowRemaining())), amount)
    case None => None
    case Some(plan) => ConsumeDraws(b, spend, plan.draws)
  }

  function RestoredLot(lot: Lot, units: int): Lot {
    if lot.status == Clawed then lot.(forfeited := lot.forfeited + units) else lot.(remaining := lot.remaining + units)
  }

  predicate CanRestore(a: Allocation, spend: Key) { a.spend == spend && !a.restored && a.cash.None? }

  /** Give one allocation back, unless it already was or its units were paid out in money. */
  function RestoreOne(b: Books, spend: Key, i: nat): Books
    requires i < |b.allocations|
  {
    var a := b.allocations[i];
    if !CanRestore(a, spend) then b
    else
      var claimed := b.(allocations := b.allocations[i := a.(restored := true)]);
      if a.lot >= |b.lots| then claimed
      else claimed.(lots := b.lots[a.lot := RestoredLot(b.lots[a.lot], a.amount)])
  }

  function RestoreUpTo(b: Books, spend: Key, n: nat): (after: Books)
    requires n <= |b.allocations|
    ensures |after.allocations| == |b.allocations|
  {
    if n == 0 then b else RestoreOne(RestoreUpTo(b, spend, n - 1), spend, n - 1)
  }

  function Restore(b: Books, spend: Key): Books { RestoreUpTo(b, spend, |b.allocations|) }

  function RestoreForSource(b: Books, user: Id, source: Option<Key>): Books {
    match ResolveSpend(b.ledger, user, source)
    case None => b
    case Some(spend) => Restore(b, spend)
  }

  // ----- ledger writes -----

  type WriteKind = k: Kind | k != Clawback witness Spend

  datatype Input = Input(kind: WriteKind, user: Id, amount: int, key: Key, purchase: Option<Id>, source: Option<Key>, at: int)

  datatype WriteResult = Written | Duplicate | InsufficientCredits | SpendAlreadyCashRefunded

  function Row(input: Input, amount: int, source: Option<Key>): Entry {
    Entry(input.key, input.user, input.kind, amount, input.purchase, input.at, source)
  }

  function WriteFresh(b: Books, input: Input): (Books, WriteResult) {
    match input.kind
    case Purchase =>
      var row := Row(input, input.amount, None);
      (EnsureLot(b.(ledger := b.ledger + [row]), row), Written)
    case Refund =>
      var spend := ResolveSpend(b.ledger, input.user, input.source);
      if spend.Some? && !CompensationAllowed(b, spend.value) then (b, SpendAlreadyCashRefunded)
      else (RestoreForSource(b.(ledger := b.ledger + [Row(input, input.amount, spend)]), input.user, input.source), Written)
    case _ =>
      var balance := Balance(b, input.user);
      if balance < input.amount then (b, InsufficientCredits)
      else
        match ConsumeLots(b.(ledger := b.ledger + [Row(input, -input.amount, None)]), input.user, input.key, input.amount, balance)
        case None => (b, InsufficientCredits)
        case Some(after) => (after, Written)
  }

  /** A ledger write inside a caller's transaction. */
  function WriteEntry(b: Books, input: Input): (Books, WriteResult) {
    match FindEntry(b.ledger, input.key)
    case None => WriteFresh(b, input)
    case Some(row) =>
      if input.kind == Purchase then (EnsureLot(b, row), Duplicate)
      else if input.kind == Refund then (RestoreForSource(b, input.user, input.source), Duplicate)
      else (b, Duplicate)
  }

  /** A ledger write in its own transaction; a replay never opens a lot for an old grant. */
  function WriteOnce(b: Books, input: Input): (Books, WriteResult) {
    if HasKey(b.ledger, input.key) then
      (if input.kind == Refund then RestoreForSource(b, input.user, input.source) else b, Duplicate)
    else WriteFresh(b, input)
  }

  datatype RefundResult = NothingToRefund(found: Option<int>) | CreditRefunded(units: int) | BlockedByCashRefund

  function Abs(x: int): int { if x < 0 then -x else x }

  /** Exactly what the spend row took; rows that took nothing have nothing to return. */
  function OriginalUnits(spend: Option<Entry>): Option<int> {
    if spend.None? || spend.value.amount >= 0 then None else Some(-spend.value.amount)
  }

  function RefundInput(user: Id, units: int, spendKey: Key, refundKey: Key): Input {
    Input(Refund, user, units, refundKey, None, Some(spendKey), 0)
  }

  function RefundSpend(b: Books, user: Id, spendKey: Key, refundKey: Key): (Books, RefundResult) {
    var existing := FindEntry(b.ledger, refundKey);
    var units := if existing.Some? then Some(Abs(existing.value.amount)) else OriginalUnits(FindEntry(b.ledger, spendKey));
    if units.None? || units.value == 0 then (b, NothingToRefund(units))
    else
      var (after, result) := WriteOnce(b, RefundInput(user, units.value, spendKey, refundKey));
      if result == SpendAlreadyCashRefunded then (after, BlockedByCashRefund) else (after, CreditRefunded(units.value))
  }

  // ----- cash refund entitlements -----

  datatype Refusal =
    | PurchaseNotFound | SpendNotFound | LotMissing | RemainderZero | AlreadyCreditCompensated
    | AlreadyCashRefunded | NoPaidCredits | SpansMultiplePurchases

  datatype Entitlement = Entitlement(payment: Id, units: int, money: int, spend: Option<Key>)

  predicate Owns(b: Books, user: Id, payment: Id) {
    payment in b.purchases && b.purchases[payment].owner == Some(user)
  }

  function BuildMoney(b: Books, payment: Id, grant: int, already: int, units: int): Option<int>
    requires payment in b.purchases
  {
    match Money.CumulativeCashRefund(b.purchases[payment].price, grant, already, units)
    case Err(_) => None
    case Ok(amounts) => if amounts.increment <= 0 then None else Some(amounts.increment)
  }

  /** The unused units of a purchase's lot, as far as they were not already counted. */
  function RemainderEntitlement(b: Books, user: Id, payment: Id): Result<Entitlement, Refusal> {
    if !Owns(b, user, payment) then Err(PurchaseNotFound)
    else
      match FirstLot(b.lots, payment, Some(user))
      case None => Err(LotMissing)
      case Some(k) =>
        var already := Sum(b.requests, CountedUnits(payment));
        var units := Min(Max(0, b.lots[k].remaining), Max(0, b.lots[k].grant - already));
        if units <= 0 then Err(RemainderZero)
        else
          match BuildMoney(b, payment, b.lots[k].grant, already, units)
          case None => Err(RemainderZero)
          case Some(money) => Ok(Entitlement(payment, units, money, None))
  }

  predicate CashRequestExists(b: Books, spend: Key) {
    exists r :: 0 <= r < |b.requests| && b.requests[r].spend == Some(spend) && Counted(b.requests[r].status)
  }

  /** The purchase of the first paid allocation. */
  function PaidPurchase(b: Books, spend: Key, n: nat): (p: Option<Id>)
    requires n <= |b.allocations|
    ensures p.Some? <==> exists i :: 0 <= i < n && Paid(b, spend, i)
  {
    if n == 0 then None
    else
      match PaidPurchase(b, spend, n - 1)
      case Some(p) => Some(p)
      case None => if Paid(b, spend, n - 1) then b.lots[b.allocations[n - 1].lot].purchase else None
  }

  predicate OnePurchase(b: Books, spend: Key, payment: Id) {
    forall i :: 0 <= i < |b.allocations| && Paid(b, spend, i) ==> b.lots[b.allocations[i].lot].purchase == Some(payment)
  }

  /** The paid units of one exact spend, if nothing was given back for it yet. */
  function OperationEntitlement(b: Books, user: Id, spend: Key): Result<Entitlement, Refusal> {
    var row := FindEntry(b.ledger, spend);
    if row.None? || row.value.user != user || row.value.kind != Spend then Err(SpendNotFound)
    else if CashRequestExists(b, spend) then Err(AlreadyCashRefunded)
    else if AnyRestored(b, spend) then Err(AlreadyCreditCompensated)
    else if AnyStamped(b, spend) then Err(AlreadyCashRefunded)
    else
      match PaidPurchase(b, spend, |b.allocations|)
      case None => Err(NoPaidCredits)
      case Some(payment) =>
        if !OnePurchase(b, spend, payment) then Err(SpansMultiplePurchases)
        else if !Owns(b, user, payment) then Err(PurchaseNotFound)
        else
          match FirstLot(b.lots, payment, Some(user))
          case None => Err(LotMissing)
          case Some(k) =>
            var units := PaidUnits(b, spend);
            var already := Sum(b.requests, CountedUnits(payment));
            if units <= 0 then Err(NoPaidCredits)
            else if already + units > b.lots[k].grant then Err(AlreadyCashRefunded)
            else
              match BuildMoney(b, payment, b.lots[k].grant, already, units)
              case None => Err(NoPaidCredits)
              case Some(money) => Ok(Entitlement(payment, units, money, Some(spend)))
  }

  // ----- the refund request's life -----

  function SetRequest(b: Books, r: nat, row: Request): Books
    requires r < |b.requests|
  {
    b.(requests := b.requests[r := row])
  }

  datatype ApprovalMode = Full | Partial(amount: Option<int>)

  /** Approval under the user's credit lock; an approval that throws changes nothing. */
  function Approve(b: Books, r: nat, mode: ApprovalMode): Books {
    if r >= |b.requests| || b.requests[r].status != Requested then b
    else
      var row := b.requests[r];
      if mode.Partial? then SetRequest(b, r, row.(status := NeedsReview, amount := mode.amount))
      else if row.scope == Operation && row.spend.None? then b
      else
        match (if row.scope == Operation then OperationEntitlement(b, row.user, row.spend.value)
               else RemainderEntitlement(b, row.user, row.payment))
        case Err(_) => SetRequest(b, r, row.(status := NeedsReview))
        case Ok(e) =>
          if e.payment != row.payment || row.payment !in b.purchases
             || e.money > Max(0, b.purchases[row.payment].price - Sum(b.requests, CountedMoney(row.payment))) then b
          else SetRequest(b, r, row.(status := Approved, units := Some(e.units), spend := e.spend, amount := Some(e.money)))
  }

  /** Requests approved before snapshots existed: a whole purchase, no unit count. */
  function ApproveLegacy(b: Books, r: nat, amount: nat): Books {
    if r >= |b.requests| || b.requests[r].status != Requested || b.requests[r].scope != PurchaseRemainder then b
    else SetRequest(b, r, b.requests[r].(status := Approved, amount := Some(amount)))
  }

  function Reserve(b: Books, user: Id, purchase: Id, r: nat): Option<Books> {
    match FirstLot(b.lots, purchase, Some(user))
    case None => None
    case Some(k) =>
      var lot := b.lots[k];
      if lot.status != Open || lot.reserved != 0 || lot.reservedFor.Some? || lot.remaining != lot.grant
         || (exists j :: 0 <= j < |b.lots| && b.lots[j].reservedFor == Some(r)) then None
      else Some(b.(lots := b.lots[k := lot.(reserved := lot.remaining, reservedFor := Some(r), status := Reserved)]))
  }

  predicate HeldFor(lot: Lot, r: nat) { lot.reservedFor == Some(r) && lot.status != Clawed }

  /** At most one lot is held for a request, so releasing every such lot releases that one. */
  function Release(b: Books, r: nat): Books {
    b.(lots := seq(|b.lots|, k requires 0 <= k < |b.lots| =>
         if HeldFor(b.lots[k], r) then b.lots[k].(reserved := 0, reservedFor := None, status := Open) else b.lots[k]))
  }

  // ----- local effects of a monetary refund -----

  datatype Violation =
    | RefundRowMismatch | OperationIncomplete | OperationCreditCompensated | OperationCashRefunded | OperationUnitsMismatch
    | RemainderUnitsInvalid | RemainderLotMissing | CreditsConsumed | PurchaseMissing
    | LotUserMismatch | LotPurchaseMismatch | LotClawedWithoutLedger | RemainingBelowReserved | InsufficientLedgerBalance

  datatype Effect = Applied(units: int, already: bool) | Violated(why: Violation)

  datatype ClawbackPlan = Settled(units: int, markClawed: bool) | Claw(units: int) | Refuse(why: Violation)

  function PlanClawback(user: Id, purchase: Id, r: nat, lot: Option<Lot>, exists_: bool): ClawbackPlan {
    if exists_ then
      if lot.None? then Settled(0, false)
      else if lot.value.status == Clawed && lot.value.user == user && lot.value.purchase == Some(purchase) then Settled(0, false)
      else if lot.value.user == user && lot.value.purchase == Some(purchase) && lot.value.reservedFor == Some(r)
      then Settled(lot.value.reserved, lot.value.status != Clawed)
      else Settled(0, false)
    else if lot.None? then Settled(0, false)
    else if lot.value.user != user then Refuse(LotUserMismatch)
    else if lot.value.purchase != Some(purchase) then Refuse(LotPurchaseMismatch)
    else if lot.value.status == Clawed then Refuse(LotClawedWithoutLedger)
    else if lot.value.status == Reserved && lot.value.reservedFor == Some(r) && lot.value.reserved > 0 then
      if lot.value.remaining < lot.value.reserved then Refuse(RemainingBelowReserved) else Claw(lot.value.reserved)
    else Settled(0, false)
  }

  function ClawedLot(lot: Lot, debit: int): Lot {
    lot.(remaining := 0, reserved := 0, reservedFor := None, status := Clawed,
         debited := lot.debited + debit, forfeited := lot.forfeited + lot.remaining - debit)
  }

  function ClawbackRow(user: Id, purchase: Id, r: nat, units: int): Entry {
    Entry(ClawbackOf(r), user, Clawback, -units, Some(purchase), 0, None)
  }

  function FinalizeLegacy(b: Books, user: Id, purchase: Id, r: nat): (Books, Effect) {
    var k := FirstLot(b.lots, purchase, None);
    match PlanClawback(user, purchase, r, if k.None? then None else Some(b.lots[k.value]), HasKey(b.ledger, ClawbackOf(r)))
    case Refuse(why) => (b, Violated(why))
    case Settled(units, mark) =>
      (if mark && k.Some? then b.(lots := b.lots[k.value := ClawedLot(b.lots[k.value], 0)]) else b, Applied(units, true))
    case Claw(units) =>
      if Balance(b, user) < units then (b, Violated(InsufficientLedgerBalance))
      else
        var billed := b.(ledger := b.ledger + [ClawbackRow(user, purchase, r, units)]);
        (if k.Some? then billed.(lots := b.lots[k.value := ClawedLot(b.lots[k.value], units)]) else billed, Applied(units, false))
  }

  function StampedAllocation(b: Books, spend: Key, i: nat, r: nat): Allocation
    requires i < |b.allocations|
  {
    if Paid(b, spend, i) then b.allocations[i].(cash := Some(r)) else b.allocations[i]
  }

  function StampPaid(b: Books, spend: Key, r: nat): Books {
    b.(allocations := seq(|b.allocations|, i requires 0 <= i < |b.allocations| => StampedAllocation(b, spend, i, r)))
  }

  function FinalizeOperation(b: Books, r: nat, spend: Option<Key>, expected: int): (Books, Effect) {
    if spend.None? || expected <= 0 then (b, Violated(OperationIncomplete))
    else if AnyRestored(b, spend.value) then (b, Violated(OperationCreditCompensated))
    else if AnyPaid(b, spend.value) && AllPaidStampedBy(b, spend.value, r) then (b, Applied(0, true))
    else if AnyPaidStamped(b, spend.value) then (b, Violated(OperationCashRefunded))
    else if PaidUnits(b, spend.value) != expected then (b, Violated(OperationUnitsMismatch))
    else (StampPaid(b, spend.value, r), Applied(0, false))
  }

  function DebitedLot(lot: Lot, units: int): Lot {
    var left := lot.remaining - units;
    var debited := lot.(remaining := left, debited := lot.debited + units);
    if left == 0 then debited.(reserved := 0, reservedFor := None, status := Clawed) else debited
  }

  function FinalizeRemainder(b: Books, user: Id, purchase: Id, r: nat, units: int): (Books, Effect) {
    match FindEntry(b.ledger, ClawbackOf(r))
    case Some(row) => (b, Applied(Abs(row.amount), true))
    case None =>
      if units <= 0 then (b, Violated(RemainderUnitsInvalid))
      else
        match FirstLot(b.lots, purchase, Some(user))
        case None => (b, Violated(RemainderLotMissing))
        case Some(k) =>
          if b.lots[k].remaining < units || Balance(b, user) < units then (b, Violated(CreditsConsumed))
          else
            (b.(ledger := b.ledger + [ClawbackRow(user, purchase, r, units)],
                lots := b.lots[k := DebitedLot(b.lots[k], units)]),
             Applied(units, false))
  }

  function FinalizeEffects(b: Books, user: Id, purchase: Id, r: nat): (Books, Effect) {
    if r >= |b.requests| || b.requests[r].user != user || b.requests[r].payment != purchase then (b, Violated(RefundRowMismatch))
    else
      var row := b.requests[r];
      if row.units.None? then FinalizeLegacy(b, user, purchase, r)
      else if row.scope == Operation then FinalizeOperation(b, r, row.spend, row.units.value)
      else FinalizeRemainder(b, user, purchase, r, row.units.value)
  }

  function SendToReview(b: Books, r: nat, marked: bool): Books {
    if r < |b.requests| && InFlight(b.requests[r].status)
    then SetRequest(b, r, b.requests[r].(status := NeedsReview, marked := marked)) else b
  }

  /**
   * After the provider paid: apply the local effects and move the request to refunded in one
   * transaction, or send it to review when the books refuse.
   */
  function MarkRefunded(b: Books, r: nat): Books {
    if r >= |b.requests| then b
    else
      var payment := b.requests[r].payment;
      if payment !in b.purchases then SendToReview(b, r, false)
      else
        var owner := b.purchases[payment].owner;
        var (after, effect) :=
          if owner.Some? then FinalizeEffects(b, owner.value, payment, r) else (b, Applied(0, true));
        if effect.Violated? then SendToReview(b, r, false)
        else if InFlight(after.requests[r].status)
        then SetRequest(after, r, after.requests[r].(status := Refunded, reference := true, marked := false))
        else after
  }

  function MarkFailed(b: Books, r: nat): Books {
    var released := Release(b, r);
    if r < |b.requests| && InFlight(b.requests[r].status)
    then SetRequest(released, r, b.requests[r].(status := Failed, marked := false)) else released
  }

  /** The job's own writes to the request row: claim it, and leave attempt markers while processing. */
  function StartProcessing(b: Books, r: nat): Books {
    if r < |b.requests| && b.requests[r].status == Approved
    then SetRequest(b, r, b.requests[r].(status := Processing)) else b
  }

  function NoteAttempt(b: Books, r: nat, reference: bool, marked: bool): Books {
    if r < |b.requests| && b.requests[r].status == Processing
    then SetRequest(b, r, b.requests[r].(reference := b.requests[r].reference || reference, marked := b.requests[r].marked || marked)) else b
  }
}

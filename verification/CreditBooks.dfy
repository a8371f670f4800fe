/**
 * The tables behind credits and cash refunds, and the queries over them. A table is a sequence
 * of rows in insertion order; a row's index is its database identity, except that ledger rows
 * are identified by their unique idempotency key.
 */
module CreditBooks {
  import opened Wrappers
  import opened Sums

  type Id = string

  /** Idempotency keys. Clawback keys are derived from a refund request; clients never send them. */
  datatype Key = Client(text: string) | ClawbackOf(request: nat)

  datatype Kind = Spend | Refund | Purchase | Clawback

  /** `source` records which spend a refund row was resolved to; no guard reads it. */
  datatype Entry = Entry(key: Key, user: Id, kind: Kind, amount: int, purchase: Option<Id>, at: int, source: Option<Key>)

  datatype LotStatus = Open | Reserved | Clawed

  /** `debited` and `forfeited` count units that left the lot other than by spending; no guard reads them. */
  datatype Lot = Lot(user: Id, purchase: Option<Id>, entry: Key, grant: int, remaining: int, reserved: int,
                     reservedFor: Option<nat>, status: LotStatus, createdAt: int, debited: int, forfeited: int)

  datatype Allocation = Allocation(lot: nat, spend: Key, amount: int, restored: bool, cash: Option<nat>)

  datatype Status = Requested | Approved | Processing | Refunded | Rejected | Failed | NeedsReview

  datatype Scope = PurchaseRemainder | Operation

  /** `units` is the credit-unit snapshot; `reference` and `marked` are the two provider-attempt markers. */
  datatype Request = Request(user: Id, payment: Id, status: Status, scope: Scope, units: Option<int>,
                             spend: Option<Key>, amount: Option<int>, reference: bool, marked: bool)

  datatype PurchaseRow = PurchaseRow(owner: Option<Id>, price: nat)

  datatype Books = Books(ledger: seq<Entry>, lots: seq<Lot>, allocations: seq<Allocation>,
                         requests: seq<Request>, purchases: map<Id, PurchaseRow>)

  // ----- lookups -----

  function FindEntry(ledger: seq<Entry>, key: Key): Option<Entry> {
    if |ledger| == 0 then None
    else if ledger[|ledger| - 1].key == key then Some(ledger[|ledger| - 1])
    else FindEntry(ledger[..|ledger| - 1], key)
  }

  predicate HasKey(ledger: seq<Entry>, key: Key) { FindEntry(ledger, key).Some? }

  predicate OfPurchase(lot: Lot, purchase: Id, user: Option<Id>) {
    lot.purchase == Some(purchase) && (user.Some? ==> lot.user == user.value)
  }

  /** The oldest lot of a purchase, optionally of one user only. */
  function FirstLot(lots: seq<Lot>, purchase: Id, user: Option<Id>): (r: Option<nat>)
    ensures r.Some? ==> r.value < |lots| && OfPurchase(lots[r.value], purchase, user)
  {
    if |lots| == 0 then None
    else
      var n := |lots| - 1;
      var best := FirstLot(lots[..n], purchase, user);
      if OfPurchase(lots[n], purchase, user) && (best.None? || lots[n].createdAt < lots[best.value].createdAt)
      then Some(n) else best
  }

  /** The spend row a refund names, if it exists and belongs to the user. */
  function ResolveSpend(ledger: seq<Entry>, user: Id, source: Option<Key>): Option<Key> {
    if source.None? then None
    else
      match FindEntry(ledger, source.value)
      case None => None
      case Some(e) => if e.kind == Spend && e.user == user then source else None
  }

  // ----- aggregates -----

  function EntryAmount(user: Id): Entry -> int { (e: Entry) => if e.user == user then e.amount else 0 }

  /** A balance is the sum of the user's ledger rows. */
  function Balance(b: Books, user: Id): int { Sum(b.ledger, EntryAmount(user)) }

  function RemainingOf(user: Id): Lot -> int { (l: Lot) => if l.user == user then l.remaining else 0 }

  function Remaining(b: Books, user: Id): int { Sum(b.lots, RemainingOf(user)) }

  /** Spent units of a lot that were never given back. */
  function Outstanding(lot: nat): Allocation -> int {
    (a: Allocation) => if a.lot == lot && !a.restored then a.amount else 0
  }

  function OfSpend(spend: Key): Allocation -> int { (a: Allocation) => if a.spend == spend then a.amount else 0 }

  predicate Counted(s: Status) { s == Approved || s == Processing || s == Refunded }

  /** Approved and not settled yet: a refund job may work on the request. */
  predicate InFlight(s: Status) { s == Approved || s == Processing }

  function CountedUnits(payment: Id): Request -> int {
    (r: Request) => if r.payment == payment && Counted(r.status) && r.units.Some? then r.units.value else 0
  }

  function CountedMoney(payment: Id): Request -> int {
    (r: Request) => if r.payment == payment && Counted(r.status) && r.amount.Some? then r.amount.value else 0
  }

  // ----- allocations of one spend -----

  predicate OfSpendAt(b: Books, spend: Key, i: nat)
    requires i < |b.allocations|
  {
    b.allocations[i].spend == spend
  }

  /** An allocation is paid when its lot came from a purchase. */
  predicate Paid(b: Books, spend: Key, i: nat)
    requires i < |b.allocations|
  {
    b.allocations[i].spend == spend && b.allocations[i].lot < |b.lots| && b.lots[b.allocations[i].lot].purchase.Some?
  }

  predicate AnyRestored(b: Books, spend: Key) {
    exists i :: 0 <= i < |b.allocations| && OfSpendAt(b, spend, i) && b.allocations[i].restored
  }

  predicate AnyStamped(b: Books, spend: Key) {
    exists i :: 0 <= i < |b.allocations| && OfSpendAt(b, spend, i) && b.allocations[i].cash.Some?
  }

  predicate AnyPaid(b: Books, spend: Key) {
    exists i :: 0 <= i < |b.allocations| && Paid(b, spend, i)
  }

  predicate AllPaidStampedBy(b: Books, spend: Key, request: nat) {
    forall i :: 0 <= i < |b.allocations| && Paid(b, spend, i) ==> b.allocations[i].cash == Some(request)
  }

  predicate AnyPaidStamped(b: Books, spend: Key) {
    exists i :: 0 <= i < |b.allocations| && Paid(b, spend, i) && b.allocations[i].cash.Some?
  }

  function PaidAmount(lots: seq<Lot>, spend: Key): Allocation -> int {
    (a: Allocation) => if a.spend == spend && a.lot < |lots| && lots[a.lot].purchase.Some? then a.amount else 0
  }

  function PaidUnits(b: Books, spend: Key): int { Sum(b.allocations, PaidAmount(b.lots, spend)) }

  // ----- the guard against paying a spend back twice -----

  /** A request that is, or may already have been, paid out in money for this spend. */
  predicate BlocksCompensation(r: Request, spend: Key) {
    r.spend == Some(spend) && r.scope == Operation
    && (Counted(r.status) || (r.status == NeedsReview && (r.reference || r.marked)))
  }

  predicate CompensationAllowed(b: Books, spend: Key) {
    !AnyStamped(b, spend) && forall r :: 0 <= r < |b.requests| ==> !BlocksCompensation(b.requests[r], spend)
  }

  // ----- facts about lookups -----

  /** No matching lot is older, nor as old and inserted earlier. */
  ghost predicate OldestMatch(lots: seq<Lot>, purchase: Id, user: Option<Id>, k: nat) {
    && k < |lots| && OfPurchase(lots[k], purchase, user)
    && (forall n :: 0 <= n < |lots| && OfPurchase(lots[n], purchase, user) ==>
        lots[k].createdAt < lots[n].createdAt || (lots[k].createdAt == lots[n].createdAt && k <= n))
  }

  lemma {:induction false} FirstLotIsOldest(lots: seq<Lot>, purchase: Id, user: Option<Id>)
    ensures FirstLot(lots, purchase, user).Some? ==> OldestMatch(lots, purchase, user, FirstLot(lots, purchase, user).value)
    ensures FirstLot(lots, purchase, user).None? ==> forall n :: 0 <= n < |lots| ==> !OfPurchase(lots[n], purchase, user)
  {
    if |lots| > 0 {
      FirstLotIsOldest(lots[..|lots| - 1], purchase, user);
    }
  }

  ghost predicate DistinctKeys(ledger: seq<Entry>) {
    forall i, j :: 0 <= i < j < |ledger| ==> ledger[i].key != ledger[j].key
  }

  lemma {:induction false} FindHits(ledger: seq<Entry>, key: Key) returns (i: nat)
    requires HasKey(ledger, key)
    ensures i < |ledger| && ledger[i] == FindEntry(ledger, key).value && ledger[i].key == key
  {
    if ledger[|ledger| - 1].key == key {
      i := |ledger| - 1;
    } else {
      i := FindHits(ledger[..|ledger| - 1], key);
    }
  }

  lemma {:induction false} FindRow(ledger: seq<Entry>, i: nat)
    requires i < |ledger| && DistinctKeys(ledger)
    ensures FindEntry(ledger, ledger[i].key) == Some(ledger[i])
  {
    if i < |ledger| - 1 {
      FindRow(ledger[..|ledger| - 1], i);
    }
  }

  lemma FindAfterAppend(ledger: seq<Entry>, e: Entry, key: Key)
    ensures FindEntry(ledger + [e], key) == if e.key == key then Some(e) else FindEntry(ledger, key)
  {
  }

  lemma AppendKeepsDistinct(ledger: seq<Entry>, e: Entry)
    requires DistinctKeys(ledger) && !HasKey(ledger, e.key)
    ensures DistinctKeys(ledger + [e])
  {
    forall i | 0 <= i < |ledger| ensures ledger[i].key != e.key {
      FindRow(ledger, i);
    }
  }
}

/** What every transaction keeps true of the books. */
module CreditInvariant {
  import opened Wrappers
  import opened Sums
  import opened CreditBooks
  import opened CreditRules
  import opened LotPlan

  ghost predicate SpendRow(b: Books, key: Key, user: Id) {
    exists j :: 0 <= j < |b.ledger| && b.ledger[j].key == key && b.ledger[j].kind == Spend && b.ledger[j].user == user
  }

  /** A lot stands for the grant; grants from before lots existed have none. */
  ghost predicate HasLot(b: Books, key: Key) {
    exists k :: 0 <= k < |b.lots| && b.lots[k].entry == key
  }

  ghost predicate RowOk(b: Books, e: Entry) {
    && (e.kind == Spend ==> e.amount < 0)
    && (e.kind == Clawback <==> e.key.ClawbackOf?)
    && (e.source.Some? ==> e.kind == Refund && SpendRow(b, e.source.value, e.user))
  }

  ghost predicate LedgerOk(b: Books) {
    DistinctKeys(b.ledger) && forall j :: 0 <= j < |b.ledger| ==> RowOk(b, b.ledger[j])
  }

  /** A lot's own fields; a reservation always holds the whole grant. */
  ghost predicate LotShape(lot: Lot) {
    && lot.remaining >= 0 && lot.debited >= 0 && lot.forfeited >= 0 && lot.grant > 0
    && (lot.status == Clawed ==> lot.remaining == 0)
    && (if lot.status == Reserved then lot.reserved == lot.grant && lot.reservedFor.Some?
        else lot.reserved == 0 && lot.reservedFor.None?)
  }

  /** Conservation: every granted unit is left, spent and not given back, clawed back, or forfeited. */
  ghost predicate Conserved(b: Books, k: nat)
    requires k < |b.lots|
  {
    b.lots[k].grant == b.lots[k].remaining + Sum(b.allocations, Outstanding(k)) + b.lots[k].debited + b.lots[k].forfeited
  }

  ghost predicate LotsOk(b: Books) {
    forall k :: 0 <= k < |b.lots| ==> LotShape(b.lots[k]) && Conserved(b, k)
  }

  /** A stamped allocation belongs to the one operation request whose id it carries. */
  ghost predicate AllocationOk(b: Books, a: Allocation) {
    && a.amount > 0 && a.lot < |b.lots| && SpendRow(b, a.spend, b.lots[a.lot].user)
    && (a.cash.Some? ==>
        && !a.restored && b.lots[a.lot].purchase.Some?
        && a.cash.value < |b.requests| && b.requests[a.cash.value].spend == Some(a.spend)
        && b.requests[a.cash.value].scope == Operation && b.requests[a.cash.value].units.Some?)
  }

  ghost predicate AllocationsOk(b: Books) {
    forall i :: 0 <= i < |b.allocations| ==> AllocationOk(b, b.allocations[i])
  }

  /** A spend's allocations never exceed what the spend took. */
  ghost predicate SpendsCovered(b: Books) {
    forall j :: 0 <= j < |b.ledger| && b.ledger[j].kind == Spend ==>
      Sum(b.allocations, OfSpend(b.ledger[j].key)) <= -b.ledger[j].amount
  }

  /** The ledger balance backs every unit left in the user's lots; in particular it is not negative. */
  ghost predicate Backed(b: Books) {
    forall u: Id :: Balance(b, u) >= Remaining(b, u)
  }

  /** A spend given back in credits has no operation cash refund that is approved or further. */
  ghost predicate ExcludesCash(b: Books, spend: Key) {
    && (forall i :: 0 <= i < |b.allocations| && b.allocations[i].spend == spend ==> b.allocations[i].restored)
    && (forall r :: 0 <= r < |b.requests| ==>
        !(b.requests[r].spend == Some(spend) && b.requests[r].scope == Operation && Counted(b.requests[r].status)))
  }

  ghost predicate Exclusive(b: Books) {
    forall j :: 0 <= j < |b.ledger| && b.ledger[j].source.Some? ==> ExcludesCash(b, b.ledger[j].source.value)
  }

  /** A spend with a stamped allocation has nothing restored, not even its unpaid part. */
  ghost predicate StampsAlone(b: Books) {
    forall i, j :: 0 <= i < |b.allocations| && 0 <= j < |b.allocations| && b.allocations[i].cash.Some? ==>
      b.allocations[i].spend != b.allocations[j].spend || !b.allocations[j].restored
  }

  /** The local effect of a request with a unit snapshot is in the books, in full. */
  ghost predicate EffectApplied(b: Books, r: nat)
    requires r < |b.requests| && b.requests[r].units.Some?
  {
    var row := b.requests[r];
    if row.scope == Operation then
      && row.spend.Some? && AnyPaid(b, row.spend.value) && AllPaidStampedBy(b, row.spend.value, r)
      && PaidUnits(b, row.spend.value) == row.units.value
    else
      exists j :: 0 <= j < |b.ledger| && b.ledger[j].key == ClawbackOf(r) && b.ledger[j].amount == -row.units.value
  }

  ghost predicate RequestOk(b: Books, r: nat)
    requires r < |b.requests|
  {
    var row := b.requests[r];
    && (row.status == Requested || row.status == Rejected ==> row.units.None?)
    && (row.units.Some? && row.status == Refunded && row.payment in b.purchases && b.purchases[row.payment].owner.Some?
        ==> EffectApplied(b, r))
  }

  /** Clawback rows and stamps point at requests that left the requested state, with their exact units. */
  ghost predicate TraceOk(b: Books, r: nat)
    requires r < |b.requests|
  {
    var row := b.requests[r];
    && (forall j :: 0 <= j < |b.ledger| && b.ledger[j].key == ClawbackOf(r) ==>
        && row.status != Requested && row.status != Rejected
        && (row.units.Some? ==> row.scope == PurchaseRemainder && b.ledger[j].amount == -row.units.value))
    && (forall i :: 0 <= i < |b.allocations| && b.allocations[i].cash == Some(r) ==> row.units.Some? && EffectApplied(b, r))
  }

  ghost predicate RequestsOk(b: Books) {
    && (forall r :: 0 <= r < |b.requests| ==> RequestOk(b, r) && TraceOk(b, r))
    && (forall j :: 0 <= j < |b.ledger| && b.ledger[j].key.ClawbackOf? ==> b.ledger[j].key.request < |b.requests|)
  }

  /** What every single-table change keeps; the last two conditions are kept by whole transactions only. */
  ghost predicate Sound(b: Books) {
    && LedgerOk(b) && LotsOk(b) && AllocationsOk(b) && SpendsCovered(b) && Exclusive(b) && RequestsOk(b)
  }

  ghost predicate Inv(b: Books) { Sound(b) && StampsAlone(b) && Backed(b) }
}

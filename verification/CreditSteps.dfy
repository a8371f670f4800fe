/** The single-table changes transactions are made of, and what each keeps. */
module CreditSteps {
  import opened Wrappers
  import opened Sums
  import opened CreditBooks
  import opened CreditRules
  import opened CreditInvariant
  import opened LotPlan

  // ----- a new ledger row -----

  lemma KeyOfSpendRow(b: Books, key: Key, user: Id)
    requires DistinctKeys(b.ledger) && SpendRow(b, key, user)
    ensures HasKey(b.ledger, key) && FindEntry(b.ledger, key).value.kind == Spend && FindEntry(b.ledger, key).value.user == user
  {
    var j :| 0 <= j < |b.ledger| && b.ledger[j].key == key && b.ledger[j].kind == Spend && b.ledger[j].user == user;
    FindRow(b.ledger, j);
  }

  lemma SpendRowOnceAppended(b: Books, e: Entry, key: Key, user: Id)
    requires SpendRow(b, key, user)
    ensures SpendRow(b.(ledger := b.ledger + [e]), key, user)
  {
    var j :| 0 <= j < |b.ledger| && b.ledger[j].key == key && b.ledger[j].kind == Spend && b.ledger[j].user == user;
    assert (b.ledger + [e])[j] == b.ledger[j];
  }

  /** No allocation belongs to a key that is not in the ledger yet. */
  lemma FreshKeyHasNoAllocations(b: Books, key: Key)
    requires LedgerOk(b) && AllocationsOk(b) && !HasKey(b.ledger, key)
    ensures forall i :: 0 <= i < |b.allocations| ==> b.allocations[i].spend != key
    ensures Sum(b.allocations, OfSpend(key)) == 0
  {
    forall i | 0 <= i < |b.allocations| ensures b.allocations[i].spend != key {
      assert AllocationOk(b, b.allocations[i]);
      KeyOfSpendRow(b, b.allocations[i].spend, b.lots[b.allocations[i].lot].user);
    }
    Zero(b.allocations, OfSpend(key));
  }

  lemma AppendLedger(b: Books, e: Entry)
    requires LedgerOk(b) && !HasKey(b.ledger, e.key) && RowOk(b.(ledger := b.ledger + [e]), e)
    ensures LedgerOk(b.(ledger := b.ledger + [e]))
  {
    var after := b.(ledger := b.ledger + [e]);
    AppendKeepsDistinct(b.ledger, e);
    forall j | 0 <= j < |after.ledger| ensures RowOk(after, after.ledger[j]) {
      if j < |b.ledger| {
        assert RowOk(b, b.ledger[j]);
        if b.ledger[j].source.Some? {
          SpendRowOnceAppended(b, e, b.ledger[j].source.value, b.ledger[j].user);
        }
      }
    }
  }

  lemma AppendKeepsAllocations(b: Books, e: Entry)
    requires AllocationsOk(b)
    ensures AllocationsOk(b.(ledger := b.ledger + [e]))
  {
    var after := b.(ledger := b.ledger + [e]);
    forall i | 0 <= i < |b.allocations| ensures AllocationOk(after, after.allocations[i]) {
      assert AllocationOk(b, b.allocations[i]);
      SpendRowOnceAppended(b, e, b.allocations[i].spend, b.lots[b.allocations[i].lot].user);
    }
  }

  lemma AppendKeepsEffect(b: Books, e: Entry, r: nat)
    requires r < |b.requests| && b.requests[r].units.Some? && EffectApplied(b, r)
    ensures EffectApplied(b.(ledger := b.ledger + [e]), r)
  {
    var after := b.(ledger := b.ledger + [e]);
    if b.requests[r].scope == Operation {
      var spend := b.requests[r].spend.value;
      var i :| 0 <= i < |b.allocations| && Paid(b, spend, i);
      assert Paid(after, spend, i);
      assert forall i :: 0 <= i < |b.allocations| ==> Paid(after, spend, i) == Paid(b, spend, i);
    } else {
      var j :| 0 <= j < |b.ledger| && b.ledger[j].key == ClawbackOf(r) && b.ledger[j].amount == -b.requests[r].units.value;
      assert after.ledger[j] == b.ledger[j];
    }
  }

  /** A clawback row may only carry a request that left the requested state, with its exact units. */
  ghost predicate TraceRowOk(b: Books, e: Entry) {
    e.key.ClawbackOf? ==>
      && e.key.request < |b.requests|
      && var row := b.requests[e.key.request];
        row.status != Requested && row.status != Rejected
        && (row.units.Some? ==> row.scope == PurchaseRemainder && e.amount == -row.units.value)
  }

  lemma AppendKeepsRequests(b: Books, e: Entry)
    requires RequestsOk(b) && TraceRowOk(b, e)
    ensures RequestsOk(b.(ledger := b.ledger + [e]))
  {
    var after := b.(ledger := b.ledger + [e]);
    forall r | 0 <= r < |b.requests| ensures RequestOk(after, r) && TraceOk(after, r) {
      assert RequestOk(b, r) && TraceOk(b, r);
      if b.requests[r].units.Some? && EffectApplied(b, r) {
        AppendKeepsEffect(b, e, r);
      }
    }
  }

  /** Appending a row: the only duties are those of the row itself. */
  lemma AppendRow(b: Books, e: Entry)
    requires Sound(b) && !HasKey(b.ledger, e.key)
    requires RowOk(b.(ledger := b.ledger + [e]), e) && TraceRowOk(b, e)
    requires e.source.Some? ==> ExcludesCash(b, e.source.value)
    ensures Sound(b.(ledger := b.ledger + [e]))
  {
    var after := b.(ledger := b.ledger + [e]);
    AppendLedger(b, e);
    AppendKeepsAllocations(b, e);
    AppendKeepsRequests(b, e);
    FreshKeyHasNoAllocations(b, e.key);
    assert LotsOk(after) by {
      forall k | 0 <= k < |b.lots| ensures LotShape(after.lots[k]) && Conserved(after, k) {
        assert Conserved(b, k);
      }
    }
    assert Exclusive(after) by {
      forall j | 0 <= j < |after.ledger| && after.ledger[j].source.Some? ensures ExcludesCash(after, after.ledger[j].source.value) {
        if j < |b.ledger| {
          assert ExcludesCash(b, b.ledger[j].source.value);
        }
      }
    }
  }

  // ----- rewriting lots -----

  /** The same lot: identity, owner and grant, and the same units not spent. */
  ghost predicate SameLot(old_: Lot, new_: Lot) {
    && new_.user == old_.user && new_.purchase == old_.purchase && new_.entry == old_.entry && new_.grant == old_.grant && new_.createdAt == old_.createdAt
    && new_.remaining + new_.debited + new_.forfeited == old_.remaining + old_.debited + old_.forfeited
  }

  ghost predicate LotsRewritten(before: seq<Lot>, after: seq<Lot>) {
    |after| == |before| && forall k :: 0 <= k < |before| ==> SameLot(before[k], after[k]) && LotShape(after[k])
  }

  lemma RewriteKeepsPaid(b: Books, lots: seq<Lot>, spend: Key)
    requires LotsRewritten(b.lots, lots)
    ensures var after := b.(lots := lots);
      && (forall i :: 0 <= i < |b.allocations| ==> Paid(after, spend, i) == Paid(b, spend, i))
      && PaidUnits(after, spend) == PaidUnits(b, spend)
  {
    Equal(b.allocations, PaidAmount(b.lots, spend), b.allocations, PaidAmount(lots, spend));
  }

  lemma RewriteKeepsEffect(b: Books, lots: seq<Lot>, r: nat)
    requires LotsRewritten(b.lots, lots) && r < |b.requests| && b.requests[r].units.Some? && EffectApplied(b, r)
    ensures EffectApplied(b.(lots := lots), r)
  {
    if b.requests[r].scope == Operation {
      var spend := b.requests[r].spend.value;
      RewriteKeepsPaid(b, lots, spend);
      var i :| 0 <= i < |b.allocations| && Paid(b, spend, i);
      assert Paid(b.(lots := lots), spend, i);
    }
  }

  lemma RewriteLots(b: Books, lots: seq<Lot>)
    requires Sound(b) && LotsRewritten(b.lots, lots)
    ensures Sound(b.(lots := lots))
  {
    var after := b.(lots := lots);
    assert LotsOk(after) by {
      forall k | 0 <= k < |lots| ensures Conserved(after, k) { assert Conserved(b, k); }
    }
    RewriteKeepsLedger(b, lots);
    RewriteKeepsAllocations(b, lots);
    forall r | 0 <= r < |b.requests| ensures RequestOk(after, r) && TraceOk(after, r) {
      assert RequestOk(b, r) && TraceOk(b, r);
      if b.requests[r].units.Some? && EffectApplied(b, r) { RewriteKeepsEffect(b, lots, r); }
    }
    forall j | 0 <= j < |b.ledger| && b.ledger[j].source.Some? ensures ExcludesCash(after, b.ledger[j].source.value) {
      assert ExcludesCash(b, b.ledger[j].source.value);
    }
  }

  lemma RewriteKeepsLedger(b: Books, lots: seq<Lot>)
    requires LedgerOk(b) && LotsRewritten(b.lots, lots)
    ensures LedgerOk(b.(lots := lots))
  {
  }

  lemma SpendRowSame(b: Books, after: Books, key: Key, user: Id)
    requires after.ledger == b.ledger
    ensures SpendRow(after, key, user) == SpendRow(b, key, user)
  {
  }

  lemma RewriteKeepsAllocations(b: Books, lots: seq<Lot>)
    requires AllocationsOk(b) && LotsRewritten(b.lots, lots)
    ensures AllocationsOk(b.(lots := lots))
  {
  }

  // ----- a new lot -----

  lemma AppendLot(b: Books, lot: Lot)
    requires Sound(b) && LotShape(lot) && lot.grant == lot.remaining && lot.debited == 0 && lot.forfeited == 0
    ensures Sound(b.(lots := b.lots + [lot]))
  {
    var after := b.(lots := b.lots + [lot]);
    assert LotsOk(after) by {
      forall k | 0 <= k < |after.lots| ensures LotShape(after.lots[k]) && Conserved(after, k) {
        if k < |b.lots| {
          assert Conserved(b, k);
        } else {
          forall i | 0 <= i < |b.allocations| ensures b.allocations[i].lot != k { assert AllocationOk(b, b.allocations[i]); }
          Zero(b.allocations, Outstanding(k));
        }
      }
    }
    forall j | 0 <= j < |b.ledger| ensures RowOk(after, b.ledger[j]) {
      assert RowOk(b, b.ledger[j]);
      if b.ledger[j].source.Some? { SpendRowSame(b, after, b.ledger[j].source.value, b.ledger[j].user); }
    }
    forall i | 0 <= i < |b.allocations| ensures AllocationOk(after, b.allocations[i]) {
      assert AllocationOk(b, b.allocations[i]);
      SpendRowSame(b, after, b.allocations[i].spend, b.lots[b.allocations[i].lot].user);
    }
    forall r | 0 <= r < |b.requests| ensures RequestOk(after, r) && TraceOk(after, r) {
      assert RequestOk(b, r) && TraceOk(b, r);
      if b.requests[r].units.Some? && EffectApplied(b, r) { AppendLotKeepsEffect(b, lot, r); }
    }
    forall j | 0 <= j < |b.ledger| && b.ledger[j].source.Some? ensures ExcludesCash(after, b.ledger[j].source.value) {
      assert ExcludesCash(b, b.ledger[j].source.value);
    }
  }

  lemma AppendLotKeepsEffect(b: Books, lot: Lot, r: nat)
    requires AllocationsOk(b) && r < |b.requests| && b.requests[r].units.Some? && EffectApplied(b, r)
    ensures EffectApplied(b.(lots := b.lots + [lot]), r)
  {
    if b.requests[r].scope == Operation {
      var after := b.(lots := b.lots + [lot]);
      var spend := b.requests[r].spend.value;
      forall i | 0 <= i < |b.allocations| ensures Paid(after, spend, i) == Paid(b, spend, i) { assert AllocationOk(b, b.allocations[i]); }
      Equal(b.allocations, PaidAmount(b.lots, spend), b.allocations, PaidAmount(after.lots, spend));
      var i :| 0 <= i < |b.allocations| && Paid(b, spend, i);
      assert Paid(after, spend, i);
    }
  }

  // ----- a new allocation -----

  ghost predicate DrawOk(b: Books, spend: Key, d: Draw) {
    CanDraw(b, d) && d.amount > 0 && SpendRow(b, spend, b.lots[d.lot].user)
  }

  /** The spend has room for the draw, and nothing was paid back for it yet. */
  ghost predicate SpendOpen(b: Books, spend: Key, room: int) {
    && (forall j :: 0 <= j < |b.ledger| ==> b.ledger[j].source != Some(spend))
    && (forall j :: 0 <= j < |b.ledger| && b.ledger[j].key == spend ==>
        Sum(b.allocations, OfSpend(spend)) + room <= -b.ledger[j].amount)
    && (forall i :: 0 <= i < |b.allocations| && b.allocations[i].spend == spend ==> b.allocations[i].cash.None?)
  }

  lemma DrawKeepsLots(b: Books, spend: Key, d: Draw)
    requires LotsOk(b) && AllocationsOk(b) && DrawOk(b, spend, d)
    ensures LotsOk(DrawOne(b, spend, d))
  {
  }

  lemma DrawKeepsAllocations(b: Books, spend: Key, d: Draw)
    requires AllocationsOk(b) && DrawOk(b, spend, d)
    ensures AllocationsOk(DrawOne(b, spend, d))
  {
  }

  lemma DrawKeepsLedger(b: Books, spend: Key, d: Draw)
    requires LedgerOk(b) && DrawOk(b, spend, d)
    ensures LedgerOk(DrawOne(b, spend, d))
  {
    var after := DrawOne(b, spend, d);
    forall j | 0 <= j < |b.ledger| ensures RowOk(after, b.ledger[j]) {
      assert RowOk(b, b.ledger[j]);
      if b.ledger[j].source.Some? { SpendRowSame(b, after, b.ledger[j].source.value, b.ledger[j].user); }
    }
  }

  lemma DrawKeepsEffect(b: Books, spend: Key, d: Draw, r: nat)
    requires DrawOk(b, spend, d) && r < |b.requests| && b.requests[r].units.Some? && EffectApplied(b, r)
    requires forall i :: 0 <= i < |b.allocations| && b.allocations[i].spend == spend ==> b.allocations[i].cash.None?
    ensures EffectApplied(DrawOne(b, spend, d), r)
  {
    var after := DrawOne(b, spend, d);
    if b.requests[r].scope == Operation {
      var paidBy := b.requests[r].spend.value;
      var i :| 0 <= i < |b.allocations| && Paid(b, paidBy, i);
      assert b.allocations[i].cash == Some(r);
      assert paidBy != spend;
      assert Paid(after, paidBy, i);
      assert forall i :: 0 <= i < |b.allocations| ==> Paid(after, paidBy, i) == Paid(b, paidBy, i);
      Equal(b.allocations, PaidAmount(b.lots, paidBy), b.allocations, PaidAmount(after.lots, paidBy));
      Append(b.allocations, after.allocations[|b.allocations|], PaidAmount(after.lots, paidBy));
    }
  }

  lemma DrawKeepsRequests(b: Books, spend: Key, d: Draw)
    requires RequestsOk(b) && DrawOk(b, spend, d)
    requires forall i :: 0 <= i < |b.allocations| && b.allocations[i].spend == spend ==> b.allocations[i].cash.None?
    ensures RequestsOk(DrawOne(b, spend, d))
  {
    var after := DrawOne(b, spend, d);
    forall r | 0 <= r < |b.requests| ensures RequestOk(after, r) && TraceOk(after, r) {
      assert RequestOk(b, r) && TraceOk(b, r);
      if b.requests[r].units.Some? && EffectApplied(b, r) { DrawKeepsEffect(b, spend, d, r); }
    }
  }

  lemma DrawKeepsCovered(b: Books, spend: Key, d: Draw, room: int)
    requires SpendsCovered(b) && DistinctKeys(b.ledger) && DrawOk(b, spend, d) && SpendOpen(b, spend, room) && d.amount <= room
    ensures SpendsCovered(DrawOne(b, spend, d)) && SpendOpen(DrawOne(b, spend, d), spend, room - d.amount)
  {
  }

  lemma DrawKeepsExclusive(b: Books, spend: Key, d: Draw)
    requires Exclusive(b) && DrawOk(b, spend, d)
    requires forall j :: 0 <= j < |b.ledger| ==> b.ledger[j].source != Some(spend)
    ensures Exclusive(DrawOne(b, spend, d))
  {
  }

  lemma RemainingAfterDraw(b: Books, spend: Key, d: Draw, u: Id)
    requires CanDraw(b, d)
    ensures Remaining(DrawOne(b, spend, d), u) == Remaining(b, u) - if u == b.lots[d.lot].user then d.amount else 0
  {
    var lot := b.lots[d.lot];
    Update(b.lots, d.lot, lot.(remaining := lot.remaining - d.amount), RemainingOf(u));
  }

  lemma DrawStep(b: Books, spend: Key, d: Draw, room: int)
    requires Sound(b) && DrawOk(b, spend, d) && SpendOpen(b, spend, room) && d.amount <= room
    ensures Sound(DrawOne(b, spend, d)) && SpendOpen(DrawOne(b, spend, d), spend, room - d.amount)
  {
    DrawKeepsLots(b, spend, d);
    DrawKeepsAllocations(b, spend, d);
    DrawKeepsLedger(b, spend, d);
    DrawKeepsRequests(b, spend, d);
    DrawKeepsCovered(b, spend, d, room);
    DrawKeepsExclusive(b, spend, d);
  }

  // ----- giving an allocation back -----

  /** Units a credit refund of the spend would put back into lots; clawed lots take nothing back. */
  function Live(lots: seq<Lot>, spend: Key): Allocation -> int {
    (a: Allocation) => if CanRestore(a, spend) && a.lot < |lots| && lots[a.lot].status != Clawed then a.amount else 0
  }

  function Backlog(b: Books, spend: Key): int { Sum(b.allocations, Live(b.lots, spend)) }

  lemma RestoreKeepsLots(b: Books, spend: Key, i: nat)
    requires LotsOk(b) && AllocationsOk(b) && i < |b.allocations|
    ensures LotsOk(RestoreOne(b, spend, i))
  {
    var a := b.allocations[i];
    var after := RestoreOne(b, spend, i);
    assert AllocationOk(b, a);
    if CanRestore(a, spend) {
      forall k | 0 <= k < |after.lots| ensures LotShape(after.lots[k]) && Conserved(after, k) {
        assert LotShape(b.lots[k]) && Conserved(b, k);
        Update(b.allocations, i, a.(restored := true), Outstanding(k));
      }
    }
  }

  lemma RestoreKeepsLedger(b: Books, spend: Key, i: nat)
    requires LedgerOk(b) && AllocationsOk(b) && SpendsCovered(b) && i < |b.allocations|
    ensures LedgerOk(RestoreOne(b, spend, i)) && AllocationsOk(RestoreOne(b, spend, i)) && SpendsCovered(RestoreOne(b, spend, i))
  {
    var a := b.allocations[i];
    var after := RestoreOne(b, spend, i);
    if CanRestore(a, spend) {
      assert AllocationOk(b, a);
      forall j | 0 <= j < |b.ledger| ensures RowOk(after, b.ledger[j]) {
        assert RowOk(b, b.ledger[j]);
        if b.ledger[j].source.Some? { SpendRowSame(b, after, b.ledger[j].source.value, b.ledger[j].user); }
      }
      forall n | 0 <= n < |b.allocations| ensures AllocationOk(after, after.allocations[n]) {
        assert AllocationOk(b, b.allocations[n]);
        SpendRowSame(b, after, b.allocations[n].spend, b.lots[b.allocations[n].lot].user);
      }
      forall j | 0 <= j < |b.ledger| && b.ledger[j].kind == Spend
        ensures Sum(after.allocations, OfSpend(b.ledger[j].key)) <= -b.ledger[j].amount
      {
        Update(b.allocations, i, a.(restored := true), OfSpend(b.ledger[j].key));
      }
    }
  }

  lemma RestoreKeepsPaid(b: Books, spend: Key, i: nat, paidBy: Key)
    requires AllocationsOk(b) && i < |b.allocations|
    ensures var after := RestoreOne(b, spend, i);
      && (forall n :: 0 <= n < |b.allocations| ==>
          Paid(after, paidBy, n) == Paid(b, paidBy, n) && after.allocations[n].cash == b.allocations[n].cash)
      && PaidUnits(after, paidBy) == PaidUnits(b, paidBy)
  {
    var a := b.allocations[i];
    assert AllocationOk(b, a);
    if CanRestore(a, spend) {
      var after := RestoreOne(b, spend, i);
      forall n | 0 <= n < |b.allocations|
        ensures PaidAmount(after.lots, paidBy)(after.allocations[n]) == PaidAmount(b.lots, paidBy)(b.allocations[n])
      {
      }
      Equal(after.allocations, PaidAmount(after.lots, paidBy), b.allocations, PaidAmount(b.lots, paidBy));
    }
  }

  lemma RestoreKeepsEffect(b: Books, spend: Key, i: nat, r: nat)
    requires AllocationsOk(b) && i < |b.allocations| && r < |b.requests| && b.requests[r].units.Some? && EffectApplied(b, r)
    ensures EffectApplied(RestoreOne(b, spend, i), r)
  {
    if b.requests[r].scope == Operation {
      var paidBy := b.requests[r].spend.value;
      RestoreKeepsPaid(b, spend, i, paidBy);
      var n :| 0 <= n < |b.allocations| && Paid(b, paidBy, n);
      assert Paid(RestoreOne(b, spend, i), paidBy, n);
    }
  }

  lemma RestoreKeepsRequests(b: Books, spend: Key, i: nat)
    requires AllocationsOk(b) && RequestsOk(b) && i < |b.allocations|
    ensures RequestsOk(RestoreOne(b, spend, i))
  {
    var after := RestoreOne(b, spend, i);
    forall r | 0 <= r < |b.requests| ensures RequestOk(after, r) && TraceOk(after, r) {
      assert RequestOk(b, r) && TraceOk(b, r);
      if b.requests[r].units.Some? && EffectApplied(b, r) { RestoreKeepsEffect(b, spend, i, r); }
    }
  }

  lemma RestoreStep(b: Books, spend: Key, i: nat)
    requires Sound(b) && i < |b.allocations|
    ensures Sound(RestoreOne(b, spend, i))
  {
    var after := RestoreOne(b, spend, i);
    RestoreKeepsLots(b, spend, i);
    RestoreKeepsLedger(b, spend, i);
    RestoreKeepsRequests(b, spend, i);
    hide LotsOk;
    hide AllocationsOk;
    hide RequestsOk;
    hide SpendsCovered;
    assert Exclusive(after) by {
      forall j | 0 <= j < |b.ledger| && b.ledger[j].source.Some? ensures ExcludesCash(after, b.ledger[j].source.value) {
        assert ExcludesCash(b, b.ledger[j].source.value);
      }
    }
  }

  /** One restored allocation moves its units from the backlog to the owner's lots. */
  lemma RestoreMovesBacklog(b: Books, spend: Key, i: nat, u: Id)
    requires Sound(b) && i < |b.allocations|
    ensures var after := RestoreOne(b, spend, i);
      if SpendRow(b, spend, u) then Remaining(after, u) + Backlog(after, spend) == Remaining(b, u) + Backlog(b, spend)
      else Remaining(after, u) == Remaining(b, u)
  {
    var a := b.allocations[i];
    assert AllocationOk(b, a) && DistinctKeys(b.ledger);
    hide Sound;
    RestoreUsesUp(b, spend, i);
    RestorePutsBack(b, spend, i, u);
    hide RestoreOne;
    hide Backlog;
    hide Remaining;
    if CanRestore(a, spend) {
      KeyOfSpendRow(b, spend, b.lots[a.lot].user);
      if SpendRow(b, spend, u) { KeyOfSpendRow(b, spend, u); }
    }
  }

  /** Units of an allocation that restoring it would put back into its lot. */
  function ToReturn(b: Books, spend: Key, i: nat): int
    requires i < |b.allocations|
  {
    Live(b.lots, spend)(b.allocations[i])
  }

  lemma RestoreUsesUp(b: Books, spend: Key, i: nat)
    requires i < |b.allocations| && b.allocations[i].lot < |b.lots|
    ensures Backlog(RestoreOne(b, spend, i), spend) == Backlog(b, spend) - ToReturn(b, spend, i)
  {
    var a := b.allocations[i];
    if CanRestore(a, spend) {
      var after := RestoreOne(b, spend, i);
      Update(b.allocations, i, a.(restored := true), Live(b.lots, spend));
      Equal(after.allocations, Live(b.lots, spend), after.allocations, Live(after.lots, spend));
    }
  }

  lemma RestorePutsBack(b: Books, spend: Key, i: nat, u: Id)
    requires i < |b.allocations| && b.allocations[i].lot < |b.lots|
    ensures Remaining(RestoreOne(b, spend, i), u)
         == Remaining(b, u) + if b.lots[b.allocations[i].lot].user == u then ToReturn(b, spend, i) else 0
  {
    var a := b.allocations[i];
    if CanRestore(a, spend) { Update(b.lots, a.lot, RestoredLot(b.lots[a.lot], a.amount), RemainingOf(u)); }
  }

  lemma {:induction false} RestoreUpToIsSound(b: Books, spend: Key, n: nat)
    requires Sound(b) && n <= |b.allocations|
    ensures Sound(RestoreUpTo(b, spend, n))
  {
    hide Sound;
    if n > 0 {
      RestoreUpToIsSound(b, spend, n - 1);
      RestoreStep(RestoreUpTo(b, spend, n - 1), spend, n - 1);
    }
  }

  lemma {:induction false} RestoreUsesBacklog(b: Books, spend: Key, n: nat, u: Id)
    requires Sound(b) && n <= |b.allocations|
    ensures var after := RestoreUpTo(b, spend, n);
      if SpendRow(b, spend, u) then Remaining(after, u) + Backlog(after, spend) == Remaining(b, u) + Backlog(b, spend)
      else Remaining(after, u) == Remaining(b, u)
  {
    hide Sound;
    hide SpendRow;
    hide Backlog;
    hide Remaining;
    hide RestoreOne;
    if n > 0 {
      RestoreUsesBacklog(b, spend, n - 1, u);
      RestoreUpToIsSound(b, spend, n - 1);
      RestoredAllocations(b, spend, n - 1);
      var before := RestoreUpTo(b, spend, n - 1);
      RestoreMovesBacklog(before, spend, n - 1, u);
      SpendRowSame(b, before, spend, u);
    }
  }

  /** A refund puts exactly the backlog back into the owner's lots, and touches no other user's lots. */
  lemma RestoreGivesBack(b: Books, spend: Key, u: Id)
    requires Sound(b)
    ensures Remaining(Restore(b, spend), u) == Remaining(b, u) + if SpendRow(b, spend, u) then Backlog(b, spend) else 0
  {
    hide Sound;
    RestoreUsesBacklog(b, spend, |b.allocations|, u);
    RestoredAllocations(b, spend, |b.allocations|);
    var after := Restore(b, spend);
    Zero(after.allocations, Live(after.lots, spend));
  }

  /** What restoring does to each allocation, and to the other tables. */
  lemma {:induction false} RestoredAllocations(b: Books, spend: Key, n: nat)
    requires n <= |b.allocations|
    ensures var after := RestoreUpTo(b, spend, n);
      && after.ledger == b.ledger && after.requests == b.requests && after.purchases == b.purchases && |after.lots| == |b.lots|
      && forall i :: 0 <= i < |b.allocations| ==>
          after.allocations[i] == if i < n && CanRestore(b.allocations[i], spend) then b.allocations[i].(restored := true) else b.allocations[i]
  {
    if n > 0 {
      RestoredAllocations(b, spend, n - 1);
    }
  }

  /** When nothing is left to give back, restoring changes nothing. */
  lemma {:induction false} RestoreOfRestored(b: Books, spend: Key, n: nat)
    requires n <= |b.allocations|
    requires forall i :: 0 <= i < |b.allocations| ==> !CanRestore(b.allocations[i], spend)
    ensures RestoreUpTo(b, spend, n) == b
  {
    if n > 0 {
      RestoreOfRestored(b, spend, n - 1);
    }
  }

  // ----- the request row -----

  /** A status change that neither claims a refund without its effect nor reopens a request. */
  ghost predicate RequestMove(b: Books, r: nat, row: Request)
    requires r < |b.requests|
  {
    var was := b.requests[r];
    && row.payment == was.payment && row.user == was.user && row.scope == was.scope
    && ((was.status == Requested && row.status == Approved) || (row.units == was.units && row.spend == was.spend))
    && (row.status == Requested || row.status == Rejected ==> row.units.None? && was.status == Requested)
    && (row.status == Refunded && row.units.Some? && row.payment in b.purchases && b.purchases[row.payment].owner.Some?
        ==> row.units == was.units && row.spend == was.spend && EffectApplied(b, r))
    && (Counted(row.status) && !Counted(was.status) && row.scope == Operation && row.spend.Some? ==>
        forall j :: 0 <= j < |b.ledger| ==> b.ledger[j].source != row.spend)
  }

  lemma MoveKeepsEffect(b: Books, r: nat, row: Request, q: nat)
    requires r < |b.requests| && RequestMove(b, r, row) && q < |b.requests|
    requires b.requests[q].units.Some? && EffectApplied(b, q)
    requires q == r ==> row.units == b.requests[r].units && row.spend == b.requests[r].spend
    ensures EffectApplied(SetRequest(b, r, row), q)
  {
    var after := SetRequest(b, r, row);
    if b.requests[q].scope == Operation {
      var spend := b.requests[q].spend.value;
      var i :| 0 <= i < |b.allocations| && Paid(b, spend, i);
      assert Paid(after, spend, i);
      assert forall i :: 0 <= i < |b.allocations| ==> Paid(after, spend, i) == Paid(b, spend, i);
    }
  }

  lemma MoveKeepsAllocations(b: Books, r: nat, row: Request)
    requires AllocationsOk(b) && RequestsOk(b) && r < |b.requests| && RequestMove(b, r, row)
    ensures AllocationsOk(SetRequest(b, r, row))
  {
    var after := SetRequest(b, r, row);
    forall i | 0 <= i < |b.allocations| ensures AllocationOk(after, b.allocations[i]) {
      assert AllocationOk(b, b.allocations[i]);
      SpendRowSame(b, after, b.allocations[i].spend, b.lots[b.allocations[i].lot].user);
      assert RequestOk(b, r) && TraceOk(b, r);
    }
  }

  lemma MoveKeepsRequests(b: Books, r: nat, row: Request)
    requires RequestsOk(b) && r < |b.requests| && RequestMove(b, r, row)
    ensures RequestsOk(SetRequest(b, r, row))
  {
    var after := SetRequest(b, r, row);
    forall q | 0 <= q < |b.requests| ensures RequestOk(after, q) && TraceOk(after, q) {
      assert RequestOk(b, q) && TraceOk(b, q);
      if b.requests[q].units.Some? && EffectApplied(b, q) && (q == r ==> row.units == b.requests[r].units && row.spend == b.requests[r].spend) {
        MoveKeepsEffect(b, r, row, q);
      }
    }
  }

  lemma MoveRequest(b: Books, r: nat, row: Request)
    requires Sound(b) && r < |b.requests| && RequestMove(b, r, row)
    ensures Sound(SetRequest(b, r, row))
  {
    var after := SetRequest(b, r, row);
    MoveKeepsAllocations(b, r, row);
    MoveKeepsRequests(b, r, row);
    assert LotsOk(after) by {
      forall k | 0 <= k < |b.lots| ensures Conserved(after, k) { assert Conserved(b, k); }
    }
    assert LedgerOk(after) by {
      forall j | 0 <= j < |b.ledger| ensures RowOk(after, b.ledger[j]) {
        assert RowOk(b, b.ledger[j]);
        if b.ledger[j].source.Some? { SpendRowSame(b, after, b.ledger[j].source.value, b.ledger[j].user); }
      }
    }
    assert Exclusive(after) by {
      forall j | 0 <= j < |b.ledger| && b.ledger[j].source.Some? ensures ExcludesCash(after, b.ledger[j].source.value) {
        assert ExcludesCash(b, b.ledger[j].source.value);
      }
    }
  }

  /** A new request row, still waiting for review. */
  lemma AppendRequest(b: Books, row: Request)
    requires Sound(b) && row.status == Requested && row.units.None?
    ensures Sound(b.(requests := b.requests + [row]))
  {
    var after := b.(requests := b.requests + [row]);
    var n := |b.requests|;
    forall i | 0 <= i < |b.allocations| ensures AllocationOk(after, b.allocations[i]) {
      assert AllocationOk(b, b.allocations[i]);
      SpendRowSame(b, after, b.allocations[i].spend, b.lots[b.allocations[i].lot].user);
    }
    forall r | 0 <= r <= n ensures RequestOk(after, r) && TraceOk(after, r) {
      if r < n {
        assert RequestOk(b, r) && TraceOk(b, r);
        if b.requests[r].units.Some? && EffectApplied(b, r) { AppendRequestKeepsEffect(b, row, r); }
      } else {
        forall i | 0 <= i < |b.allocations| ensures b.allocations[i].cash != Some(n) { assert AllocationOk(b, b.allocations[i]); }
      }
    }
    assert LotsOk(after) by {
      forall k | 0 <= k < |b.lots| ensures Conserved(after, k) { assert Conserved(b, k); }
    }
    assert LedgerOk(after) by {
      forall j | 0 <= j < |b.ledger| ensures RowOk(after, b.ledger[j]) {
        assert RowOk(b, b.ledger[j]);
        if b.ledger[j].source.Some? { SpendRowSame(b, after, b.ledger[j].source.value, b.ledger[j].user); }
      }
    }
    assert Exclusive(after) by {
      forall j | 0 <= j < |b.ledger| && b.ledger[j].source.Some? ensures ExcludesCash(after, b.ledger[j].source.value) {
        assert ExcludesCash(b, b.ledger[j].source.value);
      }
    }
  }

  lemma AppendRequestKeepsEffect(b: Books, row: Request, r: nat)
    requires r < |b.requests| && b.requests[r].units.Some? && EffectApplied(b, r)
    ensures EffectApplied(b.(requests := b.requests + [row]), r)
  {
    var after := b.(requests := b.requests + [row]);
    if b.requests[r].scope == Operation {
      var spend := b.requests[r].spend.value;
      var i :| 0 <= i < |b.allocations| && Paid(b, spend, i);
      assert Paid(after, spend, i);
      assert forall i :: 0 <= i < |b.allocations| ==> Paid(after, spend, i) == Paid(b, spend, i);
    }
  }

  // ----- stamping the paid allocations of a spend -----

  ghost predicate Stampable(b: Books, spend: Key, r: nat) {
    && r < |b.requests| && b.requests[r].spend == Some(spend) && b.requests[r].scope == Operation && b.requests[r].units.Some?
    && !AnyRestored(b, spend) && !AnyPaidStamped(b, spend)
    && PaidUnits(b, spend) == b.requests[r].units.value > 0
  }

  lemma StampTables(b: Books, spend: Key, r: nat)
    ensures var after := StampPaid(b, spend, r);
      && |after.allocations| == |b.allocations|
      && (forall i :: 0 <= i < |b.allocations| ==> after.allocations[i] == StampedAllocation(b, spend, i, r))
      && (forall k :: Sum(after.allocations, Outstanding(k)) == Sum(b.allocations, Outstanding(k)))
      && (forall s :: Sum(after.allocations, OfSpend(s)) == Sum(b.allocations, OfSpend(s)))
      && (forall s :: PaidUnits(after, s) == PaidUnits(b, s))
      && (forall s, i :: 0 <= i < |b.allocations| ==> Paid(after, s, i) == Paid(b, s, i))
  {
    var after := StampPaid(b, spend, r);
    forall k { Equal(after.allocations, Outstanding(k), b.allocations, Outstanding(k)); }
    forall s { Equal(after.allocations, OfSpend(s), b.allocations, OfSpend(s)); }
    forall s { Equal(after.allocations, PaidAmount(after.lots, s), b.allocations, PaidAmount(b.lots, s)); }
  }

  lemma StampHasPaid(b: Books, spend: Key)
    requires PaidUnits(b, spend) > 0
    ensures AnyPaid(b, spend)
  {
    if !AnyPaid(b, spend) {
      forall i | 0 <= i < |b.allocations| ensures PaidAmount(b.lots, spend)(b.allocations[i]) == 0 {
        assert !Paid(b, spend, i);
      }
      Zero(b.allocations, PaidAmount(b.lots, spend));
    }
  }

  lemma StampApplies(b: Books, spend: Key, r: nat)
    requires Stampable(b, spend, r)
    ensures EffectApplied(StampPaid(b, spend, r), r)
  {
    StampTables(b, spend, r);
    StampHasPaid(b, spend);
    var i :| 0 <= i < |b.allocations| && Paid(b, spend, i);
    assert Paid(StampPaid(b, spend, r), spend, i);
  }

  lemma StampKeepsEffect(b: Books, spend: Key, r: nat, q: nat)
    requires Stampable(b, spend, r) && q < |b.requests| && b.requests[q].units.Some? && EffectApplied(b, q)
    ensures EffectApplied(StampPaid(b, spend, r), q)
  {
    StampTables(b, spend, r);
    if b.requests[q].scope == Operation {
      var after := StampPaid(b, spend, r);
      var other := b.requests[q].spend.value;
      var i :| 0 <= i < |b.allocations| && Paid(b, other, i);
      assert b.allocations[i].cash == Some(q);
      assert other != spend;
      assert Paid(after, other, i);
    }
  }

  lemma StampKeepsAllocations(b: Books, spend: Key, r: nat)
    requires AllocationsOk(b) && Stampable(b, spend, r)
    ensures AllocationsOk(StampPaid(b, spend, r))
  {
  }

  lemma StampKeepsRequests(b: Books, spend: Key, r: nat)
    requires RequestsOk(b) && Stampable(b, spend, r)
    ensures RequestsOk(StampPaid(b, spend, r))
  {
    var after := StampPaid(b, spend, r);
    StampTables(b, spend, r);
    StampApplies(b, spend, r);
    forall q | 0 <= q < |b.requests| ensures RequestOk(after, q) && TraceOk(after, q) {
      assert RequestOk(b, q) && TraceOk(b, q);
      if b.requests[q].units.Some? && EffectApplied(b, q) { StampKeepsEffect(b, spend, r, q); }
    }
  }

  lemma StampStep(b: Books, spend: Key, r: nat)
    requires Sound(b) && Stampable(b, spend, r)
    ensures Sound(StampPaid(b, spend, r)) && EffectApplied(StampPaid(b, spend, r), r)
  {
    var after := StampPaid(b, spend, r);
    StampTables(b, spend, r);
    StampApplies(b, spend, r);
    StampKeepsAllocations(b, spend, r);
    assert LotsOk(after) by {
      forall k | 0 <= k < |b.lots| ensures Conserved(after, k) { assert Conserved(b, k); }
    }
    assert LedgerOk(after) by {
      forall j | 0 <= j < |b.ledger| ensures RowOk(after, b.ledger[j]) {
        assert RowOk(b, b.ledger[j]);
        if b.ledger[j].source.Some? { SpendRowSame(b, after, b.ledger[j].source.value, b.ledger[j].user); }
      }
    }
    StampKeepsRequests(b, spend, r);
    assert Exclusive(after) by {
      forall j | 0 <= j < |b.ledger| && b.ledger[j].source.Some? ensures ExcludesCash(after, b.ledger[j].source.value) {
        assert ExcludesCash(b, b.ledger[j].source.value);
      }
    }
  }
}

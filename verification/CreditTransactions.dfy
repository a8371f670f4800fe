/** Whole transactions keep the invariant, and what each of them achieves. */
module CreditTransactions {
  import opened Wrappers
  import opened Sums
  import opened CreditBooks
  import opened CreditRules
  import opened CreditInvariant
  import opened CreditSteps
  import opened LotPlan
  import opened Sorting

  // ----- grants -----

  function LotFor(grant: Entry): Lot {
    Lot(grant.user, grant.purchase, grant.key, grant.amount, grant.amount, 0, None, Open, grant.at, 0, 0)
  }

  lemma RemainingAfterLot(b: Books, lot: Lot, u: Id)
    ensures Remaining(b.(lots := b.lots + [lot]), u) == Remaining(b, u) + if lot.user == u then lot.remaining else 0
  {
  }

  lemma EnsureLotIsSound(b: Books, grant: Entry)
    requires Sound(b)
    ensures Sound(EnsureLot(b, grant))
  {
    if grant.amount > 0 && !HasLot(b, grant.key) { AppendLot(b, LotFor(grant)); }
  }

  /** A grant that opens a lot keeps the balance ahead of the lots exactly when its row already covers it. */
  lemma GrantKeepsInv(b: Books, input: Input)
    requires Inv(b) && input.kind == Purchase && input.key.Client? && !HasKey(b.ledger, input.key)
    ensures Sound(WriteFresh(b, input).0) && StampsAlone(WriteFresh(b, input).0)
    ensures Backed(WriteFresh(b, input).0)
      <==> input.amount >= 0 || Balance(b, input.user) + input.amount >= Remaining(b, input.user)
  {
    hide Sound;
    var row := Row(input, input.amount, None);
    var lotted := EnsureLot(b, row);
    var after := lotted.(ledger := b.ledger + [row]);
    assert WriteFresh(b, input).0 == after;
    EnsureLotIsSound(b, row);
    AppendRow(lotted, row);
    forall u ensures Balance(after, u) == Balance(b, u) + if input.user == u then input.amount else 0 {
      Append(b.ledger, row, EntryAmount(u));
    }
    forall u ensures Remaining(lotted, u) == Remaining(b, u) + if lotted != b && input.user == u then input.amount else 0 {
      RemainingAfterLot(b, LotFor(row), u);
    }
    assert Balance(after, input.user) == Balance(b, input.user) + input.amount;
    assert Balance(b, input.user) >= Remaining(b, input.user);
  }

  /** A grant row gets its lot now, though it was written without one. */
  ghost predicate OpensLot(b: Books, row: Entry) { row.amount > 0 && !HasLot(b, row.key) }

  /** A replayed grant changes nothing exactly when its lot exists or it granted nothing. */
  lemma GrantReplay(b: Books, row: Entry)
    ensures EnsureLot(b, row) == b <==> !OpensLot(b, row)
    ensures row.amount > 0 ==> HasLot(EnsureLot(b, row), row.key)
  {
    var after := EnsureLot(b, row);
    if OpensLot(b, row) { assert after.lots[|b.lots|].entry == row.key; }
  }

  /** A late lot's units are credit no lot stands for yet. */
  ghost predicate LateLotCovered(b: Books, row: Entry) {
    OpensLot(b, row) ==> Balance(b, row.user) - Remaining(b, row.user) >= row.amount
  }

  /** Opening a lot for an old row keeps the backing exactly when that much credit is unlotted. */
  lemma LateLotKeepsBacking(b: Books, row: Entry)
    requires Backed(b)
    ensures Backed(EnsureLot(b, row)) <==> LateLotCovered(b, row)
  {
    if OpensLot(b, row) {
      var after := EnsureLot(b, row);
      forall u ensures Remaining(after, u) == Remaining(b, u) + if row.user == u then row.amount else 0 {
        RemainingAfterLot(b, LotFor(row), u);
      }
      assert Balance(after, row.user) == Balance(b, row.user);
      forall u ensures Balance(after, u) == Balance(b, u) {}
    }
  }

  // ----- spends -----

  function OpenRemaining(user: Id): Lot -> int { (l: Lot) => if l.user == user && l.status != Clawed then l.remaining else 0 }

  ghost predicate SnapshotOk(lots: seq<Lot>, user: Id, s: Snapshot) {
    s.id < |lots| && lots[s.id].user == user && lots[s.id].status != Clawed && s == SnapshotOf(lots[s.id], s.id)
  }

  lemma {:induction false} LoadedMembers(lots: seq<Lot>, user: Id)
    ensures forall s :: s in LoadLots(lots, user) ==> SnapshotOk(lots, user, s)
  {
    var n := |lots| - 1;
    if n >= 0 {
      LoadedMembers(lots[..n], user);
      var before := LoadLots(lots[..n], user);
      forall t | t in LoadLots(lots, user) ensures SnapshotOk(lots, user, t) {
        InsertMembers(before, SnapshotOf(lots[n], n), CreatedAt(), t);
        assert t in before ==> SnapshotOk(lots[..n], user, t);
      }
    }
  }

  lemma {:induction false} LoadedSum(lots: seq<Lot>, user: Id)
    ensures Sum(LoadLots(lots, user), RowRemaining()) == Sum(lots, OpenRemaining(user))
  {
    var n := |lots| - 1;
    if n >= 0 {
      LoadedSum(lots[..n], user);
      InsertSum(LoadLots(lots[..n], user), SnapshotOf(lots[n], n), CreatedAt(), RowRemaining());
    }
  }

  lemma {:induction false} LoadedOrder(lots: seq<Lot>, user: Id)
    ensures Ordered(LoadLots(lots, user), CreatedAt())
  {
    var n := |lots| - 1;
    if n >= 0 {
      LoadedOrder(lots[..n], user);
      InsertKeepsOrder(LoadLots(lots[..n], user), SnapshotOf(lots[n], n), CreatedAt());
    }
  }

  lemma {:induction false} InsertKeepsDistinct(list: seq<Snapshot>, lot: Snapshot)
    requires DistinctIds(list) && forall s :: s in list ==> s.id != lot.id
    ensures DistinctIds(Insert(list, lot, CreatedAt()))
  {
    if |list| > 0 && list[|list| - 1].createdAt > lot.createdAt {
      var init, last := list[..|list| - 1], list[|list| - 1];
      forall s | s in init ensures s.id != lot.id { assert s in list; }
      InsertKeepsDistinct(init, lot);
      var r := Insert(init, lot, CreatedAt());
      forall i | 0 <= i < |r| ensures r[i].id != last.id {
        assert r[i] in r;
        InsertMembers(init, lot, CreatedAt(), r[i]);
        if r[i] in init {
          var j :| 0 <= j < |init| && init[j] == r[i];
          assert list[j].id != list[|list| - 1].id;
        } else {
          assert last in list;
        }
      }
    }
  }

  lemma {:induction false} LoadedDistinct(lots: seq<Lot>, user: Id)
    ensures DistinctIds(LoadLots(lots, user))
  {
    var n := |lots| - 1;
    if n >= 0 {
      LoadedDistinct(lots[..n], user);
      LoadedMembers(lots[..n], user);
      InsertKeepsDistinct(LoadLots(lots[..n], user), SnapshotOf(lots[n], n));
    }
  }

  /** Under the invariant the loaded lots hold exactly the user's remaining units, all of them available. */
  lemma LoadedUnits(b: Books, user: Id)
    requires LotsOk(b)
    ensures Sum(LoadLots(b.lots, user), RowRemaining()) == Remaining(b, user)
    ensures Sum(LoadLots(b.lots, user), AvailableOf()) == Remaining(b, user)
  {
    LoadedMembers(b.lots, user);
    LoadedSum(b.lots, user);
    forall k | 0 <= k < |b.lots| ensures OpenRemaining(user)(b.lots[k]) == RemainingOf(user)(b.lots[k]) {
      assert LotShape(b.lots[k]);
    }
    Equal(b.lots, OpenRemaining(user), b.lots, RemainingOf(user));
    var loaded := LoadLots(b.lots, user);
    forall i | 0 <= i < |loaded| ensures AvailableOf()(loaded[i]) == RowRemaining()(loaded[i]) {
      assert loaded[i] in loaded;
      assert LotShape(b.lots[loaded[i].id]);
    }
    Equal(loaded, AvailableOf(), loaded, RowRemaining());
  }

  ghost predicate Drawable(b: Books, user: Id, draws: seq<Draw>) {
    && (forall i :: 0 <= i < |draws| ==> CanDraw(b, draws[i]) && draws[i].amount > 0 && b.lots[draws[i].lot].user == user)
    && (forall i, j :: 0 <= i < j < |draws| ==> draws[i].lot != draws[j].lot)
  }

  /** The draws of a plan over loaded lots all go through. */
  lemma PlannedDrawsAreDrawable(b: Books, user: Id, need: int)
    requires LotsOk(b)
    ensures Drawable(b, user, DrawFrom(SortByAge(LoadLots(b.lots, user)), need))
  {
    var loaded := LoadLots(b.lots, user);
    LoadedMembers(b.lots, user);
    LoadedOrder(b.lots, user);
    LoadedDistinct(b.lots, user);
    SortOfSorted(loaded, CreatedAt());
    var draws := DrawFrom(loaded, need);
    OneDrawPerLot(loaded, need);
    forall i | 0 <= i < |draws| ensures CanDraw(b, draws[i]) && draws[i].amount > 0 && b.lots[draws[i].lot].user == user {
      var s := DrawFits(loaded, need, i);
      assert loaded[s] in loaded;
      assert LotShape(b.lots[loaded[s].id]);
    }
  }

  /** The later books only add untouched allocations of this spend. */
  ghost predicate NewAllocations(b: Books, after: Books, spend: Key) {
    && |b.allocations| <= |after.allocations|
    && (forall i :: 0 <= i < |b.allocations| ==> after.allocations[i] == b.allocations[i])
    && (forall i :: |b.allocations| <= i < |after.allocations| ==>
        after.allocations[i].spend == spend && !after.allocations[i].restored && after.allocations[i].cash.None?)
  }

  /** Drawable draws within the spend's room all happen, and take exactly their sum. */
  lemma {:induction false} ConsumeAll(b: Books, user: Id, spend: Key, draws: seq<Draw>, room: int)
    requires Sound(b) && SpendRow(b, spend, user) && SpendOpen(b, spend, room)
    requires Drawable(b, user, draws) && Sum(draws, DrawAmount()) <= room
    ensures ConsumeDraws(b, spend, draws).Some?
    ensures var after := ConsumeDraws(b, spend, draws).value;
      && Sound(after) && after.ledger == b.ledger && after.requests == b.requests && after.purchases == b.purchases
    ensures NewAllocations(b, ConsumeDraws(b, spend, draws).value, spend)
    ensures forall u :: Remaining(ConsumeDraws(b, spend, draws).value, u)
              == Remaining(b, u) - if u == user then Sum(draws, DrawAmount()) else 0
    decreases |draws|
  {
    hide Sound;
    if |draws| > 0 {
      var next := DrawOne(b, spend, draws[0]);
      SumFront(draws, DrawAmount());
      NonNegative(draws[1..], DrawAmount());
      DrawStep(b, spend, draws[0], room);
      SpendRowSame(b, next, spend, user);
      assert Drawable(next, user, draws[1..]);
      ConsumeAll(next, user, spend, draws[1..], room - draws[0].amount);
      forall u ensures Remaining(next, u) == Remaining(b, u) - if u == user then draws[0].amount else 0 {
        RemainingAfterDraw(b, spend, draws[0], u);
      }
    }
  }

  /** The new spend row has room for its whole amount and nothing was given back for it. */
  lemma NewSpendIsOpen(b: Books, input: Input)
    requires Sound(b) && input.kind == Spend && input.key.Client? && !HasKey(b.ledger, input.key) && input.amount > 0
    ensures var paid := b.(ledger := b.ledger + [Row(input, -input.amount, None)]);
      Sound(paid) && LotsOk(paid) && SpendRow(paid, input.key, input.user) && SpendOpen(paid, input.key, input.amount)
  {
    var row := Row(input, -input.amount, None);
    var paid := b.(ledger := b.ledger + [row]);
    AppendRow(b, row);
    FreshKeyHasNoAllocations(b, input.key);
    assert paid.ledger[|b.ledger|] == row;
    forall j | 0 <= j < |b.ledger| ensures b.ledger[j].key != input.key && b.ledger[j].source != Some(input.key) {
      FindRow(b.ledger, j);
      assert RowOk(b, b.ledger[j]);
      if b.ledger[j].source == Some(input.key) {
        KeyOfSpendRow(b, input.key, b.ledger[j].user);
      }
    }
  }

  /**
   * A spend with a fresh key goes through exactly when 0 < amount <= balance; then the balance
   * falls by the amount, the lots by what exceeds the unlotted credit, and the invariant holds.
   */
  lemma SpendSucceedsExactly(b: Books, input: Input)
    requires Inv(b) && input.kind == Spend && input.key.Client? && !HasKey(b.ledger, input.key)
    ensures WriteFresh(b, input).1 == Written <==> 0 < input.amount <= Balance(b, input.user)
    ensures WriteFresh(b, input).1 != Written ==> WriteFresh(b, input) == (b, InsufficientCredits)
    ensures WriteFresh(b, input).1 == Written ==>
      var after := WriteFresh(b, input).0;
      && Inv(after)
      && Balance(after, input.user) == Balance(b, input.user) - input.amount
      && Remaining(after, input.user) == Remaining(b, input.user) - Lotted(b, input.user, input.amount)
  {
    var user, amount, balance := input.user, input.amount, Balance(b, input.user);
    var loaded := LoadLots(b.lots, user);
    LoadedUnits(b, user);
    PlanExists(loaded, UnlottedUnits(balance, Sum(loaded, RowRemaining())), amount);
    if 0 < amount <= balance {
      SpendGoesThrough(b, input);
    }
  }

  /** The plan of an affordable spend: its draws are drawable and cover what unlotted credit does not. */
  lemma PlanForSpend(b: Books, user: Id, amount: int, balance: int) returns (plan: Plan)
    requires LotsOk(b) && 0 < amount <= balance && Remaining(b, user) <= balance
    ensures var loaded := LoadLots(b.lots, user);
      PlanFifo(loaded, UnlottedUnits(balance, Sum(loaded, RowRemaining())), amount) == Some(plan)
    ensures Drawable(b, user, plan.draws)
    ensures Sum(plan.draws, DrawAmount()) == Max(0, amount - (balance - Remaining(b, user)))
  {
    var loaded := LoadLots(b.lots, user);
    LoadedUnits(b, user);
    var unlotted := UnlottedUnits(balance, Sum(loaded, RowRemaining()));
    var need := amount - Min(unlotted, amount);
    plan := Plan(Min(unlotted, amount), DrawFrom(SortByAge(loaded), need));
    PlanExists(loaded, unlotted, amount);
    DrawTotal(SortByAge(loaded), need);
    SortSum(loaded, CreatedAt(), AvailableOf());
    PlannedDrawsAreDrawable(b, user, need);
  }

  function Lotted(b: Books, user: Id, amount: int): int { Max(0, amount - (Balance(b, user) - Remaining(b, user))) }

  /** What an affordable spend writes: its row, and draws for what unlotted credit does not cover. */
  lemma SpendWrites(b: Books, input: Input) returns (after: Books)
    requires Inv(b) && input.kind == Spend && input.key.Client? && !HasKey(b.ledger, input.key)
    requires 0 < input.amount <= Balance(b, input.user)
    ensures WriteFresh(b, input) == (after, Written) && Sound(after)
    ensures after.ledger == b.ledger + [Row(input, -input.amount, None)]
    ensures NewAllocations(b, after, input.key)
    ensures forall u :: Remaining(after, u) == Remaining(b, u) - if u == input.user then Lotted(b, input.user, input.amount) else 0
  {
    hide Sound;
    hide LotsOk;
    hide SpendOpen;
    hide Drawable;
    hide LoadLots;
    hide PlanFifo;
    hide ConsumeDraws;
    var user, amount := input.user, input.amount;
    var paid := b.(ledger := b.ledger + [Row(input, -amount, None)]);
    forall u ensures Remaining(paid, u) == Remaining(b, u) {}
    assert Balance(b, user) >= Remaining(b, user);
    NewSpendIsOpen(b, input);
    var plan := PlanForSpend(paid, user, amount, Balance(b, user));
    ConsumeAll(paid, user, input.key, plan.draws, amount);
    after := ConsumeDraws(paid, input.key, plan.draws).value;
  }

  lemma NewAllocationsStampAlone(b: Books, after: Books, spend: Key)
    requires StampsAlone(b) && NewAllocations(b, after, spend)
    requires forall i :: 0 <= i < |b.allocations| ==> b.allocations[i].spend != spend
    ensures StampsAlone(after)
  {
  }

  lemma SpendGoesThrough(b: Books, input: Input)
    requires Inv(b) && input.kind == Spend && input.key.Client? && !HasKey(b.ledger, input.key)
    requires 0 < input.amount <= Balance(b, input.user)
    ensures WriteFresh(b, input).1 == Written && Inv(WriteFresh(b, input).0)
    ensures var after := WriteFresh(b, input).0;
      && Balance(after, input.user) == Balance(b, input.user) - input.amount
      && Remaining(after, input.user) == Remaining(b, input.user) - Lotted(b, input.user, input.amount)
  {
    FreshKeyHasNoAllocations(b, input.key);
    hide Sound;
    hide WriteFresh;
    var after := SpendWrites(b, input);
    NewAllocationsStampAlone(b, after, input.key);
    hide StampsAlone;
    hide NewAllocations;
    forall u ensures Balance(after, u) == Balance(b, u) - if u == input.user then input.amount else 0 {
      Append(b.ledger, Row(input, -input.amount, None), EntryAmount(u));
    }
    forall u ensures Balance(after, u) >= Remaining(after, u) {
      assert Balance(b, u) >= Remaining(b, u);
    }
  }
}

/** Which lots a spend draws, told by the age of the grants behind them. */
module CreditFifo {
  import opened Wrappers
  import opened Sums
  import opened CreditBooks
  import opened CreditRules
  import opened CreditInvariant
  import opened CreditSteps
  import opened CreditTransactions
  import opened CreditRefunds
  import opened CreditRuns
  import opened CreditTotals
  import opened CreditMoney
  import opened LotPlan
  import opened Sorting

  // ----- every lot stands for one ledger row -----

  /** Owner, purchase, size and age of a lot are those of the row that opened it. */
  ghost predicate StandsFor(lot: Lot, e: Entry) {
    e.key == lot.entry && e.user == lot.user && e.purchase == lot.purchase && e.amount == lot.grant && e.at == lot.createdAt
  }

  ghost predicate Stands(b: Books, k: nat)
    requires k < |b.lots|
  {
    exists j :: 0 <= j < |b.ledger| && StandsFor(b.lots[k], b.ledger[j])
  }

  /** Each lot stands for a row, and no two for the same one. */
  ghost predicate LotsStand(b: Books) {
    && (forall k :: 0 <= k < |b.lots| ==> Stands(b, k))
    && (forall k, m :: 0 <= k < m < |b.lots| ==> b.lots[k].entry != b.lots[m].entry)
  }

  /** Lots are neither added nor moved to another grant, and rows stay. */
  ghost predicate KeepsLots(b: Books, after: Books) {
    Grown(b, after) && |after.lots| == |b.lots| && forall k :: 0 <= k < |b.lots| ==> SameGrant(b.lots[k], after.lots[k])
  }

  lemma KeepsLotsStanding(b: Books, after: Books)
    requires LotsStand(b) && KeepsLots(b, after)
    ensures LotsStand(after)
  {
    forall k | 0 <= k < |after.lots| ensures Stands(after, k) {
      assert Stands(b, k);
      var j :| 0 <= j < |b.ledger| && StandsFor(b.lots[k], b.ledger[j]);
      assert after.ledger[j] == after.ledger[..|b.ledger|][j];
      assert StandsFor(after.lots[k], after.ledger[j]);
    }
  }

  lemma EnsureLotStands(b: Books, j: nat)
    requires LotsStand(b) && j < |b.ledger|
    ensures LotsStand(EnsureLot(b, b.ledger[j]))
  {
    var after := EnsureLot(b, b.ledger[j]);
    forall k | 0 <= k < |after.lots| ensures Stands(after, k) {
      if k < |b.lots| {
        assert Stands(b, k);
        var i :| 0 <= i < |b.ledger| && StandsFor(b.lots[k], b.ledger[i]);
        assert StandsFor(after.lots[k], after.ledger[i]);
      } else {
        assert StandsFor(after.lots[k], after.ledger[j]);
      }
    }
  }

  lemma {:induction false} RestoreKeepsLots(b: Books, spend: Key, n: nat)
    requires n <= |b.allocations|
    ensures KeepsLots(b, RestoreUpTo(b, spend, n))
  {
    if n > 0 {
      RestoreKeepsLots(b, spend, n - 1);
    }
  }

  lemma RestoreForSourceKeepsLots(b: Books, user: Id, source: Option<Key>)
    ensures KeepsLots(b, RestoreForSource(b, user, source))
  {
    if ResolveSpend(b.ledger, user, source).Some? { RestoreKeepsLots(b, source.value, |b.allocations|); }
  }

  lemma {:induction false} ConsumeKeepsLots(b: Books, spend: Key, draws: seq<Draw>)
    ensures ConsumeDraws(b, spend, draws).Some? ==> KeepsLots(b, ConsumeDraws(b, spend, draws).value)
    decreases |draws|
  {
    if |draws| > 0 && CanDraw(b, draws[0]) { ConsumeKeepsLots(DrawOne(b, spend, draws[0]), spend, draws[1..]); }
  }

  lemma AppendedKeepsLots(b: Books, e: Entry, after: Books)
    requires KeepsLots(b.(ledger := b.ledger + [e]), after)
    ensures KeepsLots(b, after)
  {
    assert after.ledger[..|b.ledger|] == after.ledger[..|b.ledger| + 1][..|b.ledger|];
  }

  lemma FreshKeepsStanding(b: Books, input: Input)
    requires LotsStand(b)
    ensures LotsStand(WriteFresh(b, input).0)
  {
    hide ConsumeDraws;
    hide LoadLots;
    hide PlanFifo;
    var after := WriteFresh(b, input).0;
    if input.kind == Purchase {
      var billed := b.(ledger := b.ledger + [Row(input, input.amount, None)]);
      KeepsLotsStanding(b, billed);
      EnsureLotStands(billed, |b.ledger|);
    } else if after != b && input.kind == Refund {
      var row := Row(input, input.amount, ResolveSpend(b.ledger, input.user, input.source));
      RestoreForSourceKeepsLots(b.(ledger := b.ledger + [row]), input.user, input.source);
      AppendedKeepsLots(b, row, after);
      KeepsLotsStanding(b, after);
    } else if after != b {
      var row := Row(input, -input.amount, None);
      var lots := LoadLots(b.lots, input.user);
      var plan := PlanFifo(lots, UnlottedUnits(Balance(b, input.user), Sum(lots, RowRemaining())), input.amount);
      ConsumeKeepsLots(b.(ledger := b.ledger + [row]), input.key, plan.value.draws);
      AppendedKeepsLots(b, row, after);
      KeepsLotsStanding(b, after);
    }
  }

  lemma WriteKeepsStanding(b: Books, input: Input)
    requires LotsStand(b)
    ensures LotsStand(WriteEntry(b, input).0) && LotsStand(WriteOnce(b, input).0)
  {
    FreshKeepsStanding(b, input);
    RestoreForSourceKeepsLots(b, input.user, input.source);
    KeepsLotsStanding(b, RestoreForSource(b, input.user, input.source));
    if HasKey(b.ledger, input.key) {
      var j := FindHits(b.ledger, input.key);
      EnsureLotStands(b, j);
    }
  }

  lemma SettleKeepsStanding(b: Books, r: nat)
    requires LotsStand(b)
    ensures LotsStand(MarkRefunded(b, r))
  {
    hide LotsStand;
    hide FinalizeEffects;
    forall user, purchase { EffectsKeepGrants(b, user, purchase, r); }
    StepGrows(b, Settle(r));
    KeepsLotsStanding(b, MarkRefunded(b, r));
  }

  lemma StepKeepsStanding(b: Books, c: Command)
    requires LotsStand(b)
    ensures LotsStand(Apply(b, c))
  {
    hide LotsStand;
    match c
    case WriteInTransaction(input) => WriteKeepsStanding(b, input);
    case Write(input) => WriteKeepsStanding(b, input);
    case RefundOriginal(user, spendKey, refundKey) => forall units: int { WriteKeepsStanding(b, RefundInput(user, units, spendKey, refundKey)); }
    case Settle(r) => SettleKeepsStanding(b, r);
    case _ => KeepsLotsStanding(b, Apply(b, c));
  }

  lemma {:induction false} RunKeepsStanding(b: Books, commands: seq<Command>)
    requires LotsStand(b)
    ensures LotsStand(Run(b, commands))
    decreases |commands|
  {
    hide LotsStand;
    hide Apply;
    if |commands| > 0 {
      StepKeepsStanding(b, commands[0]);
      RunKeepsStanding(Apply(b, commands[0]), commands[1..]);
    }
  }

  /** A fresh grant always writes its row, and opens one whole lot for it exactly when it grants something and none is there. */
  lemma GrantWrites(b: Books, input: Input)
    requires input.kind == Purchase
    ensures WriteFresh(b, input).1 == Written
    ensures var row := Entry(input.key, input.user, Purchase, input.amount, input.purchase, input.at, None);
      var after := WriteFresh(b, input).0;
      && after == b.(ledger := b.ledger + [row], lots := after.lots)
      && if input.amount <= 0 || HasLot(b, input.key) then after.lots == b.lots
         else |after.lots| == |b.lots| + 1 && after.lots[..|b.lots|] == b.lots && OpensFor(after.lots[|b.lots|], row)
  {
  }

  /** The lot stands for the row, untouched and free. */
  ghost predicate OpensFor(lot: Lot, row: Entry) {
    StandsFor(lot, row) && lot.status == Open && lot.remaining == lot.grant && lot.reserved == 0 && lot.reservedFor.None? && lot.debited == 0 && lot.forfeited == 0
  }

  // ----- what a spend takes from each lot -----

  /** The drawn lots lose what the draws take, and one allocation records each draw. */
  lemma {:induction false} ConsumeTakes(b: Books, spend: Key, draws: seq<Draw>)
    requires ConsumeDraws(b, spend, draws).Some?
    ensures var after := ConsumeDraws(b, spend, draws).value;
      && after.ledger == b.ledger && after.requests == b.requests && after.purchases == b.purchases && |after.lots| == |b.lots|
      && (forall k :: 0 <= k < |b.lots| ==> after.lots[k] == b.lots[k].(remaining := b.lots[k].remaining - Drawn(draws, k)))
      && after.allocations == b.allocations + Recorded(spend, draws)
    decreases |draws|
  {
    if |draws| > 0 {
      var next := DrawOne(b, spend, draws[0]);
      ConsumeTakes(next, spend, draws[1..]);
      forall k { SumFront(draws, FromLot(k)); }
      assert Recorded(spend, draws) == [Allocation(draws[0].lot, spend, draws[0].amount, false, None)] + Recorded(spend, draws[1..]);
    }
  }

  /** The lot is there, is not clawed, and holds the units. */
  ghost predicate HoldsDraw(b: Books, d: Draw) { d.lot < |b.lots| && b.lots[d.lot].status != Clawed && d.amount <= b.lots[d.lot].remaining }

  /** Draws from distinct lots all go through, or none does; and they do exactly when each lot holds its own. */
  lemma {:induction false} ConsumesExactly(b: Books, spend: Key, draws: seq<Draw>)
    requires forall i, j :: 0 <= i < j < |draws| ==> draws[i].lot != draws[j].lot
    ensures ConsumeDraws(b, spend, draws).Some? <==> forall i :: 0 <= i < |draws| ==> HoldsDraw(b, draws[i])
    decreases |draws|
  {
    if |draws| > 0 {
      if CanDraw(b, draws[0]) {
        var next := DrawOne(b, spend, draws[0]);
        ConsumesExactly(next, spend, draws[1..]);
        forall i | 0 < i < |draws| ensures HoldsDraw(next, draws[i]) == HoldsDraw(b, draws[i]) && draws[1..][i - 1] == draws[i] {}
      } else {
        assert !HoldsDraw(b, draws[0]);
      }
    }
  }

  function Recorded(spend: Key, draws: seq<Draw>): seq<Allocation> {
    seq(|draws|, i requires 0 <= i < |draws| => Allocation(draws[i].lot, spend, draws[i].amount, false, None))
  }

  /** Each of the user's unclawed lots is loaded, with its units and its age. */
  lemma {:induction false} LoadedHas(lots: seq<Lot>, user: Id, k: nat) returns (s: nat)
    requires k < |lots| && lots[k].user == user && lots[k].status != Clawed
    ensures s < |LoadLots(lots, user)|
    ensures var found := LoadLots(lots, user)[s]; found.id == k && found.remaining == lots[k].remaining && found.createdAt == lots[k].createdAt
  {
    var n := |lots| - 1;
    var before := LoadLots(lots[..n], user);
    var row := SnapshotOf(lots[n], n);
    var x := row;
    if k < n {
      var t := LoadedHas(lots[..n], user, k);
      x := before[t];
    }
    InsertMembers(before, row, CreatedAt(), x);
    assert x in LoadLots(lots, user);
    s :| 0 <= s < |LoadLots(lots, user)| && LoadLots(lots, user)[s] == x;
  }

  function AllocatedOn(k: nat): Allocation -> int { (a: Allocation) => if a.lot == k then a.amount else 0 }

  /** Everything a written spend does: one row, and allocations for what it takes from the user's unclawed lots. */
  ghost predicate SpendDone(b: Books, input: Input, after: Books) {
    && after.ledger == b.ledger + [Entry(input.key, input.user, Spend, -input.amount, input.purchase, input.at, None)]
    && after.requests == b.requests && after.purchases == b.purchases && |after.lots| == |b.lots|
    && |b.allocations| <= |after.allocations| && after.allocations[..|b.allocations|] == b.allocations
    && (forall i :: |b.allocations| <= i < |after.allocations| ==> NewAllocation(b, input, after.allocations[i]))
    && (forall k :: 0 <= k < |b.lots| ==> LotAfterSpend(b, input, after, k))
  }

  ghost predicate NewAllocation(b: Books, input: Input, a: Allocation) {
    && a.spend == input.key && a.amount > 0 && !a.restored && a.cash.None?
    && a.lot < |b.lots| && b.lots[a.lot].user == input.user && b.lots[a.lot].status != Clawed
  }

  ghost predicate LotAfterSpend(b: Books, input: Input, after: Books, k: nat)
    requires k < |b.lots| && |after.lots| == |b.lots| && |b.allocations| <= |after.allocations|
  {
    && after.lots[k] == b.lots[k].(remaining := after.lots[k].remaining) && after.lots[k].remaining >= 0
    && after.lots[k].remaining == b.lots[k].remaining - Sum(after.allocations[|b.allocations|..], AllocatedOn(k))
  }

  /** No lot gives anything while an older unclawed lot of the user has units left. */
  ghost predicate OldestFirst(b: Books, user: Id, after: Books) {
    |after.lots| == |b.lots| &&
    forall k, m :: 0 <= k < |b.lots| && 0 <= m < |b.lots| && IsOlder(b, user, k, m) && after.lots[m].remaining < b.lots[m].remaining ==> after.lots[k].remaining == 0
  }

  ghost predicate IsOlder(b: Books, user: Id, k: nat, m: nat)
    requires k < |b.lots| && m < |b.lots|
  {
    b.lots[k].user == b.lots[m].user == user && b.lots[k].status != Clawed && b.lots[m].status != Clawed && b.lots[k].createdAt < b.lots[m].createdAt
  }

  lemma RecordedSum(spend: Key, draws: seq<Draw>, k: nat)
    ensures Sum(Recorded(spend, draws), AllocatedOn(k)) == Drawn(draws, k)
  {
    Equal(Recorded(spend, draws), AllocatedOn(k), draws, FromLot(k));
  }

  /** A lot gives only once every older loaded lot is emptied. */
  lemma PlanDrawsOldest(b: Books, user: Id, unlotted: nat, amount: int, k: nat, m: nat)
    requires LotsOk(b) && k < |b.lots| && m < |b.lots| && IsOlder(b, user, k, m)
    requires PlanFifo(LoadLots(b.lots, user), unlotted, amount).Some?
    ensures var draws := PlanFifo(LoadLots(b.lots, user), unlotted, amount).value.draws;
      Drawn(draws, m) > 0 ==> Drawn(draws, k) == b.lots[k].remaining
  {
    var loaded := LoadLots(b.lots, user);
    var i := LoadedHas(b.lots, user, k);
    var j := LoadedHas(b.lots, user, m);
    LoadedDistinct(b.lots, user);
    hide LoadLots;
    hide PlanFifo;
    PlanIsFifo(loaded, unlotted, amount, i, j);
    assert LotShape(b.lots[k]);
  }

  /** The plan an affordable spend follows. */
  lemma SpendPlan(b: Books, input: Input) returns (plan: Plan)
    requires LotsOk(b) && input.kind == Spend && 0 < input.amount <= Balance(b, input.user) && Remaining(b, input.user) <= Balance(b, input.user)
    ensures var loaded := LoadLots(b.lots, input.user);
      PlanFifo(loaded, UnlottedUnits(Balance(b, input.user), Sum(loaded, RowRemaining())), input.amount) == Some(plan)
    ensures Drawable(b, input.user, plan.draws)
    ensures var paid := b.(ledger := b.ledger + [Row(input, -input.amount, None)]);
      WriteFresh(b, input).1 == Written ==> ConsumeDraws(paid, input.key, plan.draws) == Some(WriteFresh(b, input).0)
  {
    hide LotsOk;
    hide LoadLots;
    hide PlanFifo;
    hide ConsumeDraws;
    hide Drawable;
    plan := PlanForSpend(b, input.user, input.amount, Balance(b, input.user));
  }

  lemma PlanEmptiesOldest(b: Books, input: Input, plan: Plan, after: Books)
    requires LotsOk(b) && |after.lots| == |b.lots|
    requires var loaded := LoadLots(b.lots, input.user);
      PlanFifo(loaded, UnlottedUnits(Balance(b, input.user), Sum(loaded, RowRemaining())), input.amount) == Some(plan)
    requires forall k :: 0 <= k < |b.lots| ==> after.lots[k] == b.lots[k].(remaining := b.lots[k].remaining - Drawn(plan.draws, k))
    ensures OldestFirst(b, input.user, after)
  {
    hide LoadLots;
    hide PlanFifo;
    hide LotsOk;
    var unlotted := UnlottedUnits(Balance(b, input.user), Sum(LoadLots(b.lots, input.user), RowRemaining()));
    forall k, m | 0 <= k < |b.lots| && 0 <= m < |b.lots| && IsOlder(b, input.user, k, m) && after.lots[m].remaining < b.lots[m].remaining
      ensures after.lots[k].remaining == 0
    {
      PlanDrawsOldest(b, input.user, unlotted, input.amount, k, m);
    }
  }

  /**
   * A written spend adds exactly its row and allocations that record what each lot gave; and it
   * draws no lot while an older one of the user has units left.
   */
  lemma SpendDrawsOldestFirst(b: Books, input: Input)
    requires Inv(b) && input.kind == Spend && input.key.Client? && !HasKey(b.ledger, input.key)
    requires 0 < input.amount <= Balance(b, input.user)
    ensures var after := WriteFresh(b, input).0; SpendDone(b, input, after) && OldestFirst(b, input.user, after)
  {
    hide *;
    BackedLots(b, input.user);
    var after := SpendWrites(b, input);
    LotsHold(after);
    var plan := SpendPlan(b, input);
    ConsumeTakes(b.(ledger := b.ledger + [Row(input, -input.amount, None)]), input.key, plan.draws);
    SpentTables(b, input, plan.draws, after);
    PlanEmptiesOldest(b, input, plan, after);
  }

  lemma BackedLots(b: Books, user: Id)
    requires Inv(b)
    ensures LotsOk(b) && Remaining(b, user) <= Balance(b, user)
  {
    assert Balance(b, user) >= Remaining(b, user);
  }

  lemma LotsHold(b: Books)
    requires Sound(b)
    ensures forall k :: 0 <= k < |b.lots| ==> b.lots[k].remaining >= 0
  {
    forall k | 0 <= k < |b.lots| ensures b.lots[k].remaining >= 0 { assert LotShape(b.lots[k]); }
  }

  lemma SpentTables(b: Books, input: Input, draws: seq<Draw>, after: Books)
    requires Drawable(b, input.user, draws) && |after.lots| == |b.lots|
    requires forall k :: 0 <= k < |b.lots| ==> after.lots[k] == b.lots[k].(remaining := b.lots[k].remaining - Drawn(draws, k)) && after.lots[k].remaining >= 0
    requires after.allocations == b.allocations + Recorded(input.key, draws)
    requires after.ledger == b.ledger + [Row(input, -input.amount, None)] && input.kind == Spend
    requires after.requests == b.requests && after.purchases == b.purchases
    ensures SpendDone(b, input, after)
  {
    var n := |b.allocations|;
    assert after.allocations[n..] == Recorded(input.key, draws);
    forall k | 0 <= k < |b.lots| ensures LotAfterSpend(b, input, after, k) { RecordedSum(input.key, draws, k); }
    forall i | n <= i < |after.allocations| ensures NewAllocation(b, input, after.allocations[i]) {
      assert after.allocations[i] == Recorded(input.key, draws)[i - n];
    }
  }

  /**
   * After any history: a spend takes units granted later only when nothing is left of any unclawed
   * lot of the user that stands for an earlier grant.
   */
  lemma SpendIsFifo(start: Books, commands: seq<Command>, input: Input, i: nat, j: nat, k: nat, m: nat)
    requires Opening(start) && DisciplinedRun(start, commands)
    requires var b := Run(start, commands);
      && input.kind == Spend && input.key.Client? && !HasKey(b.ledger, input.key) && 0 < input.amount <= Balance(b, input.user)
      && i < |b.ledger| && j < |b.ledger| && b.ledger[i].user == b.ledger[j].user == input.user && b.ledger[i].at < b.ledger[j].at
      && k < |b.lots| && m < |b.lots| && b.lots[k].entry == b.ledger[i].key && b.lots[m].entry == b.ledger[j].key
      && b.lots[k].status != Clawed && b.lots[m].status != Clawed
    ensures var b := Run(start, commands); var after := WriteFresh(b, input).0;
      && |after.lots| == |b.lots| && (after.lots[m].remaining < b.lots[m].remaining ==> after.lots[k].remaining == 0)
  {
    OpeningIsInv(start);
    RunKeepsInv(start, commands);
    RunKeepsStanding(start, commands);
    var b := Run(start, commands);
    hide Run;
    hide WriteFresh;
    GrantOf(b, k, i);
    GrantOf(b, m, j);
    hide Sound;
    SpendDrawsOldestFirst(b, input);
    assert IsOlder(b, input.user, k, m);
  }

  lemma GrantOf(b: Books, k: nat, i: nat)
    requires LotsStand(b) && DistinctKeys(b.ledger) && k < |b.lots| && i < |b.ledger| && b.lots[k].entry == b.ledger[i].key
    ensures StandsFor(b.lots[k], b.ledger[i])
  {
    assert Stands(b, k);
    var j :| 0 <= j < |b.ledger| && StandsFor(b.lots[k], b.ledger[j]);
  }
}

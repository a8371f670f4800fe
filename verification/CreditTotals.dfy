/** What a purchase can pay out altogether, and concrete histories where a guard is too weak. */
module CreditTotals {
  import opened Wrappers
  import opened Sums
  import opened CreditBooks
  import opened CreditRules
  import opened CreditInvariant
  import opened CreditSteps
  import opened CreditTransactions
  import opened CreditRefunds
  import opened CreditRuns
  import opened LotPlan

  // ----- clawback rows and lot debits of one purchase -----

  function ClawedBack(p: Id): Entry -> int { (e: Entry) => if e.kind == Clawback && e.purchase == Some(p) then -e.amount else 0 }

  function DebitedOf(p: Id): Lot -> int { (l: Lot) => if l.purchase == Some(p) then l.debited else 0 }

  function GrantOf(p: Id): Lot -> int { (l: Lot) => if l.purchase == Some(p) then l.grant else 0 }

  /** Units of a purchase's lots that were paid out in money for an operation. */
  function StampedOf(lots: seq<Lot>, p: Id): Allocation -> int {
    (a: Allocation) => if PaysOut(lots, p, a) then a.amount else 0
  }

  predicate PaysOut(lots: seq<Lot>, p: Id, a: Allocation) {
    a.cash.Some? && a.lot < |lots| && lots[a.lot].purchase == Some(p)
  }

  /** The clawback rows of a purchase are exactly the debits of its lots. */
  ghost predicate Matched(b: Books) {
    forall p: Id :: Sum(b.ledger, ClawedBack(p)) == Sum(b.lots, DebitedOf(p))
  }

  /** No clawback row is added and no lot is debited. */
  ghost predicate Quiet(b: Books, after: Books) {
    && |b.ledger| <= |after.ledger| && |b.lots| <= |after.lots|
    && after.ledger[..|b.ledger|] == b.ledger
    && (forall j :: |b.ledger| <= j < |after.ledger| ==> after.ledger[j].kind != Clawback)
    && (forall k :: 0 <= k < |b.lots| ==> SameOrigin(b.lots[k], after.lots[k]))
    && (forall k :: |b.lots| <= k < |after.lots| ==> after.lots[k].debited == 0)
  }

  /** The lot still stands for the same grant. */
  ghost predicate SameGrant(was: Lot, now: Lot) {
    now.user == was.user && now.purchase == was.purchase && now.entry == was.entry && now.grant == was.grant && now.createdAt == was.createdAt
  }

  ghost predicate SameOrigin(was: Lot, now: Lot) {
    SameGrant(was, now) && now.debited == was.debited
  }

  lemma QuietTrans(a: Books, b: Books, c: Books)
    requires Quiet(a, b) && Quiet(b, c)
    ensures Quiet(a, c)
  {
  }

  lemma QuietKeepsMatched(b: Books, after: Books)
    requires Matched(b) && Quiet(b, after)
    ensures Matched(after)
  {
    forall p ensures Sum(after.ledger, ClawedBack(p)) == Sum(after.lots, DebitedOf(p)) {
      var n, m := |b.ledger|, |b.lots|;
      assert after.ledger == after.ledger[..n] + after.ledger[n..] && after.lots == after.lots[..m] + after.lots[m..];
      SumConcat(after.ledger[..n], after.ledger[n..], ClawedBack(p));
      SumConcat(after.lots[..m], after.lots[m..], DebitedOf(p));
      Zero(after.ledger[n..], ClawedBack(p));
      Zero(after.lots[m..], DebitedOf(p));
      Equal(after.lots[..m], DebitedOf(p), b.lots, DebitedOf(p));
    }
  }

  lemma {:induction false} RestoreIsQuiet(b: Books, spend: Key, n: nat)
    requires n <= |b.allocations|
    ensures Quiet(b, RestoreUpTo(b, spend, n))
  {
    if n > 0 {
      RestoreIsQuiet(b, spend, n - 1);
      QuietTrans(b, RestoreUpTo(b, spend, n - 1), RestoreUpTo(b, spend, n));
    }
  }

  lemma {:induction false} ConsumeIsQuiet(b: Books, spend: Key, draws: seq<Draw>)
    ensures ConsumeDraws(b, spend, draws).Some? ==> Quiet(b, ConsumeDraws(b, spend, draws).value)
    decreases |draws|
  {
    if |draws| > 0 && CanDraw(b, draws[0]) {
      var next := DrawOne(b, spend, draws[0]);
      ConsumeIsQuiet(next, spend, draws[1..]);
      if ConsumeDraws(next, spend, draws[1..]).Some? { QuietTrans(b, next, ConsumeDraws(next, spend, draws[1..]).value); }
    }
  }

  lemma FreshIsQuiet(b: Books, input: Input)
    ensures Quiet(b, WriteFresh(b, input).0)
  {
    hide ConsumeDraws;
    hide LoadLots;
    hide PlanFifo;
    var after := WriteFresh(b, input).0;
    if input.kind == Refund && after != b {
      var spend := ResolveSpend(b.ledger, input.user, input.source);
      var billed := b.(ledger := b.ledger + [Row(input, input.amount, spend)]);
      RestoreForSourceIsQuiet(billed, input.user, input.source);
      QuietTrans(b, billed, after);
    } else if input.kind == Spend && after != b {
      var billed := b.(ledger := b.ledger + [Row(input, -input.amount, None)]);
      var lots := LoadLots(b.lots, input.user);
      var plan := PlanFifo(lots, UnlottedUnits(Balance(b, input.user), Sum(lots, RowRemaining())), input.amount);
      ConsumeIsQuiet(billed, input.key, plan.value.draws);
      QuietTrans(b, billed, after);
    }
  }

  lemma RestoreForSourceIsQuiet(b: Books, user: Id, source: Option<Key>)
    ensures Quiet(b, RestoreForSource(b, user, source))
  {
    if ResolveSpend(b.ledger, user, source).Some? { RestoreIsQuiet(b, source.value, |b.allocations|); }
  }

  lemma WriteIsQuiet(b: Books, input: Input)
    ensures Quiet(b, WriteEntry(b, input).0) && Quiet(b, WriteOnce(b, input).0)
  {
    FreshIsQuiet(b, input);
    RestoreForSourceIsQuiet(b, input.user, input.source);
  }

  /** A clawback row and the debit of the same units on a lot of the same purchase. */
  lemma DebitKeepsMatched(b: Books, user: Id, purchase: Id, r: nat, k: nat, lot: Lot, units: int)
    requires Matched(b) && k < |b.lots| && b.lots[k].purchase == lot.purchase == Some(purchase)
    requires lot.debited == b.lots[k].debited + units
    ensures Matched(b.(ledger := b.ledger + [ClawbackRow(user, purchase, r, units)], lots := b.lots[k := lot]))
  {
    var row := ClawbackRow(user, purchase, r, units);
    forall p ensures Sum(b.ledger + [row], ClawedBack(p)) == Sum(b.lots[k := lot], DebitedOf(p)) {
      Append(b.ledger, row, ClawedBack(p));
      Update(b.lots, k, lot, DebitedOf(p));
    }
  }

  lemma EffectsKeepMatched(b: Books, user: Id, purchase: Id, r: nat)
    requires Matched(b)
    ensures Matched(FinalizeEffects(b, user, purchase, r).0)
  {
    hide Matched;
    var after := FinalizeEffects(b, user, purchase, r).0;
    if after.ledger == b.ledger {
      QuietKeepsMatched(b, after);
    } else if b.requests[r].units.None? {
      var k := FirstLot(b.lots, purchase, None).value;
      DebitKeepsMatched(b, user, purchase, r, k, after.lots[k], after.lots[k].debited - b.lots[k].debited);
    } else {
      var units := b.requests[r].units.value;
      var k := FirstLot(b.lots, purchase, Some(user)).value;
      DebitKeepsMatched(b, user, purchase, r, k, DebitedLot(b.lots[k], units), units);
    }
  }

  /** Only settling a refund claws anything back. */
  lemma StepIsQuiet(b: Books, c: Command)
    requires !c.Settle?
    ensures Quiet(b, Apply(b, c))
  {
    match c
    case WriteInTransaction(input) => WriteIsQuiet(b, input);
    case Write(input) => WriteIsQuiet(b, input);
    case RefundOriginal(user, spendKey, refundKey) => forall units: int { WriteIsQuiet(b, RefundInput(user, units, spendKey, refundKey)); }
    case _ =>
  }

  lemma StepKeepsMatched(b: Books, c: Command)
    requires Matched(b)
    ensures Matched(Apply(b, c))
  {
    hide Matched;
    if c.Settle? {
      SettleKeepsMatched(b, c.request);
    } else {
      StepIsQuiet(b, c);
      QuietKeepsMatched(b, Apply(b, c));
    }
  }

  lemma SettleKeepsMatched(b: Books, r: nat)
    requires Matched(b)
    ensures Matched(MarkRefunded(b, r))
  {
    hide FinalizeEffects;
    if r < |b.requests| && b.requests[r].payment in b.purchases {
      var payment := b.requests[r].payment;
      var owner := b.purchases[payment].owner;
      if owner.Some? { EffectsKeepMatched(b, owner.value, payment, r); }
    }
  }

  lemma {:induction false} RunKeepsMatched(b: Books, commands: seq<Command>)
    requires Matched(b)
    ensures Matched(Run(b, commands))
    decreases |commands|
  {
    hide Matched;
    if |commands| > 0 {
      StepKeepsMatched(b, commands[0]);
      RunKeepsMatched(Apply(b, commands[0]), commands[1..]);
    }
  }

  // ----- a purchase never pays out more than it granted -----

  /** Stamped units on the first n lots, for one purchase. */
  function StampedBelow(lots: seq<Lot>, p: Id, n: nat): Allocation -> int {
    (a: Allocation) => if a.lot < n && PaysOut(lots, p, a) then a.amount else 0
  }

  function StampedAt(lots: seq<Lot>, p: Id, n: nat): Allocation -> int {
    (a: Allocation) => if a.lot == n && PaysOut(lots, p, a) then a.amount else 0
  }

  lemma StampedOnLot(b: Books, p: Id, n: nat)
    requires LotsOk(b) && AllocationsOk(b) && n < |b.lots|
    ensures DebitedOf(p)(b.lots[n]) + Sum(b.allocations, StampedBelow(b.lots, p, n + 1)) - Sum(b.allocations, StampedBelow(b.lots, p, n))
         <= GrantOf(p)(b.lots[n])
  {
    var only := StampedAt(b.lots, p, n);
    Pointwise(b.allocations, StampedBelow(b.lots, p, n), b.allocations, only, b.allocations, StampedBelow(b.lots, p, n + 1));
    assert LotShape(b.lots[n]) && Conserved(b, n);
    if b.lots[n].purchase == Some(p) {
      forall i | 0 <= i < |b.allocations| ensures only(b.allocations[i]) <= Outstanding(n)(b.allocations[i]) {
        assert AllocationOk(b, b.allocations[i]);
      }
      AtMost(b.allocations, only, b.allocations, Outstanding(n));
    } else {
      Zero(b.allocations, only);
    }
  }

  lemma {:induction false} PaidOutWithinLots(b: Books, p: Id, n: nat)
    requires LotsOk(b) && AllocationsOk(b) && n <= |b.lots|
    ensures Sum(b.lots[..n], DebitedOf(p)) + Sum(b.allocations, StampedBelow(b.lots, p, n)) <= Sum(b.lots[..n], GrantOf(p))
  {
    hide LotsOk;
    hide AllocationsOk;
    if n == 0 {
      Zero(b.allocations, StampedBelow(b.lots, p, 0));
    } else {
      PaidOutWithinLots(b, p, n - 1);
      StampedOnLot(b, p, n - 1);
      assert b.lots[..n] == b.lots[..n - 1] + [b.lots[n - 1]];
      Append(b.lots[..n - 1], b.lots[n - 1], DebitedOf(p));
      Append(b.lots[..n - 1], b.lots[n - 1], GrantOf(p));
    }
  }

  /**
   * Whatever happens, the units clawed back for a purchase plus the units of its lots paid out
   * for operations never exceed the units it granted.
   */
  lemma PurchaseNeverOverpaid(start: Books, commands: seq<Command>, p: Id)
    requires Opening(start) && DisciplinedRun(start, commands)
    ensures var b := Run(start, commands);
      Sum(b.ledger, ClawedBack(p)) + Sum(b.allocations, StampedOf(b.lots, p)) <= Sum(b.lots, GrantOf(p))
  {
    OpeningIsInv(start);
    forall q ensures Sum(start.ledger, ClawedBack(q)) == 0 { Zero(start.ledger, ClawedBack(q)); }
    assert start.lots == [];
    RunKeepsInv(start, commands);
    RunKeepsMatched(start, commands);
    var b := Run(start, commands);
    var n := |b.lots|;
    PaidOutWithinLots(b, p, n);
    assert b.lots[..n] == b.lots;
    Equal(b.allocations, StampedBelow(b.lots, p, n), b.allocations, StampedOf(b.lots, p));
  }

  /** Per lot: what was clawed back from it and what was paid out in money for it fit its grant. */
  lemma LotNeverOverpaid(start: Books, commands: seq<Command>, k: nat)
    requires Opening(start) && DisciplinedRun(start, commands) && k < |Run(start, commands).lots|
    ensures var b := Run(start, commands);
      b.lots[k].debited + Sum(b.allocations, StampedFrom(k)) <= b.lots[k].grant
  {
    OpeningIsInv(start);
    RunKeepsInv(start, commands);
    var b := Run(start, commands);
    assert LotShape(b.lots[k]) && Conserved(b, k);
    forall i | 0 <= i < |b.allocations| ensures StampedFrom(k)(b.allocations[i]) <= Outstanding(k)(b.allocations[i]) {
      assert AllocationOk(b, b.allocations[i]);
    }
    AtMost(b.allocations, StampedFrom(k), b.allocations, Outstanding(k));
  }

  function StampedFrom(k: nat): Allocation -> int { (a: Allocation) => if a.lot == k && a.cash.Some? then a.amount else 0 }

  // ----- the ledger only grows -----

  ghost predicate Grown(b: Books, after: Books) {
    |b.ledger| <= |after.ledger| && after.ledger[..|b.ledger|] == b.ledger
  }

  lemma StepGrows(b: Books, c: Command)
    ensures Grown(b, Apply(b, c))
  {
    if !c.Settle? { StepIsQuiet(b, c); }
  }

  lemma {:induction false} RunGrows(b: Books, commands: seq<Command>)
    ensures Grown(b, Run(b, commands))
    decreases |commands|
  {
    hide Apply;
    if |commands| > 0 {
      StepGrows(b, commands[0]);
      RunGrows(Apply(b, commands[0]), commands[1..]);
      var next, after := Apply(b, commands[0]), Run(b, commands);
      assert after.ledger[..|b.ledger|] == after.ledger[..|next.ledger|][..|b.ledger|];
    }
  }

  /**
   * Refunding an original spend leaves, for good, exactly one row under the refund key, of exactly
   * the spent amount; repeating the call after any later history changes nothing.
   */
  lemma OneRefundRowForGood(b: Books, user: Id, spendKey: Key, refundKey: Key, units: int, later: seq<Command>)
    requires Inv(b) && IsSpendOf(b, user, spendKey, units) && refundKey.Client? && !HasKey(b.ledger, refundKey)
    requires CompensationAllowed(b, spendKey) && DisciplinedRun(RefundSpend(b, user, spendKey, refundKey).0, later)
    ensures var after := Run(RefundSpend(b, user, spendKey, refundKey).0, later);
      && FindEntry(after.ledger, refundKey) == Some(Entry(refundKey, user, Refund, units, None, 0, Some(spendKey)))
      && DistinctKeys(after.ledger)
      && RefundSpend(after, user, spendKey, refundKey) == (after, CreditRefunded(units))
  {
    RefundOriginalSpendOnce(b, user, spendKey, refundKey, units);
    RefundSpendKeepsInv(b, user, spendKey, refundKey);
    var first := RefundSpend(b, user, spendKey, refundKey).0;
    var n := |b.ledger|;
    hide RefundSpend;
    RunKeepsInv(first, later);
    RunGrows(first, later);
    var after := Run(first, later);
    assert after.ledger[n] == after.ledger[..|first.ledger|][n] == Entry(refundKey, user, Refund, units, None, 0, Some(spendKey));
    FindRow(after.ledger, n);
    RepeatedRefund(after, user, spendKey, refundKey, units);
  }

  lemma RepeatedRefund(b: Books, user: Id, spendKey: Key, refundKey: Key, units: int)
    requires Inv(b) && refundKey.Client? && units > 0
    requires FindEntry(b.ledger, refundKey) == Some(Entry(refundKey, user, Refund, units, None, 0, Some(spendKey)))
    ensures RefundSpend(b, user, spendKey, refundKey) == (b, CreditRefunded(units))
  {
    RefundReplay(b, user, Some(spendKey), refundKey);
  }

  // ----- a call of the history itself never opens a late lot -----

  /** Lots keep their place and the grant they stand for. */
  ghost predicate LotsStay(b: Books, after: Books) {
    |b.lots| <= |after.lots| && forall k :: 0 <= k < |b.lots| ==> after.lots[k].entry == b.lots[k].entry
  }

  lemma StepKeepsLots(b: Books, c: Command)
    ensures LotsStay(b, Apply(b, c))
  {
    if c.Settle? { SettleKeepsLots(b, c.request); } else { StepIsQuiet(b, c); }
    hide Apply;
  }

  /** Local effects touch neither requests nor purchases, and leave every lot its grant. */
  lemma EffectsKeepGrants(b: Books, user: Id, purchase: Id, r: nat)
    ensures var after := FinalizeEffects(b, user, purchase, r).0;
      && after.purchases == b.purchases && after.requests == b.requests && |after.lots| == |b.lots|
      && (forall k :: 0 <= k < |b.lots| ==> SameGrant(b.lots[k], after.lots[k]))
  {
  }

  lemma SettleKeepsLots(b: Books, r: nat)
    ensures LotsStay(b, MarkRefunded(b, r))
  {
    hide FinalizeEffects;
    forall user, purchase { EffectsKeepGrants(b, user, purchase, r); }
  }

  lemma {:induction false} RunKeepsLots(b: Books, commands: seq<Command>, key: Key)
    requires HasLot(b, key)
    ensures HasLot(Run(b, commands), key)
    decreases |commands|
  {
    hide Apply;
    if |commands| > 0 {
      var k :| 0 <= k < |b.lots| && b.lots[k].entry == key;
      StepKeepsLots(b, commands[0]);
      assert Apply(b, commands[0]).lots[k].entry == key;
      RunKeepsLots(Apply(b, commands[0]), commands[1..], key);
    }
  }

  /** A grant the history wrote has its lot at any later time, so repeating it opens none. */
  lemma OwnGrantKeepsItsLot(b: Books, input: Input, between: seq<Command>)
    requires Inv(b) && !HasKey(b.ledger, input.key) && Disciplined(b, WriteInTransaction(input)) && input.kind == Purchase
    requires DisciplinedRun(WriteEntry(b, input).0, between)
    ensures !OpensLateLot(Run(WriteEntry(b, input).0, between), WriteInTransaction(input))
  {
    var c := WriteInTransaction(input);
    var next := Apply(b, c);
    var row := Row(input, input.amount, None);
    var n := |b.ledger|;
    StepKeepsInv(b, c);
    RunKeepsInv(next, between);
    RunGrows(next, between);
    var after := Run(next, between);
    GrantReplay(b.(ledger := b.ledger + [row]), row);
    if row.amount > 0 { RunKeepsLots(next, between, row.key); }
    assert after.ledger[n] == after.ledger[..|next.ledger|][n] == row;
    hide Apply;
    FindRow(after.ledger, n);
  }

  /** A call the history itself made can be repeated any time later without any effect. */
  lemma OwnCallReplay(b: Books, c: Command, between: seq<Command>, rest: seq<Command>)
    requires Inv(b) && Disciplined(b, c) && LedgerKey(c).Some? && !HasKey(b.ledger, LedgerKey(c).value)
    requires HasKey(Apply(b, c).ledger, LedgerKey(c).value)
    requires DisciplinedRun(Apply(b, c), between) && KeyOk(Run(Apply(b, c), between), c)
    ensures Run(Apply(b, c), between + [c] + rest) == Run(Apply(b, c), between + rest)
  {
    hide Inv;
    var next, key := Apply(b, c), LedgerKey(c).value;
    StepKeepsInv(b, c);
    if c.WriteInTransaction? && c.input.kind == Purchase { OwnGrantKeepsItsLot(b, c.input, between); }
    RunGrows(next, between);
    KeyStays(next, Run(next, between), key);
    ReplayAnywhere(next, between, c, rest);
  }

  lemma KeyStays(b: Books, after: Books, key: Key)
    requires Grown(b, after) && HasKey(b.ledger, key)
    ensures HasKey(after.ledger, key)
  {
    var i := FindHits(b.ledger, key);
    assert after.ledger[..|b.ledger|][i] == after.ledger[i];
    KeyIsFound(after.ledger, i);
  }

  lemma {:induction false} KeyIsFound(ledger: seq<Entry>, i: nat)
    requires i < |ledger|
    ensures HasKey(ledger, ledger[i].key)
  {
    if i < |ledger| - 1 { KeyIsFound(ledger[..|ledger| - 1], i); }
  }

  // ----- where the callers' discipline is needed -----

  /** One unit bought and spent; key "r" was used for a refund that named no spend. */
  function SpentBooks(): Books {
    Books([Entry(Client("g"), "u", Purchase, 1, Some("p"), 0, None), Entry(Client("s"), "u", Spend, -1, None, 1, None),
           Entry(Client("r"), "u", Refund, 0, None, 2, None)],
          [Lot("u", Some("p"), Client("g"), 1, 0, 0, None, Open, 0, 0, 0)],
          [Allocation(0, Client("s"), 1, false, None)], [], map[])
  }

  lemma SpentSums()
    ensures var b := SpentBooks();
      && (forall u :: Balance(b, u) == 0 && Remaining(b, u) == 0)
      && Sum(b.allocations, Outstanding(0)) == 1
      && (forall k :: Sum(b.allocations, OfSpend(k)) == if k == Client("s") then 1 else 0)
  {
    var b := SpentBooks();
    forall u ensures Balance(b, u) == 0 {
      assert b.ledger[..2] == [b.ledger[0]] + [b.ledger[1]];
      Append(b.ledger[..2], b.ledger[2], EntryAmount(u));
      Append([b.ledger[0]], b.ledger[1], EntryAmount(u));
      assert b.ledger == b.ledger[..2] + [b.ledger[2]];
      Append([], b.ledger[0], EntryAmount(u));
      assert [] + [b.ledger[0]] == [b.ledger[0]];
    }
    assert b.allocations == [] + [b.allocations[0]];
    Append([], b.allocations[0], Outstanding(0));
    forall k { Append([], b.allocations[0], OfSpend(k)); }
  }

  lemma SpentTables()
    ensures LedgerOk(SpentBooks()) && AllocationsOk(SpentBooks())
  {
    var b := SpentBooks();
    assert SpendRow(b, Client("s"), "u") by { assert b.ledger[1].key == Client("s"); }
  }

  lemma SpentInv()
    ensures Inv(SpentBooks())
  {
    SpentTables();
    SpentSums();
    hide LedgerOk;
    hide AllocationsOk;
  }

  /** Replaying that key for the spend puts its unit back into the lot without any credit behind it. */
  lemma MispairedReplayBreaksBacking()
    ensures var replay := Input(Refund, "u", 1, Client("r"), None, Some(Client("s")), 3);
      Inv(SpentBooks()) && WriteOnce(SpentBooks(), replay).1 == Duplicate && !Backed(WriteOnce(SpentBooks(), replay).0)
  {
    var b := SpentBooks();
    SpentInv();
    SpentSums();
    SpentLookups();
    MispairedReplay(b, "u", Some(Client("s")));
    assert Balance(b, "u") == 0;
  }

  lemma SpentLookups()
    ensures var b := SpentBooks();
      && FindEntry(b.ledger, Client("s")) == Some(b.ledger[1]) && FindEntry(b.ledger, Client("r")) == Some(b.ledger[2])
      && !HasKey(b.ledger, Client("x")) && GivenBack(b, "u", Some(Client("s"))) == 1
  {
    var b := SpentBooks();
    FindRow(b.ledger, 1);
    FindRow(b.ledger, 2);
    if HasKey(b.ledger, Client("x")) { var j := FindHits(b.ledger, Client("x")); }
    Append([], b.allocations[0], Live(b.lots, Client("s")));
    assert [] + [b.allocations[0]] == b.allocations;
  }

  /** A refund of less than the spend took gives back more units than credit. */
  lemma ShortRefundBreaksBacking()
    ensures var short := Input(Refund, "u", 0, Client("x"), None, Some(Client("s")), 3);
      Inv(SpentBooks()) && WriteOnce(SpentBooks(), short).1 == Written && !Backed(WriteOnce(SpentBooks(), short).0)
  {
    var b := SpentBooks();
    var short := Input(Refund, "u", 0, Client("x"), None, Some(Client("s")), 3);
    SpentInv();
    SpentSums();
    SpentLookups();
    RefundKeepsInv(b, short);
    assert Balance(b, "u") == 0;
  }

  /** A negative grant takes the balance below what the lots hold. */
  lemma NegativeGrantBreaksBacking()
    ensures var grant := Input(Purchase, "u", -1, Client("x"), Some("p"), None, 3);
      Inv(SpentBooks()) && WriteOnce(SpentBooks(), grant).1 == Written && !Backed(WriteOnce(SpentBooks(), grant).0)
  {
    SpentInv();
    SpentSums();
    SpentLookups();
    GrantKeepsInv(SpentBooks(), Input(Purchase, "u", -1, Client("x"), Some("p"), None, 3));
    assert Balance(SpentBooks(), "u") == 0;
  }

  /** A grant of one unit from before lots existed, already spent. */
  function OldGrantBooks(): Books {
    Books([Entry(Client("g"), "u", Purchase, 1, Some("p"), 0, None), Entry(Client("s"), "u", Spend, -1, None, 1, None)], [], [], [], map[])
  }

  lemma OldGrantOpens()
    ensures Opening(OldGrantBooks()) && forall u :: Balance(OldGrantBooks(), u) == 0 && Remaining(OldGrantBooks(), u) == 0
  {
    var b := OldGrantBooks();
    forall u ensures Balance(b, u) == 0 {
      assert b.ledger == [] + [b.ledger[0]] + [b.ledger[1]];
      Append([], b.ledger[0], EntryAmount(u));
      Append([] + [b.ledger[0]], b.ledger[1], EntryAmount(u));
    }
  }

  /** Repeating that grant inside a transaction opens its lot late, with no credit left to stand behind it. */
  lemma LateLotBreaksBacking()
    ensures var repeat := Input(Purchase, "u", 1, Client("g"), Some("p"), None, 2);
      && Opening(OldGrantBooks()) && Inv(OldGrantBooks()) && OpensLateLot(OldGrantBooks(), WriteInTransaction(repeat))
      && WriteEntry(OldGrantBooks(), repeat).1 == Duplicate && !Backed(WriteEntry(OldGrantBooks(), repeat).0)
  {
    var b := OldGrantBooks();
    OldGrantOpens();
    OpeningIsInv(b);
    hide Opening;
    FindRow(b.ledger, 0);
    LateLotKeepsBacking(b, b.ledger[0]);
    hide Inv;
    assert Balance(b, "u") == 0;
  }
}

/** What one spend is credited back altogether, when it is refunded under more than one key. */
module CreditRepeats {
  import opened Wrappers
  import opened Sums
  import opened CreditBooks
  import opened CreditRules
  import opened CreditInvariant
  import opened CreditSteps
  import opened CreditTransactions
  import opened CreditRefunds
  import opened CreditRuns
  import opened CreditTotals

  function PaidFor(spend: Key): Entry -> int { (e: Entry) => if e.source == Some(spend) then e.amount else 0 }

  /** All that the refund rows of one spend credit. */
  function CreditedFor(ledger: seq<Entry>, spend: Key): int { Sum(ledger, PaidFor(spend)) }

  ghost predicate Named(ledger: seq<Entry>, spend: Key) { exists j :: 0 <= j < |ledger| && ledger[j].source == Some(spend) }

  // ----- refund rows of a disciplined history pay in full -----

  /** Every refund row that names a spend pays at least what the spend took. */
  ghost predicate PaidInFull(ledger: seq<Entry>) {
    forall i, j :: 0 <= i < |ledger| && 0 <= j < |ledger| && ledger[i].kind == Spend && ledger[j].source == Some(ledger[i].key) ==>
      ledger[j].amount >= -ledger[i].amount
  }

  ghost predicate FullRow(ledger: seq<Entry>, e: Entry) {
    e.source.Some? ==> HasKey(ledger, e.source.value) && e.amount >= -FindEntry(ledger, e.source.value).value.amount
  }

  lemma AppendKeepsFull(b: Books, e: Entry)
    requires LedgerOk(b) && PaidInFull(b.ledger) && !HasKey(b.ledger, e.key) && FullRow(b.ledger, e)
    ensures PaidInFull(b.ledger + [e])
  {
    var n := |b.ledger|;
    forall i | 0 <= i < n ensures FindEntry(b.ledger, b.ledger[i].key) == Some(b.ledger[i]) { FindRow(b.ledger, i); }
    forall j | 0 <= j < n ensures b.ledger[j].source != Some(e.key) { assert RowOk(b, b.ledger[j]); }
  }

  lemma FreshKeepsFull(b: Books, input: Input)
    requires Inv(b) && PaidInFull(b.ledger) && input.key.Client? && !HasKey(b.ledger, input.key) && AmountOk(b, input)
    ensures PaidInFull(WriteFresh(b, input).0.ledger)
  {
    match input.kind
    case Purchase => AppendKeepsFull(b, Row(input, input.amount, None));
    case Refund =>
      RefundWrites(b, input);
      if !Blocked(b, input) { AppendKeepsFull(b, Row(input, input.amount, ResolveSpend(b.ledger, input.user, input.source))); }
    case _ =>
      SpendSucceedsExactly(b, input);
      if 0 < input.amount <= Balance(b, input.user) {
        var after := SpendWrites(b, input);
        AppendKeepsFull(b, Row(input, -input.amount, None));
      }
  }

  lemma WriteKeepsFull(b: Books, input: Input)
    requires Inv(b) && PaidInFull(b.ledger) && input.key.Client? && (!HasKey(b.ledger, input.key) ==> AmountOk(b, input))
    ensures PaidInFull(WriteEntry(b, input).0.ledger) && PaidInFull(WriteOnce(b, input).0.ledger)
  {
    if HasKey(b.ledger, input.key) {
      RestoreForSourceRemaining(b, input.user, input.source, input.user);
    } else {
      FreshKeepsFull(b, input);
    }
  }

  lemma RefundSpendKeepsFull(b: Books, user: Id, spendKey: Key, refundKey: Key)
    requires Inv(b) && PaidInFull(b.ledger) && refundKey.Client? && Paired(b, user, Some(spendKey), refundKey)
    ensures PaidInFull(RefundSpend(b, user, spendKey, refundKey).0.ledger)
  {
    RefundSpendKeepsInv(b, user, spendKey, refundKey);
    var units := OriginalUnits(FindEntry(b.ledger, spendKey));
    if !HasKey(b.ledger, refundKey) && units.Some? { WriteKeepsFull(b, RefundInput(user, units.value, spendKey, refundKey)); }
  }

  lemma SettleKeepsFull(b: Books, r: nat)
    requires LedgerOk(b) && PaidInFull(b.ledger)
    ensures PaidInFull(MarkRefunded(b, r).ledger)
  {
    var after := MarkRefunded(b, r).ledger;
    if after != b.ledger { AppendKeepsFull(b, after[|b.ledger|]); }
  }

  lemma StepKeepsFull(b: Books, c: Command)
    requires Inv(b) && Disciplined(b, c) && PaidInFull(b.ledger)
    ensures PaidInFull(Apply(b, c).ledger)
  {
    hide PaidInFull;
    match c
    case WriteInTransaction(input) => WriteKeepsFull(b, input);
    case Write(input) => WriteKeepsFull(b, input);
    case RefundOriginal(user, spendKey, refundKey) => RefundSpendKeepsFull(b, user, spendKey, refundKey);
    case Settle(r) => SettleKeepsFull(b, r);
    case _ =>
  }

  lemma {:induction false} RunKeepsFull(b: Books, commands: seq<Command>)
    requires Inv(b) && DisciplinedRun(b, commands) && PaidInFull(b.ledger)
    ensures PaidInFull(Run(b, commands).ledger)
    decreases |commands|
  {
    hide Inv;
    hide PaidInFull;
    hide Apply;
    if |commands| > 0 {
      StepKeepsInv(b, commands[0]);
      StepKeepsFull(b, commands[0]);
      RunKeepsFull(Apply(b, commands[0]), commands[1..]);
    }
  }

  // ----- refunding a spend once more -----

  /** In such a ledger a spend is credited nothing, or at least all it took. */
  lemma CreditedInFull(b: Books, user: Id, spendKey: Key, units: int)
    requires LedgerOk(b) && PaidInFull(b.ledger) && IsSpendOf(b, user, spendKey, units)
    ensures if Named(b.ledger, spendKey) then CreditedFor(b.ledger, spendKey) >= units > 0 else CreditedFor(b.ledger, spendKey) == 0
  {
    var i := FindHits(b.ledger, spendKey);
    assert RowOk(b, b.ledger[i]);
    if Named(b.ledger, spendKey) {
      var j :| 0 <= j < |b.ledger| && b.ledger[j].source == Some(spendKey);
      Share(b.ledger, j, PaidFor(spendKey));
    } else {
      Zero(b.ledger, PaidFor(spendKey));
    }
  }

  /**
   * A refund under a fresh key pays the whole spend once more, also when other keys refunded it
   * before; only then is the spend credited more than it took.
   */
  lemma RefundedAgainExactly(start: Books, commands: seq<Command>, user: Id, spendKey: Key, refundKey: Key, units: int)
    requires Opening(start) && PaidInFull(start.ledger) && DisciplinedRun(start, commands)
    requires var b := Run(start, commands);
      IsSpendOf(b, user, spendKey, units) && CompensationAllowed(b, spendKey) && refundKey.Client? && !HasKey(b.ledger, refundKey)
    ensures var b := Run(start, commands);
      var after := RefundSpend(b, user, spendKey, refundKey).0;
      && CreditedFor(after.ledger, spendKey) == CreditedFor(b.ledger, spendKey) + units
      && Balance(after, user) == Balance(b, user) + units
      && (CreditedFor(after.ledger, spendKey) > units <==> Named(b.ledger, spendKey))
  {
    OpeningIsInv(start);
    RunKeepsInv(start, commands);
    RunKeepsFull(start, commands);
    var b := Run(start, commands);
    hide Run;
    hide RefundSpend;
    hide PaidInFull;
    CreditedInFull(b, user, spendKey, units);
    RefundOriginalSpendOnce(b, user, spendKey, refundKey, units);
    Append(b.ledger, Entry(refundKey, user, Refund, units, None, 0, Some(spendKey)), PaidFor(spendKey));
  }

  lemma StillAllowed(b: Books, after: Books, spend: Key)
    requires AllocationsOk(after) && ExcludesCash(after, spend) && after.requests == b.requests && CompensationAllowed(b, spend)
    ensures CompensationAllowed(after, spend)
  {
    forall i | 0 <= i < |after.allocations| && OfSpendAt(after, spend, i) ensures after.allocations[i].cash.None? {
      assert AllocationOk(after, after.allocations[i]);
    }
  }

  /** Being refunded in credits does not block a spend from being refunded in credits again. */
  lemma RefundStaysAllowed(b: Books, user: Id, spendKey: Key, refundKey: Key, units: int)
    requires Inv(b) && IsSpendOf(b, user, spendKey, units) && refundKey.Client? && !HasKey(b.ledger, refundKey)
    requires CompensationAllowed(b, spendKey)
    ensures var after := RefundSpend(b, user, spendKey, refundKey).0;
      Inv(after) && IsSpendOf(after, user, spendKey, units) && CompensationAllowed(after, spendKey)
  {
    RefundSpendKeepsInv(b, user, spendKey, refundKey);
    RefundOriginalSpendOnce(b, user, spendKey, refundKey, units);
    FirstRefund(b, user, spendKey, refundKey, units);
    FindAfterAppend(b.ledger, Entry(refundKey, user, Refund, units, None, 0, Some(spendKey)), spendKey);
    RestoredAllocations(b, spendKey, |b.allocations|);
    hide RefundSpend;
    hide CompensationAllowed;
    hide ExcludesCash;
    hide StampsAlone;
    hide Backed;
    hide LotsOk;
    hide AllocationsOk;
    hide SpendsCovered;
    hide Exclusive;
    hide RequestsOk;
    StillAllowed(b, RefundSpend(b, user, spendKey, refundKey).0, spendKey);
  }

  function TwoRefunds(user: Id, spendKey: Key, first: Key, second: Key): seq<Command> {
    [RefundOriginal(user, spendKey, first), RefundOriginal(user, spendKey, second)]
  }

  lemma RunTwo(b: Books, first: Command, second: Command)
    ensures Run(b, [first, second]) == Apply(Apply(b, first), second)
    ensures DisciplinedRun(b, [first, second]) <==> Disciplined(b, first) && Disciplined(Apply(b, first), second)
  {
    hide Apply;
    hide Disciplined;
    assert [first, second][1..] == [second] && [second][1..] == [];
    assert Run(Apply(b, first), [second]) == Run(Apply(Apply(b, first), second), []);
    assert DisciplinedRun(Apply(Apply(b, first), second), []);
  }

  /** Two refund keys are two disciplined calls, and pay an allowed spend out twice. */
  lemma TwoKeysPayTwice(b: Books, user: Id, spendKey: Key, first: Key, second: Key, units: int)
    requires Inv(b) && IsSpendOf(b, user, spendKey, units) && CompensationAllowed(b, spendKey)
    requires first.Client? && second.Client? && first != second && !HasKey(b.ledger, first) && !HasKey(b.ledger, second)
    ensures var calls := TwoRefunds(user, spendKey, first, second);
      var after := Run(b, calls);
      && DisciplinedRun(b, calls) && IsSpendOf(after, user, spendKey, units)
      && Balance(after, user) == Balance(b, user) + 2 * units
      && CreditedFor(after.ledger, spendKey) == CreditedFor(b.ledger, spendKey) + 2 * units
  {
    var row := Entry(first, user, Refund, units, None, 0, Some(spendKey));
    RefundOriginalSpendOnce(b, user, spendKey, first, units);
    RefundStaysAllowed(b, user, spendKey, first, units);
    var mid := RefundSpend(b, user, spendKey, first).0;
    FindAfterAppend(b.ledger, row, second);
    RunTwo(b, RefundOriginal(user, spendKey, first), RefundOriginal(user, spendKey, second));
    hide RefundSpend;
    hide Inv;
    hide Run;
    hide DisciplinedRun;
    hide CompensationAllowed;
    hide ExcludesCash;
    RefundOriginalSpendOnce(mid, user, spendKey, second, units);
    RefundStaysAllowed(mid, user, spendKey, second, units);
    Append(b.ledger, row, PaidFor(spendKey));
    Append(mid.ledger, Entry(second, user, Refund, units, None, 0, Some(spendKey)), PaidFor(spendKey));
  }

  /** A spend of one unit, refunded under two keys: a disciplined history that credits two units for it. */
  lemma OneUnitRefundedTwice() returns (commands: seq<Command>)
    ensures var b := Run(OldGrantBooks(), commands);
      && Opening(OldGrantBooks()) && DisciplinedRun(OldGrantBooks(), commands)
      && IsSpendOf(b, "u", Client("s"), 1) && CreditedFor(b.ledger, Client("s")) == 2
  {
    var b, spend := OldGrantBooks(), Client("s");
    OldGrantOpens();
    OpeningIsInv(b);
    hide Inv;
    hide Opening;
    FindRow(b.ledger, 1);
    Zero(b.ledger, PaidFor(spend));
    if HasKey(b.ledger, Client("x")) { var j := FindHits(b.ledger, Client("x")); }
    if HasKey(b.ledger, Client("y")) { var j := FindHits(b.ledger, Client("y")); }
    hide Run;
    hide DisciplinedRun;
    TwoKeysPayTwice(b, "u", spend, Client("x"), Client("y"), 1);
    commands := TwoRefunds("u", spend, Client("x"), Client("y"));
  }
}

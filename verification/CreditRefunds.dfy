/** Credit refunds: what they give back, when they are blocked, and that replays change nothing. */
module CreditRefunds {
  import opened Wrappers
  import opened Sums
  import opened CreditBooks
  import opened CreditRules
  import opened CreditInvariant
  import opened CreditSteps
  import opened CreditTransactions
  import opened LotPlan

  lemma ResolvedIsSpendRow(b: Books, user: Id, source: Option<Key>)
    requires ResolveSpend(b.ledger, user, source).Some?
    ensures source.Some? && ResolveSpend(b.ledger, user, source) == source && SpendRow(b, source.value, user)
  {
    var j := FindHits(b.ledger, source.value);
  }

  lemma ResolveAfterAppend(b: Books, e: Entry, user: Id, source: Option<Key>)
    requires e.kind != Spend && !HasKey(b.ledger, e.key)
    ensures ResolveSpend(b.ledger + [e], user, source) == ResolveSpend(b.ledger, user, source)
  {
  }

  lemma {:induction false} RestoreIgnoresLedger(b: Books, ledger: seq<Entry>, spend: Key, n: nat)
    requires n <= |b.allocations|
    ensures RestoreUpTo(b.(ledger := ledger), spend, n) == RestoreUpTo(b, spend, n).(ledger := ledger)
  {
    if n > 0 { RestoreIgnoresLedger(b, ledger, spend, n - 1); }
  }

  /** Restoring an allowed spend leaves it fully given back and free of cash refunds. */
  lemma AllowedExcludesCash(b: Books, spend: Key)
    requires CompensationAllowed(b, spend)
    ensures ExcludesCash(Restore(b, spend), spend)
  {
    var after := Restore(b, spend);
    RestoredAllocations(b, spend, |b.allocations|);
    forall i | 0 <= i < |b.allocations| && after.allocations[i].spend == spend ensures after.allocations[i].restored {
      assert OfSpendAt(b, spend, i);
    }
    forall r | 0 <= r < |b.requests|
      ensures !(b.requests[r].spend == Some(spend) && b.requests[r].scope == Operation && Counted(b.requests[r].status))
    {
      assert !BlocksCompensation(b.requests[r], spend);
    }
  }

  function GivenBack(b: Books, user: Id, source: Option<Key>): int {
    match ResolveSpend(b.ledger, user, source)
    case None => 0
    case Some(spend) => Backlog(b, spend)
  }

  lemma RestoreForSourceRemaining(b: Books, user: Id, source: Option<Key>, u: Id)
    requires Sound(b)
    ensures Sound(RestoreForSource(b, user, source)) && RestoreForSource(b, user, source).ledger == b.ledger
    ensures Remaining(RestoreForSource(b, user, source), u)
         == Remaining(b, u) + if u == user then GivenBack(b, user, source) else 0
  {
    if ResolveSpend(b.ledger, user, source).Some? {
      var spend := source.value;
      ResolvedIsSpendRow(b, user, source);
      RestoreUpToIsSound(b, spend, |b.allocations|);
      RestoredAllocations(b, spend, |b.allocations|);
      RestoreGivesBack(b, spend, u);
      KeyOfSpendRow(b, spend, user);
      if SpendRow(b, spend, u) { KeyOfSpendRow(b, spend, u); }
    }
  }

  /** The refund's amount and the unlotted credit cover the units put back into lots. */
  ghost predicate Covers(b: Books, input: Input) {
    Balance(b, input.user) + input.amount >= Remaining(b, input.user) + GivenBack(b, input.user, input.source)
  }

  ghost predicate Blocked(b: Books, input: Input) {
    var spend := ResolveSpend(b.ledger, input.user, input.source);
    spend.Some? && !CompensationAllowed(b, spend.value)
  }

  /** The books after a refund that is not blocked: allocations given back, and one new row. */
  function Refunded(b: Books, input: Input): Books {
    var row := Row(input, input.amount, ResolveSpend(b.ledger, input.user, input.source));
    RestoreForSource(b, input.user, input.source).(ledger := b.ledger + [row])
  }

  lemma RefundWrites(b: Books, input: Input)
    requires input.kind == Refund && !HasKey(b.ledger, input.key)
    ensures WriteFresh(b, input) == if Blocked(b, input) then (b, SpendAlreadyCashRefunded) else (Refunded(b, input), Written)
  {
    var spend := ResolveSpend(b.ledger, input.user, input.source);
    var row := Row(input, input.amount, spend);
    ResolveAfterAppend(b, row, input.user, input.source);
    if spend.Some? {
      RestoreIgnoresLedger(b, b.ledger + [row], spend.value, |b.allocations|);
    }
  }

  /** An unblocked refund restores only a spend without stamps. */
  lemma RefundedStampsAlone(b: Books, input: Input)
    requires StampsAlone(b) && !Blocked(b, input)
    ensures StampsAlone(Refunded(b, input))
  {
    var spend := ResolveSpend(b.ledger, input.user, input.source);
    if spend.Some? {
      RestoredAllocations(b, spend.value, |b.allocations|);
      forall i | 0 <= i < |b.allocations| && b.allocations[i].spend == spend.value ensures b.allocations[i].cash.None? {
        assert OfSpendAt(b, spend.value, i);
      }
    }
  }

  lemma RefundedIsSound(b: Books, input: Input)
    requires Sound(b) && input.kind == Refund && input.key.Client? && !HasKey(b.ledger, input.key) && !Blocked(b, input)
    ensures Sound(Refunded(b, input))
  {
    var spend := ResolveSpend(b.ledger, input.user, input.source);
    var row := Row(input, input.amount, spend);
    RestoreForSourceRemaining(b, input.user, input.source, input.user);
    var given := RestoreForSource(b, input.user, input.source);
    hide Sound;
    if spend.Some? {
      ResolvedIsSpendRow(b, input.user, input.source);
      AllowedExcludesCash(b, spend.value);
      SpendRowSame(b, given, spend.value, input.user);
      SpendRowOnceAppended(given, row, spend.value, input.user);
    }
    AppendRow(given, row);
  }

  /**
   * A refund under a fresh key is blocked exactly when its spend is, or may be, paid out in
   * money. Otherwise it keeps the backing exactly when its amount and the unlotted credit cover
   * the units it puts back into lots.
   */
  lemma RefundKeepsInv(b: Books, input: Input)
    requires Inv(b) && input.kind == Refund && input.key.Client? && !HasKey(b.ledger, input.key)
    ensures WriteFresh(b, input).1 == SpendAlreadyCashRefunded <==> Blocked(b, input)
    ensures Blocked(b, input) ==> WriteFresh(b, input).0 == b
    ensures !Blocked(b, input) ==>
      var after := WriteFresh(b, input).0;
      && Sound(after) && StampsAlone(after)
      && Balance(after, input.user) == Balance(b, input.user) + input.amount
      && Remaining(after, input.user) == Remaining(b, input.user) + GivenBack(b, input.user, input.source)
      && (Backed(after) <==> Covers(b, input))
  {
    hide Sound;
    RefundWrites(b, input);
    if !Blocked(b, input) {
      RefundedIsSound(b, input);
      RefundedStampsAlone(b, input);
      var after := Refunded(b, input);
      forall u ensures Balance(after, u) == Balance(b, u) + if u == input.user then input.amount else 0 {
        Append(b.ledger, Row(input, input.amount, ResolveSpend(b.ledger, input.user, input.source)), EntryAmount(u));
      }
      forall u ensures Remaining(after, u) == Remaining(b, u) + if u == input.user then GivenBack(b, input.user, input.source) else 0 {
        RestoreForSourceRemaining(b, input.user, input.source, u);
      }
      forall u | u != input.user ensures Balance(after, u) >= Remaining(after, u) {
        assert Balance(b, u) >= Remaining(b, u);
      }
    }
  }

  /** A spend's backlog never exceeds what the spend took. */
  lemma BacklogWithinSpend(b: Books, user: Id, spend: Key)
    requires Sound(b) && SpendRow(b, spend, user)
    ensures FindEntry(b.ledger, spend).Some? && 0 <= Backlog(b, spend) <= -FindEntry(b.ledger, spend).value.amount
  {
    KeyOfSpendRow(b, spend, user);
    var j := FindHits(b.ledger, spend);
    forall i | 0 <= i < |b.allocations|
      ensures 0 <= Live(b.lots, spend)(b.allocations[i]) <= OfSpend(spend)(b.allocations[i])
    {
      assert AllocationOk(b, b.allocations[i]);
    }
    NonNegative(b.allocations, Live(b.lots, spend));
    AtMost(b.allocations, Live(b.lots, spend), b.allocations, OfSpend(spend));
  }

  /** Refunding at least what the spend took, or nothing tied to a spend, keeps the whole invariant. */
  lemma FullRefundKeepsInv(b: Books, input: Input)
    requires Inv(b) && input.kind == Refund && input.key.Client? && !HasKey(b.ledger, input.key) && input.amount >= 0
    requires ResolveSpend(b.ledger, input.user, input.source).Some?
      ==> input.amount >= -FindEntry(b.ledger, input.source.value).value.amount
    ensures Inv(WriteFresh(b, input).0)
  {
    RefundKeepsInv(b, input);
    if ResolveSpend(b.ledger, input.user, input.source).Some? {
      ResolvedIsSpendRow(b, input.user, input.source);
      BacklogWithinSpend(b, input.user, input.source.value);
    }
    assert Balance(b, input.user) >= Remaining(b, input.user);
  }

  // ----- replays -----

  /** The refund key was used for this very spend, if it was used at all. */
  ghost predicate Paired(b: Books, user: Id, source: Option<Key>, key: Key) {
    HasKey(b.ledger, key) && ResolveSpend(b.ledger, user, source).Some? ==> FindEntry(b.ledger, key).value.source == source
  }

  /** Repeating a refund for the same spend gives nothing back a second time. */
  lemma RefundReplay(b: Books, user: Id, source: Option<Key>, key: Key)
    requires Inv(b) && HasKey(b.ledger, key) && Paired(b, user, source, key)
    ensures RestoreForSource(b, user, source) == b
  {
    if ResolveSpend(b.ledger, user, source).Some? {
      ResolvedIsSpendRow(b, user, source);
      var j := FindHits(b.ledger, key);
      assert b.ledger[j].source == source && ExcludesCash(b, source.value);
      RestoreOfRestored(b, source.value, |b.allocations|);
    }
  }

  /**
   * A replay that names another spend restores that spend's lots without a ledger row: the
   * backing survives exactly when that much credit is unlotted.
   */
  lemma MispairedReplay(b: Books, user: Id, source: Option<Key>)
    requires Inv(b)
    ensures Backed(RestoreForSource(b, user, source))
      <==> Balance(b, user) - Remaining(b, user) >= GivenBack(b, user, source)
  {
    var after := RestoreForSource(b, user, source);
    forall u ensures Balance(after, u) == Balance(b, u)
      && Remaining(after, u) == Remaining(b, u) + if u == user then GivenBack(b, user, source) else 0
    {
      RestoreForSourceRemaining(b, user, source, u);
    }
    forall u | u != user ensures Balance(after, u) >= Remaining(after, u) {
      assert Balance(b, u) >= Remaining(b, u);
    }
  }

  // ----- refunding the original spend -----

  ghost predicate IsSpendOf(b: Books, user: Id, key: Key, units: int) {
    FindEntry(b.ledger, key).Some?
    && var row := FindEntry(b.ledger, key).value; row.kind == Spend && row.user == user && row.amount == -units
  }

  lemma RefundSpendKeepsInv(b: Books, user: Id, spendKey: Key, refundKey: Key)
    requires Inv(b) && refundKey.Client? && Paired(b, user, Some(spendKey), refundKey)
    ensures Inv(RefundSpend(b, user, spendKey, refundKey).0)
    ensures HasKey(b.ledger, refundKey) ==> RefundSpend(b, user, spendKey, refundKey).0 == b
  {
    if HasKey(b.ledger, refundKey) {
      RefundReplay(b, user, Some(spendKey), refundKey);
    } else {
      var units := OriginalUnits(FindEntry(b.ledger, spendKey));
      if units.Some? {
        FullRefundKeepsInv(b, RefundInput(user, units.value, spendKey, refundKey));
      }
    }
  }

  /**
   * The first refund of a spend writes one row of exactly the spent amount, unless the spend is
   * blocked; then it writes nothing. Any later call with the same pair changes nothing.
   */
  lemma RefundOriginalSpendOnce(b: Books, user: Id, spendKey: Key, refundKey: Key, units: int)
    requires Inv(b) && IsSpendOf(b, user, spendKey, units) && refundKey.Client? && !HasKey(b.ledger, refundKey)
    ensures var (after, result) := RefundSpend(b, user, spendKey, refundKey);
      if CompensationAllowed(b, spendKey) then
        && result == CreditRefunded(units) && units > 0
        && after.ledger == b.ledger + [Entry(refundKey, user, Refund, units, None, 0, Some(spendKey))]
        && Balance(after, user) == Balance(b, user) + units
        && ExcludesCash(after, spendKey)
        && RefundSpend(after, user, spendKey, refundKey) == (after, CreditRefunded(units))
      else after == b && result == BlockedByCashRefund
  {
    FirstRefund(b, user, spendKey, refundKey, units);
    if CompensationAllowed(b, spendKey) {
      var input := RefundInput(user, units, spendKey, refundKey);
      RefundWrites(b, input);
      RefundKeepsInv(b, input);
      FullRefundKeepsInv(b, input);
      RefundedOnce(b, user, spendKey, refundKey, units);
    }
    hide Inv;
    hide WriteFresh;
    hide Refunded;
    hide RefundSpend;
    hide CompensationAllowed;
    hide ExcludesCash;
  }

  /** A first refund writes the refunded books, or nothing when the spend is blocked. */
  lemma FirstRefund(b: Books, user: Id, spendKey: Key, refundKey: Key, units: int)
    requires LedgerOk(b) && IsSpendOf(b, user, spendKey, units) && !HasKey(b.ledger, refundKey)
    ensures units > 0
    ensures RefundSpend(b, user, spendKey, refundKey) ==
      if CompensationAllowed(b, spendKey) then (Refunded(b, RefundInput(user, units, spendKey, refundKey)), CreditRefunded(units))
      else (b, BlockedByCashRefund)
  {
    var j := FindHits(b.ledger, spendKey);
    assert RowOk(b, b.ledger[j]);
    RefundWrites(b, RefundInput(user, units, spendKey, refundKey));
    hide WriteFresh;
    hide Refunded;
    hide CompensationAllowed;
  }

  lemma RefundedOnce(b: Books, user: Id, spendKey: Key, refundKey: Key, units: int)
    requires Inv(b) && IsSpendOf(b, user, spendKey, units) && refundKey.Client? && !HasKey(b.ledger, refundKey)
    requires CompensationAllowed(b, spendKey) && units > 0
    requires Inv(Refunded(b, RefundInput(user, units, spendKey, refundKey)))
    ensures var after := Refunded(b, RefundInput(user, units, spendKey, refundKey));
      && after.ledger == b.ledger + [Entry(refundKey, user, Refund, units, None, 0, Some(spendKey))]
      && ExcludesCash(after, spendKey)
      && RefundSpend(after, user, spendKey, refundKey) == (after, CreditRefunded(units))
  {
    hide Sound;
    var row := Entry(refundKey, user, Refund, units, None, 0, Some(spendKey));
    var after := Refunded(b, RefundInput(user, units, spendKey, refundKey));
    RestoredAllocations(b, spendKey, |b.allocations|);
    AllowedExcludesCash(b, spendKey);
    FindAfterAppend(b.ledger, row, refundKey);
    FindAfterAppend(b.ledger, row, spendKey);
    RefundReplay(after, user, Some(spendKey), refundKey);
  }
}

/** Arbitrary histories of transactions, and what holds after every one of them. */
module CreditRuns {
  import opened Wrappers
  import opened Sums
  import opened CreditBooks
  import opened CreditRules
  import opened CreditInvariant
  import opened CreditSteps
  import opened CreditTransactions
  import opened CreditRefunds
  import opened CreditFinalize

  /** One atomic transaction; job steps of the refund workers are commands of their own. */
  datatype Command =
    | WriteInTransaction(input: Input)
    | Write(input: Input)
    | RefundOriginal(user: Id, spendKey: Key, refundKey: Key)
    | OpenRequest(user: Id, payment: Id, scope: Scope, spend: Option<Key>)
    | RejectRequest(request: nat)
    | ApproveRequest(request: nat, mode: ApprovalMode)
    | ApproveWithoutSnapshot(request: nat, amount: nat)
    | ReserveLot(user: Id, purchase: Id, request: nat)
    | StartJob(request: nat)
    | LeaveMarker(request: nat, reference: bool, marked: bool)
    | Review(request: nat, marked: bool)
    | FailRequest(request: nat)
    | Settle(request: nat)

  function NewRequest(user: Id, payment: Id, scope: Scope, spend: Option<Key>): Request {
    Request(user, payment, Requested, scope, None, spend, None, false, false)
  }

  function Reject(b: Books, r: nat): Books {
    if r < |b.requests| && b.requests[r].status == Requested then SetRequest(b, r, b.requests[r].(status := Rejected)) else b
  }

  function Apply(b: Books, c: Command): Books {
    match c
    case WriteInTransaction(input) => WriteEntry(b, input).0
    case Write(input) => WriteOnce(b, input).0
    case RefundOriginal(user, spendKey, refundKey) => RefundSpend(b, user, spendKey, refundKey).0
    case OpenRequest(user, payment, scope, spend) => b.(requests := b.requests + [NewRequest(user, payment, scope, spend)])
    case RejectRequest(r) => Reject(b, r)
    case ApproveRequest(r, mode) => Approve(b, r, mode)
    case ApproveWithoutSnapshot(r, amount) => ApproveLegacy(b, r, amount)
    case ReserveLot(user, purchase, r) => (match Reserve(b, user, purchase, r) case None => b case Some(after) => after)
    case StartJob(r) => StartProcessing(b, r)
    case LeaveMarker(r, reference, marked) => NoteAttempt(b, r, reference, marked)
    case Review(r, marked) => SendToReview(b, r, marked)
    case FailRequest(r) => MarkFailed(b, r)
    case Settle(r) => MarkRefunded(b, r)
  }

  function Run(b: Books, commands: seq<Command>): Books
    decreases |commands|
  {
    if |commands| == 0 then b else Run(Apply(b, commands[0]), commands[1..])
  }

  // ----- what callers must respect -----

  /** Grants are not negative; a refund tied to a spend returns at least what the spend took. */
  ghost predicate AmountOk(b: Books, input: Input) {
    && (input.kind != Spend ==> input.amount >= 0)
    && (input.kind == Refund && ResolveSpend(b.ledger, input.user, input.source).Some? ==>
        input.amount >= -FindEntry(b.ledger, input.source.value).value.amount)
  }

  /** A refund key is reused only for the spend it was first used for. */
  ghost predicate KeyOk(b: Books, c: Command) {
    match c
    case WriteInTransaction(input) => input.kind == Refund ==> Paired(b, input.user, input.source, input.key)
    case Write(input) => input.kind == Refund ==> Paired(b, input.user, input.source, input.key)
    case RefundOriginal(user, spendKey, refundKey) => refundKey.Client? && Paired(b, user, Some(spendKey), refundKey)
    case _ => true
  }

  /** A grant repeated inside a transaction opens a lot for an old row that has none. */
  ghost predicate OpensLateLot(b: Books, c: Command) {
    c.WriteInTransaction? && c.input.kind == Purchase && HasKey(b.ledger, c.input.key)
    && OpensLot(b, FindEntry(b.ledger, c.input.key).value)
  }

  ghost predicate Disciplined(b: Books, c: Command) {
    KeyOk(b, c) &&
    match c
    case WriteInTransaction(input) =>
      && input.key.Client? && (!HasKey(b.ledger, input.key) ==> AmountOk(b, input))
      && (OpensLateLot(b, c) ==> LateLotCovered(b, FindEntry(b.ledger, input.key).value))
    case Write(input) => input.key.Client? && (!HasKey(b.ledger, input.key) ==> AmountOk(b, input))
    case Settle(r) => Started(b, r)
    case _ => true
  }

  ghost predicate DisciplinedRun(b: Books, commands: seq<Command>)
    decreases |commands|
  {
    |commands| > 0 ==> Disciplined(b, commands[0]) && DisciplinedRun(Apply(b, commands[0]), commands[1..])
  }

  /**
   * The books when lots were introduced: any ledger of grants, spends and refunds with no negative
   * balance, refund requests without unit snapshots, and no lots.
   */
  ghost predicate Opening(b: Books) {
    && |b.lots| == 0 && |b.allocations| == 0 && DistinctKeys(b.ledger)
    && (forall j :: 0 <= j < |b.ledger| ==> b.ledger[j].kind != Clawback && RowOk(b, b.ledger[j]))
    && (forall r :: 0 <= r < |b.requests| ==> b.requests[r].units.None? && b.requests[r].scope == PurchaseRemainder)
    && (forall u: Id :: Balance(b, u) >= 0)
  }

  // ----- every step keeps the invariant -----

  lemma OpeningIsInv(b: Books)
    requires Opening(b)
    ensures Inv(b)
  {
  }

  lemma FreshWriteKeepsInv(b: Books, input: Input)
    requires Inv(b) && input.key.Client? && !HasKey(b.ledger, input.key) && AmountOk(b, input)
    ensures Inv(WriteFresh(b, input).0)
  {
    match input.kind
    case Purchase => GrantKeepsInv(b, input);
    case Refund => FullRefundKeepsInv(b, input);
    case _ => SpendSucceedsExactly(b, input);
  }

  /**
   * A write whose key is in the ledger adds no row; in its own transaction it changes nothing, and
   * inside a caller's it changes nothing exactly when it opens no late lot.
   */
  lemma WriteReplay(b: Books, input: Input)
    requires Inv(b) && HasKey(b.ledger, input.key) && KeyOk(b, Write(input))
    ensures WriteOnce(b, input) == (b, Duplicate) && WriteEntry(b, input).1 == Duplicate
    ensures WriteEntry(b, input).0 == b <==> !OpensLateLot(b, WriteInTransaction(input))
  {
    GrantReplay(b, FindEntry(b.ledger, input.key).value);
    if input.kind == Refund { RefundReplay(b, input.user, input.source, input.key); }
  }

  /** A late lot keeps the invariant exactly when credit that no lot stands for covers it. */
  lemma LateLotKeepsInv(b: Books, input: Input)
    requires Inv(b) && OpensLateLot(b, WriteInTransaction(input))
    ensures Inv(WriteEntry(b, input).0) <==> LateLotCovered(b, FindEntry(b.ledger, input.key).value)
  {
    var row := FindEntry(b.ledger, input.key).value;
    EnsureLotIsSound(b, row);
    LateLotKeepsBacking(b, row);
    hide Sound;
  }

  lemma RejectKeepsInv(b: Books, r: nat)
    requires Inv(b)
    ensures Inv(Reject(b, r))
  {
    if Reject(b, r) != b {
      assert RequestOk(b, r);
      SameMoneyKeepsInv(b, r, b.requests[r].(status := Rejected));
    }
  }

  lemma StepKeepsInv(b: Books, c: Command)
    requires Inv(b) && Disciplined(b, c)
    ensures Inv(Apply(b, c))
  {
    hide Inv;
    match c
    case WriteInTransaction(input) =>
      if OpensLateLot(b, c) { LateLotKeepsInv(b, input); }
      else if HasKey(b.ledger, input.key) { WriteReplay(b, input); }
      else { FreshWriteKeepsInv(b, input); }
    case Write(input) => if HasKey(b.ledger, input.key) { WriteReplay(b, input); } else { FreshWriteKeepsInv(b, input); }
    case RefundOriginal(user, spendKey, refundKey) => RefundSpendKeepsInv(b, user, spendKey, refundKey);
    case OpenRequest(user, payment, scope, spend) => OpenRequestKeepsInv(b, NewRequest(user, payment, scope, spend));
    case RejectRequest(r) => RejectKeepsInv(b, r);
    case ApproveRequest(r, mode) => ApproveKeepsInv(b, r, mode);
    case ApproveWithoutSnapshot(r, amount) => ApproveLegacyKeepsInv(b, r, amount);
    case ReserveLot(user, purchase, r) => ReserveKeepsInv(b, user, purchase, r);
    case StartJob(r) => ProcessingKeepsInv(b, r, false, false);
    case LeaveMarker(r, reference, marked) => ProcessingKeepsInv(b, r, reference, marked);
    case Review(r, marked) => ReviewKeepsInv(b, r, marked);
    case FailRequest(r) => FailKeepsInv(b, r);
    case Settle(r) => MarkRefundedKeepsInv(b, r);
  }

  lemma {:induction false} RunKeepsInv(b: Books, commands: seq<Command>)
    requires Inv(b) && DisciplinedRun(b, commands)
    ensures Inv(Run(b, commands))
    decreases |commands|
  {
    hide Inv;
    if |commands| > 0 {
      StepKeepsInv(b, commands[0]);
      RunKeepsInv(Apply(b, commands[0]), commands[1..]);
    }
  }

  // ----- main results over whole histories -----

  /** Balances are never negative and always back the lots; clawed lots hold nothing. */
  lemma BalancesBackLots(start: Books, commands: seq<Command>, user: Id)
    requires Opening(start) && DisciplinedRun(start, commands)
    ensures var b := Run(start, commands);
      && Balance(b, user) >= Remaining(b, user) >= 0
      && forall k :: 0 <= k < |b.lots| ==> b.lots[k].remaining >= 0 && (b.lots[k].status == Clawed ==> b.lots[k].remaining == 0)
  {
    OpeningIsInv(start);
    RunKeepsInv(start, commands);
    var b := Run(start, commands);
    forall k | 0 <= k < |b.lots| ensures RemainingOf(user)(b.lots[k]) >= 0 && LotShape(b.lots[k]) {}
    NonNegative(b.lots, RemainingOf(user));
  }

  predicate CashRefundOf(r: Request, spend: Key) { r.scope == Operation && r.spend == Some(spend) }

  /**
   * Nothing is paid back twice: a spend refunded in credits has no operation cash refund that is
   * approved, processing or refunded and no stamped allocation; and no spend has both a stamped
   * and a restored allocation.
   */
  lemma CompensationIsExclusive(start: Books, commands: seq<Command>, spend: Key)
    requires Opening(start) && DisciplinedRun(start, commands)
    ensures var b := Run(start, commands);
      && ((exists j :: 0 <= j < |b.ledger| && b.ledger[j].source == Some(spend)) ==>
          && (forall r :: 0 <= r < |b.requests| && CashRefundOf(b.requests[r], spend) ==> !Counted(b.requests[r].status))
          && !AnyStamped(b, spend))
      && !(AnyStamped(b, spend) && AnyRestored(b, spend))
  {
    OpeningIsInv(start);
    RunKeepsInv(start, commands);
    var b := Run(start, commands);
    if exists j :: 0 <= j < |b.ledger| && b.ledger[j].source == Some(spend) {
      var j :| 0 <= j < |b.ledger| && b.ledger[j].source == Some(spend);
      assert ExcludesCash(b, spend);
      forall i | 0 <= i < |b.allocations| && OfSpendAt(b, spend, i) ensures b.allocations[i].cash.None? {
        assert AllocationOk(b, b.allocations[i]);
      }
    }
    if AnyStamped(b, spend) {
      var i :| 0 <= i < |b.allocations| && OfSpendAt(b, spend, i) && b.allocations[i].cash.Some?;
    }
  }

  /** Every unit of a lot is left, spent and not given back, clawed back, or forfeited. */
  lemma LotsConserveUnits(start: Books, commands: seq<Command>, k: nat)
    requires Opening(start) && DisciplinedRun(start, commands) && k < |Run(start, commands).lots|
    ensures var b := Run(start, commands); var lot := b.lots[k];
      && lot.grant == lot.remaining + Sum(b.allocations, Outstanding(k)) + lot.debited + lot.forfeited
      && Sum(b.allocations, Outstanding(k)) >= 0 && lot.debited >= 0 && lot.forfeited >= 0
  {
    OpeningIsInv(start);
    RunKeepsInv(start, commands);
    var b := Run(start, commands);
    assert LotShape(b.lots[k]) && Conserved(b, k);
    forall i | 0 <= i < |b.allocations| ensures Outstanding(k)(b.allocations[i]) >= 0 { assert AllocationOk(b, b.allocations[i]); }
    NonNegative(b.allocations, Outstanding(k));
  }

  /**
   * A refunded request with a unit snapshot has its local effect in the books exactly once: one
   * clawback row of its units, or exactly its spend's paid allocations stamped with its id. Running
   * the effects again changes nothing.
   */
  lemma RefundedRequestsAreSettledOnce(start: Books, commands: seq<Command>, r: nat)
    requires Opening(start) && DisciplinedRun(start, commands)
    requires var b := Run(start, commands);
      r < |b.requests| && b.requests[r].status == Refunded && b.requests[r].units.Some?
      && b.requests[r].payment in b.purchases && b.purchases[b.requests[r].payment].owner.Some?
    ensures var b := Run(start, commands); var row := b.requests[r];
      && (row.scope == PurchaseRemainder ==>
          && FindEntry(b.ledger, ClawbackOf(r)).Some?
          && FindEntry(b.ledger, ClawbackOf(r)).value.amount == -row.units.value
          && (forall i, j :: 0 <= i < j < |b.ledger| ==> !(b.ledger[i].key == ClawbackOf(r) && b.ledger[j].key == ClawbackOf(r))))
      && (row.scope == Operation ==>
          && row.spend.Some? && PaidUnits(b, row.spend.value) == row.units.value
          && (forall i :: 0 <= i < |b.allocations| ==> (b.allocations[i].cash == Some(r) <==> Paid(b, row.spend.value, i))))
      && FinalizeEffects(b, row.user, row.payment, r).0 == b
      && FinalizeEffects(b, row.user, row.payment, r).1.Applied?
  {
    OpeningIsInv(start);
    RunKeepsInv(start, commands);
    var b := Run(start, commands);
    SettledOnce(b, r);
  }

  lemma SettledOnce(b: Books, r: nat)
    requires Inv(b) && r < |b.requests| && b.requests[r].status == Refunded && b.requests[r].units.Some?
    requires b.requests[r].payment in b.purchases && b.purchases[b.requests[r].payment].owner.Some?
    ensures var row := b.requests[r];
      && (row.scope == PurchaseRemainder ==>
          && FindEntry(b.ledger, ClawbackOf(r)).Some?
          && FindEntry(b.ledger, ClawbackOf(r)).value.amount == -row.units.value
          && (forall i, j :: 0 <= i < j < |b.ledger| ==> !(b.ledger[i].key == ClawbackOf(r) && b.ledger[j].key == ClawbackOf(r))))
      && (row.scope == Operation ==>
          && row.spend.Some? && PaidUnits(b, row.spend.value) == row.units.value
          && (forall i :: 0 <= i < |b.allocations| ==> (b.allocations[i].cash == Some(r) <==> Paid(b, row.spend.value, i))))
      && FinalizeEffects(b, row.user, row.payment, r).0 == b
      && FinalizeEffects(b, row.user, row.payment, r).1.Applied?
  {
    var row := b.requests[r];
    assert RequestOk(b, r);
    RefundedEffectsAreFinal(b, r);
    if row.scope == Operation {
      forall i | 0 <= i < |b.allocations| && b.allocations[i].cash == Some(r) ensures Paid(b, row.spend.value, i) {
        assert AllocationOk(b, b.allocations[i]);
      }
    } else {
      var j :| 0 <= j < |b.ledger| && b.ledger[j].key == ClawbackOf(r) && b.ledger[j].amount == -row.units.value;
      FindRow(b.ledger, j);
    }
  }

  // ----- replays anywhere in a history -----

  function LedgerKey(c: Command): Option<Key> {
    match c
    case WriteInTransaction(input) => Some(input.key)
    case Write(input) => Some(input.key)
    case RefundOriginal(_, _, refundKey) => Some(refundKey)
    case _ => None
  }

  /** A repeated ledger call changes nothing, except that a grant repeated in a transaction may open a late lot. */
  lemma CommandReplay(b: Books, c: Command)
    requires Inv(b) && KeyOk(b, c) && LedgerKey(c).Some? && HasKey(b.ledger, LedgerKey(c).value)
    ensures Apply(b, c) == b <==> !OpensLateLot(b, c)
  {
    hide Inv;
    match c
    case WriteInTransaction(input) => WriteReplay(b, input);
    case Write(input) => WriteReplay(b, input);
    case RefundOriginal(user, spendKey, refundKey) => RefundSpendKeepsInv(b, user, spendKey, refundKey);
  }

  lemma {:induction false} RunConcat(b: Books, first: seq<Command>, second: seq<Command>)
    ensures Run(b, first + second) == Run(Run(b, first), second)
    ensures DisciplinedRun(b, first + second) <==> DisciplinedRun(b, first) && DisciplinedRun(Run(b, first), second)
    decreases |first|
  {
    if |first| == 0 {
      assert first + second == second;
    } else {
      assert (first + second)[1..] == first[1..] + second;
      RunConcat(Apply(b, first[0]), first[1..], second);
    }
  }

  /**
   * Repeating a ledger call later in the history changes nothing, then or in the rest of the
   * history, exactly when it does not open a late lot.
   */
  lemma ReplayAnywhere(b: Books, between: seq<Command>, c: Command, rest: seq<Command>)
    requires Inv(b) && DisciplinedRun(b, between) && KeyOk(Run(b, between), c)
    requires LedgerKey(c).Some? && HasKey(Run(b, between).ledger, LedgerKey(c).value)
    ensures Run(b, between + [c]) == Run(b, between) <==> !OpensLateLot(Run(b, between), c)
    ensures !OpensLateLot(Run(b, between), c) ==> Run(b, between + [c] + rest) == Run(b, between + rest)
  {
    hide Inv;
    RunConcat(b, between, [c]);
    RunKeepsInv(b, between);
    CommandReplay(Run(b, between), c);
    RunConcat(b, between + [c], rest);
    RunConcat(b, between, rest);
    assert Run(Run(b, between), [c]) == Apply(Run(b, between), c) by {
      assert [c][1..] == [];
    }
  }
}

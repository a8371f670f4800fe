/** The money of a purchase's cash refunds, against the exact share of its price. */
module CreditMoney {
  import opened Wrappers
  import opened Sums
  import opened CreditBooks
  import opened CreditRules
  import opened CreditInvariant
  import opened CreditSteps
  import opened CreditTransactions
  import opened CreditRefunds
  import opened CreditFinalize
  import opened CreditRuns
  import opened CreditTotals
  import opened LotPlan
  import Money = CashRefundMath

  /** The request's amount is its units' increment of the price, over some units counted before. */
  ghost predicate PricedBy(row: Request, price: nat, grant: int, already: int) {
    && row.units.Some? && row.units.value > 0 && row.amount.Some?
    && 0 <= already && already + row.units.value <= grant
    && row.amount.value == Money.Increment(price, grant, already, row.units.value)
  }

  ghost predicate Priced(b: Books, row: Request) {
    && row.payment in b.purchases
    && exists k: nat, already :: k < |b.lots| && b.lots[k].purchase == Some(row.payment) && PricedBy(row, b.purchases[row.payment].price, b.lots[k].grant, already)
  }

  ghost predicate AllPriced(b: Books) {
    forall r :: 0 <= r < |b.requests| && b.requests[r].units.Some? ==> Priced(b, b.requests[r])
  }

  // ----- every history keeps requests priced -----

  ghost predicate SameSnapshot(was: Request, now: Request) {
    now.units.None? || (now.units == was.units && now.amount == was.amount && now.payment == was.payment)
  }

  /** No request gains or changes a snapshot; lots keep their grants and purchases their prices. */
  ghost predicate Carried(b: Books, after: Books) {
    && after.purchases == b.purchases
    && |b.lots| <= |after.lots| && (forall k :: 0 <= k < |b.lots| ==> SameGrant(b.lots[k], after.lots[k]))
    && |b.requests| <= |after.requests|
    && (forall r :: 0 <= r < |b.requests| ==> SameSnapshot(b.requests[r], after.requests[r]))
    && (forall r :: |b.requests| <= r < |after.requests| ==> after.requests[r].units.None?)
  }

  lemma CarriedKeepsPriced(b: Books, after: Books)
    requires AllPriced(b) && Carried(b, after)
    ensures AllPriced(after)
  {
    forall r | 0 <= r < |after.requests| && after.requests[r].units.Some? ensures Priced(after, after.requests[r]) {
      var row := b.requests[r];
      assert Priced(b, row);
      var k: nat, already :| k < |b.lots| && b.lots[k].purchase == Some(row.payment) && PricedBy(row, b.purchases[row.payment].price, b.lots[k].grant, already);
      assert PricedBy(after.requests[r], after.purchases[row.payment].price, after.lots[k].grant, already);
    }
  }

  lemma {:induction false} ConsumeKeepsRequests(b: Books, spend: Key, draws: seq<Draw>)
    ensures var after := ConsumeDraws(b, spend, draws);
      after.Some? ==> after.value.requests == b.requests && after.value.purchases == b.purchases
    decreases |draws|
  {
    if |draws| > 0 && CanDraw(b, draws[0]) { ConsumeKeepsRequests(DrawOne(b, spend, draws[0]), spend, draws[1..]); }
  }

  lemma {:induction false} RestoreLeavesRequests(b: Books, spend: Key, n: nat)
    requires n <= |b.allocations|
    ensures RestoreUpTo(b, spend, n).requests == b.requests && RestoreUpTo(b, spend, n).purchases == b.purchases
  {
    if n > 0 { RestoreLeavesRequests(b, spend, n - 1); }
  }

  lemma FreshKeepsRequests(b: Books, input: Input)
    ensures WriteFresh(b, input).0.requests == b.requests && WriteFresh(b, input).0.purchases == b.purchases
  {
    hide ConsumeDraws;
    hide LoadLots;
    hide PlanFifo;
    if input.kind == Refund {
      RestoreForSourceLeavesRequests(b.(ledger := b.ledger + [Row(input, input.amount, ResolveSpend(b.ledger, input.user, input.source))]), input.user, input.source);
    } else if input.kind == Spend {
      var lots := LoadLots(b.lots, input.user);
      var plan := PlanFifo(lots, UnlottedUnits(Balance(b, input.user), Sum(lots, RowRemaining())), input.amount);
      if plan.Some? { ConsumeKeepsRequests(b.(ledger := b.ledger + [Row(input, -input.amount, None)]), input.key, plan.value.draws); }
    }
  }

  lemma RestoreForSourceLeavesRequests(b: Books, user: Id, source: Option<Key>)
    ensures RestoreForSource(b, user, source).requests == b.requests && RestoreForSource(b, user, source).purchases == b.purchases
  {
    if ResolveSpend(b.ledger, user, source).Some? { RestoreLeavesRequests(b, source.value, |b.allocations|); }
  }

  lemma WriteIsCarried(b: Books, input: Input)
    ensures Carried(b, WriteEntry(b, input).0) && Carried(b, WriteOnce(b, input).0)
  {
    WriteIsQuiet(b, input);
    FreshKeepsRequests(b, input);
    RestoreForSourceLeavesRequests(b, input.user, input.source);
    hide WriteFresh;
  }

  lemma WrittenIsCarried(b: Books, c: Command)
    requires LedgerKey(c).Some?
    ensures Carried(b, Apply(b, c))
  {
    match c
    case WriteInTransaction(input) => WriteIsCarried(b, input);
    case Write(input) => WriteIsCarried(b, input);
    case RefundOriginal(user, spendKey, refundKey) => forall units: int { WriteIsCarried(b, RefundInput(user, units, spendKey, refundKey)); }
  }

  lemma SettleIsCarried(b: Books, r: nat)
    ensures Carried(b, MarkRefunded(b, r))
  {
    hide FinalizeEffects;
    forall user, purchase { EffectsKeepGrants(b, user, purchase, r); }
  }

  lemma RequestedHasNoSnapshot(b: Books, r: nat)
    requires RequestsOk(b) && r < |b.requests| && b.requests[r].status == Requested
    ensures b.requests[r].units.None?
  {
    assert RequestOk(b, r);
  }

  predicate Approves(b: Books, c: Command) {
    c.ApproveRequest? && c.request < |b.requests| && b.requests[c.request].status == Requested
    && Approve(b, c.request, c.mode).requests[c.request].status == Approved
  }

  lemma OtherApprovalIsCarried(b: Books, r: nat, mode: ApprovalMode)
    requires RequestsOk(b) && !Approves(b, ApproveRequest(r, mode))
    ensures Carried(b, Approve(b, r, mode))
  {
    hide RequestsOk;
    hide OperationEntitlement;
    hide RemainderEntitlement;
    if r < |b.requests| && b.requests[r].status == Requested { RequestedHasNoSnapshot(b, r); }
    assert Approve(b, r, mode).lots == b.lots;
  }

  lemma RowStepIsCarried(b: Books, c: Command)
    requires RequestsOk(b) && !c.Settle? && LedgerKey(c).None? && !Approves(b, c)
    ensures Carried(b, Apply(b, c))
  {
    hide RequestsOk;
    hide FirstLot;
    if c.ApproveRequest? {
      OtherApprovalIsCarried(b, c.request, c.mode);
    } else if c.ApproveWithoutSnapshot? && c.request < |b.requests| && b.requests[c.request].status == Requested {
      RequestedHasNoSnapshot(b, c.request);
    }
    hide Approve;
  }

  lemma ApprovedIsPriced(b: Books, r: nat, mode: ApprovalMode)
    requires AllPriced(b) && r < |b.requests| && b.requests[r].status == Requested && Approve(b, r, mode).requests[r].status == Approved
    ensures AllPriced(Approve(b, r, mode))
  {
    ApprovedSnapshot(b, r, mode);
    var after := Approve(b, r, mode);
    var row := after.requests[r];
    var k, already := FirstLot(b.lots, row.payment, Some(row.user)).value, Sum(b.requests, CountedUnits(row.payment));
    assert PricedBy(row, b.purchases[row.payment].price, b.lots[k].grant, already);
    forall q | 0 <= q < |b.requests| && after.requests[q].units.Some? ensures Priced(after, after.requests[q]) {
      if q != r { assert Priced(b, b.requests[q]); }
    }
  }

  lemma StepKeepsPriced(b: Books, c: Command)
    requires Inv(b) && AllPriced(b)
    ensures AllPriced(Apply(b, c))
  {
    hide AllPriced;
    if c.Settle? {
      SettleIsCarried(b, c.request);
      CarriedKeepsPriced(b, Apply(b, c));
    } else if LedgerKey(c).Some? {
      WrittenIsCarried(b, c);
      CarriedKeepsPriced(b, Apply(b, c));
    } else if Approves(b, c) {
      ApprovedIsPriced(b, c.request, c.mode);
    } else {
      RowStepIsCarried(b, c);
      CarriedKeepsPriced(b, Apply(b, c));
    }
  }

  lemma {:induction false} RunKeepsPriced(b: Books, commands: seq<Command>)
    requires Inv(b) && DisciplinedRun(b, commands) && AllPriced(b)
    ensures AllPriced(Run(b, commands))
    decreases |commands|
  {
    hide Inv;
    hide AllPriced;
    hide Apply;
    if |commands| > 0 {
      CreditRuns.StepKeepsInv(b, commands[0]);
      StepKeepsPriced(b, commands[0]);
      RunKeepsPriced(Apply(b, commands[0]), commands[1..]);
    }
  }

  // ----- the drift of one purchase -----

  predicate CountsFor(p: Id, r: Request) { r.payment == p && Counted(r.status) && r.units.Some? }

  function SnapshotMoney(p: Id): Request -> int { (r: Request) => if CountsFor(p, r) && r.amount.Some? then r.amount.value else 0 }

  function SnapshotCount(p: Id): Request -> int { (r: Request) => if CountsFor(p, r) then 1 else 0 }

  ghost predicate PricedAt(p: Id, price: nat, grant: nat, row: Request) {
    CountsFor(p, row) ==> exists already :: PricedBy(row, price, grant, already)
  }

  /** The counted snapshot requests of a purchase, as parts of its grant. */
  lemma {:induction false} CountedParts(rows: seq<Request>, p: Id, price: nat, grant: nat) returns (parts: seq<Money.Part>)
    requires forall r :: 0 <= r < |rows| ==> PricedAt(p, price, grant, rows[r])
    ensures |parts| == Sum(rows, SnapshotCount(p))
    ensures Sum(parts, Money.PartMoney(price, grant)) == Sum(rows, SnapshotMoney(p))
    ensures Sum(parts, Money.PartUnits()) == Sum(rows, CountedUnits(p))
    ensures forall i :: 0 <= i < |parts| ==> 0 < parts[i].units && parts[i].already + parts[i].units <= grant
  {
    parts := [];
    if |rows| > 0 {
      var last := rows[|rows| - 1];
      parts := CountedParts(rows[..|rows| - 1], p, price, grant);
      if CountsFor(p, last) {
        assert PricedAt(p, price, grant, last);
        var already :| PricedBy(last, price, grant, already);
        var part := Money.Part(already, last.units.value);
        Append(parts, part, Money.PartMoney(price, grant));
        Append(parts, part, Money.PartUnits());
        parts := parts + [part];
      }
    }
  }

  /**
   * After any history: the money of a purchase's n counted snapshot requests, whichever of their
   * predecessors failed, is strictly within n minor units of the exact share of its price.
   */
  lemma PurchaseDrift(start: Books, commands: seq<Command>, p: Id, grant: nat)
    requires Opening(start) && DisciplinedRun(start, commands) && p in Run(start, commands).purchases
    requires forall k :: 0 <= k < |Run(start, commands).lots| && Run(start, commands).lots[k].purchase == Some(p) ==> Run(start, commands).lots[k].grant == grant
    ensures var b := Run(start, commands);
      var n := Sum(b.requests, SnapshotCount(p));
      var off := Sum(b.requests, SnapshotMoney(p)) * grant - b.purchases[p].price * Sum(b.requests, CountedUnits(p));
      if n == 0 then off == 0 else -(n * grant) < off < n * grant
  {
    OpeningIsInv(start);
    RunKeepsPriced(start, commands);
    var b := Run(start, commands);
    var price := b.purchases[p].price;
    hide Run;
    forall r | 0 <= r < |b.requests| ensures PricedAt(p, price, grant, b.requests[r]) {
      if CountsFor(p, b.requests[r]) { assert Priced(b, b.requests[r]); }
    }
    var parts := CountedParts(b.requests, p, price, grant);
    if parts != [] { Money.RefundsDrift(price, grant, parts); }
  }
}

/**
 * Flitt refunds of one payment: any number of job workers, each a sequence of database and
 * provider steps, interleaved in any order. Requests are listed in the order of their approval.
 */
module FlittMachine {
  import opened Wrappers
  import opened Sums
  import opened CreditBooks
  import opened RefundRow

  datatype Shown = ShownApproved | ShownReversed | ShownOther

  /** An answer may lag behind: it shows at most what was reversed, and `reversed` only when true. */
  datatype GetReply = GetNetworkError | GetFailed | Answer(shown: Shown, lag: nat)

  datatype ReverseReply = Confirmed | Ambiguous | Rejected | Unexpected

  /** Where a worker stands, with the values it read earlier and still relies on. */
  datatype Worker =
    | Idle
    | Loaded(request: nat, was: Status, attempted: bool)
    | Claimed(request: nat, attempted: bool)
    | Seen(request: nat, attempted: bool, shown: Shown, reversal: nat)
    | Reversing(request: nat, expected: nat)
    | Noting(request: nat, expected: nat, ok: bool)
    | Checking(request: nat, expected: nat, ok: bool)
    | Waiting(request: nat)
    | Refunding(request: nat)
    | Reviewing(request: nat, marked: bool)
    | Failing(request: nat)

  /** The order at the provider: the charge, the cumulative reversal, and the reverse ids it took. */
  datatype State = State(rows: seq<Row>, workers: map<nat, Worker>, charge: nat, reversal: nat, taken: set<nat>)

  datatype Step =
    | Approve(amount: Option<nat>)
    | Load(worker: nat, request: nat, purchaseOk: bool)
    | Claim(worker: nat)
    | Get(worker: nat, answer: GetReply)
    | ReadExpected(worker: nat)
    | Reverse(worker: nat, takes: bool, reply: ReverseReply)
    | ProviderTakes(request: nat)
    | Note(worker: nat)
    | Await(worker: nat)
    | Settle(worker: nat, local: bool)
    | Review(worker: nat)
    | Fail(worker: nat)
    | Crash(worker: nat)

  function Money(): Row -> int { (r: Row) => if Counted(r.status) && r.amount.Some? then r.amount.value else 0 }

  function CountedSum(rows: seq<Row>): (sum: nat) {
    NonNegative(rows, Money());
    Sum(rows, Money())
  }

  function At(s: State, w: nat): Worker { if w in s.workers then s.workers[w] else Idle }

  function Go(s: State, w: nat, worker: Worker): State { s.(workers := s.workers[w := worker]) }

  function Write(s: State, i: nat, row: Row): State
    requires i < |s.rows|
  {
    s.(rows := s.rows[i := row])
  }

  predicate IsRefundApplied(shown: Shown, reversal: nat, expected: nat, charge: nat) {
    shown == ShownReversed || (expected > 0 && charge > 0 && reversal >= expected)
  }

  function ShownBy(s: State, reply: GetReply): Shown
    requires reply.Answer?
  {
    if reply.shown == ShownReversed && s.reversal != s.charge then ShownApproved else reply.shown
  }

  function ReversalBy(s: State, reply: GetReply): nat
    requires reply.Answer?
  {
    if reply.lag <= s.reversal then s.reversal - reply.lag else 0
  }

  // ----- one step of one worker -----

  function LoadStep(s: State, w: nat, i: nat, purchaseOk: bool): State {
    if At(s, w) != Idle || i >= |s.rows| || !InFlight(s.rows[i].status) then s
    else if s.rows[i].amount.None? || !purchaseOk then Go(s, w, Failing(i))
    else Go(s, w, Loaded(i, s.rows[i].status, Attempted(s.rows[i])))
  }

  /** Take an approved request; losing the race is fine as long as it is being processed. */
  function ClaimStep(s: State, w: nat): State {
    match At(s, w)
    case Loaded(i, was, attempted) =>
      if i >= |s.rows| then s
      else if was == Processing then Go(s, w, Claimed(i, attempted))
      else if s.rows[i].status == Approved then Go(Write(s, i, s.rows[i].(status := Processing)), w, Claimed(i, attempted))
      else if s.rows[i].status == Processing then Go(s, w, Claimed(i, attempted))
      else Go(s, w, Idle)
    case _ => s
  }

  function GetStep(s: State, w: nat, reply: GetReply): State {
    match At(s, w)
    case Claimed(i, attempted) =>
      Go(s, w, match reply
               case GetNetworkError => Idle
               case GetFailed => Reviewing(i, false)
               case Answer(_, _) => Seen(i, attempted, ShownBy(s, reply), ReversalBy(s, reply)))
    case Checking(i, expected, ok) =>
      Go(s, w, if !reply.Answer? then Reviewing(i, !ok)
               else if IsRefundApplied(ShownBy(s, reply), ReversalBy(s, reply), expected, s.charge) then Refunding(i)
               else if ok then Waiting(i)
               else Idle)
    case _ => s
  }

  /** Sum the counted amounts, then decide: done, reverse (again), or give up. */
  function Decide(i: nat, attempted: bool, shown: Shown, reversal: nat, expected: nat, charge: nat): Worker {
    if IsRefundApplied(shown, reversal, expected, charge) then Refunding(i)
    else if attempted && !(shown == ShownApproved && reversal < expected) then Reviewing(i, false)
    else Reversing(i, expected)
  }

  function ReadStep(s: State, w: nat): State {
    match At(s, w)
    case Seen(i, attempted, shown, reversal) => Go(s, w, Decide(i, attempted, shown, reversal, CountedSum(s.rows), s.charge))
    case _ => s
  }

  /** The provider takes a reverse id at most once, and never more than the charge. */
  function Take(s: State, i: nat, amount: nat): State {
    if i in s.taken || s.reversal + amount > s.charge then s
    else s.(reversal := s.reversal + amount, taken := s.taken + {i})
  }

  /** The provider books a reverse on its own time, however the call was answered. */
  function ProviderStep(s: State, i: nat): State {
    if i >= |s.rows| || s.rows[i].amount.None? then s else Take(s, i, s.rows[i].amount.value)
  }

  function ReverseStep(s: State, w: nat, takes: bool, reply: ReverseReply): State {
    match At(s, w)
    case Reversing(i, expected) =>
      if i >= |s.rows| || s.rows[i].amount.None? then s
      else
        var amount := s.rows[i].amount.value;
        if amount == 0 then Go(s, w, Failing(i))
        else
          Go(if takes then Take(s, i, amount) else s, w,
             match reply
             case Confirmed => Noting(i, expected, true)
             case Ambiguous => Noting(i, expected, false)
             case Rejected => Failing(i)
             case Unexpected => Reviewing(i, false))
    case _ => s
  }

  function NoteStep(s: State, w: nat): State {
    match At(s, w)
    case Noting(i, expected, ok) =>
      if i >= |s.rows| then s
      else if s.rows[i].status != Processing then Go(s, w, Checking(i, expected, ok))
      else if ok then Go(Write(s, i, s.rows[i].(reference := true)), w, Checking(i, expected, ok))
      else Go(Write(s, i, s.rows[i].(marked := true)), w, Checking(i, expected, ok))
    case _ => s
  }

  function AwaitStep(s: State, w: nat): State {
    match At(s, w)
    case Waiting(i) =>
      if i >= |s.rows| || s.rows[i].status != Processing then Go(s, w, Idle)
      else Go(Write(s, i, s.rows[i].(reference := true, marked := true)), w, Idle)
    case _ => s
  }

  function Close(s: State, w: nat, i: nat, status: Status, reference: bool, marked: bool): State {
    if i >= |s.rows| || !InFlight(s.rows[i].status) then Go(s, w, Idle)
    else Go(Write(s, i, s.rows[i].(status := status, reference := s.rows[i].reference || reference, marked := marked)), w, Idle)
  }

  /** `local` tells whether the local effects of the refund went through in the same transaction. */
  function SettleStep(s: State, w: nat, local: bool): State {
    match At(s, w)
    case Refunding(i) => if local then Close(s, w, i, Refunded, true, false) else Close(s, w, i, NeedsReview, false, false)
    case _ => s
  }

  function ReviewStep(s: State, w: nat): State {
    match At(s, w)
    case Reviewing(i, marked) => Close(s, w, i, NeedsReview, false, marked)
    case _ => s
  }

  function FailStep(s: State, w: nat): State {
    match At(s, w)
    case Failing(i) => Close(s, w, i, Failed, false, false)
    case _ => s
  }

  /** Approval refuses to let the counted amounts exceed the charge. */
  function ApproveStep(s: State, amount: Option<nat>): State {
    if CountedSum(s.rows) + (if amount.Some? then amount.value else 0) > s.charge then s
    else s.(rows := s.rows + [Row(Approved, amount, false, false)])
  }

  function Next(s: State, step: Step): State {
    match step
    case Approve(amount) => ApproveStep(s, amount)
    case Load(w, i, purchaseOk) => LoadStep(s, w, i, purchaseOk)
    case Claim(w) => ClaimStep(s, w)
    case Get(w, reply) => GetStep(s, w, reply)
    case ReadExpected(w) => ReadStep(s, w)
    case Reverse(w, takes, reply) => ReverseStep(s, w, takes, reply)
    case ProviderTakes(i) => ProviderStep(s, i)
    case Note(w) => NoteStep(s, w)
    case Await(w) => AwaitStep(s, w)
    case Settle(w, local) => SettleStep(s, w, local)
    case Review(w) => ReviewStep(s, w)
    case Fail(w) => FailStep(s, w)
    case Crash(w) => Go(s, w, Idle)
  }

  function Run(s: State, steps: seq<Step>): State
    decreases |steps|
  {
    if |steps| == 0 then s else Run(Next(s, steps[0]), steps[1..])
  }

  // ----- the invariant -----

  /** What was counted among the requests approved no later than request i. */
  function UpTo(s: State, i: nat): nat
    requires i < |s.rows|
  {
    CountedSum(s.rows[..i + 1])
  }

  function TakenAmount(rows: seq<Row>, taken: set<nat>): nat {
    if |rows| == 0 then 0
    else
      var n := |rows| - 1;
      TakenAmount(rows[..n], taken) + if n in taken && rows[n].amount.Some? then rows[n].amount.value else 0
  }

  /**
   * A worker about to reverse compares against at least everything counted up to its request; a
   * worker about to mark a request refunded has seen that much reversed.
   */
  ghost predicate WorkerOk(s: State, worker: Worker) {
    worker.Idle? || (
      && worker.request < |s.rows|
      && (worker.Reversing? || worker.Noting? || worker.Checking? ==> worker.expected >= UpTo(s, worker.request))
      && (worker.Refunding? ==> s.reversal >= UpTo(s, worker.request))
      && (worker.Seen? ==> worker.reversal <= s.reversal && (worker.shown == ShownReversed ==> s.reversal == s.charge)))
  }

  ghost predicate WorkersOk(s: State) { forall w :: w in s.workers ==> WorkerOk(s, s.workers[w]) }

  /** Behind every refunded request, the provider reversed all that was counted up to it. */
  ghost predicate RefundsBacked(s: State) {
    forall i :: 0 <= i < |s.rows| && s.rows[i].status == Refunded ==> s.reversal >= UpTo(s, i)
  }

  ghost predicate ProviderOk(s: State, opening: nat) {
    && s.reversal == opening + TakenAmount(s.rows, s.taken) && s.reversal <= s.charge
    && (forall i :: i in s.taken ==> i < |s.rows|)
  }

  ghost predicate Inv(s: State, opening: nat) {
    CountedSum(s.rows) <= s.charge && WorkersOk(s) && RefundsBacked(s) && ProviderOk(s, opening)
  }

  ghost predicate Start(s: State, opening: nat) {
    s.rows == [] && s.workers == map[] && s.reversal == opening <= s.charge && s.taken == {}
  }

  // ----- the three kinds of change -----

  lemma {:induction false} PrefixWithin(rows: seq<Row>, k: nat)
    requires k <= |rows|
    ensures CountedSum(rows[..k]) <= CountedSum(rows)
    decreases |rows|
  {
    if k < |rows| {
      var n := |rows| - 1;
      assert rows[..n][..k] == rows[..k];
      PrefixWithin(rows[..n], k);
    } else {
      assert rows[..k] == rows;
    }
  }

  lemma PrefixAfterWrite(rows: seq<Row>, i: nat, row: Row, k: nat)
    requires i < |rows| && k <= |rows| && Money()(row) <= Money()(rows[i])
    ensures CountedSum(rows[i := row][..k]) <= CountedSum(rows[..k])
  {
    if i < k {
      assert rows[i := row][..k] == rows[..k][i := row];
      Update(rows[..k], i, row, Money());
    } else {
      assert rows[i := row][..k] == rows[..k];
    }
  }

  lemma {:induction false} TakenAfterWrite(rows: seq<Row>, i: nat, row: Row, taken: set<nat>)
    requires i < |rows| && row.amount == rows[i].amount
    ensures TakenAmount(rows[i := row], taken) == TakenAmount(rows, taken)
  {
    var n := |rows| - 1;
    if i < n {
      assert rows[i := row][..n] == rows[..n][i := row];
      TakenAfterWrite(rows[..n], i, row, taken);
    } else {
      assert rows[i := row][..n] == rows[..n];
    }
  }

  lemma {:induction false} TakenAfterTake(rows: seq<Row>, taken: set<nat>, i: nat)
    requires i !in taken
    ensures TakenAmount(rows, taken + {i})
      == TakenAmount(rows, taken) + if i < |rows| && rows[i].amount.Some? then rows[i].amount.value else 0
  {
    var n := |rows| - 1;
    if n >= 0 {
      TakenAfterTake(rows[..n], taken, i);
    }
  }

  /** Rewriting a request keeps the invariant if it adds nothing to the counted money and claims no unbacked refund. */
  lemma WriteKeepsInv(s: State, opening: nat, i: nat, row: Row)
    requires Inv(s, opening) && i < |s.rows| && row.amount == s.rows[i].amount
    requires Counted(row.status) ==> Counted(s.rows[i].status)
    requires row.status == Refunded ==> s.reversal >= UpTo(s, i)
    ensures Inv(Write(s, i, row), opening)
  {
    var after := Write(s, i, row);
    TakenAfterWrite(s.rows, i, row, s.taken);
    PrefixAfterWrite(s.rows, i, row, |s.rows|);
    assert s.rows[..|s.rows|] == s.rows && after.rows[..|s.rows|] == after.rows;
    forall k | 0 <= k < |s.rows| ensures UpTo(after, k) <= UpTo(s, k) { PrefixAfterWrite(s.rows, i, row, k + 1); }
    hide CountedSum;
    hide TakenAmount;
    hide UpTo;
    forall w | w in s.workers ensures WorkerOk(after, s.workers[w]) { assert WorkerOk(s, s.workers[w]); }
  }

  lemma GoKeepsInv(s: State, opening: nat, w: nat, worker: Worker)
    requires Inv(s, opening) && WorkerOk(s, worker)
    ensures Inv(Go(s, w, worker), opening)
  {
  }

  lemma TakeKeepsInv(s: State, opening: nat, i: nat)
    requires Inv(s, opening) && i < |s.rows| && s.rows[i].amount.Some?
    ensures Inv(Take(s, i, s.rows[i].amount.value), opening)
  {
    var after := Take(s, i, s.rows[i].amount.value);
    if after != s {
      TakenAfterTake(s.rows, s.taken, i);
      forall w | w in s.workers ensures WorkerOk(after, s.workers[w]) { assert WorkerOk(s, s.workers[w]); }
    }
  }

  lemma ApproveKeepsInv(s: State, opening: nat, amount: Option<nat>)
    requires Inv(s, opening)
    ensures Inv(ApproveStep(s, amount), opening)
  {
    var row := Row(Approved, amount, false, false);
    var after := s.(rows := s.rows + [row]);
    if ApproveStep(s, amount) == after {
      Append(s.rows, row, Money());
      forall i | 0 <= i < |s.rows| ensures UpTo(after, i) == UpTo(s, i) { assert after.rows[..i + 1] == s.rows[..i + 1]; }
      assert after.rows[..|s.rows|] == s.rows;
      forall w | w in s.workers ensures WorkerOk(after, s.workers[w]) { assert WorkerOk(s, s.workers[w]); }
    }
  }

  // ----- every step keeps the invariant -----

  lemma AtOk(s: State, opening: nat, w: nat)
    requires Inv(s, opening)
    ensures WorkerOk(s, At(s, w))
  {
  }

  /** What a worker concludes from an answer is true of the provider. */
  lemma AppliedMeansReversed(s: State, opening: nat, i: nat, shown: Shown, reversal: nat, expected: nat)
    requires Inv(s, opening) && i < |s.rows| && expected >= UpTo(s, i)
    requires reversal <= s.reversal && (shown == ShownReversed ==> s.reversal == s.charge)
    requires IsRefundApplied(shown, reversal, expected, s.charge)
    ensures s.reversal >= UpTo(s, i)
  {
    PrefixWithin(s.rows, i + 1);
  }

  lemma GetKeepsInv(s: State, opening: nat, w: nat, reply: GetReply)
    requires Inv(s, opening)
    ensures Inv(GetStep(s, w, reply), opening)
  {
    AtOk(s, opening, w);
    var worker := At(s, w);
    if worker.Checking? && reply.Answer? && IsRefundApplied(ShownBy(s, reply), ReversalBy(s, reply), worker.expected, s.charge) {
      AppliedMeansReversed(s, opening, worker.request, ShownBy(s, reply), ReversalBy(s, reply), worker.expected);
    }
    if worker.Claimed? || worker.Checking? {
      GoKeepsInv(s, opening, w, At(GetStep(s, w, reply), w));
    }
  }

  lemma ReadKeepsInv(s: State, opening: nat, w: nat)
    requires Inv(s, opening)
    ensures Inv(ReadStep(s, w), opening)
  {
    AtOk(s, opening, w);
    var worker := At(s, w);
    if worker.Seen? {
      var expected := CountedSum(s.rows);
      PrefixWithin(s.rows, worker.request + 1);
      if IsRefundApplied(worker.shown, worker.reversal, expected, s.charge) {
        AppliedMeansReversed(s, opening, worker.request, worker.shown, worker.reversal, expected);
      }
      GoKeepsInv(s, opening, w, Decide(worker.request, worker.attempted, worker.shown, worker.reversal, expected, s.charge));
    }
  }

  lemma ClaimKeepsInv(s: State, opening: nat, w: nat)
    requires Inv(s, opening)
    ensures Inv(ClaimStep(s, w), opening)
  {
    AtOk(s, opening, w);
    var worker := At(s, w);
    if worker.Loaded? {
      var i := worker.request;
      var next := At(ClaimStep(s, w), w);
      if worker.was != Processing && s.rows[i].status == Approved {
        WriteKeepsInv(s, opening, i, s.rows[i].(status := Processing));
        GoKeepsInv(Write(s, i, s.rows[i].(status := Processing)), opening, w, next);
      } else {
        GoKeepsInv(s, opening, w, next);
      }
    }
  }

  lemma ReverseKeepsInv(s: State, opening: nat, w: nat, takes: bool, reply: ReverseReply)
    requires Inv(s, opening)
    ensures Inv(ReverseStep(s, w, takes, reply), opening)
  {
    AtOk(s, opening, w);
    var worker := At(s, w);
    hide Inv;
    if worker.Reversing? && s.rows[worker.request].amount.Some? {
      var i, amount := worker.request, s.rows[worker.request].amount.value;
      TakeKeepsInv(s, opening, i);
      var mid := if takes && amount != 0 then Take(s, i, amount) else s;
      GoKeepsInv(mid, opening, w, At(ReverseStep(s, w, takes, reply), w));
    }
  }

  lemma NoteKeepsInv(s: State, opening: nat, w: nat)
    requires Inv(s, opening)
    ensures Inv(NoteStep(s, w), opening) && Inv(AwaitStep(s, w), opening)
  {
    AtOk(s, opening, w);
    var worker := At(s, w);
    if worker.Noting? {
      MarkKeepsInv(s, opening, w, worker.request, NoteStep(s, w).rows[worker.request], Checking(worker.request, worker.expected, worker.ok));
    } else if worker.Waiting? {
      MarkKeepsInv(s, opening, w, worker.request, AwaitStep(s, w).rows[worker.request], Idle);
    }
  }

  lemma MarkKeepsInv(s: State, opening: nat, w: nat, i: nat, row: Row, next: Worker)
    requires Inv(s, opening) && i < |s.rows| && row.amount == s.rows[i].amount && row.status == s.rows[i].status
    requires WorkerOk(s, next) && !next.Refunding? && !next.Seen?
    ensures Inv(Go(Write(s, i, row), w, next), opening) && Inv(Go(s, w, next), opening)
  {
    WriteKeepsInv(s, opening, i, row);
    if !next.Idle? { PrefixAfterWrite(s.rows, i, row, next.request + 1); }
    GoKeepsInv(Write(s, i, row), opening, w, next);
    GoKeepsInv(s, opening, w, next);
  }

  lemma CloseKeepsInv(s: State, opening: nat, w: nat, i: nat, status: Status, reference: bool, marked: bool)
    requires Inv(s, opening) && (!Counted(status) || (status == Refunded && i < |s.rows| && s.reversal >= UpTo(s, i)))
    ensures Inv(Close(s, w, i, status, reference, marked), opening)
  {
    if i < |s.rows| && InFlight(s.rows[i].status) {
      var row := s.rows[i].(status := status, reference := s.rows[i].reference || reference, marked := marked);
      WriteKeepsInv(s, opening, i, row);
      GoKeepsInv(Write(s, i, row), opening, w, Idle);
    } else {
      GoKeepsInv(s, opening, w, Idle);
    }
  }

  lemma EndKeepsInv(s: State, opening: nat, w: nat, local: bool)
    requires Inv(s, opening)
    ensures Inv(SettleStep(s, w, local), opening) && Inv(ReviewStep(s, w), opening) && Inv(FailStep(s, w), opening)
  {
    AtOk(s, opening, w);
    hide Inv;
    match At(s, w)
    case Refunding(i) =>
      if local { CloseKeepsInv(s, opening, w, i, Refunded, true, false); } else { CloseKeepsInv(s, opening, w, i, NeedsReview, false, false); }
    case Reviewing(i, marked) => CloseKeepsInv(s, opening, w, i, NeedsReview, false, marked);
    case Failing(i) => CloseKeepsInv(s, opening, w, i, Failed, false, false);
    case _ =>
  }

  lemma StepKeepsInv(s: State, opening: nat, step: Step)
    requires Inv(s, opening)
    ensures Inv(Next(s, step), opening)
  {
    hide Inv;
    match step
    case Approve(amount) => ApproveKeepsInv(s, opening, amount);
    case Load(w, i, purchaseOk) => if LoadStep(s, w, i, purchaseOk) != s { GoKeepsInv(s, opening, w, At(LoadStep(s, w, i, purchaseOk), w)); }
    case Claim(w) => ClaimKeepsInv(s, opening, w);
    case Get(w, reply) => GetKeepsInv(s, opening, w, reply);
    case ReadExpected(w) => ReadKeepsInv(s, opening, w);
    case Reverse(w, takes, reply) => ReverseKeepsInv(s, opening, w, takes, reply);
    case ProviderTakes(i) => if i < |s.rows| && s.rows[i].amount.Some? { TakeKeepsInv(s, opening, i); }
    case Note(w) => NoteKeepsInv(s, opening, w);
    case Await(w) => NoteKeepsInv(s, opening, w);
    case Settle(w, local) => EndKeepsInv(s, opening, w, local);
    case Review(w) => EndKeepsInv(s, opening, w, true);
    case Fail(w) => EndKeepsInv(s, opening, w, true);
    case Crash(w) => GoKeepsInv(s, opening, w, Idle);
  }

  lemma {:induction false} RunKeepsInv(s: State, opening: nat, steps: seq<Step>)
    requires Inv(s, opening)
    ensures Inv(Run(s, steps), opening)
    decreases |steps|
  {
    hide Inv;
    if |steps| > 0 {
      StepKeepsInv(s, opening, steps[0]);
      RunKeepsInv(Next(s, steps[0]), opening, steps[1..]);
    }
  }
}

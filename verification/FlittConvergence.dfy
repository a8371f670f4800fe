/** With a provider that accepts and answers, two passes of the Flitt job settle every request. */
module FlittConvergence {
  import opened Wrappers
  import opened Sums
  import opened CreditBooks
  import opened RefundRow
  import opened FlittMachine

  /** Everything one execution of the job meets on its way. */
  datatype Script = Script(purchaseOk: bool, first: GetReply, takes: bool, reverse: ReverseReply, second: GetReply, local: bool)

  /** The steps of one uninterrupted execution; steps off the path it takes do nothing. */
  function JobSteps(w: nat, i: nat, x: Script): seq<Step> {
    [Load(w, i, x.purchaseOk), Claim(w), Get(w, x.first), ReadExpected(w), Reverse(w, x.takes, x.reverse), Note(w),
     Get(w, x.second), Await(w), Settle(w, x.local), Review(w), Fail(w)]
  }

  function Begin(s: State, w: nat, i: nat, x: Script): State {
    ReadStep(GetStep(ClaimStep(LoadStep(s, w, i, x.purchaseOk), w), w, x.first), w)
  }

  function Attempt(s: State, w: nat, x: Script): State {
    AwaitStep(GetStep(NoteStep(ReverseStep(s, w, x.takes, x.reverse), w), w, x.second), w)
  }

  function End(s: State, w: nat, x: Script): State { FailStep(ReviewStep(SettleStep(s, w, x.local), w), w) }

  /** One uninterrupted execution of the job. */
  function Job(s: State, w: nat, i: nat, x: Script): State { End(Attempt(Begin(s, w, i, x), w, x), w, x) }

  lemma RunOne(s: State, step: Step, rest: seq<Step>)
    ensures Run(s, [step] + rest) == Run(Next(s, step), rest)
  {
  }

  lemma {:induction false} RunConcat(s: State, first: seq<Step>, second: seq<Step>)
    ensures Run(s, first + second) == Run(Run(s, first), second)
    decreases |first|
  {
    if |first| == 0 {
      assert first + second == second;
    } else {
      assert (first + second)[1..] == first[1..] + second;
      RunConcat(Next(s, first[0]), first[1..], second);
    }
  }

  lemma RunFour(s: State, a: Step, b: Step, c: Step, d: Step)
    ensures Run(s, [a, b, c, d]) == Next(Next(Next(Next(s, a), b), c), d)
  {
    hide Next;
    RunOne(s, a, [b, c, d]);
    RunOne(Next(s, a), b, [c, d]);
    RunOne(Next(Next(s, a), b), c, [d]);
    RunOne(Next(Next(Next(s, a), b), c), d, []);
    assert [a] + [b, c, d] == [a, b, c, d] && [b] + [c, d] == [b, c, d] && [c] + [d] == [c, d] && [d] + [] == [d];
  }

  /** The job is one particular run of the step machine. */
  lemma JobIsRun(s: State, w: nat, i: nat, x: Script)
    ensures Job(s, w, i, x) == Run(s, JobSteps(w, i, x))
  {
    hide LoadStep;
    hide ClaimStep;
    hide GetStep;
    hide ReadStep;
    hide ReverseStep;
    hide NoteStep;
    hide AwaitStep;
    hide SettleStep;
    hide ReviewStep;
    hide FailStep;
    hide Run;
    var p := [Load(w, i, x.purchaseOk), Claim(w), Get(w, x.first), ReadExpected(w)];
    var q := [Reverse(w, x.takes, x.reverse), Note(w), Get(w, x.second), Await(w)];
    var r := [Settle(w, x.local), Review(w), Fail(w)];
    assert JobSteps(w, i, x) == p + (q + r);
    RunConcat(s, p, q + r);
    RunFour(s, Load(w, i, x.purchaseOk), Claim(w), Get(w, x.first), ReadExpected(w));
    var b := Begin(s, w, i, x);
    RunConcat(b, q, r);
    RunFour(b, Reverse(w, x.takes, x.reverse), Note(w), Get(w, x.second), Await(w));
    RunThree(Attempt(b, w, x), Settle(w, x.local), Review(w), Fail(w));
  }

  lemma RunThree(s: State, a: Step, b: Step, c: Step)
    ensures Run(s, [a, b, c]) == Next(Next(Next(s, a), b), c)
  {
    hide Next;
    RunOne(s, a, [b, c]);
    RunOne(Next(s, a), b, [c]);
    RunOne(Next(Next(s, a), b), c, []);
    assert [a] + [b, c] == [a, b, c] && [b] + [c] == [b, c] && [c] + [] == [c];
  }

  // ----- a provider that accepts and answers -----

  /** Answers are current: everything reversed so far, and `reversed` as soon as that is the whole charge. */
  function Truthful(local: bool): Script {
    Script(true, Answer(ShownReversed, 0), true, Confirmed, Answer(ShownReversed, 0), local)
  }

  predicate Due(s: State, i: nat)
    requires i < |s.rows|
  {
    InFlight(s.rows[i].status)
  }

  /** What request i adds to the money that is covered. */
  function CoveredShare(row: Row, i: nat, taken: set<nat>): int {
    if row.status == Refunded || i in taken then Money()(row) else 0
  }

  /** Counted money that is refunded already, or whose own reverse the provider took. */
  function Covered(rows: seq<Row>, taken: set<nat>): int {
    if |rows| == 0 then 0 else Covered(rows[..|rows| - 1], taken) + CoveredShare(rows[|rows| - 1], |rows| - 1, taken)
  }

  /** Counted money whose reverse is still to be taken. */
  function Untaken(s: State): int { CountedSum(s.rows) - Covered(s.rows, s.taken) }

  /** The worker is free, what is due has an amount, and what is counted, or still to be taken, fits the charge. */
  ghost predicate Sane(s: State, w: nat) {
    && At(s, w) == Idle && CountedSum(s.rows) <= s.charge && s.reversal + Untaken(s) <= s.charge
    && (forall i :: 0 <= i < |s.rows| && Due(s, i) ==> s.rows[i].amount.Some? && s.rows[i].amount.value > 0)
  }

  /** Besides, the reversal covers all that is refunded or had its own reverse taken. */
  ghost predicate Ready(s: State, w: nat) { Sane(s, w) && s.reversal >= Covered(s.rows, s.taken) }

  lemma {:induction false} CoveredWithin(rows: seq<Row>, taken: set<nat>)
    ensures Covered(rows, taken) <= CountedSum(rows)
    ensures (forall i :: 0 <= i < |rows| && InFlight(rows[i].status) ==> i in taken) ==> Covered(rows, taken) == CountedSum(rows)
  {
    if |rows| > 0 {
      CoveredWithin(rows[..|rows| - 1], taken);
    }
  }

  lemma {:induction false} CoveredAfterWrite(rows: seq<Row>, taken: set<nat>, i: nat, row: Row)
    requires i < |rows|
    ensures Covered(rows[i := row], taken) == Covered(rows, taken) - CoveredShare(rows[i], i, taken) + CoveredShare(row, i, taken)
  {
    var n := |rows| - 1;
    if i < n {
      assert rows[i := row][..n] == rows[..n][i := row];
      CoveredAfterWrite(rows[..n], taken, i, row);
    } else {
      assert rows[i := row][..n] == rows[..n];
    }
  }

  /** Taking a reverse covers its request and no other. */
  lemma {:induction false} CoveredAfterTake(rows: seq<Row>, taken: set<nat>, i: nat)
    requires i !in taken && (i < |rows| ==> rows[i].status != Refunded)
    ensures Covered(rows, taken + {i}) == Covered(rows, taken) + if i < |rows| then Money()(rows[i]) else 0
  {
    var n := |rows| - 1;
    if n >= 0 {
      CoveredAfterTake(rows[..n], taken, i);
    }
  }

  // ----- what one execution achieves -----

  /** Everything counted has been reversed, as far as this execution can tell. */
  predicate Enough(s: State, reversal: nat) { reversal == s.charge || reversal >= CountedSum(s.rows) }

  function Closed(row: Row, local: bool): Row {
    if local then row.(status := Refunded, reference := true, marked := false) else row.(status := NeedsReview, marked := false)
  }

  /** The worker is free, and the request is due with a positive amount. */
  predicate Workable(s: State, w: nat, i: nat) {
    At(s, w) == Idle && i < |s.rows| && Due(s, i) && s.rows[i].amount.Some? && s.rows[i].amount.value > 0 && s.charge > 0
  }

  lemma SaneIsWorkable(s: State, w: nat, i: nat)
    requires Sane(s, w) && i < |s.rows| && Due(s, i)
    ensures Workable(s, w, i)
  {
    CountedIsPositive(s, w, i);
  }

  lemma CountedIsPositive(s: State, w: nat, i: nat)
    requires i < |s.rows| && Due(s, i) && s.rows[i].amount.Some? && s.rows[i].amount.value > 0
    ensures 0 < CountedSum(s.rows)
  {
    Share(s.rows, i, Money());
  }

  lemma BeginOutcome(s: State, w: nat, i: nat, local: bool)
    requires Workable(s, w, i)
    ensures var claimed := s.rows[i].(status := Processing);
      var b := Begin(s, w, i, Truthful(local));
      && b.rows == s.rows[i := claimed] && b.charge == s.charge && b.reversal == s.reversal && b.taken == s.taken
      && CountedSum(b.rows) == CountedSum(s.rows)
      && At(b, w) == if Enough(s, s.reversal) then Refunding(i) else Reversing(i, CountedSum(s.rows))
  {
    var claimed := s.rows[i].(status := Processing);
    Update(s.rows, i, claimed, Money());
    CountedIsPositive(s, w, i);
    var loaded := LoadStep(s, w, i, true);
    assert At(loaded, w) == Loaded(i, s.rows[i].status, Attempted(s.rows[i]));
    var c := ClaimStep(loaded, w);
    assert At(c, w) == Claimed(i, Attempted(s.rows[i])) && c.rows == s.rows[i := claimed];
    hide LoadStep;
    hide ClaimStep;
    hide CountedSum;
    var g := GetStep(c, w, Answer(ShownReversed, 0));
    assert At(g, w).Seen?;
  }

  /** The execution finishes the request, or leaves it processing with its reverse taken. */
  lemma JobOutcome(s: State, w: nat, i: nat, local: bool)
    requires Workable(s, w, i)
    ensures var after := Job(s, w, i, Truthful(local));
      var claimed := s.rows[i].(status := Processing);
      var reversed := Take(s, i, s.rows[i].amount.value);
      && At(after, w) == Idle && after.charge == s.charge
      && (if Enough(s, s.reversal) then
            after.reversal == s.reversal && after.taken == s.taken && after.rows == s.rows[i := Closed(claimed, local)]
          else
            after.reversal == reversed.reversal && after.taken == reversed.taken
            && if Enough(s, reversed.reversal) then after.rows == s.rows[i := Closed(claimed.(reference := true), local)]
               else after.rows == s.rows[i := claimed.(reference := true, marked := true)])
  {
    BeginOutcome(s, w, i, local);
    CountedIsPositive(s, w, i);
    hide Take;
    hide Closed;
    hide CountedSum;
    hide Begin;
    hide Attempt;
    hide End;
    hide At;
    hide Truthful;
    var x := Truthful(local);
    var b := Begin(s, w, i, x);
    AttemptOutcome(b, w, i, CountedSum(s.rows), local);
    var a := Attempt(b, w, x);
    EndOutcome(a, w, i, local);
    var claimed := s.rows[i].(status := Processing);
    Overwrite(s.rows, i, claimed, claimed.(reference := true), Closed(claimed.(reference := true), local));
    Overwrite(s.rows, i, claimed, claimed.(reference := true, marked := true), Closed(claimed, local));
  }

  lemma Overwrite(rows: seq<Row>, i: nat, first: Row, second: Row, third: Row)
    requires i < |rows|
    ensures rows[i := first][i := second] == rows[i := second] && rows[i := first][i := third] == rows[i := third]
    ensures rows[i := first][i := second][i := third] == rows[i := third]
  {
  }

  lemma EndOutcome(a: State, w: nat, i: nat, local: bool)
    requires i < |a.rows| && (At(a, w) == Idle || (At(a, w) == Refunding(i) && Due(a, i)))
    ensures var after := End(a, w, Truthful(local));
      && At(after, w) == Idle && after.charge == a.charge && after.reversal == a.reversal && after.taken == a.taken
      && after.rows == if At(a, w) == Idle then a.rows else a.rows[i := Closed(a.rows[i], local)]
  {
  }

  lemma AttemptOutcome(b: State, w: nat, i: nat, expected: nat, local: bool)
    requires i < |b.rows| && b.rows[i].status == Processing && b.rows[i].amount.Some? && b.rows[i].amount.value > 0
    requires At(b, w) == Refunding(i) || (At(b, w) == Reversing(i, expected) && expected > 0 && b.charge > 0)
    ensures var a := Attempt(b, w, Truthful(local));
      var reversed := Take(b, i, b.rows[i].amount.value);
      && a.charge == b.charge
      && (At(b, w) == Refunding(i) ==> a == b)
      && (At(b, w) != Refunding(i) ==>
          && a.reversal == reversed.reversal && a.taken == reversed.taken
          && if reversed.reversal == b.charge || reversed.reversal >= expected
             then At(a, w) == Refunding(i) && a.rows == b.rows[i := b.rows[i].(reference := true)]
             else At(a, w) == Idle && a.rows == b.rows[i := b.rows[i].(reference := true, marked := true)])
  {
    if At(b, w) != Refunding(i) {
      var r := ReverseStep(b, w, true, Confirmed);
      assert At(r, w) == Noting(i, expected, true) && r.rows == b.rows;
      var n := NoteStep(r, w);
      assert At(n, w) == Checking(i, expected, true) && n.rows == b.rows[i := b.rows[i].(reference := true)];
      hide ReverseStep;
      hide NoteStep;
      var g := GetStep(n, w, Answer(ShownReversed, 0));
      assert g.rows == n.rows;
    }
  }

  /** The request is settled, or the provider took its reverse. */
  predicate Handled(s: State, i: nat) {
    i < |s.rows| && (!InFlight(s.rows[i].status) || i in s.taken)
  }

  predicate Done(s: State, i: nat) { i < |s.rows| && !InFlight(s.rows[i].status) }

  ghost predicate AllHandled(s: State) { forall i :: 0 <= i < |s.rows| ==> Handled(s, i) }

  /** Requests that are due stay due, or end refunded or under review; no other request changes. */
  ghost predicate Kept(s: State, after: State) {
    |after.rows| == |s.rows| && forall i :: 0 <= i < |s.rows| ==> Follows(s.rows[i], after.rows[i])
  }

  predicate Follows(was: Row, now: Row) {
    if InFlight(was.status) then InFlight(now.status) || now.status == Refunded || now.status == NeedsReview else now == was
  }

  lemma SkippedJob(s: State, w: nat, i: nat, x: Script)
    requires At(s, w) == Idle && (i >= |s.rows| || !InFlight(s.rows[i].status))
    ensures Job(s, w, i, x) == s
  {
  }

  /** Taking a due reverse fits the charge, covers the request, and leaves the gap to the covered money as it was. */
  lemma TakeCovers(s: State, w: nat, i: nat)
    requires Sane(s, w) && i < |s.rows| && Due(s, i)
    ensures var reversed := Take(s, i, s.rows[i].amount.value);
      && Sane(reversed, w) && i in reversed.taken && s.taken <= reversed.taken
      && reversed.rows == s.rows && reversed.workers == s.workers && reversed.charge == s.charge
      && reversed.reversal - Covered(reversed.rows, reversed.taken) == s.reversal - Covered(s.rows, s.taken)
  {
    if i !in s.taken {
      CoveredAfterTake(s.rows, s.taken, i);
      CoveredWithin(s.rows, s.taken + {i});
    }
  }

  lemma WriteKeepsSane(s: State, w: nat, i: nat, row: Row, next: State)
    requires Sane(s, w) && i < |s.rows| && Due(s, i) && row.amount == s.rows[i].amount
    requires row.status == Processing || row.status == NeedsReview || row.status == Refunded
    requires next.rows == s.rows[i := row] && next.charge == s.charge && next.reversal == s.reversal && next.taken == s.taken
    requires At(next, w) == Idle
    ensures Sane(next, w)
    ensures row.status == Processing ==> Covered(next.rows, next.taken) == Covered(s.rows, s.taken)
    ensures row.status == NeedsReview ==> Covered(next.rows, next.taken) <= Covered(s.rows, s.taken)
    ensures row.status == Refunded ==> Covered(next.rows, next.taken) <= CountedSum(s.rows)
  {
    Update(s.rows, i, row, Money());
    CoveredAfterWrite(s.rows, s.taken, i, row);
    CoveredWithin(next.rows, s.taken);
  }

  /** One execution keeps the passes going, handles its request, and forgets nothing handled or done. */
  lemma JobAdvances(s: State, w: nat, i: nat, local: bool)
    requires Ready(s, w) && i < |s.rows|
    ensures var after := Job(s, w, i, Truthful(local));
      && Ready(after, w) && Kept(s, after) && Handled(after, i)
      && (forall j :: Handled(s, j) ==> Handled(after, j)) && (forall j :: Done(s, j) ==> Done(after, j))
      && (AllHandled(s) ==> Done(after, i))
  {
    if !Due(s, i) {
      SkippedJob(s, w, i, Truthful(local));
    } else {
      hide Ready;
      hide Job;
      hide Truthful;
      var after := Job(s, w, i, Truthful(local));
      SaneIsWorkable(s, w, i);
      JobOutcome(s, w, i, local);
      TakeCovers(s, w, i);
      EnoughOnceHandled(s, w);
      hide CountedSum;
      var mid := if Enough(s, s.reversal) then s else Take(s, i, s.rows[i].amount.value);
      hide Take;
      ReadyAfterWrite(s, mid, w, i, after);
    }
  }

  lemma ReadyAfterWrite(s: State, mid: State, w: nat, i: nat, after: State)
    requires Ready(s, w) && Sane(mid, w) && mid.rows == s.rows && mid.charge == s.charge && i < |s.rows| && Due(s, i)
    requires mid.reversal - Covered(mid.rows, mid.taken) >= s.reversal - Covered(s.rows, s.taken)
    requires |after.rows| == |s.rows| && after.rows == s.rows[i := after.rows[i]] && after.rows[i].amount == s.rows[i].amount
    requires var status := after.rows[i].status; status == Processing || status == NeedsReview || (status == Refunded && Enough(s, mid.reversal))
    requires after.charge == mid.charge && after.reversal == mid.reversal && after.taken == mid.taken && At(after, w) == Idle
    ensures Ready(after, w)
  {
    WriteKeepsSane(mid, w, i, after.rows[i], after);
  }

  /** Once every request is handled, everything counted is reversed. */
  lemma EnoughOnceHandled(s: State, w: nat)
    requires Ready(s, w)
    ensures AllHandled(s) ==> Enough(s, s.reversal)
  {
    CoveredWithin(s.rows, s.taken);
    if AllHandled(s) {
      forall i | 0 <= i < |s.rows| && InFlight(s.rows[i].status) ensures i in s.taken { assert Handled(s, i); }
    }
  }

  // ----- passes -----

  datatype Visit = Visit(request: nat, local: bool)

  function Pass(s: State, w: nat, visits: seq<Visit>): State
    decreases |visits|
  {
    if |visits| == 0 then s else Pass(Job(s, w, visits[0].request, Truthful(visits[0].local)), w, visits[1..])
  }

  predicate Visited(visits: seq<Visit>, i: nat) { exists k :: 0 <= k < |visits| && visits[k].request == i }

  ghost predicate Covers(visits: seq<Visit>, n: nat) {
    (forall k :: 0 <= k < |visits| ==> visits[k].request < n)
    && forall i :: 0 <= i < n ==> Visited(visits, i)
  }

  lemma {:induction false} PassAdvances(s: State, w: nat, visits: seq<Visit>)
    requires Ready(s, w) && forall k :: 0 <= k < |visits| ==> visits[k].request < |s.rows|
    ensures var after := Pass(s, w, visits);
      && Ready(after, w) && Kept(s, after)
      && (forall j :: Handled(s, j) ==> Handled(after, j)) && (forall j :: Done(s, j) ==> Done(after, j))
      && (forall k :: 0 <= k < |visits| ==> Handled(after, visits[k].request))
      && (AllHandled(s) ==> forall k :: 0 <= k < |visits| ==> Done(after, visits[k].request))
    decreases |visits|
  {
    hide Ready;
    hide Handled;
    hide Done;
    hide Job;
    if |visits| > 0 {
      JobAdvances(s, w, visits[0].request, visits[0].local);
      var next := Job(s, w, visits[0].request, Truthful(visits[0].local));
      PassAdvances(next, w, visits[1..]);
      var after := Pass(s, w, visits);
      forall k | 0 <= k < |visits| ensures Handled(after, visits[k].request) {
        if k > 0 { assert visits[1..][k - 1] == visits[k]; }
      }
      if AllHandled(s) {
        forall k | 0 <= k < |visits| ensures Done(after, visits[k].request) {
          if k > 0 { assert visits[1..][k - 1] == visits[k]; }
        }
      }
    }
  }

  /** A pass over all requests handles each; if they were handled before, it finishes each. */
  lemma WholePass(s: State, w: nat, visits: seq<Visit>)
    requires Ready(s, w) && Covers(visits, |s.rows|)
    ensures var after := Pass(s, w, visits);
      && Ready(after, w) && Kept(s, after) && AllHandled(after)
      && (AllHandled(s) ==> forall i :: 0 <= i < |s.rows| ==> Done(after, i))
  {
    hide Ready;
    hide Handled;
    hide Done;
    hide Pass;
    PassAdvances(s, w, visits);
    forall i | 0 <= i < |s.rows|
      ensures Handled(Pass(s, w, visits), i)
      ensures AllHandled(s) ==> Done(Pass(s, w, visits), i)
    {
      assert Visited(visits, i);
      var k :| 0 <= k < |visits| && visits[k].request == i;
    }
  }

  /** Approved requests of one payment, none attempted yet, together within the charge. */
  ghost predicate AllApproved(s: State, w: nat) {
    && At(s, w) == Idle && s.reversal == 0 && s.taken == {} && CountedSum(s.rows) <= s.charge
    && (forall i :: 0 <= i < |s.rows| ==> s.rows[i].status == Approved && s.rows[i].amount.Some? && s.rows[i].amount.value > 0)
  }

  lemma {:induction false} NothingTaken(rows: seq<Row>)
    requires forall i :: 0 <= i < |rows| ==> rows[i].status == Approved
    ensures Covered(rows, {}) == 0
  {
    if |rows| > 0 {
      NothingTaken(rows[..|rows| - 1]);
    }
  }

  lemma AllApprovedIsReady(s: State, w: nat)
    requires AllApproved(s, w)
    ensures Ready(s, w)
  {
    NothingTaken(s.rows);
  }

  /**
   * Whatever the order and however the local effects go: after the job ran over all requests
   * twice, every request that was due is refunded or under review, and no other one changed.
   */
  lemma TwoPassesSettleEverything(s: State, w: nat, first: seq<Visit>, second: seq<Visit>)
    requires Ready(s, w) && Covers(first, |s.rows|) && Covers(second, |s.rows|)
    ensures var after := Pass(Pass(s, w, first), w, second);
      |after.rows| == |s.rows| && forall i :: 0 <= i < |s.rows| ==> Finishes(s.rows[i], after.rows[i])
  {
    hide Ready;
    hide Handled;
    hide Pass;
    WholePass(s, w, first);
    WholePass(Pass(s, w, first), w, second);
    var mid := Pass(s, w, first);
    var after := Pass(mid, w, second);
    forall i | 0 <= i < |s.rows| ensures Finishes(s.rows[i], after.rows[i]) {
      assert Done(after, i) && Follows(s.rows[i], mid.rows[i]) && Follows(mid.rows[i], after.rows[i]);
    }
  }

  predicate Finishes(was: Row, now: Row) {
    if InFlight(was.status) then now.status == Refunded || now.status == NeedsReview else now == was
  }

  // ----- exactly when everything settles -----

  /** Less was reversed than is refunded or had its own reverse taken. */
  ghost predicate Short(s: State, w: nat) { Sane(s, w) && s.reversal < Covered(s.rows, s.taken) }

  lemma ShortIsNotEnough(s: State, w: nat)
    requires Short(s, w)
    ensures !Enough(s, s.reversal)
  {
    CoveredWithin(s.rows, s.taken);
  }

  /** An execution may have its reverse taken, but cannot close its request while the books are short. */
  lemma ShortfallStays(s: State, w: nat, i: nat, local: bool)
    requires Short(s, w) && i < |s.rows|
    ensures var after := Job(s, w, i, Truthful(local));
      Short(after, w) && |after.rows| == |s.rows| && forall j :: 0 <= j < |s.rows| && Due(s, j) ==> Due(after, j)
  {
    if !Due(s, i) {
      SkippedJob(s, w, i, Truthful(local));
    } else {
      var after := Job(s, w, i, Truthful(local));
      var mid := Take(s, i, s.rows[i].amount.value);
      SaneIsWorkable(s, w, i);
      JobOutcome(s, w, i, local);
      hide Job;
      hide Truthful;
      TakeCovers(s, w, i);
      ShortIsNotEnough(s, w);
      ShortIsNotEnough(mid, w);
      hide Take;
      hide CountedSum;
      WriteKeepsSane(mid, w, i, after.rows[i], after);
    }
  }

  lemma {:induction false} ShortfallSticks(s: State, w: nat, visits: seq<Visit>)
    requires Short(s, w) && forall k :: 0 <= k < |visits| ==> visits[k].request < |s.rows|
    ensures var after := Pass(s, w, visits);
      Short(after, w) && |after.rows| == |s.rows| && forall j :: 0 <= j < |s.rows| && Due(s, j) ==> Due(after, j)
    decreases |visits|
  {
    hide Short;
    hide Job;
    if |visits| > 0 {
      ShortfallStays(s, w, visits[0].request, visits[0].local);
      ShortfallSticks(Job(s, w, visits[0].request, Truthful(visits[0].local)), w, visits[1..]);
    }
  }

  /**
   * Two passes settle a due request exactly when, to begin with, the reversal covered all that was
   * refunded or had its own reverse taken; otherwise no number of passes settles any request.
   */
  lemma PassesSettleExactlyWhenCovered(s: State, w: nat, first: seq<Visit>, second: seq<Visit>, i: nat)
    requires Sane(s, w) && Covers(first, |s.rows|) && Covers(second, |s.rows|) && i < |s.rows| && Due(s, i)
    ensures Done(Pass(Pass(s, w, first), w, second), i) <==> s.reversal >= Covered(s.rows, s.taken)
  {
    hide Sane;
    hide Pass;
    if s.reversal >= Covered(s.rows, s.taken) {
      TwoPassesSettleEverything(s, w, first, second);
    } else {
      ShortfallSticks(s, w, first);
      ShortfallSticks(Pass(s, w, first), w, second);
    }
  }

  // ----- overlapping executions -----

  function Now(): GetReply { Answer(ShownReversed, 0) }

  lemma CountedTwo(a: Row, b: Row)
    ensures CountedSum([]) == 0 && CountedSum([a]) == Money()(a) && CountedSum([a, b]) == Money()(a) + Money()(b)
  {
    assert [a, b] == [a] + [b] && [a] == [] + [a];
    Append([], a, Money());
    Append([a], b, Money());
  }

  lemma CoveredTwo(a: Row, b: Row, taken: set<nat>)
    ensures Covered([a, b], taken) == CoveredShare(a, 0, taken) + CoveredShare(b, 1, taken)
  {
    assert [a, b][..1] == [a] && [a][..0] == [];
    assert Covered([a], taken) == Covered([a][..0], taken) + CoveredShare(a, 0, taken);
  }

  lemma Then(s: State, steps: seq<Step>, step: Step) returns (more: seq<Step>)
    ensures Run(s, more) == Next(Run(s, steps), step)
  {
    hide Next;
    more := steps + [step];
    RunConcat(s, steps, [step]);
    assert [step][1..] == [];
  }

  function Opened(): State { State([], map[], 2, 0, {}) }

  function Asked(status: Status, tried: bool): Row { Row(status, Some(1), tried, tried) }

  lemma OverlapClaims() returns (steps: seq<Step>)
    ensures var s := Run(Opened(), steps);
      && s.rows == [Asked(Processing, false)] && s.charge == 2 && s.reversal == 0 && s.taken == {}
      && At(s, 0) == Claimed(0, false) && At(s, 1) == Idle
  {
    var o := Opened();
    steps := [];
    assert Run(o, steps) == o;
    hide Run;
    assert CountedSum([]) == 0;
    steps := Then(o, steps, Approve(Some(1)));
    assert Run(o, steps).rows == [Asked(Approved, false)];
    hide ApproveStep;
    hide CountedSum;
    steps := Then(o, steps, Load(0, 0, true));
    assert At(Run(o, steps), 0) == Loaded(0, Approved, false);
    hide LoadStep;
    steps := Then(o, steps, Claim(0));
  }

  /** The first request's job reads the sum before the second request is approved. */
  lemma OverlapBegins() returns (steps: seq<Step>)
    ensures var s := Run(Opened(), steps);
      && s.rows == [Asked(Processing, false), Asked(Approved, false)] && s.charge == 2 && s.reversal == 0 && s.taken == {}
      && At(s, 0) == Reversing(0, 1) && At(s, 1) == Idle
  {
    var o := Opened();
    steps := OverlapClaims();
    hide Run;
    CountedTwo(Asked(Processing, false), Asked(Approved, false));
    hide CountedSum;
    steps := Then(o, steps, Get(0, Now()));
    assert At(Run(o, steps), 0) == Seen(0, false, ShownApproved, 0);
    hide GetStep;
    steps := Then(o, steps, ReadExpected(0));
    assert At(Run(o, steps), 0) == Reversing(0, 1);
    hide ReadStep;
    steps := Then(o, steps, Approve(Some(1)));
  }

  /** Meanwhile the second request's job reads both, and reverses its own amount. */
  lemma OverlapReverses() returns (steps: seq<Step>)
    ensures var s := Run(Opened(), steps);
      && s.rows == [Asked(Processing, false), Asked(Processing, true)] && s.charge == 2 && s.reversal == 1 && s.taken == {1}
      && At(s, 0) == Reversing(0, 1)
  {
    var o := Opened();
    steps := OverlapReads();
    hide Run;
    steps := Then(o, steps, Reverse(1, true, Confirmed));
    assert At(Run(o, steps), 1) == Noting(1, 2, true);
    hide ReverseStep;
    steps := Then(o, steps, Note(1));
    assert At(Run(o, steps), 1) == Checking(1, 2, true);
    hide NoteStep;
    steps := Then(o, steps, Get(1, Now()));
    assert At(Run(o, steps), 1) == Waiting(1);
    hide GetStep;
    steps := Then(o, steps, Await(1));
  }

  lemma OverlapReads() returns (steps: seq<Step>)
    ensures var s := Run(Opened(), steps);
      && s.rows == [Asked(Processing, false), Asked(Processing, false)] && s.charge == 2 && s.reversal == 0 && s.taken == {}
      && At(s, 0) == Reversing(0, 1) && At(s, 1) == Reversing(1, 2)
  {
    var o := Opened();
    steps := OverlapBegins();
    hide Run;
    CountedTwo(Asked(Processing, false), Asked(Processing, false));
    hide CountedSum;
    steps := Then(o, steps, Load(1, 1, true));
    assert At(Run(o, steps), 1) == Loaded(1, Approved, false);
    hide LoadStep;
    steps := Then(o, steps, Claim(1));
    assert At(Run(o, steps), 1) == Claimed(1, false) && Run(o, steps).rows == [Asked(Processing, false), Asked(Processing, false)];
    hide ClaimStep;
    steps := Then(o, steps, Get(1, Now()));
    assert At(Run(o, steps), 1) == Seen(1, false, ShownApproved, 0);
    hide GetStep;
    steps := Then(o, steps, ReadExpected(1));
  }

  /**
   * The first job, whose own call failed, then takes that reversal for its own: two overlapping
   * executions can leave a request that no later execution settles. The run has two requests of
   * one payment open at once, which the API admits only when their creations race.
   */
  lemma OverlapFallsShort() returns (steps: seq<Step>)
    ensures Start(Opened(), 0) && Short(Run(Opened(), steps), 0)
    ensures |Run(Opened(), steps).rows| == 2 && Due(Run(Opened(), steps), 1)
  {
    var o := Opened();
    steps := OverlapReverses();
    hide Run;
    steps := Then(o, steps, Reverse(0, false, Ambiguous));
    assert At(Run(o, steps), 0) == Noting(0, 1, false);
    hide ReverseStep;
    steps := Then(o, steps, Note(0));
    assert At(Run(o, steps), 0) == Checking(0, 1, false);
    hide NoteStep;
    steps := Then(o, steps, Get(0, Now()));
    assert At(Run(o, steps), 0) == Refunding(0);
    hide GetStep;
    steps := Then(o, steps, Settle(0, true));
    var s := Run(o, steps);
    assert s.rows == [Row(Refunded, Some(1), true, false), Asked(Processing, true)];
    ShortPair(s);
  }

  lemma ShortPair(s: State)
    requires s.rows == [Row(Refunded, Some(1), true, false), Asked(Processing, true)]
    requires s.charge == 2 && s.reversal == 1 && s.taken == {1} && At(s, 0) == Idle
    ensures Short(s, 0)
  {
    CountedTwo(s.rows[0], s.rows[1]);
    CoveredTwo(s.rows[0], s.rows[1], s.taken);
  }
}

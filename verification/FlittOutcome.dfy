/** What one Flitt execution makes of its request, for every answer and reply; and what a refunded request proves. */
module FlittOutcome {
  import opened Wrappers
  import opened Sums
  import opened CreditBooks
  import opened RefundRow
  import opened FlittMachine
  import opened FlittConvergence

  ghost predicate UnderWay(row: Row) { row.status == Approved || row.status == Processing }

  ghost predicate Payable(s: State, w: nat, i: nat, x: Script) {
    At(s, w) == Idle && i < |s.rows| && UnderWay(s.rows[i]) && s.rows[i].amount.Some? && x.purchaseOk
  }

  ghost function Taken(row: Row): Row { row.(status := Processing) }

  /** Paid: refunded if the books take it, else under review. */
  ghost function Paid(row: Row, local: bool): Row {
    if local then row.(status := Refunded, reference := true, marked := false) else row.(status := NeedsReview, marked := false)
  }

  /** The order shows the whole charge reversed, or at least everything that is counted. */
  ghost predicate ShowsEnough(s: State, answer: GetReply, counted: int) {
    answer.Answer? && (ShownBy(s, answer) == ShownReversed || (counted > 0 && s.charge > 0 && ReversalBy(s, answer) >= counted))
  }

  /** The order still shows the charge as approved, with less reversed than is counted. */
  ghost predicate ShowsLess(s: State, answer: GetReply, counted: int) {
    answer.Answer? && ShownBy(s, answer) == ShownApproved && ReversalBy(s, answer) < counted
  }

  /** The row changes, the worker is free again, and nothing else happens. */
  ghost predicate OnlyRow(s: State, w: nat, i: nat, row: Row, after: State) {
    && i < |s.rows| && after.rows == s.rows[i := row] && At(after, w) == Idle
    && after.charge == s.charge && after.reversal == s.reversal && after.taken == s.taken
  }

  lemma CountedWhenTaken(s: State, i: nat)
    requires i < |s.rows| && UnderWay(s.rows[i])
    ensures CountedSum(s.rows[i := Taken(s.rows[i])]) == CountedSum(s.rows)
  {
    Update(s.rows, i, Taken(s.rows[i]), Money());
  }

  /** Without an amount or a payment to reverse the request fails, before any call. */
  lemma UnpayableJob(s: State, w: nat, i: nat, x: Script)
    requires At(s, w) == Idle && i < |s.rows| && UnderWay(s.rows[i]) && (s.rows[i].amount.None? || !x.purchaseOk)
    ensures OnlyRow(s, w, i, s.rows[i].(status := Failed, marked := false), Job(s, w, i, x))
  {
    var loaded := LoadStep(s, w, i, x.purchaseOk);
    assert At(loaded, w) == Failing(i) && loaded.rows == s.rows;
    hide LoadStep;
  }

  /** Where the worker stands once it has claimed the request, looked at the order and summed up. */
  lemma Began(s: State, w: nat, i: nat, x: Script)
    requires Payable(s, w, i, x)
    ensures var b := Begin(s, w, i, x);
      && b.rows == s.rows[i := Taken(s.rows[i])] && b.charge == s.charge && b.reversal == s.reversal && b.taken == s.taken
      && At(b, w) == match x.first
                     case GetNetworkError => Idle
                     case GetFailed => Reviewing(i, false)
                     case Answer(_, _) =>
                       if ShowsEnough(s, x.first, CountedSum(s.rows)) then Refunding(i)
                       else if (s.rows[i].reference || s.rows[i].marked) && !ShowsLess(s, x.first, CountedSum(s.rows)) then Reviewing(i, false)
                       else Reversing(i, CountedSum(s.rows))
  {
    CountedWhenTaken(s, i);
    var attempted := s.rows[i].reference || s.rows[i].marked;
    var loaded := LoadStep(s, w, i, true);
    assert At(loaded, w) == Loaded(i, s.rows[i].status, attempted) && loaded.rows == s.rows;
    var c := ClaimStep(loaded, w);
    assert At(c, w) == Claimed(i, attempted) && c.rows == s.rows[i := Taken(s.rows[i])];
    hide LoadStep;
    hide ClaimStep;
    hide CountedSum;
    var g := GetStep(c, w, x.first);
    assert g.rows == c.rows && g.charge == c.charge && g.reversal == c.reversal && g.taken == c.taken;
    assert x.first.Answer? ==> At(g, w) == Seen(i, attempted, ShownBy(s, x.first), ReversalBy(s, x.first));
  }

  /** From a place with only the last write left, that write is all that happens. */
  lemma Ended(b: State, w: nat, i: nat, x: Script)
    requires At(b, w) == Idle || (i < |b.rows| && b.rows[i].status == Processing && (At(b, w) == Refunding(i) || At(b, w).Reviewing? || At(b, w).Failing?))
    requires At(b, w).Reviewing? || At(b, w).Failing? ==> At(b, w).request == i
    ensures var after := End(b, w, x);
      && At(after, w) == Idle && after.charge == b.charge && after.reversal == b.reversal && after.taken == b.taken
      && after.rows == match At(b, w)
                       case Refunding(_) => b.rows[i := Paid(b.rows[i], x.local)]
                       case Reviewing(_, marked) => b.rows[i := b.rows[i].(status := NeedsReview, marked := marked)]
                       case Failing(_) => b.rows[i := b.rows[i].(status := Failed, marked := false)]
                       case _ => b.rows
  {
  }

  lemma NoAttempt(b: State, w: nat, x: Script)
    requires At(b, w) == Idle || At(b, w).Refunding? || At(b, w).Reviewing? || At(b, w).Failing?
    ensures Attempt(b, w, x) == b
  {
  }

  /** The first look settles the matter by itself. */
  ghost predicate SettledByLook(s: State, i: nat, answer: GetReply)
    requires i < |s.rows|
  {
    !answer.Answer? || ShowsEnough(s, answer, CountedSum(s.rows)) || ((s.rows[i].reference || s.rows[i].marked) && !ShowsLess(s, answer, CountedSum(s.rows)))
  }

  /**
   * Without a reverse: an order that shows enough reversed closes the request, a network error
   * leaves it for the next execution, and everything else goes to review; so does an order that,
   * after an earlier attempt, does not plainly show that more is to be reversed.
   */
  lemma LookedJob(s: State, w: nat, i: nat, x: Script)
    requires Payable(s, w, i, x) && SettledByLook(s, i, x.first)
    ensures OnlyRow(s, w, i,
                    if ShowsEnough(s, x.first, CountedSum(s.rows)) then Paid(s.rows[i], x.local)
                    else if x.first == GetNetworkError then Taken(s.rows[i])
                    else s.rows[i].(status := NeedsReview, marked := false),
                    Job(s, w, i, x))
  {
    Began(s, w, i, x);
    var b := Begin(s, w, i, x);
    hide Begin;
    hide CountedSum;
    hide ShowsEnough;
    hide ShowsLess;
    NoAttempt(b, w, x);
    hide Attempt;
    Ended(b, w, i, x);
    hide End;
  }

  // ----- a reverse call -----

  /** The order after a reverse the provider booked, or did not. */
  ghost predicate Booked(s: State, i: nat, takes: bool, after: State)
    requires i < |s.rows| && s.rows[i].amount.Some?
  {
    var amount := s.rows[i].amount.value;
    && after.charge == s.charge
    && if takes && i !in s.taken && s.reversal + amount <= s.charge
       then after.reversal == s.reversal + amount && after.taken == s.taken + {i}
       else after.reversal == s.reversal && after.taken == s.taken
  }

  /** Nothing to reverse: the request fails without a call. */
  lemma NothingToReverse(s: State, w: nat, i: nat, x: Script)
    requires Payable(s, w, i, x) && !SettledByLook(s, i, x.first) && s.rows[i].amount.value == 0
    ensures OnlyRow(s, w, i, s.rows[i].(status := Failed, marked := false), Job(s, w, i, x))
  {
    Began(s, w, i, x);
    var b := Begin(s, w, i, x);
    hide Begin;
    hide CountedSum;
    hide ShowsEnough;
    hide ShowsLess;
    var r := ReverseStep(b, w, x.takes, x.reverse);
    assert At(r, w) == Failing(i) && r.rows == b.rows;
    assert Attempt(b, w, x) == r;
    hide Attempt;
    Ended(r, w, i, x);
    hide End;
  }

  ghost predicate Reverses(s: State, w: nat, i: nat, x: Script) {
    Payable(s, w, i, x) && !SettledByLook(s, i, x.first) && s.rows[i].amount.value > 0
  }

  lemma BeganReversing(s: State, w: nat, i: nat, x: Script)
    requires Payable(s, w, i, x) && !SettledByLook(s, i, x.first)
    ensures var b := Begin(s, w, i, x);
      b.rows == s.rows[i := Taken(s.rows[i])] && SameOrder(b, s) && At(b, w) == Reversing(i, CountedSum(s.rows))
  {
    Began(s, w, i, x);
    hide Begin;
    hide CountedSum;
    hide ShowsEnough;
    hide ShowsLess;
  }

  /** A rejected reverse fails the request, an unexpected one sends it to review; neither looks again. */
  lemma RefusedJob(s: State, w: nat, i: nat, x: Script)
    requires Reverses(s, w, i, x) && (x.reverse == ReverseReply.Rejected || x.reverse == Unexpected)
    ensures var after := Job(s, w, i, x);
      && Booked(s, i, x.takes, after) && At(after, w) == Idle
      && after.rows == s.rows[i := s.rows[i].(status := if x.reverse == Unexpected then NeedsReview else Failed, marked := false)]
  {
    BeganReversing(s, w, i, x);
    var b := Begin(s, w, i, x);
    RefusedReverse(b, w, i, CountedSum(s.rows), x);
    var r := Attempt(b, w, x);
    hide Begin;
    hide Attempt;
    hide CountedSum;
    hide SettledByLook;
    Ended(r, w, i, x);
    hide End;
  }

  lemma RefusedReverse(b: State, w: nat, i: nat, expected: nat, x: Script)
    requires i < |b.rows| && b.rows[i].amount.Some? && b.rows[i].amount.value > 0
    requires At(b, w) == Reversing(i, expected) && (x.reverse == ReverseReply.Rejected || x.reverse == Unexpected)
    ensures var a := Attempt(b, w, x);
      a.rows == b.rows && Booked(b, i, x.takes, a) && At(a, w) == if x.reverse == Unexpected then Reviewing(i, false) else Failing(i)
  {
    var r := ReverseStep(b, w, x.takes, x.reverse);
    assert r.rows == b.rows && Booked(b, i, x.takes, r) && At(r, w) == if x.reverse == Unexpected then Reviewing(i, false) else Failing(i);
    hide ReverseStep;
  }

  ghost predicate SameOrder(a: State, b: State) { a.charge == b.charge && a.reversal == b.reversal && a.taken == b.taken }

  /** The attempt is noted, and the order looked at once more. */
  lemma Attempting(b: State, w: nat, i: nat, expected: nat, x: Script)
    requires i < |b.rows| && b.rows[i].status == Processing && b.rows[i].amount.Some? && b.rows[i].amount.value > 0
    requires At(b, w) == Reversing(i, expected) && (x.reverse == Confirmed || x.reverse == Ambiguous)
    ensures var a := Attempt(b, w, x);
      var ok := x.reverse == Confirmed;
      var noted := if ok then b.rows[i].(reference := true) else b.rows[i].(marked := true);
      && Booked(b, i, x.takes, a)
      && (if !x.second.Answer? then At(a, w) == Reviewing(i, !ok) && a.rows == b.rows[i := noted]
          else if ShowsEnough(a, x.second, expected) then At(a, w) == Refunding(i) && a.rows == b.rows[i := noted]
          else At(a, w) == Idle && a.rows == b.rows[i := if ok then noted.(marked := true) else noted])
  {
    var ok := x.reverse == Confirmed;
    var r := ReverseStep(b, w, x.takes, x.reverse);
    assert At(r, w) == Noting(i, expected, ok) && r.rows == b.rows && Booked(b, i, x.takes, r);
    hide ReverseStep;
    var n := NoteStep(r, w);
    assert At(n, w) == Checking(i, expected, ok) && SameOrder(n, r);
    assert n.rows == b.rows[i := if ok then b.rows[i].(reference := true) else b.rows[i].(marked := true)];
    hide NoteStep;
    var g := GetStep(n, w, x.second);
    assert g.rows == n.rows && SameOrder(g, r);
    assert At(g, w) == if !x.second.Answer? then Reviewing(i, !ok) else if ShowsEnough(g, x.second, expected) then Refunding(i) else if ok then Waiting(i) else Idle;
    hide GetStep;
    var a := AwaitStep(g, w);
    assert SameOrder(a, r) && ShowsEnough(a, x.second, expected) == ShowsEnough(g, x.second, expected);
  }

  /** What the second look makes of a request whose attempt is noted. */
  ghost function AfterSecondLook(noted: Row, enough: bool, x: Script): Row {
    if !x.second.Answer? then noted.(status := NeedsReview, marked := x.reverse != Confirmed)
    else if enough then Paid(noted, x.local)
    else if x.reverse == Confirmed then noted.(marked := true)
    else noted
  }

  lemma Reversed(b: State, w: nat, i: nat, expected: nat, x: Script)
    requires i < |b.rows| && b.rows[i].status == Processing && b.rows[i].amount.Some? && b.rows[i].amount.value > 0
    requires At(b, w) == Reversing(i, expected) && (x.reverse == Confirmed || x.reverse == Ambiguous)
    ensures var after := End(Attempt(b, w, x), w, x);
      var noted := if x.reverse == Confirmed then b.rows[i].(reference := true) else b.rows[i].(marked := true);
      && Booked(b, i, x.takes, after) && At(after, w) == Idle
      && after.rows == b.rows[i := AfterSecondLook(noted, ShowsEnough(after, x.second, expected), x)]
  {
    Attempting(b, w, i, expected, x);
    var a := Attempt(b, w, x);
    hide Attempt;
    Ended(a, w, i, x);
    var after := End(a, w, x);
    hide End;
    ShowsTheSame(a, after, x.second, expected);
    BookedTheSame(b, b, i, x.takes, a, after);
    hide ShowsEnough;
    hide Booked;
  }

  /**
   * After a reverse that was confirmed, or whose answer was ambiguous, the attempt is on record and
   * the order is looked at once more: enough reversed closes the request, no answer sends it to
   * review, and otherwise it waits for the next execution.
   */
  lemma ReversedJob(s: State, w: nat, i: nat, x: Script)
    requires Reverses(s, w, i, x) && (x.reverse == Confirmed || x.reverse == Ambiguous)
    ensures var after := Job(s, w, i, x);
      var noted := if x.reverse == Confirmed then Taken(s.rows[i]).(reference := true) else Taken(s.rows[i]).(marked := true);
      && Booked(s, i, x.takes, after) && At(after, w) == Idle
      && after.rows == s.rows[i := AfterSecondLook(noted, ShowsEnough(after, x.second, CountedSum(s.rows)), x)]
  {
    BeganReversing(s, w, i, x);
    var b := Begin(s, w, i, x);
    hide Begin;
    hide CountedSum;
    hide SettledByLook;
    Reversed(b, w, i, CountedSum(s.rows), x);
    hide Attempt;
    hide End;
    var after := Job(s, w, i, x);
    BookedTheSame(s, b, i, x.takes, after, after);
    hide ShowsEnough;
    hide Booked;
  }

  lemma ShowsTheSame(a: State, b: State, answer: GetReply, counted: int)
    requires SameOrder(a, b)
    ensures ShowsEnough(a, answer, counted) == ShowsEnough(b, answer, counted)
  {
  }

  lemma BookedTheSame(s: State, b: State, i: nat, takes: bool, a: State, after: State)
    requires i < |s.rows| && i < |b.rows| && s.rows[i].amount.Some? && b.rows[i].amount == s.rows[i].amount
    requires SameOrder(s, b) && SameOrder(a, after) && Booked(b, i, takes, a)
    ensures Booked(s, i, takes, after)
  {
  }

  // ----- steps that meet other executions -----

  /** A worker whose request was claimed by another goes on as well; if the request has ended meanwhile, it stops and writes nothing. */
  lemma LateClaim(s: State, w: nat, i: nat, attempted: bool)
    requires At(s, w) == Loaded(i, Approved, attempted) && i < |s.rows| && s.rows[i].status != Approved
    ensures ClaimStep(s, w) == Go(s, w, if s.rows[i].status == Processing then Claimed(i, attempted) else Idle)
  {
  }

  /** Waiting leaves both markers, and only on a request that is still processing. */
  lemma WaitingMarks(s: State, w: nat, i: nat)
    requires At(s, w) == Waiting(i) && i < |s.rows|
    ensures AwaitStep(s, w) == if s.rows[i].status == Processing then Go(Write(s, i, s.rows[i].(reference := true, marked := true)), w, Idle) else Go(s, w, Idle)
  {
  }

  /** Approval goes through exactly when the counted amounts and the new one fit the charge. */
  lemma ApprovalFits(s: State, amount: Option<nat>)
    ensures var total := CountedSum(s.rows + [Row(Approved, amount, false, false)]);
      ApproveStep(s, amount) == if total <= s.charge then s.(rows := s.rows + [Row(Approved, amount, false, false)]) else s
  {
    Append(s.rows, Row(Approved, amount, false, false), Money());
  }
}

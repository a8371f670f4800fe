/**
 * TBC refunds of one request when executions overlap: any number of workers, each reading the row,
 * claiming it, and then going on as one execution does alone.
 */
module TbcOverlap {
  import opened Wrappers
  import opened CreditBooks
  import opened RefundRow
  import opened TbcRefund

  /** A worker remembers the status and the markers it read, however long ago. */
  datatype Worker = Loaded(was: Status, attempted: bool) | In(phase: Phase)

  datatype Desk = Desk(row: Row, workers: map<nat, Worker>, cancels: nat)

  datatype Move =
    | Read(worker: nat, purchaseOk: bool)
    | Claim(worker: nat)
    | Work(worker: nat, step: Step)

  function WorkerAt(d: Desk, w: nat): Worker { if w in d.workers then d.workers[w] else In(Idle) }

  function Put(d: Desk, w: nat, worker: Worker): Desk { d.(workers := d.workers[w := worker]) }

  function ReadMove(d: Desk, w: nat, purchaseOk: bool): Desk {
    if WorkerAt(d, w) != In(Idle) || !InFlight(d.row.status) then d
    else if d.row.amount.None? || !purchaseOk then Put(d, w, In(Failing))
    else Put(d, w, Loaded(d.row.status, Attempted(d.row)))
  }

  /** Take an approved request; whoever read it as processing, or finds it so now, goes on as well. */
  function ClaimMove(d: Desk, w: nat): Desk {
    match WorkerAt(d, w)
    case Loaded(was, attempted) =>
      if was == Processing || d.row.status == Processing then Put(d, w, In(Claimed(attempted)))
      else if d.row.status == Approved then Put(d.(row := d.row.(status := Processing)), w, In(Claimed(attempted)))
      else Put(d, w, In(Idle))
    case In(_) => d
  }

  /** The steps after the claim, and a crash at any point. */
  function WorkMove(d: Desk, w: nat, step: Step): Desk {
    match WorkerAt(d, w)
    case Loaded(_, _) => if step.Crash? then Put(d, w, In(Idle)) else d
    case In(phase) =>
      if step.Load? then d
      else
        var s := Next(State(d.row, phase, d.cancels, 0, 0), step);
        Put(Desk(s.row, d.workers, s.cancels), w, In(s.phase))
  }

  function Do(d: Desk, move: Move): Desk {
    match move
    case Read(w, purchaseOk) => ReadMove(d, w, purchaseOk)
    case Claim(w) => ClaimMove(d, w)
    case Work(w, step) => WorkMove(d, w, step)
  }

  function DoAll(d: Desk, moves: seq<Move>): Desk
    decreases |moves|
  {
    if |moves| == 0 then d else DoAll(Do(d, moves[0]), moves[1..])
  }

  // ----- a worker alone is the execution of one request -----

  /** With one worker, reading and claiming are the load of the single execution. */
  lemma AloneIsSequential(d: Desk, w: nat, purchaseOk: bool, s: State)
    requires WorkerAt(d, w) == In(Idle) && s.row == d.row && s.phase == Idle
    ensures var after := ClaimMove(ReadMove(d, w, purchaseOk), w);
      after.row == LoadStep(s, purchaseOk).row && WorkerAt(after, w) == In(LoadStep(s, purchaseOk).phase)
  {
  }

  /** A worker that loses the claim, ends or dies is free again; a lost claim and a death change no row and call nobody. */
  lemma WorkerIsFreed(d: Desk, w: nat, local: bool)
    ensures WorkerAt(WorkMove(d, w, Crash), w) == In(Idle) && WorkMove(d, w, Crash).row == d.row && WorkMove(d, w, Crash).cancels == d.cancels
    ensures WorkerAt(d, w).Loaded? && WorkerAt(d, w).was != Processing && d.row.status != Approved && d.row.status != Processing ==>
      ClaimMove(d, w) == Put(d, w, In(Idle))
    ensures WorkerAt(d, w) == In(Refunding) || (WorkerAt(d, w).In? && WorkerAt(d, w).phase.Reviewing?) || WorkerAt(d, w) == In(Failing) ==>
      WorkerAt(WorkMove(d, w, Finish(local)), w) == In(Idle)
  {
  }

  ghost predicate UnderWay(row: Row) { row.status == Approved || row.status == Processing }

  lemma EndedStays(d: Desk, move: Move)
    requires !UnderWay(d.row)
    ensures Do(d, move).row == d.row
  {
  }

  /** However executions overlap: a request that has ended is never touched again. */
  lemma {:induction false} EndedRowStays(d: Desk, moves: seq<Move>)
    requires !UnderWay(d.row)
    ensures DoAll(d, moves).row == d.row
    decreases |moves|
  {
    hide Do;
    if |moves| > 0 {
      EndedStays(d, moves[0]);
      EndedRowStays(Do(d, moves[0]), moves[1..]);
    }
  }

  // ----- exactly when the payment is cancelled once more -----

  /** The worker will cancel, or would if it went on now. */
  predicate Threatens(row: Row, worker: Worker) {
    match worker
    case Loaded(was, attempted) => !attempted && (was == Processing || InFlight(row.status))
    case In(phase) => phase == Cancelling || phase == Claimed(false)
  }

  ghost predicate Threatened(d: Desk) { exists w :: w in d.workers && Threatens(d.row, d.workers[w]) }

  predicate NoCrash(moves: seq<Move>) { forall i :: 0 <= i < |moves| ==> !(moves[i].Work? && moves[i].step.Crash?) }

  lemma QuietMove(d: Desk, move: Move)
    requires !MayCancel(d.row) && !Threatened(d)
    ensures var after := Do(d, move); after.cancels == d.cancels && !MayCancel(after.row) && !Threatened(after)
  {
    assert !Threatens(d.row, WorkerAt(d, move.worker));
    var after := Do(d, move);
    assert !Threatens(after.row, WorkerAt(after, move.worker));
    forall w | w in after.workers ensures !Threatens(after.row, after.workers[w]) {
      if w != move.worker { assert w in d.workers && !Threatens(d.row, d.workers[w]); }
    }
  }

  lemma {:induction false} QuietForGood(d: Desk, moves: seq<Move>)
    requires !MayCancel(d.row) && !Threatened(d)
    ensures DoAll(d, moves).cancels == d.cancels
    decreases |moves|
  {
    hide Do;
    if |moves| > 0 {
      QuietMove(d, moves[0]);
      QuietForGood(Do(d, moves[0]), moves[1..]);
    }
  }

  lemma {:induction false} FreeWorker(busy: set<nat>) returns (w: nat)
    ensures w !in busy && forall k :: k in busy ==> k < w
    decreases |busy|
  {
    w := 0;
    if busy != {} {
      var k :| k in busy;
      var v := FreeWorker(busy - {k});
      w := if k < v then v else k + 1;
      forall j | j in busy ensures j < w { assert j == k || j in busy - {k}; }
    }
  }

  function FromClaim(w: nat): seq<Move> { [Claim(w), Work(w, Get(Details(Succeeded))), Work(w, Cancel(Confirmed))] }

  lemma DoThree(d: Desk, a: Move, b: Move, c: Move)
    ensures DoAll(d, [a, b, c]) == Do(Do(Do(d, a), b), c)
  {
    hide Do;
    var moves := [a, b, c];
    assert moves[1..] == [b, c] && [b, c][1..] == [c] && [c][1..] == [];
    assert DoAll(Do(d, a), [b, c]) == DoAll(Do(Do(d, a), b), [c]);
    assert DoAll(Do(Do(d, a), b), [c]) == DoAll(Do(Do(Do(d, a), b), c), []);
  }

  /** A threatening worker cancels as soon as it goes on and finds the payment neither returned nor being cancelled. */
  lemma ThreatCancels(d: Desk, w: nat)
    requires Threatens(d.row, WorkerAt(d, w))
    ensures var after := DoAll(d, FromClaim(w));
      && after.cancels == d.cancels + 1 && NoCrash(FromClaim(w))
      && (InFlight(d.row.status) ==> InFlight(after.row.status)) && (forall v :: v != w ==> WorkerAt(after, v) == WorkerAt(d, v))
  {
    DoThree(d, Claim(w), Work(w, Get(Details(Succeeded))), Work(w, Cancel(Confirmed)));
    var claimed := ClaimMove(d, w);
    assert Threatens(claimed.row, WorkerAt(claimed, w)) && WorkerAt(claimed, w).In?;
    hide ClaimMove;
  }

  lemma {:induction false} DoConcat(d: Desk, first: seq<Move>, second: seq<Move>)
    ensures DoAll(d, first + second) == DoAll(DoAll(d, first), second)
    decreases |first|
  {
    hide Do;
    if |first| == 0 {
      assert first + second == second;
    } else {
      assert (first + second)[1..] == first[1..] + second;
      DoConcat(Do(d, first[0]), first[1..], second);
    }
  }

  lemma DoOne(d: Desk, move: Move)
    ensures DoAll(d, [move]) == Do(d, move)
  {
    hide Do;
    assert [move][1..] == [];
  }

  lemma CancelFollows(d: Desk) returns (moves: seq<Move>)
    requires MayCancel(d.row) || Threatened(d)
    ensures NoCrash(moves) && DoAll(d, moves).cancels > d.cancels
  {
    hide DoAll;
    if MayCancel(d.row) {
      var w := FreeWorker(d.workers.Keys);
      DoOne(d, Read(w, true));
      ThreatCancels(Do(d, Read(w, true)), w);
      DoConcat(d, [Read(w, true)], FromClaim(w));
      moves := [Read(w, true)] + FromClaim(w);
    } else {
      var w :| w in d.workers && Threatens(d.row, d.workers[w]);
      ThreatCancels(d, w);
      moves := FromClaim(w);
    }
  }

  /**
   * One more cancel can follow, with or without crashes, exactly when the row still looks
   * uncancelled or some worker that read it so has not cancelled yet.
   */
  lemma OverlapsCancelAgainExactly(d: Desk)
    ensures (exists moves: seq<Move> :: DoAll(d, moves).cancels > d.cancels) <==> MayCancel(d.row) || Threatened(d)
    ensures (exists moves: seq<Move> :: NoCrash(moves) && DoAll(d, moves).cancels > d.cancels) <==> MayCancel(d.row) || Threatened(d)
  {
    if MayCancel(d.row) || Threatened(d) {
      var moves := CancelFollows(d);
    } else {
      forall moves: seq<Move> ensures DoAll(d, moves).cancels == d.cancels { QuietForGood(d, moves); }
    }
  }

  /** Two executions that both read the request before either recorded its call: two cancels without any crash. */
  lemma OverlapCancelsTwice() returns (moves: seq<Move>)
    ensures var start := Desk(Row(Approved, Some(1), false, false), map[], 0);
      DoAll(start, moves).cancels == 2 && NoCrash(moves)
  {
    var start := Desk(Row(Approved, Some(1), false, false), map[], 0);
    var both := [Read(0, true)] + [Read(1, true)];
    var second := Do(Do(start, Read(0, true)), Read(1, true));
    DoOne(start, Read(0, true));
    DoOne(Do(start, Read(0, true)), Read(1, true));
    DoConcat(start, [Read(0, true)], [Read(1, true)]);
    assert forall w :: w == 0 || w == 1 ==> WorkerAt(second, w) == Loaded(Approved, false);
    hide Do;
    hide DoAll;
    hide WorkerAt;
    ThreatCancels(second, 0);
    ThreatCancels(DoAll(second, FromClaim(0)), 1);
    DoConcat(second, FromClaim(0), FromClaim(1));
    DoConcat(start, both, FromClaim(0) + FromClaim(1));
    moves := both + (FromClaim(0) + FromClaim(1));
  }

  // ----- refunded means returned -----

  /** A worker read an answer that showed the payment returned, while it still mattered. */
  ghost predicate Heard(d: Desk, move: Move) {
    && move.Work? && move.step.Get? && (move.step.answer == Details(Returned) || move.step.answer == Details(PartialReturned))
    && WorkerAt(d, move.worker).In? && (WorkerAt(d, move.worker).phase.Claimed? || WorkerAt(d, move.worker).phase.Checking?)
  }

  ghost predicate HeardIn(d: Desk, moves: seq<Move>) { exists i :: 0 <= i < |moves| && Heard(DoAll(d, moves[..i]), moves[i]) }

  /** Some worker is about to record a refund, or one was recorded. */
  ghost predicate RefundNear(d: Desk) { d.row.status == Refunded || exists w :: w in d.workers && d.workers[w] == In(Refunding) }

  lemma RefundComesNear(d: Desk, move: Move)
    requires !RefundNear(d) && RefundNear(Do(d, move))
    ensures Heard(d, move)
  {
    assert WorkerAt(d, move.worker) != In(Refunding);
  }

  lemma {:induction false} RefundNearHeard(d: Desk, moves: seq<Move>)
    requires !RefundNear(d) && RefundNear(DoAll(d, moves))
    ensures HeardIn(d, moves)
    decreases |moves|
  {
    hide RefundNear;
    if |moves| > 0 {
      var n := |moves| - 1;
      assert moves == moves[..n] + [moves[n]];
      DoConcat(d, moves[..n], [moves[n]]);
      DoOne(DoAll(d, moves[..n]), moves[n]);
      hide Do;
      if RefundNear(DoAll(d, moves[..n])) {
        RefundNearHeard(d, moves[..n]);
        var i :| 0 <= i < n && Heard(DoAll(d, moves[..n][..i]), moves[..n][i]);
        assert moves[..n][..i] == moves[..i] && Heard(DoAll(d, moves[..i]), moves[i]);
      } else {
        RefundComesNear(DoAll(d, moves[..n]), moves[n]);
      }
    }
  }

  /** However executions overlap: the request becomes refunded only after one of them read the payment as returned. */
  lemma RefundedMeansReturned(d: Desk, moves: seq<Move>)
    requires d.row.status != Refunded && d.workers == map[] && DoAll(d, moves).row.status == Refunded
    ensures HeardIn(d, moves)
  {
    RefundNearHeard(d, moves);
  }
}

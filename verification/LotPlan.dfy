/** First-in-first-out consumption plans over grant lots. */
module LotPlan {
  import opened Wrappers
  import opened Sums
  import opened Sorting

  /** What a plan reads of a lot row; `id` is the row's identity. */
  datatype Snapshot = Snapshot(id: nat, remaining: int, createdAt: int)

  datatype Draw = Draw(lot: nat, amount: int)

  datatype Plan = Plan(unlottedUsed: int, draws: seq<Draw>)

  function Min(a: int, b: int): int { if a <= b then a else b }

  function Max(a: int, b: int): int { if a <= b then b else a }

  /** Reserved units stay spendable, so only `remaining` matters. */
  function Available(lot: Snapshot): int { Max(0, lot.remaining) }

  function AvailableOf(): Snapshot -> int { (lot: Snapshot) => Available(lot) }

  function DrawAmount(): Draw -> int { (d: Draw) => d.amount }

  /** Units a list of draws takes from one lot. */
  function FromLot(lot: nat): Draw -> int { (d: Draw) => if d.lot == lot then d.amount else 0 }

  function Drawn(draws: seq<Draw>, lot: nat): int { Sum(draws, FromLot(lot)) }

  function CreatedAt(): Snapshot -> int { (lot: Snapshot) => lot.createdAt }

  ghost predicate DistinctIds(lots: seq<Snapshot>) {
    forall i, j :: 0 <= i < j < |lots| ==> lots[i].id != lots[j].id
  }

  /** The stable sort by creation time. */
  function SortByAge(lots: seq<Snapshot>): seq<Snapshot> { SortBy(lots, CreatedAt()) }

  /** Draw `need` units from lots taken front to back. */
  function DrawFrom(lots: seq<Snapshot>, need: int): seq<Draw> {
    if |lots| == 0 || need <= 0 then []
    else
      var take := Min(Available(lots[0]), need);
      if take <= 0 then DrawFrom(lots[1..], need)
      else [Draw(lots[0].id, take)] + DrawFrom(lots[1..], need - take)
  }

  function PlanFifo(lots: seq<Snapshot>, unlotted: nat, amount: int): Option<Plan> {
    if amount <= 0 then None
    else
      var used := Min(unlotted, amount);
      var draws := DrawFrom(SortByAge(lots), amount - used);
      if used + Sum(draws, DrawAmount()) < amount then None else Some(Plan(used, draws))
  }

  // ----- sums read from the front -----

  lemma {:induction false} SumFront<T>(rows: seq<T>, f: T -> int)
    requires |rows| > 0
    ensures Sum(rows, f) == f(rows[0]) + Sum(rows[1..], f)
  {
    var n := |rows| - 1;
    if n > 0 {
      SumFront(rows[..n], f);
      assert rows[..n][1..] == rows[1..][..n - 1];
    }
  }

  lemma {:induction false} SumConcat<T>(xs: seq<T>, ys: seq<T>, f: T -> int)
    ensures Sum(xs + ys, f) == Sum(xs, f) + Sum(ys, f)
  {
    if |ys| == 0 {
      assert xs + ys == xs;
    } else {
      var n := |ys| - 1;
      assert (xs + ys)[..|xs| + n] == xs + ys[..n];
      SumConcat(xs, ys[..n], f);
    }
  }

  // ----- what a draw list takes -----

  /** The draws cover the need exactly when the lots hold enough, and never overshoot. */
  lemma {:induction false} DrawTotal(lots: seq<Snapshot>, need: int)
    ensures Sum(DrawFrom(lots, need), DrawAmount()) == Max(0, Min(need, Sum(lots, AvailableOf())))
  {
    NonNegative(lots, AvailableOf());
    if |lots| > 0 {
      SumFront(lots, AvailableOf());
      NonNegative(lots[1..], AvailableOf());
      if need > 0 {
        var take := Min(Available(lots[0]), need);
        DrawTotal(lots[1..], need);
        if take > 0 {
          DrawTotal(lots[1..], need - take);
          var rest := DrawFrom(lots[1..], need - take);
          var draws := [Draw(lots[0].id, take)] + rest;
          SumFront(draws, DrawAmount());
          assert draws[1..] == rest;
        }
      }
    }
  }

  /** Every draw is positive and comes from a listed lot; a lot that is not listed gives nothing. */
  lemma {:induction false} DrawsFromListed(lots: seq<Snapshot>, need: int)
    ensures forall d :: d in DrawFrom(lots, need) ==> d.amount > 0 && exists i :: 0 <= i < |lots| && lots[i].id == d.lot
  {
    if |lots| > 0 && need > 0 {
      var take := Min(Available(lots[0]), need);
      DrawsFromListed(lots[1..], need - Max(take, 0));
      forall d | d in DrawFrom(lots, need)
        ensures d.amount > 0 && exists i :: 0 <= i < |lots| && lots[i].id == d.lot
      {
        if !(take > 0 && d == Draw(lots[0].id, take)) {
          assert d in DrawFrom(lots[1..], need - Max(take, 0));
          var i :| 0 <= i < |lots[1..]| && lots[1..][i].id == d.lot;
          assert lots[i + 1].id == d.lot;
        } else {
          assert lots[0].id == d.lot;
        }
      }
    }
  }

  lemma {:induction false} NothingFromUnlisted(lots: seq<Snapshot>, need: int, id: nat)
    requires forall i :: 0 <= i < |lots| ==> lots[i].id != id
    ensures Drawn(DrawFrom(lots, need), id) == 0
  {
    DrawsFromListed(lots, need);
    Zero(DrawFrom(lots, need), FromLot(id));
  }

  /**
   * Exactly what each lot gives: the older lots are emptied first, so lot i gives the part of
   * the need that the lots before it could not cover, up to what it holds.
   */
  lemma {:induction false} DrawnFromLot(lots: seq<Snapshot>, need: int, i: nat)
    requires i < |lots| && DistinctIds(lots)
    ensures Drawn(DrawFrom(lots, need), lots[i].id)
         == Max(0, Min(Available(lots[i]), need - Sum(lots[..i], AvailableOf())))
  {
    NonNegative(lots[..i], AvailableOf());
    if need > 0 {
      var take := Min(Available(lots[0]), need);
      var rest := DrawFrom(lots[1..], need - Max(take, 0));
      var draws := DrawFrom(lots, need);
      if take > 0 {
        SumFront(draws, FromLot(lots[i].id));
        assert draws[1..] == rest;
      }
      if i == 0 {
        NothingFromUnlisted(lots[1..], need - Max(take, 0), lots[0].id);
      } else {
        DrawnFromLot(lots[1..], need - Max(take, 0), i - 1);
        SumFront(lots[..i], AvailableOf());
        assert lots[..i][1..] == lots[1..][..i - 1];
        NonNegative(lots[1..i], AvailableOf());
        assert lots[1..][..i - 1] == lots[1..i];
      }
    }
  }

  /** Each draw fits what its lot has available. */
  lemma DrawFits(lots: seq<Snapshot>, need: int, i: nat) returns (s: nat)
    requires DistinctIds(lots) && i < |DrawFrom(lots, need)|
    ensures s < |lots| && lots[s].id == DrawFrom(lots, need)[i].lot
    ensures 0 < DrawFrom(lots, need)[i].amount <= Available(lots[s])
  {
    var draws := DrawFrom(lots, need);
    DrawsFromListed(lots, need);
    assert draws[i] in draws;
    s :| 0 <= s < |lots| && lots[s].id == draws[i].lot;
    DrawnFromLot(lots, need, s);
    NonNegative(lots[..s], AvailableOf());
    forall j | 0 <= j < |draws| ensures FromLot(lots[s].id)(draws[j]) >= 0 { assert draws[j] in draws; }
    Share(draws, i, FromLot(lots[s].id));
  }

  /** No lot is drawn twice. */
  lemma {:induction false} OneDrawPerLot(lots: seq<Snapshot>, need: int)
    requires DistinctIds(lots)
    ensures forall i, j :: 0 <= i < j < |DrawFrom(lots, need)| ==> DrawFrom(lots, need)[i].lot != DrawFrom(lots, need)[j].lot
  {
    if |lots| > 0 && need > 0 {
      var take := Min(Available(lots[0]), need);
      OneDrawPerLot(lots[1..], need - Max(take, 0));
      DrawsFromListed(lots[1..], need - Max(take, 0));
      if take > 0 {
        var rest := DrawFrom(lots[1..], need - take);
        forall j | 0 <= j < |rest| ensures rest[j].lot != lots[0].id {
          assert rest[j] in rest;
        }
      }
    }
  }

  /** A plan exists exactly when a positive amount fits unlotted plus available units. */
  lemma PlanExists(lots: seq<Snapshot>, unlotted: nat, amount: int)
    ensures PlanFifo(lots, unlotted, amount).Some? <==> 0 < amount <= unlotted + Sum(lots, AvailableOf())
  {
    DrawTotal(SortByAge(lots), amount - Min(unlotted, amount));
    SortSum(lots, CreatedAt(), AvailableOf());
    NonNegative(lots, AvailableOf());
  }

  /**
   * What a plan takes: its parts sum to the amount, unlotted credit is used up before any lot
   * is touched, no lot gives more than it holds, and a lot gives only once every older lot is
   * emptied.
   */
  lemma PlanIsFifo(lots: seq<Snapshot>, unlotted: nat, amount: int, older: nat, younger: nat)
    requires DistinctIds(lots) && PlanFifo(lots, unlotted, amount).Some?
    requires older < |lots| && younger < |lots|
    ensures var plan := PlanFifo(lots, unlotted, amount).value;
      && plan.unlottedUsed + Sum(plan.draws, DrawAmount()) == amount
      && plan.unlottedUsed == Min(unlotted, amount)
      && (plan.draws != [] ==> plan.unlottedUsed == unlotted)
      && 0 <= Drawn(plan.draws, lots[older].id) <= Available(lots[older])
      && (lots[older].createdAt < lots[younger].createdAt && Drawn(plan.draws, lots[younger].id) > 0
          ==> Drawn(plan.draws, lots[older].id) == Available(lots[older]))
  {
    var sorted := SortByAge(lots);
    var need := amount - Min(unlotted, amount);
    DrawTotal(sorted, need);
    SortIsOrdered(lots, CreatedAt());
    SortedIdsDistinct(lots);
    var i := SortedPosition(lots, older);
    var j := SortedPosition(lots, younger);
    DrawnFromLot(sorted, need, i);
    DrawnFromLot(sorted, need, j);
    NonNegative(sorted[..i], AvailableOf());
    if lots[older].createdAt < lots[younger].createdAt {
      OlderSum(sorted, i, j);
    }
  }

  lemma OlderSum(lots: seq<Snapshot>, i: nat, j: nat)
    requires i < j < |lots|
    ensures Sum(lots[..i], AvailableOf()) + Available(lots[i]) <= Sum(lots[..j], AvailableOf())
  {
    assert lots[..j] == (lots[..i] + [lots[i]]) + lots[i + 1..j];
    SumConcat(lots[..i] + [lots[i]], lots[i + 1..j], AvailableOf());
    Append(lots[..i], lots[i], AvailableOf());
    NonNegative(lots[i + 1..j], AvailableOf());
  }

  lemma SortedPosition(lots: seq<Snapshot>, k: nat) returns (i: nat)
    requires k < |lots|
    ensures i < |SortByAge(lots)| && SortByAge(lots)[i] == lots[k]
  {
    SortPermutes(lots, CreatedAt());
    assert lots[k] in multiset(SortByAge(lots));
    i :| 0 <= i < |SortByAge(lots)| && SortByAge(lots)[i] == lots[k];
  }

  function CountOf(id: nat): Snapshot -> int { (lot: Snapshot) => if lot.id == id then 1 else 0 }

  /** Sorting keeps row identities distinct. */
  lemma SortedIdsDistinct(lots: seq<Snapshot>)
    requires DistinctIds(lots)
    ensures DistinctIds(SortByAge(lots))
  {
    var sorted := SortByAge(lots);
    forall i, j | 0 <= i < j < |sorted| ensures sorted[i].id != sorted[j].id {
      SortSum(lots, CreatedAt(), CountOf(sorted[i].id));
      AtMostOnce(lots, sorted[i].id);
      if sorted[i].id == sorted[j].id {
        Twice(sorted, i, j);
      }
    }
  }

  lemma {:induction false} Twice(lots: seq<Snapshot>, i: nat, j: nat)
    requires i < j < |lots| && lots[i].id == lots[j].id
    ensures Sum(lots, CountOf(lots[i].id)) >= 2
  {
    var n := |lots| - 1;
    if j < n {
      Twice(lots[..n], i, j);
    } else {
      Share(lots[..n], i, CountOf(lots[i].id));
    }
  }

  lemma {:induction false} AtMostOnce(lots: seq<Snapshot>, id: nat)
    requires DistinctIds(lots)
    ensures Sum(lots, CountOf(id)) <= 1
  {
    var n := |lots| - 1;
    if n >= 0 {
      if lots[n].id == id {
        Zero(lots[..n], CountOf(id));
      } else {
        AtMostOnce(lots[..n], id);
      }
    }
  }

  // ----- the loop -----

  /** The planner as it runs: take unlotted credit, then walk the sorted lots. */
  method PlanFifoLotConsumption(lots: seq<Snapshot>, unlotted: nat, amount: int) returns (plan: Option<Plan>)
    ensures plan == PlanFifo(lots, unlotted, amount)
  {
    if amount <= 0 {
      return None;
    }
    var remaining := amount;
    var unlottedUsed := Min(unlotted, remaining);
    remaining := remaining - unlottedUsed;
    var draws: seq<Draw> := [];
    hide SortByAge;
    var ordered := SortByAge(lots);
    ghost var need := remaining;
    var i := 0;
    while i < |ordered| && remaining > 0
      invariant 0 <= i <= |ordered| && remaining >= 0
      invariant draws + DrawFrom(ordered[i..], remaining) == DrawFrom(ordered, need)
      invariant remaining + Sum(draws, DrawAmount()) == need
    {
      var take := Min(Available(ordered[i]), remaining);
      assert ordered[i..][1..] == ordered[i + 1..];
      if take > 0 {
        var draw := Draw(ordered[i].id, take);
        ghost var rest := DrawFrom(ordered[i + 1..], remaining - take);
        assert DrawFrom(ordered[i..], remaining) == [draw] + rest;
        assert draws + ([draw] + rest) == (draws + [draw]) + rest;
        Append(draws, draw, DrawAmount());
        draws := draws + [draw];
        remaining := remaining - take;
      }
      i := i + 1;
    }
    assert draws == DrawFrom(ordered, need);
    if remaining > 0 {
      return None;
    }
    return Some(Plan(unlottedUsed, draws));
  }
}

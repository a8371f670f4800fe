/** Sums over table rows: the aggregates the database computes. */
module Sums {

  function Sum<T>(rows: seq<T>, f: T -> int): int {
    if |rows| == 0 then 0 else Sum(rows[..|rows| - 1], f) + f(rows[|rows| - 1])
  }

  lemma Append<T>(rows: seq<T>, row: T, f: T -> int)
    ensures Sum(rows + [row], f) == Sum(rows, f) + f(row)
  {
  }

  lemma {:induction false} Update<T>(rows: seq<T>, i: nat, row: T, f: T -> int)
    requires i < |rows|
    ensures Sum(rows[i := row], f) == Sum(rows, f) - f(rows[i]) + f(row)
  {
    var n := |rows| - 1;
    if i == n {
      assert rows[i := row][..n] == rows[..n];
    } else {
      assert rows[i := row][..n] == rows[..n][i := row];
      Update(rows[..n], i, row, f);
    }
  }

  /** Row by row, the second sum is the first one plus a third. */
  lemma {:induction false} Pointwise<S, T, U>(xs: seq<S>, f: S -> int, ys: seq<T>, g: T -> int, zs: seq<U>, h: U -> int)
    requires |xs| == |ys| == |zs|
    requires forall i :: 0 <= i < |xs| ==> f(xs[i]) + g(ys[i]) == h(zs[i])
    ensures Sum(xs, f) + Sum(ys, g) == Sum(zs, h)
  {
    var n := |xs|;
    if n > 0 {
      Pointwise(xs[..n - 1], f, ys[..n - 1], g, zs[..n - 1], h);
    }
  }

  lemma {:induction false} Equal<S, T>(xs: seq<S>, f: S -> int, ys: seq<T>, g: T -> int)
    requires |xs| == |ys|
    requires forall i :: 0 <= i < |xs| ==> f(xs[i]) == g(ys[i])
    ensures Sum(xs, f) == Sum(ys, g)
  {
    var n := |xs|;
    if n > 0 {
      Equal(xs[..n - 1], f, ys[..n - 1], g);
    }
  }

  lemma {:induction false} AtMost<S, T>(xs: seq<S>, f: S -> int, ys: seq<T>, g: T -> int)
    requires |xs| == |ys|
    requires forall i :: 0 <= i < |xs| ==> f(xs[i]) <= g(ys[i])
    ensures Sum(xs, f) <= Sum(ys, g)
  {
    var n := |xs|;
    if n > 0 {
      AtMost(xs[..n - 1], f, ys[..n - 1], g);
    }
  }

  /** Every row's share of a sum of non-negative shares is at most the sum. */
  lemma {:induction false} Share<T>(rows: seq<T>, i: nat, f: T -> int)
    requires i < |rows|
    requires forall j :: 0 <= j < |rows| ==> f(rows[j]) >= 0
    ensures 0 <= f(rows[i]) <= Sum(rows, f)
  {
    var n := |rows| - 1;
    NonNegative(rows[..n], f);
    if i < n {
      Share(rows[..n], i, f);
    }
  }

  lemma {:induction false} NonNegative<T>(rows: seq<T>, f: T -> int)
    requires forall j :: 0 <= j < |rows| ==> f(rows[j]) >= 0
    ensures Sum(rows, f) >= 0
  {
    var n := |rows|;
    if n > 0 {
      NonNegative(rows[..n - 1], f);
    }
  }

  lemma {:induction false} Zero<T>(rows: seq<T>, f: T -> int)
    requires forall j :: 0 <= j < |rows| ==> f(rows[j]) == 0
    ensures Sum(rows, f) == 0
  {
    var n := |rows|;
    if n > 0 {
      Zero(rows[..n - 1], f);
    }
  }
}

/** Half-up division and the cumulative cash-refund amounts built on it. */
module CashRefundMath {
  import opened Wrappers
  import opened Sums

  datatype MoneyError = InvalidDenominator | NegativeMoney | GrantNotPositive | NegativeUnits | UnitsExceedGrant

  function HalfUp(numerator: nat, denominator: nat): nat
    requires denominator > 0
  {
    if (numerator % denominator) * 2 >= denominator then numerator / denominator + 1 else numerator / denominator
  }

  function RoundHalfUpDivide(numerator: int, denominator: int): Result<nat, MoneyError> {
    if denominator <= 0 then Err(InvalidDenominator)
    else if numerator < 0 then Err(NegativeMoney)
    else Ok(HalfUp(numerator, denominator))
  }

  datatype Amounts = Amounts(target: nat, previous: nat, increment: int)

  function CumulativeCashRefund(original: int, grant: int, already: int, units: int): Result<Amounts, MoneyError> {
    if grant <= 0 then Err(GrantNotPositive)
    else if units < 0 || already < 0 then Err(NegativeUnits)
    else if already + units > grant then Err(UnitsExceedGrant)
    else
      match RoundHalfUpDivide(original * already, grant)
      case Err(e) => Err(e)
      case Ok(previous) =>
        match RoundHalfUpDivide(original * (already + units), grant)
        case Err(e) => Err(e)
        case Ok(target) => Ok(Amounts(target, previous, target - previous))
  }

  lemma HalfUpBounds(numerator: nat, denominator: nat)
    requires denominator > 0
    ensures var h := HalfUp(numerator, denominator) * denominator;
      2 * numerator - denominator < 2 * h <= 2 * numerator + denominator
  {
  }

  lemma {:induction false} Apart(p: int, q: int, d: nat)
    requires p < q
    ensures p * d + d <= q * d
    decreases q - p
  {
    if p + 1 < q {
      Apart(p, q - 1, d);
    }
  }

  /** The quotient is the one integer whose distance to the fraction is at most a half, ties going up. */
  lemma HalfUpIsNearest(numerator: nat, denominator: nat, q: int)
    requires denominator > 0
    ensures q == HalfUp(numerator, denominator)
      <==> 2 * numerator - denominator < 2 * (q * denominator) <= 2 * numerator + denominator
  {
    HalfUpBounds(numerator, denominator);
    var h := HalfUp(numerator, denominator);
    if q > h {
      Apart(h, q, denominator);
    } else if q < h {
      Apart(q, h, denominator);
    }
  }

  lemma HalfUpMonotone(a: nat, b: nat, denominator: nat)
    requires denominator > 0 && a <= b
    ensures HalfUp(a, denominator) <= HalfUp(b, denominator)
  {
    HalfUpBounds(a, denominator);
    HalfUpBounds(b, denominator);
    if HalfUp(b, denominator) < HalfUp(a, denominator) {
      Apart(HalfUp(b, denominator), HalfUp(a, denominator), denominator);
    }
  }

  lemma HalfUpExact(k: nat, denominator: nat)
    requires denominator > 0
    ensures HalfUp(k * denominator, denominator) == k
  {
    hide HalfUp;
    HalfUpIsNearest(k * denominator, denominator, k);
  }

  /** The money of one request, when `already` units were counted before it. */
  function Increment(price: nat, grant: nat, already: nat, units: nat): int
    requires grant > 0 && already + units <= grant
  {
    HalfUp(price * (already + units), grant) - HalfUp(price * already, grant)
  }

  /** What the entitlement code computes is `Increment`, and it fails on exactly the bad inputs. */
  lemma IncrementIsComputed(original: int, grant: int, already: int, units: int)
    ensures CumulativeCashRefund(original, grant, already, units).Ok? <==>
      grant > 0 && already >= 0 && units >= 0 && already + units <= grant
      && (original >= 0 || already + units == 0)
    ensures grant > 0 && already >= 0 && units >= 0 && already + units <= grant && original >= 0
      ==> CumulativeCashRefund(original, grant, already, units).value.increment == Increment(original, grant, already, units)
  {
  }

  function Units(): nat -> int { (u: nat) => u }

  function Total(parts: seq<nat>): (t: nat) {
    NonNegative(parts, Units());
    Sum(parts, Units())
  }

  function Money(): int -> int { (m: int) => m }

  /** The amounts of successive requests, each counting all earlier ones. */
  function Increments(price: nat, grant: nat, parts: seq<nat>): seq<int>
    requires grant > 0 && Total(parts) <= grant
  {
    if |parts| == 0 then []
    else
      var before, last := parts[..|parts| - 1], parts[|parts| - 1];
      Increments(price, grant, before) + [Increment(price, grant, Total(before), last)]
  }

  lemma {:induction false} IncrementsSum(price: nat, grant: nat, parts: seq<nat>)
    requires grant > 0 && Total(parts) <= grant
    ensures Sum(Increments(price, grant, parts), Money()) == HalfUp(price * Total(parts), grant)
  {
    hide HalfUp;
    if |parts| == 0 {
      HalfUpExact(0, grant);
    } else {
      var before, last := parts[..|parts| - 1], parts[|parts| - 1];
      IncrementsSum(price, grant, before);
      Append(Increments(price, grant, before), Increment(price, grant, Total(before), last), Money());
    }
  }

  lemma {:induction false} IncrementsNonNegative(price: nat, grant: nat, parts: seq<nat>)
    requires grant > 0 && Total(parts) <= grant
    ensures |Increments(price, grant, parts)| == |parts|
    ensures forall i :: 0 <= i < |parts| ==> Increments(price, grant, parts)[i] >= 0
  {
    if |parts| > 0 {
      var before, last := parts[..|parts| - 1], parts[|parts| - 1];
      IncrementsNonNegative(price, grant, before);
      IncrementNonNegative(price, grant, Total(before), last);
    }
  }

  /**
   * Telescoping: however a total is split into requests, each request gets a non-negative
   * amount, the amounts add up to the half-up share of the total, and never exceed the price.
   */
  lemma CumulativeRefundsTelescope(price: nat, grant: nat, parts: seq<nat>)
    requires grant > 0 && Total(parts) <= grant
    ensures var money := Increments(price, grant, parts);
      && |money| == |parts|
      && (forall i :: 0 <= i < |parts| ==> money[i] >= 0)
      && Sum(money, Money()) == HalfUp(price * Total(parts), grant)
      && Sum(money, Money()) <= price
  {
    hide HalfUp;
    IncrementsSum(price, grant, parts);
    IncrementsNonNegative(price, grant, parts);
    ShareAtMostPrice(price, grant, Total(parts));
  }

  lemma IncrementNonNegative(price: nat, grant: nat, already: nat, units: nat)
    requires grant > 0 && already + units <= grant
    ensures Increment(price, grant, already, units) >= 0
  {
    assert price * already <= price * (already + units);
    HalfUpMonotone(price * already, price * (already + units), grant);
  }

  lemma ShareAtMostPrice(price: nat, grant: nat, total: nat)
    requires grant > 0 && total <= grant
    ensures HalfUp(price * total, grant) <= price
  {
    assert price * total <= price * grant;
    HalfUpMonotone(price * total, price * grant, grant);
    HalfUpExact(price, grant);
  }

  /**
   * The refunds reach the full price exactly when the money of the unrefunded units is at most
   * half a minor unit; refunding the whole grant always does.
   */
  lemma FullPriceRefunded(price: nat, grant: nat, total: nat)
    requires grant > 0 && total <= grant
    ensures HalfUp(price * total, grant) == price <==> 2 * price * (grant - total) <= grant
    ensures total == grant ==> HalfUp(price * total, grant) == price
  {
    hide HalfUp;
    var paid := price * total;
    HalfUpIsNearest(paid, grant, price);
    Distribute(price, grant, total);
    if total == grant {
      HalfUpExact(price, grant);
    }
  }

  lemma Distribute(price: nat, grant: nat, total: nat)
    ensures 2 * price * (grant - total) == 2 * (price * grant) - 2 * (price * total)
  {
  }

  /** A price of one minor unit is already returned in full by two thirds of the grant. */
  lemma FullPriceWithoutFullGrant()
    ensures HalfUp(1 * 2, 3) == 1 && 2 < 3
  {
  }

  /** One counted request with the units counted before it. */
  datatype Part = Part(already: nat, units: nat)

  function PartMoney(price: nat, grant: nat): Part -> int {
    (p: Part) => if grant > 0 && p.already + p.units <= grant then Increment(price, grant, p.already, p.units) else 0
  }

  function PartUnits(): Part -> int { (p: Part) => p.units }

  /**
   * Drift: whatever each request saw as already counted, one request is strictly within one
   * minor unit of its exact share.
   */
  lemma IncrementDrift(price: nat, grant: nat, already: nat, units: nat)
    requires grant > 0 && already + units <= grant
    ensures price * units - grant < Increment(price, grant, already, units) * grant < price * units + grant
  {
    hide HalfUp;
    var n, m := price * already, price * (already + units);
    assert m == n + price * units;
    var before, after := HalfUp(n, grant), HalfUp(m, grant);
    HalfUpIsNearest(n, grant, before);
    HalfUpIsNearest(m, grant, after);
    Minus(after, before, grant);
  }

  lemma Minus(a: int, b: int, d: int)
    ensures (a - b) * d == a * d - b * d
  {
  }

  /** n requests whose predecessors may have dropped out drift by less than n minor units in total. */
  lemma {:induction false} RefundsDrift(price: nat, grant: nat, parts: seq<Part>)
    requires grant > 0 && parts != []
    requires forall i :: 0 <= i < |parts| ==> parts[i].already + parts[i].units <= grant
    ensures var off := Sum(parts, PartMoney(price, grant)) * grant - price * Sum(parts, PartUnits());
      -(|parts| * grant) < off < |parts| * grant
  {
    var n := |parts| - 1;
    var init, last := parts[..n], parts[n];
    IncrementDrift(price, grant, last.already, last.units);
    var m, u := Sum(init, PartMoney(price, grant)), Sum(init, PartUnits());
    var dm := Increment(price, grant, last.already, last.units);
    if n > 0 {
      RefundsDrift(price, grant, init);
    } else {
      assert m == 0 && u == 0;
    }
    DriftStep(price, grant, n, m, u, dm, last.units);
    assert Sum(parts, PartMoney(price, grant)) == m + dm;
    assert Sum(parts, PartUnits()) == u + last.units;
  }

  lemma DriftStep(price: nat, grant: nat, n: nat, m: int, u: int, dm: int, du: int)
    requires grant > 0
    requires n > 0 ==> -(n * grant) < m * grant - price * u < n * grant
    requires n == 0 ==> m == 0 && u == 0
    requires price * du - grant < dm * grant < price * du + grant
    ensures -((n + 1) * grant) < (m + dm) * grant - price * (u + du) < (n + 1) * grant
  {
  }
}

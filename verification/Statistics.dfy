/** Means and comparisons shared by the benchmark analysis scripts, over the reals. */
module Statistics {

  function Sum(xs: seq<real>): real {
    if xs == [] then 0.0 else xs[0] + Sum(xs[1..])
  }

  function Mean(xs: seq<real>): real
    requires xs != []
  {
    Sum(xs) / |xs| as real
  }

  function Abs(x: real): real {
    if x < 0.0 then -x else x
  }

  /** The slack with which both scripts compare a candidate statistic to the observed one. */
  const TOLERANCE: real := 0.000000000001

  lemma SameDenominator(a: nat, b: nat, c: nat)
    requires c >= 1
    ensures a as real / c as real <= b as real / c as real <==> a <= b
  {
    if a as real / c as real <= b as real / c as real {
      assert (a as real / c as real) * c as real <= (b as real / c as real) * c as real;
    }
  }

  lemma Product(a: real, b: real)
    requires a >= 0.0 && b >= 0.0
    ensures a * b >= 0.0
    ensures a > 0.0 && b > 0.0 ==> a * b > 0.0
  {
  }

  lemma Quotient(x: real, d: real)
    requires d != 0.0
    ensures d * (x / d) == x
  {
  }

  lemma NegatedQuotient(x: real, d: real)
    requires d > 0.0
    ensures (-x) / d == -(x / d)
  {
    Quotient(x, d);
    Quotient(-x, d);
    var difference := (-x) / d + x / d;
    assert d * difference == 0.0;
    if difference > 0.0 { Product(d, difference); }
    if difference < 0.0 { Product(d, -difference); }
  }

  /** A p-value, an interval, or the error `statistics` raises on empty data. */
  datatype Result<T> = Ok(value: T) | StatisticsError
}

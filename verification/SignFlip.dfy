/**
 The exact paired sign-flip test (docs/benchmarks/discrete-v0.9.5/reproduce/work/analysis/
 analyze_crossos_1g.py and analyze_crossos_cold.py), over the reals.
 */
module SignFlip {
  import opened Counting
  import opened Statistics

  /** `itertools.product((-1, 1), repeat=n)`. */
  function SignVectors(n: nat): seq<seq<int>> {
    if n == 0 then [[]] else Prepend(-1, SignVectors(n - 1)) + Prepend(1, SignVectors(n - 1))
  }

  function Prepend(sign: int, vectors: seq<seq<int>>): seq<seq<int>> {
    Map(vectors, Led(sign))
  }

  function Led(sign: int): seq<int> -> seq<int> {
    v => [sign] + v
  }

  function After(sign: int, p: seq<int> -> bool): seq<int> -> bool {
    v => p([sign] + v)
  }

  predicate Signs(v: seq<int>, n: nat) {
    |v| == n && forall i :: 0 <= i < n ==> v[i] == 1 || v[i] == -1
  }

  function Pow2(n: nat): (r: nat)
    ensures r >= 1
  {
    if n == 0 then 1 else 2 * Pow2(n - 1)
  }

  /** The differences with their signs flipped. */
  function Flip(differences: seq<real>, signs: seq<int>): seq<real>
    requires |signs| == |differences|
  {
    seq(|differences|, i requires 0 <= i < |differences| => differences[i] * signs[i] as real)
  }

  function Statistic(differences: seq<real>): real {
    if differences == [] then 0.0 else Abs(Mean(differences))
  }

  /** The statistic of a flipped copy; vectors of another length do not occur. */
  function Score(differences: seq<real>, signs: seq<int>): real {
    if |signs| == |differences| then Statistic(Flip(differences, signs)) else 0.0
  }

  function ScoreOf(differences: seq<real>): seq<int> -> real {
    signs => Score(differences, signs)
  }

  /** How many of the 2^n flipped copies are as extreme as what was observed. */
  function Extreme(differences: seq<real>): nat {
    Count(SignVectors(|differences|), AtLeast(ScoreOf(differences), Statistic(differences) - TOLERANCE))
  }

  function PValue(differences: seq<real>): Result<real> {
    if differences == [] then StatisticsError
    else Ok(Extreme(differences) as real / Pow2(|differences|) as real)
  }

  /** The counting loop of the cold-start script. */
  method ExactSignFlipLoop(differences: seq<real>) returns (p: Result<real>)
    ensures p == PValue(differences)
  {
    if differences == [] { return StatisticsError; }
    hide Count, SignVectors, Statistic;
    var observed := Statistic(differences);
    var vectors := SignVectors(|differences|);
    ghost var hit := AtLeast(ScoreOf(differences), observed - TOLERANCE);
    var exceed, total := 0, 0;
    CountNone(vectors, hit);
    for i := 0 to |vectors|
      invariant total == i
      invariant exceed == Count(vectors[..i], hit)
    {
      SignVectorsAre(|differences|);
      assert vectors[i] in vectors;
      var candidate := Statistic(Flip(differences, vectors[i]));
      CountNext(vectors, i, hit);
      if candidate >= observed - TOLERANCE { exceed := exceed + 1; }
      total := total + 1;
    }
    assert vectors[..|vectors|] == vectors;
    SignVectorCount(|differences|);
    p := Ok(exceed as real / total as real);
  }

  // ---------------------------------------------------------------- the enumeration

  lemma {:induction false} SignVectorCount(n: nat)
    ensures |SignVectors(n)| == Pow2(n)
  {
    if n > 0 { SignVectorCount(n - 1); }
  }

  lemma {:induction false} SignVectorsAre(n: nat)
    ensures forall v :: v in SignVectors(n) ==> Signs(v, n)
  {
    if n > 0 {
      SignVectorsAre(n - 1);
      forall v | v in SignVectors(n)
        ensures Signs(v, n)
      {
        PrependMember(v, n);
      }
    }
  }

  lemma PrependListed(v: seq<int>, shorter: seq<seq<int>>)
    requires v != [] && v[1..] in shorter
    ensures v in Prepend(v[0], shorter)
  {
    var i :| 0 <= i < |shorter| && shorter[i] == v[1..];
    assert v == [v[0]] + shorter[i];
    assert Prepend(v[0], shorter)[i] == v;
  }

  /** Every vector of signs is enumerated. */
  lemma {:induction false} SignsListed(v: seq<int>, n: nat)
    requires Signs(v, n)
    ensures v in SignVectors(n)
  {
    if n > 0 {
      SignsListed(v[1..], n - 1);
      PrependListed(v, SignVectors(n - 1));
      hide Prepend;
      assert SignVectors(n) == Prepend(-1, SignVectors(n - 1)) + Prepend(1, SignVectors(n - 1));
    }
  }

  lemma PrependMember(v: seq<int>, n: nat)
    requires n > 0 && v in SignVectors(n)
    ensures v != [] && (v[0] == 1 || v[0] == -1) && v[1..] in SignVectors(n - 1)
  {
    var shorter := SignVectors(n - 1);
    var minus, plus := Prepend(-1, shorter), Prepend(1, shorter);
    assert v in minus + plus;
    if v in minus {
      var i :| 0 <= i < |minus| && minus[i] == v;
      assert v == [-1] + shorter[i];
      assert v[1..] == shorter[i];
    } else {
      var i :| 0 <= i < |plus| && plus[i] == v;
      assert v == [1] + shorter[i];
      assert v[1..] == shorter[i];
    }
  }

  lemma CountSignVectors(n: nat, p: seq<int> -> bool)
    requires n > 0
    ensures Count(SignVectors(n), p) ==
            Count(SignVectors(n - 1), After(-1, p)) + Count(SignVectors(n - 1), After(1, p))
  {
    hide Count;
    CountConcat(Prepend(-1, SignVectors(n - 1)), Prepend(1, SignVectors(n - 1)), p);
    CountPrepended(-1, SignVectors(n - 1), p);
    CountPrepended(1, SignVectors(n - 1), p);
  }

  lemma CountPrepended(sign: int, vectors: seq<seq<int>>, p: seq<int> -> bool)
    ensures Count(Prepend(sign, vectors), p) == Count(vectors, After(sign, p))
  {
    hide Count;
    CountMap(vectors, Led(sign), p);
    CountCongruent(vectors, Compose(Led(sign), p), After(sign, p));
  }

  function Times(a: seq<int>, b: seq<int>): seq<int> {
    seq(if |a| <= |b| then |a| else |b|, i requires 0 <= i < |a| && i < |b| => a[i] * b[i])
  }

  /** Multiplying every sign vector by a fixed one only reorders the enumeration. */
  lemma {:induction false} FlippingReorders(n: nat, t: seq<int>, p: seq<int> -> bool)
    requires Signs(t, n)
    ensures Count(SignVectors(n), s => p(Times(t, s))) == Count(SignVectors(n), p)
    decreases n, 1
  {
    hide Count;
    var q := s => p(Times(t, s));
    if n == 0 {
      assert SignVectors(0) == [[]];
      assert forall s :: s in SignVectors(0) ==> Times(t, s) == s;
      CountCongruent(SignVectors(n), s => p(Times(t, s)), p);
    } else {
      CountSignVectors(n, p);
      CountSignVectors(n, q);
      HalfReordered(n - 1, t, p, -1);
      HalfReordered(n - 1, t, p, 1);
      CountCongruent(SignVectors(n), q, s => p(Times(t, s)));
    }
  }

  lemma {:induction false} HalfReordered(n: nat, t: seq<int>, p: seq<int> -> bool, sign: int)
    requires Signs(t, n + 1) && (sign == 1 || sign == -1)
    ensures var q := s => p(Times(t, s));
            Count(SignVectors(n), After(sign, q)) == Count(SignVectors(n), After(t[0] * sign, p))
    decreases n, 2
  {
    hide Count, SignVectors;
    var q := s => p(Times(t, s));
    var rest := t[1..];
    var half := After(t[0] * sign, p);
    FlippingReorders(n, rest, half);
    SignVectorsAre(n);
    forall v | v in SignVectors(n)
      ensures After(sign, q)(v) == half(Times(rest, v))
    {
      assert Times(t, [sign] + v) == [t[0] * sign] + Times(rest, v);
    }
    CountCongruent(SignVectors(n), After(sign, q), s => half(Times(rest, s)));
  }

  // ---------------------------------------------------------------- exactness

  lemma FlipTwice(d: seq<real>, t: seq<int>, s: seq<int>)
    requires Signs(t, |d|) && Signs(s, |d|)
    ensures Flip(Flip(d, t), s) == Flip(d, Times(t, s))
  {
    forall i | 0 <= i < |d|
      ensures Flip(Flip(d, t), s)[i] == Flip(d, Times(t, s))[i]
    {
      assert Times(t, s)[i] == t[i] * s[i];
    }
  }

  /** Among the flipped copies of one vector, the count of extreme cases is a rank. */
  lemma ExtremeIsRank(d: seq<real>, t: seq<int>)
    requires Signs(t, |d|)
    ensures Extreme(Flip(d, t)) == Rank(SignVectors(|d|), ScoreOf(d), TOLERANCE, t)
  {
    hide Count, Statistic, SignVectors;
    var n := |d|;
    var copy := Flip(d, t);
    var above := AtLeast(ScoreOf(d), Score(d, t) - TOLERANCE);
    SignVectorsAre(n);
    forall s | s in SignVectors(n)
      ensures Score(copy, s) == Score(d, Times(t, s))
    {
      FlipTwice(d, t, s);
    }
    CountCongruent(SignVectors(n), AtLeast(ScoreOf(copy), Statistic(copy) - TOLERANCE), s => above(Times(t, s)));
    FlippingReorders(n, t, above);
  }

  /** Sign vectors whose flipped copy gets a p-value of at most k / 2^n. */
  function SmallP(d: seq<real>, k: nat): seq<int> -> bool {
    t => |t| == |d| && PValue(Flip(d, t)).Ok? && PValue(Flip(d, t)).value <= k as real / Pow2(|d|) as real
  }

  /**
   Exactness of the sign-flip test. For every vector of differences and every k, at most k of its
   2^n sign-flipped copies get a p-value of at most k / 2^n.
   */
  lemma SignFlipIsExact(d: seq<real>, k: nat)
    requires d != []
    ensures Count(SignVectors(|d|), SmallP(d, k)) <= k
  {
    hide Count, Extreme, Rank, SignVectors;
    var n := |d|;
    var ranked := RankedWithin(SignVectors(n), ScoreOf(d), TOLERANCE, k);
    SignVectorsAre(n);
    forall t | t in SignVectors(n) && SmallP(d, k)(t)
      ensures ranked(t)
    {
      ExtremeIsRank(d, t);
      SameDenominator(Extreme(Flip(d, t)), k, Pow2(n));
    }
    CountMonotone(SignVectors(n), SmallP(d, k), ranked);
    FewAreExtreme(SignVectors(n), ScoreOf(d), TOLERANCE, k);
  }

  // ---------------------------------------------------------------- granularity

  lemma NegatedScore(d: seq<real>, s: seq<int>)
    requires |s| == |d|
    ensures Score(d, Negate(s)) == Score(d, s)
  {
    if d != [] {
      SumNegated(Flip(d, s), Flip(d, Negate(s)));
      NegatedQuotient(Sum(Flip(d, s)), |d| as real);
    }
  }

  function Negate(s: seq<int>): seq<int> {
    seq(|s|, i requires 0 <= i < |s| => -s[i])
  }

  lemma {:induction false} SumNegated(a: seq<real>, b: seq<real>)
    requires |a| == |b| && forall i :: 0 <= i < |a| ==> b[i] == -a[i]
    ensures Sum(b) == -Sum(a)
  {
    if a != [] { SumNegated(a[1..], b[1..]); }
  }

  /** Extreme cases come in mirrored pairs. */
  lemma ExtremeIsEven(d: seq<real>) returns (c: nat)
    requires d != []
    ensures 1 <= c <= Pow2(|d| - 1) && Extreme(d) == 2 * c
  {
    hide Statistic, Count, SignVectors, Score;
    var n := |d|;
    var hit := AtLeast(ScoreOf(d), Statistic(d) - TOLERANCE);
    c := Count(SignVectors(n - 1), After(1, hit));
    CountSignVectors(n, hit);
    MirroredHalves(d, hit);
    SignVectorCount(n - 1);
    CountMonotone(SignVectors(n - 1), After(1, hit), After(1, hit));
    AllOnes(d);
  }

  lemma MirroredHalves(d: seq<real>, hit: seq<int> -> bool)
    requires d != [] && hit == AtLeast(ScoreOf(d), Statistic(d) - TOLERANCE)
    ensures Count(SignVectors(|d| - 1), After(-1, hit)) == Count(SignVectors(|d| - 1), After(1, hit))
  {
    hide Statistic, Count, SignVectors, Score;
    var n := |d|;
    var opposite := seq(n - 1, i => -1);
    SignVectorsAre(n - 1);
    forall v | v in SignVectors(n - 1)
      ensures After(-1, hit)(v) == After(1, hit)(Times(opposite, v))
    {
      assert [-1] + v == Negate([1] + Times(opposite, v));
      NegatedScore(d, [1] + Times(opposite, v));
    }
    CountCongruent(SignVectors(n - 1), After(-1, hit), s => After(1, hit)(Times(opposite, s)));
    FlippingReorders(n - 1, opposite, After(1, hit));
  }

  function Ones(n: nat): seq<int> {
    seq(n, i => 1)
  }

  lemma FlipOnes(d: seq<real>)
    requires d != []
    ensures |[1] + Ones(|d| - 1)| == |d| && Flip(d, [1] + Ones(|d| - 1)) == d
  {
    var signs := [1] + Ones(|d| - 1);
    assert forall i :: 0 <= i < |d| ==> signs[i] == 1;
  }

  lemma ScoredAsIs(d: seq<real>)
    requires d != []
    ensures After(1, AtLeast(ScoreOf(d), Statistic(d) - TOLERANCE))(Ones(|d| - 1))
  {
    FlipOnes(d);
    hide Statistic, Flip, Ones;
  }

  /** The observed assignment is itself one of the cases. */
  lemma AllOnes(d: seq<real>)
    requires d != []
    ensures Count(SignVectors(|d| - 1), After(1, AtLeast(ScoreOf(d), Statistic(d) - TOLERANCE))) >= 1
  {
    ScoredAsIs(d);
    SignsListed(Ones(|d| - 1), |d| - 1);
    hide Statistic, Count, SignVectors, Ones, AtLeast, After;
    CountPositive(SignVectors(|d| - 1), After(1, AtLeast(ScoreOf(d), Statistic(d) - TOLERANCE)), Ones(|d| - 1));
  }

  /** For n >= 1 the p-value is a positive multiple of 2^(1-n), and at most one. */
  lemma PValueIsDyadic(d: seq<real>) returns (c: nat)
    requires d != []
    ensures 1 <= c <= Pow2(|d| - 1) && PValue(d) == Ok(c as real / Pow2(|d| - 1) as real)
  {
    hide Extreme;
    c := ExtremeIsEven(d);
    Halved(c, Pow2(|d| - 1));
    assert Pow2(|d|) == 2 * Pow2(|d| - 1);
  }

  lemma Halved(a: nat, b: nat)
    requires b >= 1
    ensures (2 * a) as real / (2 * b) as real == a as real / b as real
  {
    var x := a as real / b as real;
    assert x * b as real == a as real;
    assert x * (2 * b) as real == (2 * a) as real;
  }

  // ---------------------------------------------------------------- what the p-value counts

  /** How many ways of adding or subtracting each difference lead from `sum` to a hit. */
  function Ways(differences: seq<real>, sum: real, hit: real -> bool): nat {
    if differences == [] then (if hit(sum) then 1 else 0)
    else Ways(differences[1..], sum - differences[0], hit) + Ways(differences[1..], sum + differences[0], hit)
  }

  /** At least as far from zero as the bound. */
  function Far(bound: real): real -> bool {
    x => x >= bound || -x >= bound
  }

  function Hits(differences: seq<real>, sum: real, hit: real -> bool): seq<int> -> bool {
    v => |v| == |differences| && hit(sum + Sum(Flip(differences, v)))
  }

  lemma FlipLed(d: seq<real>, sign: int, v: seq<int>)
    requires d != [] && |v| == |d| - 1
    ensures Flip(d, [sign] + v) == [d[0] * sign as real] + Flip(d[1..], v)
  {
    forall i | 0 <= i < |d|
      ensures Flip(d, [sign] + v)[i] == ([d[0] * sign as real] + Flip(d[1..], v))[i]
    {
      if i > 0 { assert ([sign] + v)[i] == v[i - 1] && d[1..][i - 1] == d[i]; }
    }
  }

  lemma SumOfLed(x: real, xs: seq<real>)
    ensures Sum([x] + xs) == x + Sum(xs)
  {
    assert ([x] + xs)[1..] == xs;
  }

  lemma HitsAfter(d: seq<real>, sum: real, hit: real -> bool, sign: int, v: seq<int>)
    requires d != [] && (sign == 1 || sign == -1)
    ensures After(sign, Hits(d, sum, hit))(v)
            == Hits(d[1..], if sign == 1 then sum + d[0] else sum - d[0], hit)(v)
  {
    hide Sum;
    if |v| == |d| - 1 {
      FlipLed(d, sign, v);
      SumOfLed(d[0] * sign as real, Flip(d[1..], v));
      var next := if sign == 1 then sum + d[0] else sum - d[0];
      assert sum + (d[0] * sign as real + Sum(Flip(d[1..], v))) == next + Sum(Flip(d[1..], v));
    }
  }

  /** Counting sign vectors by the sum they lead to is following every way of choosing the signs. */
  lemma {:induction false} WaysCount(d: seq<real>, sum: real, hit: real -> bool)
    ensures Count(SignVectors(|d|), Hits(d, sum, hit)) == Ways(d, sum, hit)
  {
    hide *;
    if d == [] {
      assert |d| == 0;
      NothingToFlip(sum, hit);
    } else {
      assert |d[1..]| == |d| - 1;
      CountSignVectors(|d|, Hits(d, sum, hit));
      WaysCount(d[1..], sum - d[0], hit);
      WaysCount(d[1..], sum + d[0], hit);
      HalfHits(d, sum, hit, -1);
      HalfHits(d, sum, hit, 1);
      WaysUnfold(d, sum, hit);
    }
  }

  lemma NothingToFlip(sum: real, hit: real -> bool)
    ensures Count(SignVectors(0), Hits([], sum, hit)) == Ways([], sum, hit)
  {
    assert SignVectors(0) == [[]] && Sum(Flip([], [])) == 0.0;
    CountOne([], Hits([], sum, hit));
  }

  lemma WaysUnfold(d: seq<real>, sum: real, hit: real -> bool)
    requires d != []
    ensures Ways(d, sum, hit) == Ways(d[1..], sum - d[0], hit) + Ways(d[1..], sum + d[0], hit)
  {
  }

  lemma HalfHits(d: seq<real>, sum: real, hit: real -> bool, sign: int)
    requires d != [] && (sign == 1 || sign == -1)
    ensures Count(SignVectors(|d| - 1), After(sign, Hits(d, sum, hit)))
            == Count(SignVectors(|d[1..]|), Hits(d[1..], if sign == 1 then sum + d[0] else sum - d[0], hit))
  {
    hide *;
    var rest := Hits(d[1..], if sign == 1 then sum + d[0] else sum - d[0], hit);
    forall v | v in SignVectors(|d| - 1)
      ensures After(sign, Hits(d, sum, hit))(v) == rest(v)
    {
      HitsAfter(d, sum, hit, sign, v);
    }
    CountCongruent(SignVectors(|d| - 1), After(sign, Hits(d, sum, hit)), rest);
  }

  /** Means of `n` values compare as their sums do, with the slack multiplied. */
  lemma SumsCompare(a: real, b: real, n: real, slack: real)
    requires n > 0.0
    ensures Abs(a / n) >= Abs(b / n) - slack <==> Far(Magnitude(b) - n * slack)(a)
  {
    var x, y := Abs(a / n), Abs(b / n);
    ScaledAbs(a, n);
    ScaledAbs(b, n);
    var gap := x - (y - slack);
    assert n * gap == Abs(a) - (Abs(b) - n * slack);
    if gap > 0.0 { Product(n, gap); }
    if gap < 0.0 { Product(n, -gap); }
  }

  lemma ScaledAbs(a: real, n: real)
    requires n > 0.0
    ensures n * Abs(a / n) == Abs(a)
  {
    Quotient(a, n);
    var x := a / n;
    if x > 0.0 { Product(n, x); }
    if x < 0.0 { Product(n, -x); }
  }

  function Magnitude(x: real): real {
    if x < 0.0 then -x else x
  }

  lemma ExtremeCounts(d: seq<real>)
    requires d != []
    ensures Extreme(d) == Ways(d, 0.0, Far(Magnitude(Sum(d)) - |d| as real * 0.000000000001))
  {
    hide *;
    var hit := Far(Magnitude(Sum(d)) - |d| as real * 0.000000000001);
    var extreme := AtLeast(ScoreOf(d), Statistic(d) - TOLERANCE);
    SignVectorsAre(|d|);
    forall v | v in SignVectors(|d|)
      ensures extreme(v) == Hits(d, 0.0, hit)(v)
    {
      ScoreCompares(d, v);
    }
    CountCongruent(SignVectors(|d|), extreme, Hits(d, 0.0, hit));
    WaysCount(d, 0.0, hit);
    ExtremeIs(d);
  }

  lemma ExtremeIs(d: seq<real>)
    ensures Extreme(d) == Count(SignVectors(|d|), AtLeast(ScoreOf(d), Statistic(d) - TOLERANCE))
  {
    hide Count, SignVectors, Statistic;
  }

  lemma ScoreIs(d: seq<real>, v: seq<int>)
    requires d != [] && |v| == |d|
    ensures Score(d, v) == Abs(Sum(Flip(d, v)) / |d| as real)
    ensures Statistic(d) == Abs(Sum(d) / |d| as real)
  {
    hide Sum, Abs;
  }

  lemma ScoreCompares(d: seq<real>, v: seq<int>)
    requires d != [] && Signs(v, |d|)
    ensures AtLeast(ScoreOf(d), Statistic(d) - TOLERANCE)(v)
            == Hits(d, 0.0, Far(Magnitude(Sum(d)) - |d| as real * 0.000000000001))(v)
  {
    hide Sum, Abs, Magnitude, Far, Score, Statistic, Flip;
    ScoreIs(d, v);
    SumsCompare(Sum(Flip(d, v)), Sum(d), |d| as real, 0.000000000001);
  }

  /**
   What the p-value is. Of all 2^n ways of adding or subtracting the differences, it is the share
   that lead at least as far from zero as the observed sum, up to 1e-12 for each difference.
   */
  lemma PValueCounts(d: seq<real>)
    requires d != []
    ensures PValue(d).Ok?
    ensures PValue(d).value * Pow2(|d|) as real
            == Ways(d, 0.0, Far(Magnitude(Sum(d)) - |d| as real * 0.000000000001)) as real
  {
    hide Extreme, Ways, Sum;
    ExtremeCounts(d);
  }

  function Between(low: real, high: real): real -> bool {
    x => Far(low)(x) && !Far(high)(x)
  }

  lemma {:induction false} WaysSplit(d: seq<real>, sum: real, low: real, high: real)
    requires low <= high
    ensures Ways(d, sum, Far(low)) == Ways(d, sum, Far(high)) + Ways(d, sum, Between(low, high))
  {
    if d != [] {
      WaysSplit(d[1..], sum - d[0], low, high);
      WaysSplit(d[1..], sum + d[0], low, high);
    }
  }

  /**
   What the slack can do. The p-value is at least the share of flipped copies whose sum is as far from
   zero as the observed one, and exactly that share unless some copy falls short by at most 1e-12 a
   difference.
   */
  lemma SlackIsSmall(d: seq<real>)
    requires d != []
    ensures var observed, slack := Magnitude(Sum(d)), |d| as real * 0.000000000001;
            && PValue(d).Ok?
            && PValue(d).value * Pow2(|d|) as real >= Ways(d, 0.0, Far(observed)) as real
            && (Ways(d, 0.0, Between(observed - slack, observed)) == 0
                <==> PValue(d).value * Pow2(|d|) as real == Ways(d, 0.0, Far(observed)) as real)
  {
    var observed, slack := Magnitude(Sum(d)), |d| as real * 0.000000000001;
    hide *;
    Product(|d| as real, 0.000000000001);
    PValueCounts(d);
    WaysSplit(d, 0.0, observed - slack, observed);
  }

  // ---------------------------------------------------------------- differences of one sign

  lemma {:induction false} WaysNone(d: seq<real>, sum: real, bound: real)
    requires forall i :: 0 <= i < |d| ==> d[i] >= 0.0
    requires sum + Sum(d) < bound && sum - Sum(d) > -bound
    ensures Ways(d, sum, Far(bound)) == 0
  {
    if d != [] {
      WaysNone(d[1..], sum - d[0], bound);
      WaysNone(d[1..], sum + d[0], bound);
    }
  }

  lemma {:induction false} WaysTop(d: seq<real>, sum: real, bound: real)
    requires forall i :: 0 <= i < |d| ==> d[i] >= 0.0 && sum + Sum(d) - 2.0 * d[i] < bound
    requires sum + Sum(d) >= bound && sum - Sum(d) > -bound
    ensures Ways(d, sum, Far(bound)) == 1
  {
    if d != [] {
      WaysNone(d[1..], sum - d[0], bound);
      forall i | 0 <= i < |d[1..]|
        ensures d[1..][i] >= 0.0 && (sum + d[0]) + Sum(d[1..]) - 2.0 * d[1..][i] < bound
      {
        assert d[1..][i] == d[i + 1];
      }
      WaysTop(d[1..], sum + d[0], bound);
    }
  }

  lemma {:induction false} WaysMirror(d: seq<real>, sum: real, bound: real)
    ensures Ways(d, -sum, Far(bound)) == Ways(d, sum, Far(bound))
  {
    if d != [] {
      WaysMirror(d[1..], sum - d[0], bound);
      WaysMirror(d[1..], sum + d[0], bound);
      assert -(sum - d[0]) == -sum + d[0] && -(sum + d[0]) == -sum - d[0];
    }
  }

  /** If every difference is positive, and large enough for the slack, the p-value is the least possible, 2^(1-n). */
  lemma OneSidedIsLeast(d: seq<real>)
    requires d != [] && forall i :: 0 <= i < |d| ==> 2.0 * d[i] > |d| as real * 0.000000000001
    ensures PValue(d) == Ok(1.0 / Pow2(|d| - 1) as real)
  {
    hide PValue, Extreme, Pow2, Ways, Far;
    OneSidedWays(d);
    ExtremeCounts(d);
    PValueIs(d);
    Halved(1, Pow2(|d| - 1));
    Doubled(|d|);
  }

  lemma Doubled(n: nat)
    requires n > 0
    ensures Pow2(n) == 2 * Pow2(n - 1)
  {
  }

  lemma PValueIs(d: seq<real>)
    requires d != []
    ensures PValue(d) == Ok(Extreme(d) as real / Pow2(|d|) as real)
  {
    hide Extreme;
  }

  lemma OneSidedWays(d: seq<real>)
    requires d != [] && forall i :: 0 <= i < |d| ==> 2.0 * d[i] > |d| as real * 0.000000000001
    ensures Ways(d, 0.0, Far(Magnitude(Sum(d)) - |d| as real * 0.000000000001)) == 2
  {
    var bound := Sum(d) - |d| as real * 0.000000000001;
    Product(|d| as real, 0.000000000001);
    PositiveSum(d);
    PositiveSum(d[1..]);
    assert Magnitude(Sum(d)) == Sum(d) && Sum(d) == d[0] + Sum(d[1..]);
    hide Ways, Sum, Far, Magnitude;
    assert forall i :: 0 <= i < |d[1..]| ==> d[1..][i] == d[i + 1];
    WaysTop(d[1..], d[0], bound);
    WaysMirror(d[1..], d[0], bound);
    WaysUnfold(d, 0.0, Far(bound));
    assert 0.0 - d[0] == -d[0] && 0.0 + d[0] == d[0];
  }

  lemma {:induction false} PositiveSum(d: seq<real>)
    requires forall i :: 0 <= i < |d| ==> d[i] > 0.0
    ensures Sum(d) >= 0.0
  {
    if d != [] { PositiveSum(d[1..]); }
  }
}

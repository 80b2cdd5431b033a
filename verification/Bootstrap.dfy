/**
 The interpolated percentile and the exhaustive paired bootstrap interval
 (docs/benchmarks/discrete-v0.9.5/reproduce/work/analysis/analyze_crossos_1g.py and
 analyze_crossos_cold.py), over the reals.
 */
module Bootstrap {
  import opened Counting
  import opened Statistics

  // ---------------------------------------------------------------- sorting

  predicate Ascending(xs: seq<real>) {
    forall i, j :: 0 <= i < j < |xs| ==> xs[i] <= xs[j]
  }

  lemma AscendingFrom(x: real, xs: seq<real>)
    requires Ascending(xs) && (xs == [] || x <= xs[0])
    ensures Ascending([x] + xs)
  {
  }

  function Insert(x: real, xs: seq<real>): (r: seq<real>)
    requires Ascending(xs)
    ensures Ascending(r)
    ensures |r| == |xs| + 1 && r[0] == if xs == [] || x <= xs[0] then x else xs[0]
  {
    if xs == [] || x <= xs[0] then AscendingFrom(x, xs); [x] + xs
    else AscendingFrom(xs[0], Insert(x, xs[1..])); [xs[0]] + Insert(x, xs[1..])
  }

  /** `sorted(values)`; on numbers the ascending arrangement is the only one, see `SortedIsUnique`. */
  function Sorted(xs: seq<real>): (r: seq<real>)
    ensures |r| == |xs| && Ascending(r)
  {
    if xs == [] then [] else Insert(xs[0], Sorted(xs[1..]))
  }

  lemma {:induction false} InsertAdds(x: real, xs: seq<real>)
    requires Ascending(xs)
    ensures multiset(Insert(x, xs)) == multiset{x} + multiset(xs)
  {
    if xs != [] && x > xs[0] {
      InsertAdds(x, xs[1..]);
      assert xs == [xs[0]] + xs[1..];
    }
  }

  lemma {:induction false} SortedPermutes(xs: seq<real>)
    ensures multiset(Sorted(xs)) == multiset(xs)
  {
    if xs != [] {
      SortedPermutes(xs[1..]);
      InsertAdds(xs[0], Sorted(xs[1..]));
      assert xs == [xs[0]] + xs[1..];
    }
  }

  lemma SameLeast(a: seq<real>, b: seq<real>)
    requires Ascending(a) && Ascending(b) && multiset(a) == multiset(b) && a != [] && b != []
    ensures a[0] == b[0]
  {
    assert a[0] in multiset(b) && b[0] in multiset(a);
    assert a[0] in b && b[0] in a;
  }

  lemma Rest(a: seq<real>)
    requires a != []
    ensures multiset(a[1..]) == multiset(a) - multiset{a[0]}
  {
    assert a == [a[0]] + a[1..];
  }

  lemma {:induction false} SortedIsUnique(a: seq<real>, b: seq<real>)
    requires Ascending(a) && Ascending(b) && multiset(a) == multiset(b)
    ensures a == b
  {
    if a == [] {
      assert |b| == |multiset(b)| == 0;
    } else {
      assert |a| == |multiset(a)| == |b|;
      SameLeast(a, b);
      Rest(a);
      Rest(b);
      SortedIsUnique(a[1..], b[1..]);
    }
  }

  // ---------------------------------------------------------------- the percentile

  function Ceil(x: real): int {
    -((-x).Floor)
  }

  predicate Quantile(q: real) {
    0.0 <= q <= 1.0
  }

  /** The place of a quantile among `m` ordered values. */
  function Position(m: nat, quantile: real): real {
    (m as real - 1.0) * quantile
  }

  lemma PositionMonotone(m: nat, p: real, q: real)
    requires m > 0 && p <= q
    ensures Position(m, p) <= Position(m, q)
  {
    Product(m as real - 1.0, q - p);
    assert Position(m, q) - Position(m, p) == (m as real - 1.0) * (q - p);
  }

  lemma PositionInside(m: nat, quantile: real)
    requires m > 0 && Quantile(quantile)
    ensures 0.0 <= Position(m, quantile) <= m as real - 1.0
    ensures 0 <= Position(m, quantile).Floor <= Ceil(Position(m, quantile)) <= m - 1
    ensures Ceil(Position(m, quantile)) <= Position(m, quantile).Floor + 1
    ensures Ceil(Position(m, quantile)) == Position(m, quantile).Floor
            <==> Position(m, quantile) == Position(m, quantile).Floor as real
  {
    PositionMonotone(m, quantile, 1.0);
    PositionMonotone(m, 0.0, quantile);
  }

  /** The value a fraction of the way from one to the other. */
  function Blend(a: real, b: real, fraction: real): real {
    a * (1.0 - fraction) + b * fraction
  }

  /** The value at a position of ordered data, interpolated between the two nearest. */
  function At(ordered: seq<real>, position: real): real
    requires 0 <= position.Floor <= Ceil(position) < |ordered|
  {
    var lower, upper := position.Floor, Ceil(position);
    if lower == upper then ordered[lower]
    else
      Blend(ordered[lower], ordered[upper], position - lower as real)
  }

  function Percentile(values: seq<real>, quantile: real): real
    requires values != [] && Quantile(quantile)
  {
    PositionInside(|values|, quantile);
    At(Sorted(values), Position(|values|, quantile))
  }

  lemma Between(a: real, b: real, fraction: real)
    requires a <= b && 0.0 <= fraction <= 1.0
    ensures a <= Blend(a, b, fraction) <= b
  {
    Product(b - a, fraction);
    Product(b - a, 1.0 - fraction);
    assert a * (1.0 - fraction) + b * fraction == a + (b - a) * fraction == b - (b - a) * (1.0 - fraction);
  }

  lemma AtBetween(ordered: seq<real>, position: real)
    requires Ascending(ordered)
    requires 0 <= position.Floor <= Ceil(position) < |ordered|
    ensures ordered[position.Floor] <= At(ordered, position) <= ordered[Ceil(position)]
  {
    hide Blend;
    if position.Floor != Ceil(position) {
      Between(ordered[position.Floor], ordered[Ceil(position)], position - position.Floor as real);
    }
  }

  lemma BlendMonotone(a: real, b: real, f: real, g: real)
    requires a <= b && f <= g
    ensures Blend(a, b, f) <= Blend(a, b, g)
  {
    Product(b - a, g - f);
    assert Blend(a, b, g) - Blend(a, b, f) == (b - a) * (g - f);
  }

  lemma AtMonotone(ordered: seq<real>, p: real, q: real)
    requires Ascending(ordered) && p <= q
    requires 0 <= p.Floor <= Ceil(p) < |ordered| && 0 <= q.Floor <= Ceil(q) < |ordered|
    ensures At(ordered, p) <= At(ordered, q)
  {
    AtBetween(ordered, p);
    AtBetween(ordered, q);
    if Ceil(p) > q.Floor {
      assert p.Floor == q.Floor && Ceil(p) == Ceil(q) == p.Floor + 1;
      hide Blend;
      BlendMonotone(ordered[p.Floor], ordered[Ceil(p)], p - p.Floor as real, q - p.Floor as real);
    }
  }

  /** A larger quantile never gives a smaller value. */
  lemma PercentileMonotone(values: seq<real>, p: real, q: real)
    requires values != [] && Quantile(p) && Quantile(q) && p <= q
    ensures Percentile(values, p) <= Percentile(values, q)
  {
    hide At, Sorted;
    PositionInside(|values|, p);
    PositionInside(|values|, q);
    PositionMonotone(|values|, p, q);
    AtMonotone(Sorted(values), Position(|values|, p), Position(|values|, q));
  }

  // ---------------------------------------------------------------- what a percentile means

  function AtMost(x: real): real -> bool {
    v => v <= x
  }

  function NoLess(x: real): real -> bool {
    v => v >= x
  }

  lemma {:induction false} CountInsert(x: real, xs: seq<real>, p: real -> bool)
    requires Ascending(xs)
    ensures Count(Insert(x, xs), p) == (if p(x) then 1 else 0) + Count(xs, p)
  {
    if xs == [] || x <= xs[0] {
      assert ([x] + xs)[1..] == xs;
    } else {
      var rest := Insert(x, xs[1..]);
      assert ([xs[0]] + rest)[1..] == rest;
      CountInsert(x, xs[1..], p);
    }
  }

  lemma {:induction false} CountSorted(xs: seq<real>, p: real -> bool)
    ensures Count(Sorted(xs), p) == Count(xs, p)
  {
    if xs != [] {
      CountSorted(xs[1..], p);
      CountInsert(xs[0], Sorted(xs[1..]), p);
    }
  }

  lemma {:induction false} CountAll(xs: seq<real>, p: real -> bool)
    requires forall i :: 0 <= i < |xs| ==> p(xs[i])
    ensures Count(xs, p) == |xs|
  {
    if xs != [] { CountAll(xs[1..], p); }
  }

  lemma CountFront(ordered: seq<real>, n: nat, p: real -> bool)
    requires n <= |ordered| && forall i :: 0 <= i < n ==> p(ordered[i])
    ensures Count(ordered, p) >= n
  {
    hide Count;
    assert ordered == ordered[..n] + ordered[n..];
    CountAll(ordered[..n], p);
    CountConcat(ordered[..n], ordered[n..], p);
  }

  lemma CountBack(ordered: seq<real>, n: nat, p: real -> bool)
    requires n <= |ordered| && forall i :: n <= i < |ordered| ==> p(ordered[i])
    ensures Count(ordered, p) >= |ordered| - n
  {
    hide Count;
    assert ordered == ordered[..n] + ordered[n..];
    CountAll(ordered[n..], p);
    CountConcat(ordered[..n], ordered[n..], p);
  }

  lemma AtSplits(ordered: seq<real>, position: real)
    requires Ascending(ordered) && 0 <= position.Floor <= Ceil(position) < |ordered|
    ensures Count(ordered, AtMost(At(ordered, position))) >= position.Floor + 1
    ensures Count(ordered, NoLess(At(ordered, position))) >= |ordered| - Ceil(position)
  {
    AtBetween(ordered, position);
    hide Count, At, Ceil;
    var v := At(ordered, position);
    CountFront(ordered, position.Floor + 1, AtMost(v));
    CountBack(ordered, Ceil(position), NoLess(v));
  }

  lemma PercentileIs(values: seq<real>, quantile: real)
    requires values != [] && Quantile(quantile)
    ensures 0 <= Position(|values|, quantile).Floor <= Ceil(Position(|values|, quantile)) < |values|
    ensures Percentile(values, quantile) == At(Sorted(values), Position(|values|, quantile))
  {
    PositionInside(|values|, quantile);
    hide At, Sorted, Position, Ceil;
  }

  /** A percentile splits the data: enough values are at most it, and enough are at least it. */
  lemma PercentileSplits(values: seq<real>, quantile: real)
    requires values != [] && Quantile(quantile)
    ensures Count(values, AtMost(Percentile(values, quantile))) >= Position(|values|, quantile).Floor + 1
    ensures Count(values, NoLess(Percentile(values, quantile))) >= |values| - Ceil(Position(|values|, quantile))
  {
    hide *;
    PercentileIs(values, quantile);
    AtSplits(Sorted(values), Position(|values|, quantile));
    CountSorted(values, AtMost(Percentile(values, quantile)));
    CountSorted(values, NoLess(Percentile(values, quantile)));
  }

  // ---------------------------------------------------------------- mirroring

  function Negated(xs: seq<real>): seq<real> {
    Map(xs, Negative())
  }

  function Negative(): real -> real {
    x => -x
  }

  /** The ordered values, negated and turned round. */
  function Mirror(xs: seq<real>): seq<real> {
    seq(|xs|, i requires 0 <= i < |xs| => -xs[|xs| - 1 - i])
  }

  lemma {:induction false} NegatedMultiset(xs: seq<real>, v: real)
    ensures multiset(Negated(xs))[v] == multiset(xs)[-v]
  {
    if xs != [] {
      assert Negated(xs) == [-xs[0]] + Negated(xs[1..]);
      assert xs == [xs[0]] + xs[1..];
      NegatedMultiset(xs[1..], v);
    }
  }

  lemma {:induction false} MirrorMultiset(xs: seq<real>)
    ensures multiset(Mirror(xs)) == multiset(Negated(xs))
  {
    if xs != [] {
      assert Negated(xs) == [-xs[0]] + Negated(xs[1..]);
      assert Mirror(xs) == Mirror(xs[1..]) + [-xs[0]];
      MirrorMultiset(xs[1..]);
    }
  }

  lemma SortedNegated(values: seq<real>)
    ensures Sorted(Negated(values)) == Mirror(Sorted(values))
  {
    hide Sorted, Insert;
    var ordered := Sorted(values);
    SortedPermutes(values);
    SortedPermutes(Negated(values));
    forall v: real
      ensures multiset(Negated(values))[v] == multiset(Negated(ordered))[v]
    {
      NegatedMultiset(values, v);
      NegatedMultiset(ordered, v);
    }
    assert multiset(Negated(values)) == multiset(Negated(ordered));
    MirrorMultiset(ordered);
    SortedIsUnique(Sorted(Negated(values)), Mirror(ordered));
  }

  /** Negating the data mirrors every percentile. */
  lemma PercentileMirrors(values: seq<real>, quantile: real)
    requires values != [] && Quantile(quantile)
    ensures Percentile(Negated(values), 1.0 - quantile) == -Percentile(values, quantile)
  {
    hide At, Sorted, Mirror;
    var m, ordered := |values|, Sorted(values);
    SortedNegated(values);
    PositionInside(m, quantile);
    PositionInside(m, 1.0 - quantile);
    assert Position(m, 1.0 - quantile) == m as real - 1.0 - Position(m, quantile);
    AtMirrors(ordered, Position(m, quantile));
  }

  lemma BlendMirrors(a: real, b: real, fraction: real)
    ensures Blend(-b, -a, 1.0 - fraction) == -Blend(a, b, fraction)
  {
  }

  lemma AtMirrors(ordered: seq<real>, position: real)
    requires 0 <= position.Floor <= Ceil(position) < |ordered|
    ensures 0 <= (|ordered| as real - 1.0 - position).Floor <= Ceil(|ordered| as real - 1.0 - position) < |ordered|
    ensures At(Mirror(ordered), |ordered| as real - 1.0 - position) == -At(ordered, position)
  {
    hide Blend;
    var m := |ordered|;
    var other := m as real - 1.0 - position;
    var lower, upper := position.Floor, Ceil(position);
    assert other.Floor == m - 1 - upper && Ceil(other) == m - 1 - lower;
    assert Mirror(ordered)[m - 1 - upper] == -ordered[upper];
    assert Mirror(ordered)[m - 1 - lower] == -ordered[lower];
    if lower == upper {
      assert At(Mirror(ordered), other) == Mirror(ordered)[m - 1 - lower];
    } else {
      assert upper == lower + 1;
      var f, g := position - lower as real, other - other.Floor as real;
      assert g == 1.0 - f;
      BlendMirrors(ordered[lower], ordered[upper], f);
    }
  }

  // ---------------------------------------------------------------- the bootstrap interval

  /** `itertools.product(range(n), repeat=r)`. */
  function IndexTuples(n: nat, r: nat): seq<seq<nat>>
    decreases r, n + 1
  {
    if r == 0 then [[]] else LedBy(0, n, IndexTuples(n, r - 1))
  }

  function LedBy(from: nat, n: nat, tuples: seq<seq<nat>>): seq<seq<nat>>
    decreases if from <= n then n - from else 0
  {
    if from >= n then [] else Map(tuples, Led(from)) + LedBy(from + 1, n, tuples)
  }

  function Led(first: nat): seq<nat> -> seq<nat> {
    c => [first] + c
  }

  predicate Indices(selection: seq<nat>, n: nat) {
    forall i :: 0 <= i < |selection| ==> selection[i] < n
  }

  function Pick(differences: seq<real>, selection: seq<nat>): seq<real>
    requires Indices(selection, |differences|)
  {
    seq(|selection|, i requires 0 <= i < |selection| => differences[selection[i]])
  }

  /** The mean of one resample; index lists out of range do not occur. */
  function MeanOf(differences: seq<real>): seq<nat> -> real {
    selection =>
      if selection != [] && Indices(selection, |differences|) then Mean(Pick(differences, selection)) else 0.0
  }

  function Means(differences: seq<real>): seq<real> {
    Map(IndexTuples(|differences|, |differences|), MeanOf(differences))
  }

  const LOW: real := 0.025
  const HIGH: real := 0.975

  function Interval(differences: seq<real>): Result<(real, real)> {
    if differences == [] then StatisticsError
    else
      var means := Means(differences);
      if means == [] then StatisticsError   // not reached, see `SomeResample`
      else Ok((Percentile(means, LOW), Percentile(means, HIGH)))
  }

  function Power(n: nat, r: nat): nat {
    if r == 0 then 1 else n * Power(n, r - 1)
  }

  lemma {:induction false} LedByCount(from: nat, n: nat, tuples: seq<seq<nat>>)
    requires from <= n
    ensures |LedBy(from, n, tuples)| == (n - from) * |tuples|
    decreases n - from
  {
    if from < n {
      LedByCount(from + 1, n, tuples);
      assert (n - from) * |tuples| == |tuples| + (n - from - 1) * |tuples|;
    }
  }

  /** There are n^r selections ... */
  lemma {:induction false} IndexTupleCount(n: nat, r: nat)
    ensures |IndexTuples(n, r)| == Power(n, r)
  {
    if r > 0 {
      IndexTupleCount(n, r - 1);
      LedByCount(0, n, IndexTuples(n, r - 1));
    }
  }

  lemma {:induction false} LedByMember(from: nat, n: nat, tuples: seq<seq<nat>>, c: seq<nat>)
    ensures c in LedBy(from, n, tuples) <==> c != [] && from <= c[0] < n && c[1..] in tuples
    decreases if from <= n then n - from else 0
  {
    if from < n {
      var leading := Map(tuples, Led(from));
      LedByMember(from + 1, n, tuples, c);
      if c in leading {
        var i :| 0 <= i < |leading| && leading[i] == c;
        assert c == [from] + tuples[i];
        assert c[1..] == tuples[i];
      }
      if c != [] && c[0] == from && c[1..] in tuples {
        var i :| 0 <= i < |tuples| && tuples[i] == c[1..];
        assert leading[i] == [from] + c[1..] == c;
      }
    }
  }

  /** ... and they are all the index lists of that length. */
  lemma {:induction false} IndexTuplesExactly(n: nat, r: nat, c: seq<nat>)
    ensures c in IndexTuples(n, r) <==> |c| == r && Indices(c, n)
  {
    if r > 0 {
      LedByMember(0, n, IndexTuples(n, r - 1), c);
      if c != [] {
        IndexTuplesExactly(n, r - 1, c[1..]);
        assert c == [c[0]] + c[1..];
        assert Indices(c, n) <==> c[0] < n && Indices(c[1..], n);
      }
    }
  }

  lemma {:induction false} PowerPositive(n: nat, r: nat)
    requires n > 0
    ensures Power(n, r) >= 1
  {
    if r > 0 { PowerPositive(n, r - 1); }
  }

  lemma SomeResample(differences: seq<real>)
    requires differences != []
    ensures |Means(differences)| == Power(|differences|, |differences|) >= 1
    ensures Interval(differences) == Ok((Percentile(Means(differences), LOW), Percentile(Means(differences), HIGH)))
  {
    hide Percentile, IndexTuples;
    IndexTupleCount(|differences|, |differences|);
    PowerPositive(|differences|, |differences|);
  }

  lemma {:induction false} SumNegated(xs: seq<real>)
    ensures Sum(Negated(xs)) == -Sum(xs)
  {
    if xs != [] {
      assert Negated(xs)[1..] == Negated(xs[1..]);
      SumNegated(xs[1..]);
    }
  }

  lemma MeansNegated(differences: seq<real>)
    requires differences != []
    ensures Means(Negated(differences)) == Negated(Means(differences))
  {
    hide IndexTuples, Sum;
    var n := |differences|;
    var cases := IndexTuples(n, n);
    assert |Negated(differences)| == n;
    forall i | 0 <= i < |cases|
      ensures Means(Negated(differences))[i] == -Means(differences)[i]
    {
      var c := cases[i];
      IndexTuplesExactly(n, n, c);
      var picked := Pick(differences, c);
      assert Pick(Negated(differences), c) == Negated(picked);
      SumNegated(picked);
      NegatedQuotient(Sum(picked), n as real);
    }
  }

  /** Exchanging the two systems, which negates every difference, mirrors the interval. */
  lemma IntervalMirrors(differences: seq<real>)
    requires differences != []
    ensures Interval(differences).Ok? && Interval(Negated(differences)).Ok?
    ensures var (low, high) := Interval(differences).value;
            Interval(Negated(differences)).value == (-high, -low)
  {
    hide Means, Percentile;
    SomeResample(differences);
    SomeResample(Negated(differences));
    MeansNegated(differences);
    var means := Means(differences);
    PercentileMirrors(means, LOW);
    PercentileMirrors(means, HIGH);
  }

  predicate Within(xs: seq<real>, least: real, most: real) {
    forall i :: 0 <= i < |xs| ==> least <= xs[i] <= most
  }

  lemma {:induction false} SumWithin(xs: seq<real>, least: real, most: real)
    requires Within(xs, least, most)
    ensures |xs| as real * least <= Sum(xs) <= |xs| as real * most
  {
    if xs != [] {
      SumWithin(xs[1..], least, most);
      var k := |xs[1..]| as real;
      assert |xs| as real * least == k * least + least && |xs| as real * most == k * most + most;
    }
  }

  lemma Divides(sum: real, n: nat, least: real, most: real)
    requires n > 0 && n as real * least <= sum <= n as real * most
    ensures least <= sum / n as real <= most
  {
    var mean := sum / n as real;
    Quotient(sum, n as real);
    if mean < least { Product(n as real, least - mean); }
    if mean > most { Product(n as real, mean - most); }
  }

  lemma MeanWithin(xs: seq<real>, least: real, most: real)
    requires xs != [] && Within(xs, least, most)
    ensures least <= Mean(xs) <= most
  {
    SumWithin(xs, least, most);
    Divides(Sum(xs), |xs|, least, most);
  }

  lemma MeansWithin(differences: seq<real>, least: real, most: real)
    requires differences != [] && Within(differences, least, most)
    ensures Within(Means(differences), least, most)
  {
    hide IndexTuples, Mean;
    var n := |differences|;
    forall i | 0 <= i < |Means(differences)|
      ensures least <= Means(differences)[i] <= most
    {
      var c := IndexTuples(n, n)[i];
      IndexTuplesExactly(n, n, c);
      MeanWithin(Pick(differences, c), least, most);
    }
  }

  lemma PercentileWithin(values: seq<real>, quantile: real, least: real, most: real)
    requires values != [] && Quantile(quantile) && Within(values, least, most)
    ensures least <= Percentile(values, quantile) <= most
  {
    hide Sorted, At;
    var ordered := Sorted(values);
    SortedPermutes(values);
    PositionInside(|values|, quantile);
    var position := Position(|values|, quantile);
    AtBetween(ordered, position);
    assert ordered[position.Floor] in multiset(ordered) && ordered[Ceil(position)] in multiset(ordered);
    assert ordered[position.Floor] in values && ordered[Ceil(position)] in values;
  }

  /** The interval is an interval, and lies between the smallest and the largest difference. */
  lemma IntervalInside(differences: seq<real>, least: real, most: real)
    requires differences != [] && Within(differences, least, most)
    ensures Interval(differences).Ok?
    ensures var (low, high) := Interval(differences).value; least <= low <= high <= most
  {
    hide Means, Percentile;
    SomeResample(differences);
    var means := Means(differences);
    MeansWithin(differences, least, most);
    PercentileWithin(means, LOW, least, most);
    PercentileWithin(means, HIGH, least, most);
    PercentileMonotone(means, LOW, HIGH);
  }

  function Below(x: real): real -> bool {
    v => v < x
  }

  function Beyond(x: real): real -> bool {
    v => v > x
  }

  lemma {:induction false} CountOpposite(xs: seq<real>, x: real)
    ensures Count(xs, Below(x)) + Count(xs, NoLess(x)) == |xs|
    ensures Count(xs, Beyond(x)) + Count(xs, AtMost(x)) == |xs|
  {
    if xs != [] { CountOpposite(xs[1..], x); }
  }

  /** On either side of the interval lie at most ceil(0.025 (n^n - 1)) of the resample means. */
  lemma IntervalCovers(differences: seq<real>)
    requires differences != []
    ensures Interval(differences).Ok?
    ensures var (low, high) := Interval(differences).value;
            var most := Ceil(Position(Power(|differences|, |differences|), LOW));
            Count(Means(differences), Below(low)) <= most && Count(Means(differences), Beyond(high)) <= most
  {
    hide Means, Percentile, Count;
    SomeResample(differences);
    var means := Means(differences);
    var m := |means|;
    PercentileSplits(means, LOW);
    PercentileSplits(means, HIGH);
    CountOpposite(means, Percentile(means, LOW));
    CountOpposite(means, Percentile(means, HIGH));
    assert Position(m, HIGH) == m as real - 1.0 - Position(m, LOW);
    assert Position(m, HIGH).Floor == m - 1 - Ceil(Position(m, LOW));
  }

  // ---------------------------------------------------------------- what the interval is

  lemma AtInterpolates(xs: seq<real>, i: nat, f: real)
    requires i + 1 < |xs| && 0.0 <= f <= 1.0
    ensures 0 <= (i as real + f).Floor <= Ceil(i as real + f) < |xs|
    ensures At(xs, i as real + f) == xs[i] + f * (xs[i + 1] - xs[i])
  {
    var position := i as real + f;
    if f == 1.0 {
      assert position.Floor == i + 1 == Ceil(position);
    } else if f == 0.0 {
      assert position.Floor == i == Ceil(position);
    } else {
      assert position.Floor == i && Ceil(position) == i + 1;
      BlendIs(xs[i], xs[i + 1], f);
    }
  }

  lemma BlendIs(a: real, b: real, f: real)
    ensures Blend(a, b, f) == a + f * (b - a)
  {
  }

  /** The place a fraction of the way from one value to the next; the last value has no next. */
  function Line(xs: seq<real>, i: nat, f: real): real
    requires i < |xs|
  {
    if i + 1 < |xs| then xs[i] + f * (xs[i + 1] - xs[i]) else xs[i]
  }

  lemma SortedIs(values: seq<real>, xs: seq<real>)
    requires Ascending(xs) && multiset(xs) == multiset(values)
    ensures Sorted(values) == xs
  {
    SortedPermutes(values);
    SortedIsUnique(Sorted(values), xs);
  }

  lemma NoFraction(m: nat, quantile: real, i: nat, f: real)
    requires m > 0 && Quantile(quantile) && 0.0 <= f && Position(m, quantile) == i as real + f && i + 1 == m
    ensures f == 0.0
  {
    PositionInside(m, quantile);
  }

  /**
   The percentile interpolates linearly: a fraction `f` of the way from the i-th of the ordered values
   to the next, where the quantile is that place among them.
   */
  lemma PercentileInterpolates(values: seq<real>, xs: seq<real>, quantile: real, i: nat, f: real)
    requires values != [] && Quantile(quantile) && Ascending(xs) && multiset(xs) == multiset(values)
    requires i < |xs| && 0.0 <= f <= 1.0 && (|xs| as real - 1.0) * quantile == i as real + f
    ensures Percentile(values, quantile) == Line(xs, i, f)
  {
    assert Position(|xs|, quantile) == i as real + f;
    hide Percentile, Sorted, At, Blend, Ascending, Position, Ceil;
    SortedIs(values, xs);
    PercentileIs(values, quantile);
    if i + 1 < |xs| {
      AtInterpolates(xs, i, f);
    } else {
      NoFraction(|xs|, quantile, i, f);
      AtWhole(xs, i);
    }
  }

  lemma AtWhole(xs: seq<real>, i: nat)
    requires i < |xs|
    ensures 0 <= (i as real).Floor <= Ceil(i as real) < |xs| && At(xs, i as real) == xs[i]
  {
  }

  /** The sums of `r` draws with replacement, in the order of their index lists. */
  function Draws(differences: seq<real>, r: nat, sum: real): seq<real>
    decreases r, 0
  {
    if r == 0 then [sum] else DrawsFrom(differences, 0, r - 1, sum)
  }

  function DrawsFrom(differences: seq<real>, from: nat, r: nat, sum: real): seq<real>
    decreases r, if from <= |differences| then |differences| - from + 1 else 1
  {
    if from >= |differences| then []
    else Draws(differences, r, sum + differences[from]) + DrawsFrom(differences, from + 1, r, sum)
  }

  function SumOf(differences: seq<real>, sum: real): seq<nat> -> real {
    c => if Indices(c, |differences|) then sum + Sum(Pick(differences, c)) else 0.0
  }

  lemma SumOfLed(d: seq<real>, sum: real, first: nat, c: seq<nat>)
    requires first < |d|
    ensures SumOf(d, sum)([first] + c) == SumOf(d, sum + d[first])(c)
  {
    hide Sum;
    assert Indices([first] + c, |d|) <==> Indices(c, |d|) by {
      assert forall i :: 0 <= i < |c| ==> ([first] + c)[i + 1] == c[i];
    }
    if Indices(c, |d|) {
      assert Pick(d, [first] + c) == [d[first]] + Pick(d, c);
      SumCons(d[first], Pick(d, c));
    }
  }

  lemma SumCons(x: real, xs: seq<real>)
    ensures Sum([x] + xs) == x + Sum(xs)
  {
    assert ([x] + xs)[1..] == xs;
  }

  lemma {:induction false} DrawsAre(d: seq<real>, r: nat, sum: real)
    ensures Map(IndexTuples(|d|, r), SumOf(d, sum)) == Draws(d, r, sum)
    decreases r, 0
  {
    if r == 0 {
      assert Pick(d, []) == [];
    } else {
      DrawsFromAre(d, 0, r - 1, sum);
    }
  }

  lemma {:induction false} DrawsFromAre(d: seq<real>, from: nat, r: nat, sum: real)
    ensures Map(LedBy(from, |d|, IndexTuples(|d|, r)), SumOf(d, sum)) == DrawsFrom(d, from, r, sum)
    decreases r, if from <= |d| then |d| - from + 1 else 1
  {
    if from < |d| {
      var tuples := IndexTuples(|d|, r);
      DrawsAre(d, r, sum + d[from]);
      DrawsFromAre(d, from + 1, r, sum);
      LedSums(d, from, tuples, sum);
      MapConcat(Map(tuples, Led(from)), LedBy(from + 1, |d|, tuples), SumOf(d, sum));
    }
  }

  lemma LedSums(d: seq<real>, first: nat, tuples: seq<seq<nat>>, sum: real)
    requires first < |d|
    ensures Map(Map(tuples, Led(first)), SumOf(d, sum)) == Map(tuples, SumOf(d, sum + d[first]))
  {
    hide SumOf;
    forall i | 0 <= i < |tuples|
      ensures Map(Map(tuples, Led(first)), SumOf(d, sum))[i] == Map(tuples, SumOf(d, sum + d[first]))[i]
    {
      SumOfLed(d, sum, first, tuples[i]);
    }
  }

  lemma MapConcat<S, T>(a: seq<S>, b: seq<S>, f: S -> T)
    ensures Map(a + b, f) == Map(a, f) + Map(b, f)
  {
  }

  /** The resample means are the sums of n draws out of n with replacement, divided by n. */
  lemma MeansAreDraws(d: seq<real>)
    requires d != []
    ensures |Means(d)| == |Draws(d, |d|, 0.0)|
    ensures forall i :: 0 <= i < |Means(d)| ==> |d| as real * Means(d)[i] == Draws(d, |d|, 0.0)[i]
  {
    var n := |d|;
    hide IndexTuples, Sum, Draws;
    DrawsAre(d, n, 0.0);
    var tuples := IndexTuples(n, n);
    forall i | 0 <= i < |tuples|
      ensures n as real * Means(d)[i] == Map(tuples, SumOf(d, 0.0))[i]
    {
      IndexTuplesExactly(n, n, tuples[i]);
      Quotient(Sum(Pick(d, tuples[i])), n as real);
    }
  }

  /**
   What the interval is. Among the n^n resample means in ascending order, its ends stand at the places
   0.025 (n^n - 1) and 0.975 (n^n - 1), interpolated linearly between neighbours.
   */
  lemma IntervalInterpolates(differences: seq<real>, xs: seq<real>, i: nat, f: real, j: nat, g: real)
    requires differences != [] && Ascending(xs) && multiset(xs) == multiset(Means(differences))
    requires i < |xs| && 0.0 <= f <= 1.0 && (|xs| as real - 1.0) * 0.025 == i as real + f
    requires j < |xs| && 0.0 <= g <= 1.0 && (|xs| as real - 1.0) * 0.975 == j as real + g
    ensures Interval(differences) == Ok((Line(xs, i, f), Line(xs, j, g)))
  {
    hide Means, Percentile;
    SomeResample(differences);
    PercentileInterpolates(Means(differences), xs, 0.025, i, f);
    PercentileInterpolates(Means(differences), xs, 0.975, j, g);
  }
}

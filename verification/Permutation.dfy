/**
 The exact two-group permutation test (docs/benchmarks/discrete-v0.9.5/reproduce/work/analysis/
 analyze_debian_thp_interleaved.py and comparison_statistics.py), over the reals.
 */
module Permutation {
  import opened Counting
  import opened Statistics

  /** `itertools.combinations(range(from, n), k)`, in its order. */
  function Combinations(from: nat, n: nat, k: nat): seq<seq<nat>>
    decreases if from <= n then n - from else 0
  {
    if k == 0 then [[]]
    else if from >= n then []
    else Map(Combinations(from + 1, n, k - 1), Led(from)) + Combinations(from + 1, n, k)
  }

  function Led(first: nat): seq<nat> -> seq<nat> {
    c => [first] + c
  }

  lemma CombinationsUnfold(from: nat, n: nat, k: nat)
    requires k > 0
    ensures Combinations(from, n, k)
            == if from >= n then [] else Map(Combinations(from + 1, n, k - 1), Led(from)) + Combinations(from + 1, n, k)
  {
  }

  /** The values at the chosen indices (`keep`), or at the others, from an index on. */
  function Filtered(values: seq<real>, chosen: seq<nat>, from: nat, keep: bool): seq<real>
    decreases if from <= |values| then |values| - from else 0
  {
    if from >= |values| then []
    else (if (from in chosen) == keep then [values[from]] else []) + Filtered(values, chosen, from + 1, keep)
  }

  function Chosen(values: seq<real>, c: seq<nat>): seq<real> {
    Filtered(values, c, 0, true)
  }

  function Others(values: seq<real>, c: seq<nat>): seq<real> {
    Filtered(values, c, 0, false)
  }

  /** The distance of two group means; `mean` of an empty group raises, see `PValue`. */
  function Distance(a: seq<real>, b: seq<real>): real {
    if a == [] || b == [] then 0.0 else Abs(Mean(a) - Mean(b))
  }

  function ScoreOf(values: seq<real>): seq<nat> -> real {
    c => Distance(Chosen(values, c), Others(values, c))
  }

  /** How many relabellings of the pooled values are as extreme as what was observed. */
  function Extreme(values: seq<real>, k: nat, observed: real): nat {
    Count(Combinations(0, |values|, k), AtLeast(ScoreOf(values), observed - TOLERANCE))
  }

  /** The test of group `chosen` against `others`, pooled in either order. */
  function TailShare(values: seq<real>, chosen: seq<real>, others: seq<real>): Result<real> {
    if chosen == [] || others == [] then StatisticsError
    else
      var total := |Combinations(0, |values|, |chosen|)|;
      if total == 0 then StatisticsError   // not reached when the groups are pooled in `values`
      else Ok(Extreme(values, |chosen|, Distance(chosen, others)) as real / total as real)
  }

  /** `exact_permutation_pvalue(always, madvise)`. */
  function PValue(always: seq<real>, madvise: seq<real>): Result<real> {
    TailShare(always + madvise, madvise, always)
  }

  /** `exact_permutation_p(a, b)`. */
  function ComparisonP(a: seq<real>, b: seq<real>): Result<real> {
    TailShare(a + b, a, b)
  }

  // ---------------------------------------------------------------- the loops

  method ExactPermutationPValue(always: seq<real>, madvise: seq<real>) returns (p: Result<real>)
    ensures p == PValue(always, madvise)
  {
    if always == [] || madvise == [] { return StatisticsError; }
    var values := always + madvise;
    var observed := Abs(Mean(madvise) - Mean(always));
    assert observed == Distance(madvise, always);
    var cases := Combinations(0, |values|, |madvise|);
    ghost var hit := AtLeast(ScoreOf(values), observed - TOLERANCE);
    CountNone(cases, hit);
    hide Count, Combinations, Filtered, Distance;
    var exceed, total := 0, 0;
    for i := 0 to |cases|
      invariant total == i
      invariant exceed == Count(cases[..i], hit)
    {
      var candidate := Distance(Filtered(values, cases[i], 0, true), Filtered(values, cases[i], 0, false));
      CountNext(cases, i, hit);
      if candidate >= observed - TOLERANCE { exceed := exceed + 1; }
      total := total + 1;
    }
    assert cases[..|cases|] == cases;
    if total == 0 { return StatisticsError; }
    p := Ok(exceed as real / total as real);
  }

  method ExactPermutationP(a: seq<real>, b: seq<real>) returns (p: Result<real>)
    ensures p == ComparisonP(a, b)
  {
    if a == [] || b == [] { return StatisticsError; }
    var observed := Abs(Mean(a) - Mean(b));
    assert observed == Distance(a, b);
    var pooled := a + b;
    var cases := Combinations(0, |pooled|, |a|);
    ghost var hit := AtLeast(ScoreOf(pooled), observed - TOLERANCE);
    CountNone(cases, hit);
    hide Count, Combinations, Filtered, Distance;
    var extreme, total := 0, 0;
    for i := 0 to |cases|
      invariant total == i
      invariant extreme == Count(cases[..i], hit)
    {
      var difference := Distance(Filtered(pooled, cases[i], 0, true), Filtered(pooled, cases[i], 0, false));
      CountNext(cases, i, hit);
      if difference >= observed - TOLERANCE { extreme := extreme + 1; }
      total := total + 1;
    }
    assert cases[..|cases|] == cases;
    if total == 0 { return StatisticsError; }
    p := Ok(extreme as real / total as real);
  }

  // ---------------------------------------------------------------- counting selections by their sum

  function Shift(x: real, p: real -> bool): real -> bool {
    s => p(x + s)
  }

  /** How many selections of `k` of the values have a sum satisfying `p`. */
  function SubCount(values: seq<real>, k: nat, p: real -> bool): nat
    decreases |values|
  {
    if k == 0 then (if p(0.0) then 1 else 0)
    else if values == [] then 0
    else SubCount(values[1..], k - 1, Shift(values[0], p)) + SubCount(values[1..], k, p)
  }

  lemma {:induction false} SubCongruent(values: seq<real>, k: nat, p: real -> bool, q: real -> bool)
    requires forall s :: p(s) == q(s)
    ensures SubCount(values, k, p) == SubCount(values, k, q)
    decreases |values|
  {
    if k > 0 && values != [] {
      SubCongruent(values[1..], k - 1, Shift(values[0], p), Shift(values[0], q));
      SubCongruent(values[1..], k, p, q);
    }
  }

  lemma SubCons(x: real, rest: seq<real>, k: nat, p: real -> bool)
    ensures SubCount([x] + rest, k, p) ==
            if k == 0 then (if p(0.0) then 1 else 0)
            else SubCount(rest, k - 1, Shift(x, p)) + SubCount(rest, k, p)
  {
    assert ([x] + rest)[1..] == rest;
  }

  lemma SwapFront(x: real, y: real, rest: seq<real>, k: nat, p: real -> bool)
    ensures SubCount([x] + ([y] + rest), k, p) == SubCount([y] + ([x] + rest), k, p)
  {
    hide SubCount;
    SubCons(x, [y] + rest, k, p);
    SubCons(y, [x] + rest, k, p);
    SubCons(y, rest, k, p);
    SubCons(x, rest, k, p);
    if k >= 1 {
      SubCons(y, rest, k - 1, Shift(x, p));
      SubCons(x, rest, k - 1, Shift(y, p));
      assert Shift(x, p)(0.0) == p(x) && Shift(y, p)(0.0) == p(y);
      if k >= 2 {
        SubCongruent(rest, k - 2, Shift(y, Shift(x, p)), Shift(x, Shift(y, p)));
      } else {
        SubZero(rest, Shift(x, p));
        SubZero(rest, Shift(y, p));
      }
    }
  }

  lemma SubZero(values: seq<real>, p: real -> bool)
    ensures SubCount(values, 0, p) == if p(0.0) then 1 else 0
  {
  }

  lemma {:induction false} MoveFront(xs: seq<real>, x: real, ys: seq<real>, k: nat, p: real -> bool)
    ensures SubCount(xs + ([x] + ys), k, p) == SubCount([x] + (xs + ys), k, p)
    decreases |xs|
  {
    hide SubCount;
    if xs == [] {
      assert xs + ([x] + ys) == [x] + (xs + ys);
    } else {
      var rest := xs[1..];
      assert xs + ([x] + ys) == [xs[0]] + (rest + ([x] + ys));
      assert xs + ys == [xs[0]] + (rest + ys);
      SubCons(xs[0], rest + ([x] + ys), k, p);
      SubCons(xs[0], [x] + (rest + ys), k, p);
      MoveFront(rest, x, ys, k, p);
      if k >= 1 { MoveFront(rest, x, ys, k - 1, Shift(xs[0], p)); }
      SwapFront(xs[0], x, rest + ys, k, p);
    }
  }

  lemma RemoveSame(x: real, rest: seq<real>, before: seq<real>, after: seq<real>)
    requires multiset([x] + rest) == multiset(before + ([x] + after))
    ensures multiset(rest) == multiset(before + after)
  {
    assert multiset([x] + rest) == multiset{x} + multiset(rest);
    assert multiset(before + ([x] + after)) == multiset(before) + (multiset{x} + multiset(after));
    assert multiset(rest) == multiset([x] + rest) - multiset{x};
  }

  /** Selections do not see the order of the pooled values. */
  lemma {:induction false} SubPermuted(xs: seq<real>, ys: seq<real>, k: nat, p: real -> bool)
    requires multiset(xs) == multiset(ys)
    ensures SubCount(xs, k, p) == SubCount(ys, k, p)
    decreases |xs|
  {
    hide SubCount;
    if xs == [] {
      assert |ys| == |multiset(ys)| == 0;
    } else {
      var before, after := Around(xs[0], xs, ys);
      assert xs == [xs[0]] + xs[1..];
      RemoveSame(xs[0], xs[1..], before, after);
      MoveFront(before, xs[0], after, k, p);
      SubCons(xs[0], xs[1..], k, p);
      SubCons(xs[0], before + after, k, p);
      SubPermuted(xs[1..], before + after, k, p);
      if k >= 1 { SubPermuted(xs[1..], before + after, k - 1, Shift(xs[0], p)); }
    }
  }

  lemma Around(x: real, xs: seq<real>, ys: seq<real>) returns (before: seq<real>, after: seq<real>)
    requires multiset(xs) == multiset(ys) && x in xs
    ensures ys == before + ([x] + after)
  {
    assert x in multiset(xs);
    assert x in ys;
    var i :| 0 <= i < |ys| && ys[i] == x;
    before, after := ys[..i], ys[i + 1..];
  }

  lemma {:induction false} SubTooMany(values: seq<real>, k: nat, p: real -> bool)
    requires k > |values|
    ensures SubCount(values, k, p) == 0
    decreases |values|
  {
    if values != [] {
      SubTooMany(values[1..], k - 1, Shift(values[0], p));
      SubTooMany(values[1..], k, p);
    }
  }

  lemma {:induction false} SubAll(values: seq<real>, p: real -> bool)
    ensures SubCount(values, |values|, p) == if p(Sum(values)) then 1 else 0
    decreases |values|
  {
    if values != [] {
      SubAll(values[1..], Shift(values[0], p));
      SubTooMany(values[1..], |values|, p);
    }
  }

  function From(total: real, p: real -> bool): real -> bool {
    s => p(total - s)
  }

  /** Selecting `k` values is leaving out the rest. */
  lemma {:induction false} SubComplement(values: seq<real>, k: nat, p: real -> bool)
    requires k <= |values|
    ensures SubCount(values, k, p) == SubCount(values, |values| - k, From(Sum(values), p))
    decreases |values|
  {
    var q := From(Sum(values), p);
    if k == 0 {
      SubAll(values, q);
    } else if k == |values| {
      SubAll(values, p);
    } else {
      hide SubCount;
      var x, rest := values[0], values[1..];
      assert values == [x] + rest;
      SubCons(x, rest, k, p);
      SubCons(x, rest, |values| - k, q);
      SubComplement(rest, k - 1, Shift(x, p));
      SubComplement(rest, k, p);
      SubCongruent(rest, |values| - k, From(Sum(rest), Shift(x, p)), q);
      SubCongruent(rest, |rest| - k, From(Sum(rest), p), Shift(x, q));
    }
  }

  // ---------------------------------------------------------------- the enumeration, counted by sum

  lemma CombinationMember(c: seq<nat>, from: nat, n: nat, k: nat)
    requires k > 0 && from < n && c in Combinations(from, n, k)
    ensures c in Combinations(from + 1, n, k)
            || (c != [] && c[0] == from && c[1..] in Combinations(from + 1, n, k - 1) && c == [from] + c[1..])
  {
    var leading := Map(Combinations(from + 1, n, k - 1), Led(from));
    assert c in leading + Combinations(from + 1, n, k);
    if c in leading {
      var i :| 0 <= i < |leading| && leading[i] == c;
      assert c == [from] + Combinations(from + 1, n, k - 1)[i];
      assert c[1..] == Combinations(from + 1, n, k - 1)[i];
    }
  }

  predicate Ascending(c: seq<nat>, from: nat, n: nat) {
    (forall i :: 0 <= i < |c| ==> from <= c[i] < n) && (forall i, j :: 0 <= i < j < |c| ==> c[i] < c[j])
  }

  lemma AscendingLed(c: seq<nat>, from: nat, n: nat)
    requires from < n
    ensures Ascending(c, from + 1, n) ==> Ascending(c, from, n) && from !in c
    ensures c != [] && c[0] == from && Ascending(c[1..], from + 1, n) ==> Ascending(c, from, n)
  {
    if c != [] { assert forall i :: 0 < i < |c| ==> c[i] == c[1..][i - 1]; }
  }

  lemma NoneChosen(from: nat, n: nat, c: seq<nat>)
    requires c in Combinations(from, n, 0)
    ensures c == [] && Ascending(c, from, n)
  {
  }

  lemma NotExhausted(from: nat, n: nat, k: nat, c: seq<nat>)
    requires k > 0 && c in Combinations(from, n, k)
    ensures from < n
  {
  }

  lemma AscendByMember(from: nat, n: nat, k: nat, c: seq<nat>)
    requires k > 0 && from < n
    requires c in Combinations(from + 1, n, k) ==> |c| == k && Ascending(c, from + 1, n)
    requires c != [] && c[1..] in Combinations(from + 1, n, k - 1)
             ==> |c[1..]| == k - 1 && Ascending(c[1..], from + 1, n)
    requires c in Combinations(from, n, k)
    ensures |c| == k && Ascending(c, from, n)
  {
    hide *;
    CombinationMember(c, from, n, k);
    AscendingLed(c, from, n);
  }

  lemma {:induction false} CombinationsAscend(from: nat, n: nat, k: nat, c: seq<nat>)
    requires c in Combinations(from, n, k)
    ensures |c| == k && Ascending(c, from, n)
    decreases if from <= n then n - from else 0
  {
    hide *;
    if k == 0 {
      NoneChosen(from, n, c);
    } else {
      NotExhausted(from, n, k, c);
      if c in Combinations(from + 1, n, k) { CombinationsAscend(from + 1, n, k, c); }
      if c != [] && c[1..] in Combinations(from + 1, n, k - 1) { CombinationsAscend(from + 1, n, k - 1, c[1..]); }
      AscendByMember(from, n, k, c);
    }
  }

  lemma FilteredStep(values: seq<real>, c: seq<nat>, from: nat)
    requires from < |values|
    ensures var others, chosen := Filtered(values, c, from + 1, false), Filtered(values, c, from + 1, true);
            if from in c
            then Filtered(values, c, from, true) == [values[from]] + chosen
                 && Filtered(values, c, from, false) == others
            else Filtered(values, c, from, true) == chosen
                 && Filtered(values, c, from, false) == [values[from]] + others
  {
  }

  lemma {:induction false} FilteredIgnores(values: seq<real>, c: seq<nat>, x: nat, from: nat, keep: bool)
    requires x < from
    ensures Filtered(values, [x] + c, from, keep) == Filtered(values, c, from, keep)
    decreases if from <= |values| then |values| - from else 0
  {
    if from < |values| {
      FilteredIgnores(values, c, x, from + 1, keep);
      assert from in [x] + c <==> from in c;
    }
  }

  lemma SumLed(x: real, xs: seq<real>)
    ensures Sum([x] + xs) == x + Sum(xs)
  {
    assert ([x] + xs)[1..] == xs;
  }

  /** The chosen and the other values from an index on: their numbers and their sums. */
  lemma {:induction false} FilteredSplits(values: seq<real>, c: seq<nat>, from: nat, k: nat)
    requires from <= |values| && c in Combinations(from, |values|, k)
    ensures |Filtered(values, c, from, true)| == k && |Filtered(values, c, from, false)| == |values| - from - k
    ensures Sum(Filtered(values, c, from, true)) + Sum(Filtered(values, c, from, false)) == Sum(values[from..])
    decreases |values| - from
  {
    var n := |values|;
    if k == 0 {
      NoneChosen(from, n, c);
      NothingChosen(values, from);
    } else {
      NotExhausted(from, n, k, c);
      hide Combinations, Filtered, Sum, Ascending;
      var kept, left := Filtered(values, c, from + 1, true), Filtered(values, c, from + 1, false);
      assert values[from..] == [values[from]] + values[from + 1..];
      SumLed(values[from], values[from + 1..]);
      SumLed(values[from], kept);
      SumLed(values[from], left);
      CombinationMember(c, from, n, k);
      FilteredStep(values, c, from);
      if c in Combinations(from + 1, n, k) {
        CombinationsAscend(from + 1, n, k, c);
        AscendingLed(c, from, n);
        FilteredSplits(values, c, from + 1, k);
      } else {
        FilteredSplits(values, c[1..], from + 1, k - 1);
        FilteredIgnores(values, c[1..], from, from + 1, true);
        FilteredIgnores(values, c[1..], from, from + 1, false);
      }
    }
  }

  lemma {:induction false} NothingChosen(values: seq<real>, from: nat)
    requires from <= |values|
    ensures Filtered(values, [], from, true) == [] && Filtered(values, [], from, false) == values[from..]
    decreases |values| - from
  {
    if from < |values| {
      NothingChosen(values, from + 1);
      assert values[from..] == [values[from]] + values[from + 1..];
    }
  }

  /** The binomial coefficient. */
  function Choose(n: nat, k: nat): nat {
    if k == 0 then 1 else if n == 0 then 0 else Choose(n - 1, k - 1) + Choose(n - 1, k)
  }

  /** The enumeration lists C(n, k) combinations. */
  lemma {:induction false} CombinationsCounted(from: nat, n: nat, k: nat)
    requires from <= n
    ensures |Combinations(from, n, k)| == Choose(n - from, k)
    decreases n - from
  {
    if k > 0 && from < n {
      CombinationsCounted(from + 1, n, k - 1);
      CombinationsCounted(from + 1, n, k);
    }
  }

  lemma LedListed(from: nat, n: nat, k: nat, rest: seq<nat>)
    requires k > 0 && from < n && rest in Combinations(from + 1, n, k - 1)
    ensures [from] + rest in Combinations(from, n, k)
  {
    var with := Combinations(from + 1, n, k - 1);
    var i :| 0 <= i < |with| && with[i] == rest;
    assert Map(with, Led(from))[i] == [from] + rest;
    CombinationsUnfold(from, n, k);
  }

  lemma AscendingRest(c: seq<nat>, from: nat, n: nat)
    requires c != [] && Ascending(c, from, n)
    ensures from <= c[0] < n
    ensures c[0] == from ==> Ascending(c[1..], from + 1, n)
    ensures c[0] > from ==> Ascending(c, from + 1, n)
  {
    assert forall i :: 0 <= i < |c[1..]| ==> c[1..][i] == c[i + 1];
  }

  lemma LaterListed(from: nat, n: nat, k: nat, c: seq<nat>)
    requires k > 0 && from < n && c in Combinations(from + 1, n, k)
    ensures c in Combinations(from, n, k)
  {
    CombinationsUnfold(from, n, k);
  }

  lemma {:induction false} AscendingListed(from: nat, n: nat, k: nat, c: seq<nat>)
    requires |c| == k && Ascending(c, from, n)
    ensures c in Combinations(from, n, k)
    decreases if from <= n then n - from else 0
  {
    hide *;
    if k == 0 {
      NoneListed(from, n);
      assert c == [];
    } else {
      AscendingRest(c, from, n);
      if c[0] == from {
        AscendingListed(from + 1, n, k - 1, c[1..]);
        LedListed(from, n, k, c[1..]);
        assert c == [c[0]] + c[1..];
      } else {
        AscendingListed(from + 1, n, k, c);
        LaterListed(from, n, k, c);
      }
    }
  }

  lemma NoneListed(from: nat, n: nat)
    ensures [] in Combinations(from, n, 0)
  {
    assert Combinations(from, n, 0)[0] == [];
  }

  /** It lists exactly the ascending index lists of length k ... */
  lemma CombinationsExactly(from: nat, n: nat, k: nat, c: seq<nat>)
    ensures c in Combinations(from, n, k) <==> |c| == k && Ascending(c, from, n)
  {
    hide *;
    if c in Combinations(from, n, k) { CombinationsAscend(from, n, k, c); }
    if |c| == k && Ascending(c, from, n) { AscendingListed(from, n, k, c); }
  }

  lemma CombinationAt(from: nat, n: nat, k: nat, i: nat) returns (leading: nat)
    requires k > 0 && i < |Combinations(from, n, k)|
    ensures from < n && leading == |Combinations(from + 1, n, k - 1)|
    ensures |Combinations(from, n, k)| == leading + |Combinations(from + 1, n, k)|
    ensures i < leading ==> Combinations(from, n, k)[i] == [from] + Combinations(from + 1, n, k - 1)[i]
    ensures i >= leading ==> Combinations(from, n, k)[i] == Combinations(from + 1, n, k)[i - leading]
  {
    hide Combinations;
    CombinationsUnfold(from, n, k);
    leading := |Combinations(from + 1, n, k - 1)|;
  }

  lemma LaterStart(from: nat, n: nat, k: nat, c: seq<nat>, rest: seq<nat>)
    requires k > 0 && c in Combinations(from + 1, n, k)
    ensures [from] + rest != c
  {
    hide Combinations;
    CombinationsAscend(from + 1, n, k, c);
    assert ([from] + rest)[0] == from < c[0];
  }

  lemma SameTail(x: nat, a: seq<nat>, b: seq<nat>)
    ensures [x] + a == [x] + b ==> a == b
  {
    assert ([x] + a)[1..] == a && ([x] + b)[1..] == b;
  }

  lemma {:induction false} DistinctStep(from: nat, n: nat, k: nat, i: nat, j: nat)
    requires k > 0 && i < j < |Combinations(from, n, k)|
    ensures Combinations(from, n, k)[i] != Combinations(from, n, k)[j]
    decreases if from <= n then n - from else 0, 0
  {
    hide *;
    var leading := CombinationAt(from, n, k, i);
    var same := CombinationAt(from, n, k, j);
    var with, without := Combinations(from + 1, n, k - 1), Combinations(from + 1, n, k);
    if j < leading {
      CombinationsDistinct(from + 1, n, k - 1, i, j);
      SameTail(from, with[i], with[j]);
    } else if i >= leading {
      DistinctStep(from + 1, n, k, i - leading, j - leading);
    } else {
      LaterStart(from, n, k, without[j - leading], with[i]);
    }
  }

  /** ... each of them once. */
  lemma {:induction false} CombinationsDistinct(from: nat, n: nat, k: nat, i: nat, j: nat)
    requires i < j < |Combinations(from, n, k)|
    ensures Combinations(from, n, k)[i] != Combinations(from, n, k)[j]
    decreases if from <= n then n - from else 0, 1
  {
    if k > 0 { DistinctStep(from, n, k, i, j); }
  }

  function SumHits(values: seq<real>, from: nat, p: real -> bool): seq<nat> -> bool {
    c => p(Sum(Filtered(values, c, from, true)))
  }

  lemma CountByNone(values: seq<real>, from: nat, p: real -> bool)
    requires from <= |values|
    ensures Count(Combinations(from, |values|, 0), SumHits(values, from, p)) == SubCount(values[from..], 0, p)
  {
    NothingChosen(values, from);
    hide Filtered;
    var none: seq<nat> := [];
    assert Combinations(from, |values|, 0) == [none];
    CountOne(none, SumHits(values, from, p));
    assert Sum(Filtered(values, none, from, true)) == 0.0;
  }

  lemma CountTooMany(values: seq<real>, k: nat, p: real -> bool)
    requires k > 0
    ensures Count(Combinations(|values|, |values|, k), SumHits(values, |values|, p))
            == SubCount(values[|values|..], k, p)
  {
  }

  /** Enumerating index combinations is counting selections. */
  lemma {:induction false} CountBySum(values: seq<real>, from: nat, k: nat, p: real -> bool)
    requires from <= |values|
    ensures Count(Combinations(from, |values|, k), SumHits(values, from, p)) == SubCount(values[from..], k, p)
    decreases |values| - from
  {
    hide *;
    var n := |values|;
    if k == 0 {
      CountByNone(values, from, p);
    } else if from == n {
      CountTooMany(values, k, p);
    } else {
      var with, without := Combinations(from + 1, n, k - 1), Combinations(from + 1, n, k);
      CombinationsUnfold(from, n, k);
      assert values[from..] == [values[from]] + values[from + 1..];
      SubCons(values[from], values[from + 1..], k, p);
      CountBySum(values, from + 1, k - 1, Shift(values[from], p));
      CountBySum(values, from + 1, k, p);
      CountConcat(Map(with, Led(from)), without, SumHits(values, from, p));
      CountMap(with, Led(from), SumHits(values, from, p));
      HitsWith(values, from, k, p);
      HitsWithout(values, from, k, p);
    }
  }

  lemma HitsWith(values: seq<real>, from: nat, k: nat, p: real -> bool)
    requires from < |values| && k > 0
    ensures var with := Combinations(from + 1, |values|, k - 1);
            Count(with, Compose(Led(from), SumHits(values, from, p)))
            == Count(with, SumHits(values, from + 1, Shift(values[from], p)))
  {
    hide Count;
    var with := Combinations(from + 1, |values|, k - 1);
    forall c | c in with
      ensures Compose(Led(from), SumHits(values, from, p))(c) == SumHits(values, from + 1, Shift(values[from], p))(c)
    {
      FilteredIgnores(values, c, from, from + 1, true);
      var rest := Filtered(values, c, from + 1, true);
      assert Filtered(values, [from] + c, from, true) == [values[from]] + rest;
      assert ([values[from]] + rest)[1..] == rest;
      assert Sum([values[from]] + rest) == values[from] + Sum(rest);
      assert (Led(from))(c) == [from] + c;
    }
    CountCongruent(with, Compose(Led(from), SumHits(values, from, p)),
      SumHits(values, from + 1, Shift(values[from], p)));
  }

  lemma HitsWithout(values: seq<real>, from: nat, k: nat, p: real -> bool)
    requires from < |values|
    ensures var without := Combinations(from + 1, |values|, k);
            Count(without, SumHits(values, from, p)) == Count(without, SumHits(values, from + 1, p))
  {
    hide Count;
    var without := Combinations(from + 1, |values|, k);
    forall c | c in without
      ensures SumHits(values, from, p)(c) == SumHits(values, from + 1, p)(c)
    {
      CombinationsAscend(from + 1, |values|, k, c);
      AscendingLed(c, from, |values|);
      FilteredStep(values, c, from);
    }
    CountCongruent(without, SumHits(values, from, p), SumHits(values, from + 1, p));
  }

  // ---------------------------------------------------------------- the statistic is a function of the sum

  /** The distance of means when `k` of `n` values, `total` together, sum to `s`. */
  function BySum(n: nat, k: nat, total: real): real -> real
    requires 0 < k < n
  {
    s => Abs(s / k as real - (total - s) / (n - k) as real)
  }

  function Above(n: nat, k: nat, total: real, x: real): real -> bool
    requires 0 < k < n
  {
    s => BySum(n, k, total)(s) >= x
  }

  lemma ScoreBySum(values: seq<real>, k: nat, c: seq<nat>)
    requires 0 < k < |values| && c in Combinations(0, |values|, k)
    ensures ScoreOf(values)(c) == BySum(|values|, k, Sum(values))(Sum(Chosen(values, c)))
    ensures |Chosen(values, c)| == k && |Others(values, c)| == |values| - k
    ensures Sum(Chosen(values, c)) + Sum(Others(values, c)) == Sum(values)
  {
    hide Filtered, Sum, Combinations, Abs;
    assert values[0..] == values;
    FilteredSplits(values, c, 0, k);
  }

  lemma CountAbove(values: seq<real>, k: nat, x: real)
    requires 0 < k < |values|
    ensures Count(Combinations(0, |values|, k), AtLeast(ScoreOf(values), x)) ==
            SubCount(values, k, Above(|values|, k, Sum(values), x))
  {
    hide Count, SubCount, Combinations, Filtered;
    var above := Above(|values|, k, Sum(values), x);
    forall c | c in Combinations(0, |values|, k)
      ensures AtLeast(ScoreOf(values), x)(c) == SumHits(values, 0, above)(c)
    {
      ScoreBySum(values, k, c);
    }
    CountCongruent(Combinations(0, |values|, k), AtLeast(ScoreOf(values), x), SumHits(values, 0, above));
    CountBySum(values, 0, k, above);
    assert values[0..] == values;
  }

  function Anything(): real -> bool {
    s => true
  }

  lemma {:induction false} CountEverything<T>(xs: seq<T>, p: T -> bool)
    requires forall x :: x in xs ==> p(x)
    ensures Count(xs, p) == |xs|
  {
    if xs != [] { CountEverything(xs[1..], p); }
  }

  /** The number of relabellings, and that there always is one. */
  lemma TotalBySum(values: seq<real>, k: nat)
    ensures |Combinations(0, |values|, k)| == SubCount(values, k, Anything())
  {
    hide Count, SubCount, Combinations;
    CountEverything(Combinations(0, |values|, k), SumHits(values, 0, Anything()));
    CountBySum(values, 0, k, Anything());
    assert values[0..] == values;
  }

  lemma {:induction false} SomeSelection(values: seq<real>, k: nat)
    requires k <= |values|
    ensures SubCount(values, k, Anything()) >= 1
    decreases |values|
  {
    if k > 0 {
      SubCongruent(values[1..], k - 1, Shift(values[0], Anything()), Anything());
      SomeSelection(values[1..], k - 1);
    }
  }

  lemma {:induction false} SumConcat(a: seq<real>, b: seq<real>)
    ensures Sum(a + b) == Sum(a) + Sum(b)
  {
    if a == [] {
      assert a + b == b;
    } else {
      assert (a + b)[1..] == a[1..] + b;
      SumConcat(a[1..], b);
    }
  }

  /** The observed statistic, in terms of the sum of the chosen group. */
  function Observed(n: nat, k: nat, total: real, sum: real): real
    requires 0 < k < n
  {
    BySum(n, k, total)(sum)
  }

  /** The relabellings that count as extreme, over all of them. */
  function Share(values: seq<real>, k: nat, observed: real): real
    requires 0 < k < |values|
    requires SubCount(values, k, Anything()) >= 1
  {
    SubCount(values, k, Above(|values|, k, Sum(values), observed - TOLERANCE)) as real
    / SubCount(values, k, Anything()) as real
  }

  lemma ObservedBySum(chosen: seq<real>, others: seq<real>)
    requires chosen != [] && others != []
    ensures Distance(chosen, others)
            == Observed(|chosen| + |others|, |chosen|, Sum(chosen) + Sum(others), Sum(chosen))
  {
  }

  lemma ShareBySum(values: seq<real>, k: nat, observed: real)
    requires 0 < k < |values|
    ensures |Combinations(0, |values|, k)| >= 1 && SubCount(values, k, Anything()) >= 1
    ensures Extreme(values, k, observed) as real / |Combinations(0, |values|, k)| as real == Share(values, k, observed)
  {
    hide *;
    ExtremeUnfolds(values, k, observed);
    CountAbove(values, k, observed - TOLERANCE);
    TotalBySum(values, k);
    SomeSelection(values, k);
    ShareUnfolds(values, k, observed);
  }

  lemma ExtremeUnfolds(values: seq<real>, k: nat, observed: real)
    ensures Extreme(values, k, observed)
            == Count(Combinations(0, |values|, k), AtLeast(ScoreOf(values), observed - TOLERANCE))
  {
    hide Count, Combinations, ScoreOf;
  }

  lemma ShareUnfolds(values: seq<real>, k: nat, observed: real)
    requires 0 < k < |values| && SubCount(values, k, Anything()) >= 1
    ensures Share(values, k, observed) ==
            SubCount(values, k, Above(|values|, k, Sum(values), observed - TOLERANCE)) as real
            / SubCount(values, k, Anything()) as real
  {
    hide SubCount, Above;
  }

  /** Both tests, in terms of selections: the chosen group, the pool, and nothing about order. */
  lemma TailBySum(values: seq<real>, chosen: seq<real>, others: seq<real>)
    requires chosen != [] && others != []
    requires |values| == |chosen| + |others| && Sum(values) == Sum(chosen) + Sum(others)
    ensures SubCount(values, |chosen|, Anything()) >= 1
    ensures TailShare(values, chosen, others)
            == Ok(Share(values, |chosen|, Observed(|values|, |chosen|, Sum(values), Sum(chosen))))
  {
    hide Share, Observed, Extreme, Distance, Combinations, SubCount, Sum;
    ObservedBySum(chosen, others);
    ShareBySum(values, |chosen|, Distance(chosen, others));
  }

  // ---------------------------------------------------------------- main results

  lemma PooledEitherWay(a: seq<real>, b: seq<real>)
    ensures multiset(a + b) == multiset(b + a)
    ensures |a + b| == |a| + |b| == |b + a|
    ensures Sum(a + b) == Sum(a) + Sum(b) == Sum(b + a)
  {
    SumConcat(a, b);
    SumConcat(b, a);
  }

  /** The order of the pool does not matter. */
  lemma SharePermuted(xs: seq<real>, ys: seq<real>, k: nat, observed: real)
    requires multiset(xs) == multiset(ys) && |xs| == |ys| && Sum(xs) == Sum(ys)
    requires 0 < k < |xs| && SubCount(xs, k, Anything()) >= 1
    ensures SubCount(ys, k, Anything()) >= 1
    ensures Share(xs, k, observed) == Share(ys, k, observed)
  {
    hide *;
    SubPermuted(xs, ys, k, Above(|xs|, k, Sum(xs), observed - TOLERANCE));
    SubPermuted(xs, ys, k, Anything());
    ShareUnfolds(xs, k, observed);
    ShareUnfolds(ys, k, observed);
  }

  /** The two scripts agree: which group is called chosen, and how the groups are pooled, is immaterial. */
  lemma ScriptsAgree(a: seq<real>, b: seq<real>)
    ensures ComparisonP(a, b) == PValue(b, a)
  {
    hide SubCount, TailShare, Share, Observed, Sum;
    if a == [] || b == [] {
      EmptyGroup(a, b);
    } else {
      PooledEitherWay(a, b);
      TailBySum(a + b, a, b);
      TailBySum(b + a, a, b);
      SharePermuted(a + b, b + a, |a|, Observed(|a + b|, |a|, Sum(a + b), Sum(a)));
    }
  }

  lemma EmptyGroup(a: seq<real>, b: seq<real>)
    requires a == [] || b == []
    ensures ComparisonP(a, b).StatisticsError? && PValue(a, b).StatisticsError? && PValue(b, a).StatisticsError?
  {
  }

  lemma Mirrored(n: nat, k: nat, total: real, s: real)
    requires 0 < k < n
    ensures Observed(n, k, total, total - s) == Observed(n, n - k, total, s)
  {
    var p, q := (total - s) / k as real, s / (n - k) as real;
    var m: nat := n - k;
    assert total - (total - s) == s && n - m == k;
    assert BySum(n, k, total)(total - s) == Abs(p - q);
    assert BySum(n, m, total)(s) == Abs(q - p);
  }

  lemma MirroredAbove(n: nat, k: nat, total: real, x: real)
    requires 0 < k < n
    ensures forall s :: From(total, Above(n, k, total, x))(s) == Above(n, n - k, total, x)(s)
  {
    forall s: real
      ensures From(total, Above(n, k, total, x))(s) == Above(n, n - k, total, x)(s)
    {
      Mirrored(n, k, total, s);
    }
  }

  /** Choosing one group is leaving out the other. */
  lemma ShareMirrored(values: seq<real>, k: nat, observed: real)
    requires 0 < k < |values| && SubCount(values, k, Anything()) >= 1
    ensures SubCount(values, |values| - k, Anything()) >= 1
    ensures Share(values, k, observed) == Share(values, |values| - k, observed)
  {
    hide *;
    var n, t, x := |values|, Sum(values), observed - TOLERANCE;
    SubComplement(values, k, Above(n, k, t, x));
    SubComplement(values, k, Anything());
    MirroredAbove(n, k, t, x);
    SubCongruent(values, n - k, From(t, Above(n, k, t, x)), Above(n, n - k, t, x));
    AnythingFrom(t);
    SubCongruent(values, n - k, From(t, Anything()), Anything());
    ShareUnfolds(values, k, observed);
    ShareUnfolds(values, n - k, observed);
  }

  lemma AnythingFrom(total: real)
    ensures forall s :: From(total, Anything())(s) == Anything()(s)
  {
  }

  /** Exchanging the two groups, equal in size or not, leaves the p-value as it is. */
  lemma GroupsExchange(a: seq<real>, b: seq<real>)
    ensures PValue(a, b) == PValue(b, a)
  {
    hide SubCount, TailShare, Share, Observed, Sum;
    if a == [] || b == [] {
      EmptyGroup(a, b);
    } else {
      PooledEitherWay(a, b);
      TailBySum(a + b, b, a);
      TailBySum(b + a, a, b);
      var n, k, t := |a + b|, |b|, Sum(a + b);
      var observed := Observed(n, k, t, Sum(b));
      assert t - Sum(a) == Sum(b) && n - k == |a|;
      Mirrored(n, k, t, Sum(a));
      ShareMirrored(a + b, k, observed);
      SharePermuted(a + b, b + a, n - k, observed);
    }
  }

  /** The p-value of the same pooled values under another labelling. */
  function Relabelled(values: seq<real>, c: seq<nat>): Result<real> {
    PValue(Others(values, c), Chosen(values, c))
  }

  lemma Multisets(others: seq<real>, chosen: seq<real>, x: real, rest: seq<real>)
    requires multiset(others + chosen) == multiset(rest)
    ensures multiset(([x] + others) + chosen) == multiset([x] + rest)
    ensures multiset(others + ([x] + chosen)) == multiset([x] + rest)
  {
  }

  lemma NothingFiltered(values: seq<real>, c: seq<nat>)
    ensures Filtered(values, c, |values|, false) + Filtered(values, c, |values|, true) == values[|values|..]
  {
  }

  lemma {:induction false} FilteredMultiset(values: seq<real>, c: seq<nat>, from: nat)
    requires from <= |values|
    ensures multiset(Filtered(values, c, from, false) + Filtered(values, c, from, true)) == multiset(values[from..])
    decreases |values| - from
  {
    hide Filtered;
    if from == |values| {
      NothingFiltered(values, c);
    } else {
      FilteredMultiset(values, c, from + 1);
      FilteredStep(values, c, from);
      var others, chosen := Filtered(values, c, from + 1, false), Filtered(values, c, from + 1, true);
      assert values[from..] == [values[from]] + values[from + 1..];
      Multisets(others, chosen, values[from], values[from + 1..]);
    }
  }

  /** The p-value of a labelling is the rank of its statistic among all labellings. */
  lemma RelabelledRank(values: seq<real>, k: nat, c: seq<nat>)
    requires 0 < k < |values| && c in Combinations(0, |values|, k)
    ensures |Combinations(0, |values|, k)| >= 1
    ensures Relabelled(values, c) == Ok(
              Rank(Combinations(0, |values|, k), ScoreOf(values), TOLERANCE, c) as real
              / |Combinations(0, |values|, k)| as real)
  {
    hide Count, SubCount, Combinations, TailShare, Share, Filtered, Sum, Extreme, AtLeast;
    var others, chosen := Others(values, c), Chosen(values, c);
    ScoreBySum(values, k, c);
    FilteredMultiset(values, c, 0);
    assert values[0..] == values;
    PooledEitherWay(others, chosen);
    TailBySum(others + chosen, chosen, others);
    var observed := ScoreOf(values)(c);
    SharePermuted(others + chosen, values, k, observed);
    ShareBySum(values, k, observed);
    ExtremeUnfolds(values, k, observed);
  }

  /** Labellings with a p-value of at most j / C(n, k). */
  function SmallP(values: seq<real>, k: nat, j: nat): seq<nat> -> bool {
    c => Relabelled(values, c).Ok? && |Combinations(0, |values|, k)| > 0
         && Relabelled(values, c).value <= j as real / |Combinations(0, |values|, k)| as real
  }

  /**
   Exactness of the permutation test. Over all C(n, k) labellings of the same pooled values, at
   most j get a p-value of at most j / C(n, k).
   */
  lemma PermutationIsExact(values: seq<real>, k: nat, j: nat)
    requires 0 < k < |values|
    ensures Count(Combinations(0, |values|, k), SmallP(values, k, j)) <= j
  {
    hide Count, Combinations, Relabelled, Rank;
    var cases := Combinations(0, |values|, k);
    var ranked := RankedWithin(cases, ScoreOf(values), TOLERANCE, j);
    forall c | c in cases && SmallP(values, k, j)(c)
      ensures ranked(c)
    {
      RelabelledRank(values, k, c);
      SameDenominator(Rank(cases, ScoreOf(values), TOLERANCE, c), j, |cases|);
    }
    CountMonotone(cases, SmallP(values, k, j), ranked);
    FewAreExtreme(cases, ScoreOf(values), TOLERANCE, j);
  }

  // ---------------------------------------------------------------- what the p-value counts

  /** Sums of one group, of `k` values, for which its mean is at least `bound` away from that of the other `m`. */
  function Apart(k: nat, m: nat, total: real, bound: real): real -> bool
    requires k > 0 && m > 0
  {
    s => var gap := s / k as real - (total - s) / m as real; gap >= bound || -gap >= bound
  }

  /** The distance of the group means. */
  function Gap(a: seq<real>, b: seq<real>): real
    requires a != [] && b != []
  {
    var gap := Sum(a) / |a| as real - Sum(b) / |b| as real;
    if gap < 0.0 then -gap else gap
  }

  lemma ApartIsAbove(n: nat, k: nat, total: real, bound: real)
    requires 0 < k < n
    ensures forall s :: Above(n, k, total, bound)(s) == Apart(k, n - k, total, bound)(s)
  {
    forall s: real
      ensures Above(n, k, total, bound)(s) == Apart(k, n - k, total, bound)(s)
    {
      var m: nat := n - k;
      var gap := s / k as real - (total - s) / m as real;
      assert BySum(n, k, total)(s) == Abs(gap);
    }
  }

  lemma GapIsObserved(a: seq<real>, b: seq<real>)
    requires a != [] && b != []
    ensures Observed(|a| + |b|, |a|, Sum(a) + Sum(b), Sum(a)) == Gap(a, b)
  {
    hide Sum;
    var n: nat, m: nat := |a| + |b|, |b|;
    assert (Sum(a) + Sum(b)) - Sum(a) == Sum(b) && n - |a| == m;
    var gap := Sum(a) / |a| as real - Sum(b) / m as real;
    assert BySum(n, |a|, Sum(a) + Sum(b))(Sum(a)) == Abs(gap);
  }

  lemma ShareCounts(values: seq<real>, k: nat, observed: real)
    requires 0 < k < |values| && SubCount(values, k, Anything()) >= 1
    ensures Share(values, k, observed) * Choose(|values|, k) as real
            == SubCount(values, k, Apart(k, |values| - k, Sum(values), observed - 0.000000000001)) as real
  {
    hide *;
    var n, t, x := |values|, Sum(values), observed - TOLERANCE;
    ApartIsAbove(n, k, t, x);
    SubCongruent(values, k, Above(n, k, t, x), Apart(k, n - k, t, x));
    TotalBySum(values, k);
    CombinationsCounted(0, n, k);
    ShareUnfolds(values, k, observed);
    SlackIs();
    Quotient(SubCount(values, k, Above(n, k, t, x)) as real, SubCount(values, k, Anything()) as real);
  }

  lemma SlackIs()
    ensures TOLERANCE == 0.000000000001
  {
  }

  /**
   What the p-value is. Of all C(n, k) ways of choosing the second group from the pooled values, it is
   the share whose means lie at least as far apart as the observed ones, up to 1e-12.
   */
  lemma PValueCounts(always: seq<real>, madvise: seq<real>)
    requires always != [] && madvise != []
    ensures var values, k, m := always + madvise, |madvise|, |always|;
            && PValue(always, madvise).Ok?
            && PValue(always, madvise).value * Choose(k + m, k) as real
               == SubCount(values, k, Apart(k, m, Sum(values), Gap(madvise, always) - 0.000000000001)) as real
  {
    var values := always + madvise;
    PooledEitherWay(always, madvise);
    hide SubCount, TailShare, Share, Observed, Sum, Gap, Apart, Choose;
    TailBySum(values, madvise, always);
    GapIsObserved(madvise, always);
    ShareCounts(values, |madvise|, Gap(madvise, always));
  }

  function Between(k: nat, m: nat, total: real, low: real, high: real): real -> bool
    requires k > 0 && m > 0
  {
    s => Apart(k, m, total, low)(s) && !Apart(k, m, total, high)(s)
  }

  lemma {:induction false} SubSplit(values: seq<real>, k: nat, p: real -> bool, q: real -> bool, rest: real -> bool)
    requires forall s :: p(s) <==> q(s) || rest(s)
    requires forall s :: !(q(s) && rest(s))
    ensures SubCount(values, k, p) == SubCount(values, k, q) + SubCount(values, k, rest)
    decreases |values|
  {
    if k > 0 && values != [] {
      var x := values[0];
      SubSplit(values[1..], k - 1, Shift(x, p), Shift(x, q), Shift(x, rest));
      SubSplit(values[1..], k, p, q, rest);
    }
  }

  /**
   What the slack can do. The p-value is at least the share of relabellings whose means are as far
   apart as the observed ones, and exactly that share unless some relabelling falls short by at most
   1e-12.
   */
  lemma SlackIsSmall(always: seq<real>, madvise: seq<real>)
    requires always != [] && madvise != []
    ensures var values, k, m, gap := always + madvise, |madvise|, |always|, Gap(madvise, always);
            var reached := SubCount(values, k, Apart(k, m, Sum(values), gap));
            && PValue(always, madvise).Ok?
            && PValue(always, madvise).value * Choose(k + m, k) as real >= reached as real
            && (SubCount(values, k, Between(k, m, Sum(values), gap - 0.000000000001, gap)) == 0
                <==> PValue(always, madvise).value * Choose(k + m, k) as real == reached as real)
  {
    var values, k, m, gap := always + madvise, |madvise|, |always|, Gap(madvise, always);
    var total := Sum(values);
    PValueCounts(always, madvise);
    hide PValue, SubCount, Sum, Gap, Choose;
    SubSplit(values, k, Apart(k, m, total, gap - 0.000000000001), Apart(k, m, total, gap),
             Between(k, m, total, gap - 0.000000000001, gap));
  }
}

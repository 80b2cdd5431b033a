/** Counting over enumerated cases, and the one argument behind both exact tests. */
module Counting {

  function Count<T>(xs: seq<T>, p: T -> bool): nat {
    if xs == [] then 0 else (if p(xs[0]) then 1 else 0) + Count(xs[1..], p)
  }

  lemma {:induction false} CountConcat<T>(a: seq<T>, b: seq<T>, p: T -> bool)
    ensures Count(a + b, p) == Count(a, p) + Count(b, p)
  {
    if a == [] {
      assert a + b == b;
    } else {
      assert (a + b)[1..] == a[1..] + b;
      CountConcat(a[1..], b, p);
    }
  }

  lemma CountOne<T>(x: T, p: T -> bool)
    ensures Count([x], p) == if p(x) then 1 else 0
  {
    assert [x][1..] == [];
  }

  lemma CountNone<T>(xs: seq<T>, p: T -> bool)
    ensures Count(xs[..0], p) == 0
  {
  }

  /** One more case of an enumeration, as the counting loops take it. */
  lemma CountNext<T>(xs: seq<T>, i: nat, p: T -> bool)
    requires i < |xs|
    ensures Count(xs[..i + 1], p) == Count(xs[..i], p) + if p(xs[i]) then 1 else 0
  {
    assert xs[..i + 1] == xs[..i] + [xs[i]];
    CountConcat(xs[..i], [xs[i]], p);
    CountOne(xs[i], p);
  }

  lemma {:induction false} CountCongruent<T>(xs: seq<T>, p: T -> bool, q: T -> bool)
    requires forall x :: x in xs ==> p(x) == q(x)
    ensures Count(xs, p) == Count(xs, q)
  {
    if xs != [] { CountCongruent(xs[1..], p, q); }
  }

  lemma {:induction false} CountMonotone<T>(xs: seq<T>, p: T -> bool, q: T -> bool)
    requires forall x :: x in xs && p(x) ==> q(x)
    ensures Count(xs, p) <= Count(xs, q) <= |xs|
  {
    if xs != [] { CountMonotone(xs[1..], p, q); }
  }

  lemma {:induction false} CountPositive<T>(xs: seq<T>, p: T -> bool, x: T)
    requires x in xs && p(x)
    ensures Count(xs, p) >= 1
  {
    if !p(xs[0]) { CountPositive(xs[1..], p, x); }
  }

  function Map<S, T>(xs: seq<S>, f: S -> T): seq<T> {
    seq(|xs|, i requires 0 <= i < |xs| => f(xs[i]))
  }

  function Compose<S, T, U>(f: S -> T, g: T -> U): S -> U {
    x => g(f(x))
  }

  lemma {:induction false} CountMap<S, T>(xs: seq<S>, f: S -> T, p: T -> bool)
    ensures Count(Map(xs, f), p) == Count(xs, Compose(f, p))
  {
    if xs != [] {
      assert Map(xs, f)[1..] == Map(xs[1..], f);
      CountMap(xs[1..], f, p);
    }
  }

  /** Some case satisfying `p` has the least value of `score`. */
  lemma {:induction false} Least<T>(xs: seq<T>, p: T -> bool, score: T -> real) returns (least: T)
    requires Count(xs, p) > 0
    ensures least in xs && p(least)
    ensures forall x :: x in xs && p(x) ==> score(least) <= score(x)
  {
    var rest := xs[1..];
    assert xs == [xs[0]] + rest;
    if Count(rest, p) == 0 {
      least := xs[0];
      forall x | x in rest
        ensures !p(x)
      {
        if p(x) { CountPositive(rest, p, x); }
      }
    } else {
      least := Least(rest, p, score);
      if p(xs[0]) && score(xs[0]) <= score(least) { least := xs[0]; }
    }
  }

  /** The cases scoring at least `x`. */
  function AtLeast<T>(score: T -> real, x: real): T -> bool {
    u => score(u) >= x
  }

  /** How many cases score as high as `t` does, up to a tolerance that only lets more cases in. */
  function Rank<T>(xs: seq<T>, score: T -> real, tolerance: real, t: T): nat {
    Count(xs, AtLeast(score, score(t) - tolerance))
  }

  function RankedWithin<T>(xs: seq<T>, score: T -> real, tolerance: real, k: nat): T -> bool {
    t => Rank(xs, score, tolerance, t) <= k
  }

  /** The exactness argument: at most `k` cases are so extreme that at most `k` cases match them. */
  lemma FewAreExtreme<T>(xs: seq<T>, score: T -> real, tolerance: real, k: nat)
    requires tolerance >= 0.0
    ensures Count(xs, RankedWithin(xs, score, tolerance, k)) <= k
  {
    var extreme := RankedWithin(xs, score, tolerance, k);
    if Count(xs, extreme) > 0 {
      var least := Least(xs, extreme, score);
      CountMonotone(xs, extreme, AtLeast(score, score(least) - tolerance));
    }
  }
}

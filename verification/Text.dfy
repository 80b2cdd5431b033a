/** The little text handling the rest of the project prints and reads back. */
module Text {

  function Digit(n: nat): char
    requires n < 10
  {
    ['0', '1', '2', '3', '4', '5', '6', '7', '8', '9'][n]
  }

  function Decimal(n: nat): string {
    if n < 10 then [Digit(n)] else Decimal(n / 10) + [Digit(n % 10)]
  }

  lemma {:induction false} DecimalInjective(a: nat, b: nat)
    requires Decimal(a) == Decimal(b)
    ensures a == b
  {
    if a >= 10 && b >= 10 {
      var da, db := Decimal(a), Decimal(b);
      assert da[..|da| - 1] == Decimal(a / 10) && db[..|db| - 1] == Decimal(b / 10);
      assert da[|da| - 1] == Digit(a % 10) && db[|db| - 1] == Digit(b % 10);
      DecimalInjective(a / 10, b / 10);
    } else {
      DecimalNonEmpty(a / 10);
      DecimalNonEmpty(b / 10);
    }
  }

  lemma DecimalNonEmpty(n: nat)
    ensures |Decimal(n)| >= 1
  {
  }

  predicate Digits(s: string) {
    forall i :: 0 <= i < |s| ==> '0' <= s[i] <= '9'
  }

  /** The number that a text of digits stands for. */
  function Number(s: string): nat
    requires Digits(s)
  {
    if s == "" then 0 else 10 * Number(s[..|s| - 1]) + (s[|s| - 1] as int - '0' as int)
  }

  lemma NumberSnoc(s: string, n: nat)
    requires Digits(s) && n < 10
    ensures Digits(s + [Digit(n)]) && Number(s + [Digit(n)]) == 10 * Number(s) + n
  {
    var longer := s + [Digit(n)];
    assert longer[..|longer| - 1] == s && longer[|longer| - 1] == Digit(n);
  }

  /** A printed number consists of digits, is the number again when read, and has no leading zero. */
  lemma {:induction false} DecimalReads(n: nat)
    ensures Digits(Decimal(n)) && Number(Decimal(n)) == n
    ensures n > 0 ==> Decimal(n) != "" && Decimal(n)[0] != '0'
  {
    hide Number, Digits;
    if n < 10 {
      NothingRead();
      NumberSnoc("", n);
      assert "" + [Digit(n)] == [Digit(n)];
    } else {
      DecimalReads(n / 10);
      NumberSnoc(Decimal(n / 10), n % 10);
    }
  }

  lemma NothingRead()
    ensures Digits("") && Number("") == 0
  {
  }

  function Pow10(k: nat): nat {
    if k == 0 then 1 else 10 * Pow10(k - 1)
  }

  lemma {:induction false} DecimalLength(n: nat, k: nat)
    requires k >= 1 && n < Pow10(k)
    ensures |Decimal(n)| <= k
  {
    if n >= 10 { DecimalLength(n / 10, k - 1); }
  }

  // ---------------------------------------------------------------- comma-separated lists

  function Join(parts: seq<string>): string {
    if parts == [] then ""
    else if |parts| == 1 then parts[0]
    else parts[0] + "," + Join(parts[1..])
  }

  /** `split(',')`: never an empty list. */
  function Split(s: string): (parts: seq<string>)
    ensures |parts| >= 1
  {
    if s == "" then [""]
    else if s[0] == ',' then [""] + Split(s[1..])
    else
      var rest := Split(s[1..]);
      [[s[0]] + rest[0]] + rest[1..]
  }

  predicate Plain(s: string) {
    ',' !in s
  }

  lemma {:induction false} SplitPlain(s: string)
    requires Plain(s)
    ensures Split(s) == [s]
  {
    if s != "" {
      SplitPlain(s[1..]);
      assert [s[0]] + s[1..] == s;
    }
  }

  lemma {:induction false} SplitAtComma(first: string, rest: string)
    requires Plain(first)
    ensures Split(first + "," + rest) == [first] + Split(rest)
  {
    var s := first + "," + rest;
    if first == "" {
      assert s[1..] == rest;
    } else {
      assert s[1..] == first[1..] + "," + rest;
      SplitAtComma(first[1..], rest);
      assert [s[0]] + first[1..] == first;
    }
  }

  /** A list of plain parts survives being joined and split again. */
  lemma {:induction false} SplitJoin(parts: seq<string>)
    requires parts != [] && forall p :: p in parts ==> Plain(p)
    ensures Split(Join(parts)) == parts
  {
    if |parts| == 1 {
      SplitPlain(parts[0]);
    } else {
      SplitJoin(parts[1..]);
      SplitAtComma(parts[0], Join(parts[1..]));
    }
  }

  lemma OneMore(n: nat, each: nat)
    ensures (n + 1) * each == n * each + each
  {
  }

  lemma {:induction false} JoinLength(parts: seq<string>, each: nat)
    requires forall p :: p in parts ==> |p| <= each
    ensures |Join(parts)| <= |parts| * (each + 1)
  {
    if |parts| == 1 {
    } else if |parts| > 1 {
      JoinLength(parts[1..], each);
      OneMore(|parts| - 1, each + 1);
    }
  }

  // ---------------------------------------------------------------- lexicographic sorting

  predicate Before(a: string, b: string) {
    if a == "" then true
    else if b == "" then false
    else if a[0] == b[0] then Before(a[1..], b[1..])
    else a[0] < b[0]
  }

  function Insert(x: string, sorted: seq<string>): (r: seq<string>)
    ensures multiset(r) == multiset(sorted) + multiset{x}
    ensures |r| == |sorted| + 1
  {
    if sorted == [] then [x]
    else if Before(x, sorted[0]) then [x] + sorted
    else
      assert sorted == [sorted[0]] + sorted[1..];
      [sorted[0]] + Insert(x, sorted[1..])
  }

  function Sort(xs: seq<string>): (r: seq<string>)
    ensures multiset(r) == multiset(xs) && |r| == |xs|
  {
    if xs == [] then []
    else
      assert xs == [xs[0]] + xs[1..];
      Insert(xs[0], Sort(xs[1..]))
  }

  lemma {:induction false} BeforeTotal(a: string, b: string)
    ensures Before(a, b) || Before(b, a)
    ensures Before(a, b) && Before(b, a) ==> a == b
  {
    if a != "" && b != "" && a[0] == b[0] {
      BeforeTotal(a[1..], b[1..]);
      assert a == [a[0]] + a[1..] && b == [b[0]] + b[1..];
    }
  }

  lemma {:induction false} BeforeTransitive(a: string, b: string, c: string)
    requires Before(a, b) && Before(b, c)
    ensures Before(a, c)
  {
    if a != "" && b != "" && c != "" && a[0] == b[0] == c[0] { BeforeTransitive(a[1..], b[1..], c[1..]); }
  }

  /** The texts agree up to a place where the first has the smaller character. */
  predicate SmallerAt(a: string, b: string, i: nat) {
    i < |a| && i < |b| && a[..i] == b[..i] && a[i] < b[i]
  }

  lemma SmallerLater(a: string, b: string, i: nat)
    requires a != "" && b != "" && a[0] == b[0]
    ensures SmallerAt(a, b, i + 1) <==> SmallerAt(a[1..], b[1..], i)
    ensures !SmallerAt(a, b, 0)
    ensures a <= b <==> a[1..] <= b[1..]
  {
    assert a == [a[0]] + a[1..] && b == [b[0]] + b[1..];
    if i < |a[1..]| && i < |b[1..]| {
      assert a[..i + 1] == [a[0]] + a[1..][..i] && b[..i + 1] == [b[0]] + b[1..][..i];
      assert a[1..][..i] == a[..i + 1][1..] && b[1..][..i] == b[..i + 1][1..];
    }
  }

  lemma SmallerFirst(a: string, b: string, i: nat)
    requires a != "" && b != "" && a[0] != b[0]
    ensures SmallerAt(a, b, i) ==> i == 0
    ensures SmallerAt(a, b, 0) <==> a[0] < b[0]
    ensures !(a <= b)
  {
    if 0 < i <= |a| && i <= |b| { assert a[..i][0] == a[0] && b[..i][0] == b[0]; }
  }

  /** The order is that of the first differing characters; a text comes before what it begins. */
  lemma {:induction false} BeforeMeans(a: string, b: string)
    ensures Before(a, b) <==> a <= b || exists i :: SmallerAt(a, b, i)
  {
    if a != "" && b != "" {
      hide SmallerAt;
      if a[0] == b[0] {
        BeforeMeans(a[1..], b[1..]);
        forall i: nat
          ensures SmallerAt(a, b, i + 1) <==> SmallerAt(a[1..], b[1..], i)
        {
          SmallerLater(a, b, i);
        }
        SmallerLater(a, b, 0);
        if i: nat :| SmallerAt(a, b, i) {
          assert i != 0;
          assert SmallerAt(a[1..], b[1..], i - 1);
        }
      } else {
        forall i: nat
          ensures SmallerAt(a, b, i) ==> i == 0
        {
          SmallerFirst(a, b, i);
        }
        SmallerFirst(a, b, 0);
      }
    }
  }

  predicate Ascending(xs: seq<string>) {
    forall i, j :: 0 <= i < j < |xs| ==> Before(xs[i], xs[j])
  }

  lemma {:induction false} InsertAscending(x: string, sorted: seq<string>)
    requires Ascending(sorted)
    ensures Ascending(Insert(x, sorted))
  {
    if sorted != [] {
      BeforeTotal(x, sorted[0]);
      if Before(x, sorted[0]) {
        forall j | 0 <= j < |sorted|
          ensures Before(x, sorted[j])
        {
          if j > 0 { BeforeTransitive(x, sorted[0], sorted[j]); }
        }
      } else {
        var rest := Insert(x, sorted[1..]);
        InsertAscending(x, sorted[1..]);
        forall j | 0 <= j < |rest|
          ensures Before(sorted[0], rest[j])
        {
          assert rest[j] in multiset(rest);
          assert rest[j] == x || rest[j] in sorted[1..];
        }
      }
    }
  }

  lemma {:induction false} SortAscending(xs: seq<string>)
    ensures Ascending(Sort(xs))
  {
    if xs != [] {
      SortAscending(xs[1..]);
      InsertAscending(xs[0], Sort(xs[1..]));
    }
  }

  lemma SameFirst(a: seq<string>, b: seq<string>)
    requires Ascending(a) && Ascending(b) && multiset(a) == multiset(b) && a != [] && b != []
    ensures a[0] == b[0]
  {
    assert a[0] in multiset(b) && b[0] in multiset(a);
    hide Before;
    BeforeTotal(a[0], b[0]);
  }

  lemma WithoutFirst(a: seq<string>)
    requires a != []
    ensures multiset(a[1..]) == multiset(a) - multiset{a[0]} && |multiset(a)| == |a|
  {
    assert a == [a[0]] + a[1..];
  }

  lemma AscendingRest(a: seq<string>)
    requires Ascending(a) && a != []
    ensures Ascending(a[1..]) && a == [a[0]] + a[1..]
  {
    hide Before;
  }

  lemma {:induction false} AscendingIsUnique(a: seq<string>, b: seq<string>)
    requires Ascending(a) && Ascending(b) && multiset(a) == multiset(b)
    ensures a == b
  {
    hide Ascending;
    if a == [] {
      assert |b| == |multiset(b)| == 0;
    } else {
      assert b != [] by { assert a[0] in multiset(b); }
      SameFirst(a, b);
      WithoutFirst(a);
      WithoutFirst(b);
      AscendingRest(a);
      AscendingRest(b);
      AscendingIsUnique(a[1..], b[1..]);
    }
  }

  /** The sorted list is the only ascending arrangement. */
  lemma SortIs(xs: seq<string>, sorted: seq<string>)
    requires Ascending(sorted) && multiset(sorted) == multiset(xs)
    ensures Sort(xs) == sorted
  {
    SortAscending(xs);
    AscendingIsUnique(Sort(xs), sorted);
  }

  /** Sorting forgets the original order. */
  lemma SortCanonical(xs: seq<string>, ys: seq<string>)
    requires multiset(xs) == multiset(ys)
    ensures Sort(xs) == Sort(ys)
  {
    SortAscending(xs);
    SortAscending(ys);
    AscendingIsUnique(Sort(xs), Sort(ys));
  }
}

/** Dictionaries in their insertion order, and the map each one stands for. */
module Dictionaries {
  import opened Text

  type Items<V> = seq<(string, V)>

  predicate DistinctKeys<V>(items: Items<V>) {
    forall i, j :: 0 <= i < j < |items| ==> items[i].0 != items[j].0
  }

  function ToMap<V>(items: Items<V>): map<string, V> {
    if items == [] then map[] else ToMap(items[..|items| - 1])[items[|items| - 1].0 := items[|items| - 1].1]
  }

  function KeysOf<V>(items: Items<V>): seq<string> {
    seq(|items|, i requires 0 <= i < |items| => items[i].0)
  }

  lemma {:induction false} MapKeys<V>(items: Items<V>, k: string)
    ensures k in ToMap(items) <==> k in KeysOf(items)
  {
    if items != [] {
      MapKeys(items[..|items| - 1], k);
      assert KeysOf(items) == KeysOf(items[..|items| - 1]) + [items[|items| - 1].0];
    }
  }

  lemma {:induction false} MapFinds<V>(items: Items<V>, i: nat)
    requires DistinctKeys(items) && i < |items|
    ensures items[i].0 in ToMap(items) && ToMap(items)[items[i].0] == items[i].1
  {
    if i < |items| - 1 { MapFinds(items[..|items| - 1], i); }
  }

  /** The keys in sorted order are the keys of the map. */
  lemma SortedKeys<V>(items: Items<V>)
    ensures forall k :: k in Sort(KeysOf(items)) <==> k in ToMap(items)
  {
    var keys := Sort(KeysOf(items));
    forall k: string
      ensures k in keys <==> k in ToMap(items)
    {
      MapKeys(items, k);
      assert k in keys <==> k in multiset(keys);
      assert k in KeysOf(items) <==> k in multiset(KeysOf(items));
    }
  }

  /** The same entries in another order are the same map, with the same sorted keys. */
  lemma Reordered<V>(a: Items<V>, b: Items<V>)
    requires DistinctKeys(a) && DistinctKeys(b) && multiset(a) == multiset(b)
    ensures ToMap(a) == ToMap(b) && Sort(KeysOf(a)) == Sort(KeysOf(b))
  {
    KeysPermuted(a, b);
    SortCanonical(KeysOf(a), KeysOf(b));
    forall k: string
      ensures k in ToMap(a) <==> k in ToMap(b)
      ensures k in ToMap(a) ==> ToMap(a)[k] == ToMap(b)[k]
    {
      SameEntry(a, b, k);
      SameEntry(b, a, k);
    }
    assert ToMap(a) == ToMap(b);
  }

  lemma SameEntry<V>(a: Items<V>, b: Items<V>, k: string)
    requires DistinctKeys(a) && DistinctKeys(b) && multiset(a) == multiset(b)
    ensures k in ToMap(a) ==> k in ToMap(b) && ToMap(a)[k] == ToMap(b)[k]
  {
    MapKeys(a, k);
    if k in ToMap(a) {
      var i :| 0 <= i < |a| && KeysOf(a)[i] == k;
      assert a[i] in multiset(a) && a[i] in b;
      var j :| 0 <= j < |b| && b[j] == a[i];
      MapFinds(a, i);
      MapFinds(b, j);
    }
  }

  lemma {:induction false} KeysPermuted<V>(a: Items<V>, b: Items<V>)
    requires multiset(a) == multiset(b)
    ensures multiset(KeysOf(a)) == multiset(KeysOf(b))
  {
    hide KeysOf;
    if a == [] {
      assert |b| == |multiset(b)| == 0;
    } else {
      assert a[0] in multiset(a);
      var j := Place(b, a[0]);
      Without(b, j);
      Without(a, 0);
      assert a[..0] + a[1..] == a[1..];
      KeysPermuted(a[1..], b[..j] + b[j + 1..]);
    }
  }

  lemma Place<V>(items: Items<V>, item: (string, V)) returns (j: nat)
    requires item in multiset(items)
    ensures j < |items| && items[j] == item
  {
    j :| 0 <= j < |items| && items[j] == item;
  }

  lemma Without<V>(items: Items<V>, i: nat)
    requires i < |items|
    ensures multiset(items) - multiset{items[i]} == multiset(items[..i] + items[i + 1..])
    ensures multiset(KeysOf(items)) == multiset{items[i].0} + multiset(KeysOf(items[..i] + items[i + 1..]))
  {
    var front, back := items[..i], items[i + 1..];
    assert items == front + ([items[i]] + back);
    assert multiset(items) == multiset(front) + (multiset{items[i]} + multiset(back));
    assert multiset(front + back) == multiset(front) + multiset(back);
    assert KeysOf(items) == KeysOf(front) + ([items[i].0] + KeysOf(back));
    assert KeysOf(front + back) == KeysOf(front) + KeysOf(back);
  }
}

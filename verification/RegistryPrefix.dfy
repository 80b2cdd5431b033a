/**
 Digests of every prefix of a registry from one running hash
 (qualification/discrete-pay/registry-prefix.mjs).
 */
module RegistryPrefix {
  import opened Options
  import opened Text

  /** A registry entry; an address that is not a string is `None`. */
  datatype Entry = Entry(routingT: int, address: Option<string>)

  /** The hash of a whole text, and the JSON form of a string: both are left open. */
  datatype Codec = Codec(hash: string -> string, quote: string -> string)

  // ---------------------------------------------------------------- the whole serialisation

  /** `JSON.stringify` of an array of serialised items. */
  function JsonArray(items: seq<string>): string {
    "[" + Join(items) + "]"
  }

  /** Whether an entry stands in its place: numbered from one, with a text for its address. */
  predicate InPlace(entries: seq<Entry>, i: nat)
    requires i < |entries|
  {
    entries[i].routingT == i + 1 && entries[i].address.Some?
  }

  /** `JSON.stringify([entry.routingT, entry.address])`, for the entry at a position in its place. */
  function EntryText(entries: seq<Entry>, i: nat, codec: Codec): string
    requires i < |entries| && InPlace(entries, i)
  {
    JsonArray([Decimal(i + 1), codec.quote(entries[i].address.value)])
  }

  /** How many entries, from the first on, stand in their place. */
  function Ordered(entries: seq<Entry>, from: nat): (n: nat)
    requires from <= |entries|
    ensures from <= n <= |entries|
    ensures forall i :: from <= i < n ==> InPlace(entries, i)
    ensures n < |entries| ==> !InPlace(entries, n)
    decreases |entries| - from
  {
    if from == |entries| || !InPlace(entries, from) then from else Ordered(entries, from + 1)
  }

  function Items(entries: seq<Entry>, n: nat, codec: Codec): seq<string>
    requires n <= Ordered(entries, 0)
  {
    seq(n, i requires 0 <= i < n => EntryText(entries, i, codec))
  }

  /** The serialisation of the first `n` entries. */
  function Serialized(entries: seq<Entry>, n: nat, codec: Codec): string
    requires n <= Ordered(entries, 0)
  {
    JsonArray(Items(entries, n, codec))
  }

  /** The entries of a serialisation, each in brackets, with commas between. */
  function Listed(entries: seq<Entry>, n: nat, codec: Codec): string
    requires n <= |entries|
  {
    if n == 0 then ""
    else
      Listed(entries, n - 1, codec) + (if n == 1 then "" else ",")
      + Bracketed(Decimal(n), codec.quote(entries[n - 1].address.GetOr("")))
  }

  function Bracketed(a: string, b: string): string {
    "[" + a + "," + b + "]"
  }

  /** What is hashed: the numbered addresses in brackets, in one more pair of brackets. */
  lemma SerializedIs(entries: seq<Entry>, n: nat, codec: Codec)
    requires n <= Ordered(entries, 0)
    ensures Serialized(entries, n, codec) == "[" + Listed(entries, n, codec) + "]"
  {
    ItemsListed(entries, n, codec);
  }

  lemma {:induction false} ItemsListed(entries: seq<Entry>, n: nat, codec: Codec)
    requires n <= Ordered(entries, 0)
    ensures Join(Items(entries, n, codec)) == Listed(entries, n, codec)
  {
    if n == 0 {
      assert Items(entries, n, codec) == [];
      JoinNothing();
    } else {
      ItemsListed(entries, n - 1, codec);
      LastListed(entries, n, codec);
      var before, last := Items(entries, n - 1, codec), EntryText(entries, n - 1, codec);
      assert |before| == n - 1;
      ListedNext(entries, n, codec);
      hide *;
      JoinAppend(before, last);
    }
  }

  lemma ListedNext(entries: seq<Entry>, n: nat, codec: Codec)
    requires 0 < n <= |entries|
    ensures var last := Bracketed(Decimal(n), codec.quote(entries[n - 1].address.GetOr("")));
            Listed(entries, n, codec)
            == if n == 1 then last else Listed(entries, n - 1, codec) + "," + last
  {
    hide Decimal, Bracketed;
  }

  lemma LastListed(entries: seq<Entry>, n: nat, codec: Codec)
    requires 0 < n <= Ordered(entries, 0)
    ensures InPlace(entries, n - 1)
    ensures Items(entries, n, codec) == Items(entries, n - 1, codec) + [EntryText(entries, n - 1, codec)]
    ensures EntryText(entries, n - 1, codec)
            == Bracketed(Decimal(n), codec.quote(entries[n - 1].address.GetOr("")))
  {
    hide Decimal;
    assert InPlace(entries, n - 1);
    PairText(Decimal(n), codec.quote(entries[n - 1].address.value));
  }

  lemma PairText(a: string, b: string)
    ensures JsonArray([a, b]) == Bracketed(a, b)
  {
    assert [a, b][1..] == [b];
    assert Join([b]) == b && Join([a, b]) == a + "," + b;
    assert "[" + (a + "," + b) + "]" == "[" + a + "," + b + "]";
  }

  lemma {:induction false} JoinAppend(items: seq<string>, last: string)
    ensures Join(items + [last]) == if items == [] then last else Join(items) + "," + last
  {
    if items == [] {
      assert items + [last] == [last];
    } else {
      assert (items + [last])[1..] == items[1..] + [last];
      JoinAppend(items[1..], last);
      if |items| > 1 {
        assert items[0] + "," + (Join(items[1..]) + "," + last) == items[0] + "," + Join(items[1..]) + "," + last;
      }
    }
  }

  lemma JoinNothing()
    ensures Join([]) == ""
  {
  }

  lemma AllInPlace(entries: seq<Entry>)
    ensures Ordered(entries, 0) == |entries|
            <==> forall i :: 0 <= i < |entries| ==> entries[i].routingT == i + 1 && entries[i].address.Some?
  {
    if Ordered(entries, 0) == |entries| {
      forall i | 0 <= i < |entries|
        ensures entries[i].routingT == i + 1 && entries[i].address.Some?
      {
        assert InPlace(entries, i);
      }
    }
  }

  // ---------------------------------------------------------------- the running hash

  class HashState {
    var fed: string

    constructor (fed: string)
      ensures this.fed == fed
    {
      this.fed := fed;
    }

    method Update(text: string)
      modifies this
      ensures fed == old(fed) + text
    {
      fed := fed + text;
    }

    method Copy() returns (copy: HashState)
      ensures fresh(copy) && copy.fed == fed
    {
      copy := new HashState(fed);
    }

    method Digest(codec: Codec) returns (digest: string)
      ensures digest == codec.hash(fed)
    {
      digest := codec.hash(fed);
    }
  }

  /**
   The generator, run to its end: the digests it yields, and whether it got through without an
   error. Each digest is that of the whole serialisation of the entries before it, although every
   entry is fed to the hash once; an entry out of place ends the stream.
   */
  method RegistryPrefixes(entries: seq<Entry>, codec: Codec) returns (digests: seq<string>, ok: bool)
    ensures |digests| == Ordered(entries, 0)
    ensures forall i :: 0 <= i < |digests| ==> digests[i] == codec.hash(Serialized(entries, i, codec))
    ensures ok <==> forall i :: 0 <= i < |entries| ==> entries[i].routingT == i + 1 && entries[i].address.Some?
  {
    hide Join, Decimal, Items, EntryText, Serialized, JsonArray;
    AllInPlace(entries);
    JoinNothing();
    NoItems(entries, codec);
    var state := new HashState("[");
    digests := [];
    var count := 0;
    for i := 0 to |entries|
      invariant count == i <= Ordered(entries, 0) && |digests| == i
      invariant state.fed == "[" + Join(Items(entries, i, codec))
      invariant fresh(state)
      invariant forall j :: 0 <= j < i ==> digests[j] == codec.hash(Serialized(entries, j, codec))
    {
      var entry := entries[i];
      if entry.routingT != count + 1 || entry.address.None? {
        assert !InPlace(entries, i);
        return digests, false;
      }
      assert InPlace(entries, i);
      SerializedJoins(entries, i, codec);
      var copy := state.Copy();
      copy.Update("]");
      var digest := copy.Digest(codec);
      digests := digests + [digest];
      var text := JsonArray([Decimal(entry.routingT), codec.quote(entry.address.value)]);
      NextItem(entries, i, codec);
      state.Update(if count > 0 then "," else "");
      state.Update(text);
      count := count + 1;
    }
    ok := true;
  }

  lemma NoItems(entries: seq<Entry>, codec: Codec)
    ensures Items(entries, 0, codec) == []
  {
  }

  lemma SerializedJoins(entries: seq<Entry>, i: nat, codec: Codec)
    requires i <= Ordered(entries, 0)
    ensures Serialized(entries, i, codec) == "[" + Join(Items(entries, i, codec)) + "]"
  {
    hide Join, Items;
  }

  /** The text of one more entry, and the comma before all but the first. */
  lemma NextItem(entries: seq<Entry>, i: nat, codec: Codec)
    requires i < Ordered(entries, 0)
    ensures InPlace(entries, i)
    ensures var text := JsonArray([Decimal(i + 1), codec.quote(entries[i].address.value)]);
            "[" + Join(Items(entries, i + 1, codec))
            == "[" + Join(Items(entries, i, codec)) + (if i > 0 then "," else "") + text
  {
    LastListed(entries, i + 1, codec);
    assert |Items(entries, i, codec)| == i;
    var text := EntryText(entries, i, codec);
    var before := Items(entries, i, codec);
    assert text == JsonArray([Decimal(i + 1), codec.quote(entries[i].address.value)]);
    hide *;
    JoinAppend(before, text);
    JoinNothing();
    assert before == [] ==> "[" + Join(before) + "" + text == "[" + text;
    assert before != [] ==> "[" + (Join(before) + "," + text) == "[" + Join(before) + "," + text;
  }
}

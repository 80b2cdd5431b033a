/**
 The environment files of the applications (services/discrete-pay/install.py): quoting, and reading
 the quoted text back as a service manager does.
 */
module EnvText {
  import opened Dictionaries
  import opened Options
  import opened Text

  // ---------------------------------------------------------------- printing

  /** `s.replace(c, t)` for a single character. */
  function Replace(s: string, c: char, t: string): string {
    if s == "" then "" else (if s[0] == c then t else [s[0]]) + Replace(s[1..], c, t)
  }

  /** The value as it is quoted: two replacements, one after the other. */
  function Quoted(v: string): string {
    Replace(Replace(v, '\\', "\\\\"), '"', "\\\"")
  }

  function Line(key: string, value: string): string {
    key + "=\"" + Quoted(value) + "\"\n"
  }

  function Lines(keys: seq<string>, values: map<string, string>): string {
    if keys == [] then ""
    else (if keys[0] in values then Line(keys[0], values[keys[0]]) else "") + Lines(keys[1..], values)
  }

  predicate Acceptable(value: string) {
    value != "" && '\r' !in value && '\n' !in value && '\0' !in value
  }

  /** `env_text`, for the fields expected of a role; `None` where it raises. */
  function EnvText(items: Items<string>, expected: set<string>): Option<string> {
    var values := ToMap(items);
    if values.Keys != expected then None
    else if exists k :: k in values && !Acceptable(values[k]) then None
    else Some(Lines(Sort(KeysOf(items)), values))
  }

  // ---------------------------------------------------------------- reading

  /** The text up to a character, and what follows that character. */
  function Until(s: string, c: char): (r: Option<(string, string)>)
    ensures r.Some? ==> |r.value.1| < |s|
  {
    if s == "" then None
    else if s[0] == c then Some(("", s[1..]))
    else match Until(s[1..], c)
         case None => None
         case Some((before, after)) => Some(([s[0]] + before, after))
  }

  /** The text up to a closing quote, a backslash taking the next character as it stands, and what follows. */
  function Unquote(s: string): (r: Option<(string, string)>)
    ensures r.Some? ==> |r.value.1| < |s|
  {
    if s == "" then None
    else if s[0] == '"' then Some(("", s[1..]))
    else if s[0] == '\\' && |s| == 1 then None
    else
      var (c, rest) := if s[0] == '\\' then (s[1], s[2..]) else (s[0], s[1..]);
      match Unquote(rest)
      case None => None
      case Some((value, after)) => Some(([c] + value, after))
  }

  /** The assignments of an environment file with quoted values; a later one wins. */
  function Parse(text: string): Option<map<string, string>>
    decreases |text|
  {
    if text == "" then Some(map[])
    else
      match Until(text, '=')
      case None => None
      case Some((key, after)) =>
        if after == "" || after[0] != '"' then None
        else
          match Unquote(after[1..])
          case None => None
          case Some((value, more)) =>
            if more == "" || more[0] != '\n' then None
            else
              match Parse(more[1..])
              case None => None
              case Some(rest) => Some(map[key := value] + rest)
  }

  // ---------------------------------------------------------------- the two replacements

  /** Escaping character by character. */
  function Escape(s: string): string {
    if s == "" then "" else EscapeOne(s[0]) + Escape(s[1..])
  }

  function EscapeOne(c: char): string {
    if c == '\\' then "\\\\" else if c == '"' then "\\\"" else [c]
  }

  lemma {:induction false} ReplaceConcat(a: string, b: string, c: char, t: string)
    ensures Replace(a + b, c, t) == Replace(a, c, t) + Replace(b, c, t)
  {
    if a == "" {
      assert a + b == b;
    } else {
      assert (a + b)[1..] == a[1..] + b;
      ReplaceConcat(a[1..], b, c, t);
    }
  }

  lemma ReplaceOne(x: char, c: char, t: string)
    ensures Replace([x], c, t) == if x == c then t else [x]
  {
    assert [x][1..] == "";
    assert Replace("", c, t) == "";
  }

  /** The two chained replacements are one character-by-character escape. */
  lemma {:induction false} ChainedIsCharwise(v: string)
    ensures Quoted(v) == Escape(v)
  {
    if v != "" {
      ChainedIsCharwise(v[1..]);
      var first := if v[0] == '\\' then "\\\\" else [v[0]];
      ReplaceConcat(first, Replace(v[1..], '\\', "\\\\"), '"', "\\\"");
      if v[0] == '\\' {
        ReplaceConcat("\\", "\\", '"', "\\\"");
        assert "\\" + "\\" == "\\\\";
      }
      ReplaceOne(v[0], '"', "\\\"");
    }
  }

  // ---------------------------------------------------------------- round trip

  /** A field name as the roles use them: no character that the reader splits on. */
  predicate FieldName(key: string) {
    key != "" && '=' !in key
  }

  /** One character, escaped or not, in front of a text that can be read. */
  lemma UnquoteOne(c: char, rest: string)
    requires Unquote(rest).Some?
    ensures Unquote(EscapeOne(c) + rest) == Some(([c] + Unquote(rest).value.0, Unquote(rest).value.1))
  {
    var s := EscapeOne(c) + rest;
    if c == '\\' || c == '"' {
      assert s[0] == '\\' && s[1] == c && s[2..] == rest;
    } else {
      assert s[0] == c && s[1..] == rest;
    }
  }

  lemma EscapeUnfolds(v: string)
    ensures Escape(v) == if v == "" then "" else EscapeOne(v[0]) + Escape(v[1..])
  {
  }

  lemma UnquoteEnds(after: string)
    ensures Unquote("\"" + after) == Some(("", after))
  {
    assert ("\"" + after)[1..] == after;
  }

  lemma {:induction false} UnquoteEscape(v: string, after: string)
    ensures Unquote(Escape(v) + ("\"" + after)) == Some((v, after))
  {
    hide *;
    var tail := "\"" + after;
    EscapeUnfolds(v);
    if v == "" {
      assert Escape(v) + tail == tail;
      UnquoteEnds(after);
    } else {
      UnquoteEscape(v[1..], after);
      UnquoteOne(v[0], Escape(v[1..]) + tail);
      assert Escape(v) + tail == EscapeOne(v[0]) + (Escape(v[1..]) + tail);
      assert v == [v[0]] + v[1..];
    }
  }

  lemma {:induction false} UntilFirst(key: string, c: char, after: string)
    requires c !in key
    ensures Until(key + ([c] + after), c) == Some((key, after))
  {
    var s := key + ([c] + after);
    if key == "" {
      assert s == [c] + after && s[1..] == after;
    } else {
      assert s[1..] == key[1..] + ([c] + after);
      UntilFirst(key[1..], c, after);
      assert [key[0]] + key[1..] == key;
    }
  }

  lemma ParseLine(key: string, value: string, rest: string)
    requires FieldName(key) && Parse(rest).Some?
    ensures Parse(Line(key, value) + rest) == Some(map[key := value] + Parse(rest).value)
  {
    ChainedIsCharwise(value);
    var after := "\"" + (Escape(value) + ("\"" + ("\n" + rest)));
    var text := Line(key, value) + rest;
    hide Escape, Quoted, Unquote, Until;
    assert text == key + ("=" + after);
    UntilFirst(key, '=', after);
    assert after[1..] == Escape(value) + ("\"" + ("\n" + rest));
    UnquoteEscape(value, "\n" + rest);
    assert ("\n" + rest)[1..] == rest;
  }

  function Restricted(keys: seq<string>, values: map<string, string>): map<string, string> {
    map k | k in keys && k in values :: values[k]
  }

  lemma {:induction false} ParseLines(keys: seq<string>, values: map<string, string>)
    requires forall k :: k in keys ==> FieldName(k) && k in values
    ensures Parse(Lines(keys, values)) == Some(Restricted(keys, values))
  {
    if keys == [] {
      assert Restricted(keys, values) == map[];
    } else {
      hide Parse, Line, FieldName;
      ParseLines(keys[1..], values);
      ParseLine(keys[0], values[keys[0]], Lines(keys[1..], values));
      RestrictedFirst(keys, values);
    }
  }

  lemma RestrictedFirst(keys: seq<string>, values: map<string, string>)
    requires keys != [] && keys[0] in values
    ensures Restricted(keys, values) == map[keys[0] := values[keys[0]]] + Restricted(keys[1..], values)
  {
    assert keys == [keys[0]] + keys[1..];
  }

  /** One quoted line for each key, in the given order. */
  function Printed(keys: seq<string>, values: map<string, string>): string
    requires forall k :: k in keys ==> k in values
  {
    if keys == [] then ""
    else keys[0] + "=\"" + Escape(values[keys[0]]) + "\"\n" + Printed(keys[1..], values)
  }

  lemma {:induction false} LinesArePrinted(keys: seq<string>, values: map<string, string>)
    requires forall k :: k in keys ==> k in values
    ensures Lines(keys, values) == Printed(keys, values)
  {
    if keys != [] {
      LinesArePrinted(keys[1..], values);
      ChainedIsCharwise(values[keys[0]]);
    }
  }

  /**
   What is printed: exactly for the expected fields, each with a non-empty value on one line; the
   keys in ascending order, each with its value between quotes and escaped character by character.
   */
  lemma EnvTextExactly(items: Items<string>, expected: set<string>, keys: seq<string>)
    requires Ascending(keys) && multiset(keys) == multiset(KeysOf(items))
    ensures forall k :: k in keys ==> k in ToMap(items)
    ensures EnvText(items, expected)
            == if (forall k :: k in expected <==> k in keys)
                  && forall k :: k in keys ==>
                       var v := ToMap(items)[k]; v != "" && forall c :: c in v ==> c != '\r' && c != '\n' && c != '\0'
               then Some(Printed(keys, ToMap(items)))
               else None
  {
    var values := ToMap(items);
    SortIs(KeysOf(items), keys);
    SortedKeys(items);
    LinesArePrinted(keys, values);
    hide ToMap, Sort, Lines, Printed, KeysOf;
    if forall k :: k in expected <==> k in keys { assert values.Keys == expected; }
    forall k | k in keys
      ensures Acceptable(values[k])
              <==> values[k] != "" && forall c :: c in values[k] ==> c != '\r' && c != '\n' && c != '\0'
    {
    }
  }

  /** Reading the printed text gives back exactly the original values, for every map that is printed. */
  lemma EnvRoundTrip(items: Items<string>, expected: set<string>)
    requires forall k :: k in expected ==> FieldName(k)
    requires EnvText(items, expected).Some?
    ensures Parse(EnvText(items, expected).value) == Some(ToMap(items))
  {
    var values, keys := ToMap(items), Sort(KeysOf(items));
    SortedKeys(items);
    ParseLines(keys, values);
    assert Restricted(keys, values) == values;
  }

  /** The same values in another order print the same text. */
  lemma OrderDoesNotMatter(a: Items<string>, b: Items<string>, expected: set<string>)
    requires DistinctKeys(a) && DistinctKeys(b) && multiset(a) == multiset(b)
    ensures EnvText(a, expected) == EnvText(b, expected)
  {
    Reordered(a, b);
  }
}

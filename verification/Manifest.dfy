/**
 The SHA-256 manifest of the public evidence bundle
 (docs/benchmarks/discrete-v0.9.5/reproduce/tools/package_public_evidence.py and
 verify_public_evidence.py). File contents are texts and the hash is a parameter.
 */
module Manifest {
  import opened Dictionaries
  import opened Options
  import opened Text

  type Data = string

  // ---------------------------------------------------------------- lines

  /** The characters at which `splitlines` ends a line. */
  predicate Break(c: char) {
    c == '\n' || c == '\r' || c == '\U{0B}' || c == '\U{0C}' || c == '\U{1C}' || c == '\U{1D}' || c == '\U{1E}'
    || c == '\U{85}' || c == '\U{2028}' || c == '\U{2029}'
  }

  predicate OneLine(s: string) {
    forall i :: 0 <= i < |s| ==> !Break(s[i])
  }

  function FirstLine(s: string): string {
    if s == "" || Break(s[0]) then "" else [s[0]] + FirstLine(s[1..])
  }

  /** What follows the first line and its end, a carriage return and a line feed together being one. */
  function AfterLine(s: string): (r: string)
    ensures s != "" ==> |r| < |s|
  {
    if s == "" then ""
    else if s[0] == '\r' && |s| > 1 && s[1] == '\n' then s[2..]
    else if Break(s[0]) then s[1..]
    else AfterLine(s[1..])
  }

  function SplitLines(s: string): seq<string>
    decreases |s|
  {
    if s == "" then [] else [FirstLine(s)] + SplitLines(AfterLine(s))
  }

  function JoinLines(lines: seq<string>): string {
    if lines == [] then "" else if |lines| == 1 then lines[0] else lines[0] + "\n" + JoinLines(lines[1..])
  }

  lemma {:induction false} LineThen(line: string, rest: string)
    requires OneLine(line)
    ensures FirstLine(line + ("\n" + rest)) == line && AfterLine(line + ("\n" + rest)) == rest
  {
    var s := line + ("\n" + rest);
    if line == "" {
      assert s == "\n" + rest && s[1..] == rest;
    } else {
      assert s[0] == line[0] && s[1..] == line[1..] + ("\n" + rest);
      LineThen(line[1..], rest);
      assert line == [line[0]] + line[1..];
    }
  }

  lemma SplitNothing()
    ensures SplitLines("") == []
  {
  }

  lemma SplitFirst(line: string, rest: string)
    requires OneLine(line)
    ensures SplitLines(line + ("\n" + rest)) == [line] + SplitLines(rest)
  {
    LineThen(line, rest);
    hide FirstLine, AfterLine, OneLine;
    assert line + ("\n" + rest) != "";
  }

  lemma JoinedThen(lines: seq<string>)
    requires lines != []
    ensures JoinLines(lines) + "\n"
            == lines[0] + ("\n" + if |lines| == 1 then "" else JoinLines(lines[1..]) + "\n")
  {
  }

  /** Non-empty lists of lines survive being joined, ended and split again. */
  lemma {:induction false} SplitJoinLines(lines: seq<string>)
    requires lines != [] && forall i :: 0 <= i < |lines| ==> OneLine(lines[i])
    ensures SplitLines(JoinLines(lines) + "\n") == lines
  {
    hide SplitLines, FirstLine, AfterLine, OneLine, JoinLines;
    if |lines| == 1 {
      SplitNothing();
    } else {
      SplitJoinLines(lines[1..]);
    }
    JoinedThen(lines);
    SplitFirst(lines[0], if |lines| == 1 then "" else JoinLines(lines[1..]) + "\n");
  }

  lemma {:induction false} FirstIsOneLine(s: string)
    ensures OneLine(FirstLine(s))
  {
    if s != "" && !Break(s[0]) { FirstIsOneLine(s[1..]); }
  }

  lemma {:induction false} SplitIsOneLine(s: string)
    ensures forall i :: 0 <= i < |SplitLines(s)| ==> OneLine(SplitLines(s)[i])
    decreases |s|
  {
    if s != "" {
      FirstIsOneLine(s);
      SplitIsOneLine(AfterLine(s));
    }
  }

  // ---------------------------------------------------------------- the manifest

  predicate HexDigit(c: char) {
    '0' <= c <= '9' || 'a' <= c <= 'f'
  }

  /** `SHA256_RE`. */
  predicate Digest(d: string) {
    |d| == 64 && forall i :: 0 <= i < |d| ==> HexDigit(d[i])
  }

  ghost predicate IsHash(hash: Data -> string) {
    forall x :: Digest(hash(x))
  }

  function EntryLine(name: string, data: Data, hash: Data -> string): string {
    hash(data) + ("  " + name)
  }

  function LinesOf(names: seq<string>, files: map<string, Data>, hash: Data -> string): seq<string> {
    if names == [] then []
    else LinesOf(names[..|names| - 1], files, hash)
         + if names[|names| - 1] in files then [EntryLine(names[|names| - 1], files[names[|names| - 1]], hash)] else []
  }

  /** `manifest(entries)`. */
  function ManifestText(entries: Items<Data>, hash: Data -> string): string {
    JoinLines(LinesOf(Sort(KeysOf(entries)), ToMap(entries), hash)) + "\n"
  }

  /** `line.partition("  ")`, when the separator occurs. */
  function Partition(s: string): Option<(string, string)> {
    if |s| < 2 then None
    else if s[0] == ' ' && s[1] == ' ' then Some(("", s[2..]))
    else match Partition(s[1..])
         case None => None
         case Some((before, after)) => Some(([s[0]] + before, after))
  }

  function ParseLines(lines: seq<string>): Option<map<string, string>> {
    if lines == [] then Some(map[])
    else
      match ParseLines(lines[..|lines| - 1])
      case None => None
      case Some(result) =>
        match Partition(lines[|lines| - 1])
        case None => None
        case Some((digest, name)) =>
          if !Digest(digest) || name == "" || name in result then None else Some(result[name := digest])
  }

  /** `parse_manifest`; `None` where it raises. */
  function ParseManifest(data: Data): Option<map<string, string>> {
    ParseLines(SplitLines(data))
  }

  method ReadManifest(data: Data) returns (r: Option<map<string, string>>)
    ensures r == ParseManifest(data)
  {
    var lines := SplitLines(data);
    var result: map<string, string> := map[];
    for i := 0 to |lines|
      invariant ParseLines(lines[..i]) == Some(result)
    {
      assert lines[..i + 1][..i] == lines[..i];
      match Partition(lines[i])
      case None =>
        ParsePrefix(lines, i + 1);
        return None;
      case Some((digest, name)) =>
        if !Digest(digest) || name == "" || name in result {
          ParsePrefix(lines, i + 1);
          return None;
        }
        result := result[name := digest];
    }
    assert lines[..|lines|] == lines;
    r := Some(result);
  }

  lemma {:induction false} ParsePrefix(lines: seq<string>, n: nat)
    requires n <= |lines| && ParseLines(lines[..n]).None?
    ensures ParseLines(lines).None?
    decreases |lines|
  {
    if n == |lines| {
      assert lines[..n] == lines;
    } else {
      assert lines[..|lines| - 1][..n] == lines[..n];
      ParsePrefix(lines[..|lines| - 1], n);
    }
  }

  // ---------------------------------------------------------------- the format

  /** One line for each name in the given order: the digest, two spaces, the name. */
  function Listing(names: seq<string>, files: map<string, Data>, hash: Data -> string): string
    requires forall name :: name in names ==> name in files
  {
    if names == [] then "" else hash(files[names[0]]) + "  " + names[0] + "\n" + Listing(names[1..], files, hash)
  }

  lemma {:induction false} LinesOfFirst(names: seq<string>, files: map<string, Data>, hash: Data -> string)
    requires names != [] && names[0] in files
    ensures LinesOf(names, files, hash)
            == [EntryLine(names[0], files[names[0]], hash)] + LinesOf(names[1..], files, hash)
  {
    if |names| == 1 {
      assert names[..0] == [] && names[1..] == [];
    } else {
      LinesOfFirst(names[..|names| - 1], files, hash);
      assert names[1..][..|names| - 2] == names[..|names| - 1][1..];
    }
  }

  lemma {:induction false} LinesAreListed(names: seq<string>, files: map<string, Data>, hash: Data -> string)
    requires names != [] && forall name :: name in names ==> name in files
    ensures LinesOf(names, files, hash) != []
    ensures JoinLines(LinesOf(names, files, hash)) + "\n" == Listing(names, files, hash)
  {
    LinesOfFirst(names, files, hash);
    var lines := LinesOf(names, files, hash);
    var line := EntryLine(names[0], files[names[0]], hash);
    assert line == hash(files[names[0]]) + "  " + names[0];
    assert names[0] in names;
    if |names| == 1 {
      assert LinesOf(names[1..], files, hash) == [];
      assert Listing(names, files, hash) == line + "\n" + "";
    } else {
      LinesAreListed(names[1..], files, hash);
      hide LinesOf, EntryLine;
      assert lines[1..] == LinesOf(names[1..], files, hash);
      assert JoinLines(lines) == line + "\n" + JoinLines(lines[1..]);
      assert JoinLines(lines) + "\n" == line + "\n" + (JoinLines(lines[1..]) + "\n");
    }
  }

  /** What is printed for at least one file: its names in ascending order, a line for each. */
  lemma ManifestIs(entries: Items<Data>, names: seq<string>, hash: Data -> string)
    requires names != [] && Ascending(names) && multiset(names) == multiset(KeysOf(entries))
    ensures forall name :: name in names ==> name in ToMap(entries)
    ensures ManifestText(entries, hash) == Listing(names, ToMap(entries), hash)
  {
    SortIs(KeysOf(entries), names);
    SortedKeys(entries);
    hide Sort, ToMap, KeysOf, LinesOf, JoinLines;
    LinesAreListed(names, ToMap(entries), hash);
  }

  /** A line of a manifest: 64 hexadecimal digits, two spaces and a name. */
  predicate Entered(line: string) {
    |line| > 66 && line[64] == ' ' && line[65] == ' '
    && forall i :: 0 <= i < 64 ==> '0' <= line[i] <= '9' || 'a' <= line[i] <= 'f'
  }

  lemma {:induction false} PartitionMeans(s: string)
    ensures Partition(s).Some? ==> var (before, after) := Partition(s).value; s == before + "  " + after
  {
    if Partition(s).Some? {
      if s[0] == ' ' && s[1] == ' ' {
        assert s == "" + "  " + s[2..];
      } else {
        PartitionMeans(s[1..]);
        assert s == [s[0]] + s[1..];
      }
    }
  }

  lemma EnteredMeans(line: string)
    ensures Entered(line) <==>
              Partition(line).Some? && Digest(Partition(line).value.0) && Partition(line).value.1 != ""
    ensures Entered(line) ==> Partition(line) == Some((line[..64], line[66..]))
  {
    if Entered(line) {
      assert line == line[..64] + ("  " + line[66..]);
      assert ' ' !in line[..64];
      PartitionEntry(line[..64], line[66..]);
      assert Digest(line[..64]);
    }
    if Partition(line).Some? && Digest(Partition(line).value.0) && Partition(line).value.1 != "" {
      PartitionMeans(line);
      PartsAreEntered(Partition(line).value.0, Partition(line).value.1);
    }
  }

  lemma PartsAreEntered(digest: string, name: string)
    requires Digest(digest) && name != ""
    ensures Entered(digest + "  " + name)
  {
    var line := digest + "  " + name;
    assert forall i :: 0 <= i < 64 ==> line[i] == digest[i];
  }

  /** Exactly which lines parse, and to what: well-formed ones with different names, each to its digest. */
  lemma {:induction false} ParsesExactly(lines: seq<string>)
    ensures ParseLines(lines).Some?
            <==> && (forall i :: 0 <= i < |lines| ==> Entered(lines[i]))
                 && (forall i, j :: 0 <= i < j < |lines| && Entered(lines[i]) && Entered(lines[j]) ==>
                       lines[i][66..] != lines[j][66..])
    ensures ParseLines(lines).Some? ==>
              && (forall i :: 0 <= i < |lines| ==>
                    && Entered(lines[i]) && lines[i][66..] in ParseLines(lines).value
                    && ParseLines(lines).value[lines[i][66..]] == lines[i][..64])
              && (forall name :: name in ParseLines(lines).value ==>
                    exists i :: 0 <= i < |lines| && Entered(lines[i]) && lines[i][66..] == name)
  {
    if lines != [] {
      var before, last := lines[..|lines| - 1], lines[|lines| - 1];
      assert lines == before + [last];
      ParsesExactly(before);
      EnteredMeans(last);
      hide Partition, Digest, Entered;
      assert forall i :: 0 <= i < |before| ==> before[i] == lines[i];
    }
  }

  // ---------------------------------------------------------------- round trip

  /** Names that a manifest can carry, of at least one file. */
  predicate Nameable(files: map<string, Data>) {
    files != map[] && forall name :: name in files ==> name != "" && OneLine(name)
  }

  function Digests(files: map<string, Data>, hash: Data -> string): map<string, string> {
    map name | name in files :: hash(files[name])
  }

  lemma DigestsNamed(files: map<string, Data>, hash: Data -> string)
    ensures Digests(files, hash).Keys == files.Keys
    ensures forall name :: name in files ==> Digests(files, hash)[name] == hash(files[name])
  {
  }

  lemma {:induction false} PartitionEntry(digest: string, name: string)
    requires ' ' !in digest
    ensures Partition(digest + ("  " + name)) == Some((digest, name))
  {
    var s := digest + ("  " + name);
    if digest == "" {
      assert s == "  " + name && s[2..] == name;
    } else {
      assert s[0] == digest[0] && s[1..] == digest[1..] + ("  " + name);
      PartitionEntry(digest[1..], name);
      assert digest == [digest[0]] + digest[1..];
    }
  }

  lemma EntryIsOneLine(name: string, data: Data, hash: Data -> string)
    requires IsHash(hash)
    ensures ' ' !in hash(data)
    ensures OneLine(name) ==> OneLine(EntryLine(name, data, hash))
  {
    var d := hash(data);
    assert Digest(d);
    assert forall c :: HexDigit(c) ==> !Break(c) && c != ' ';
    assert !Break(' ');
    hide Break, HexDigit;
    var line := EntryLine(name, data, hash);
    if OneLine(name) {
      forall i | 0 <= i < |line|
        ensures !Break(line[i])
      {
        if i < 64 {
          assert line[i] == d[i];
        } else if i < 66 {
          assert line[i] == ' ';
        } else {
          assert line[i] == name[i - 66];
        }
      }
    }
  }

  lemma LinesOfLast(names: seq<string>, files: map<string, Data>, hash: Data -> string)
    requires names != [] && names[|names| - 1] in files
    ensures LinesOf(names, files, hash) == LinesOf(names[..|names| - 1], files, hash)
                                           + [EntryLine(names[|names| - 1], files[names[|names| - 1]], hash)]
  {
  }

  lemma ParseLast(lines: seq<string>)
    requires lines != [] && ParseLines(lines[..|lines| - 1]).Some? && Partition(lines[|lines| - 1]).Some?
    ensures var before, (digest, name) := ParseLines(lines[..|lines| - 1]).value, Partition(lines[|lines| - 1]).value;
            ParseLines(lines)
            == if !Digest(digest) || name == "" || name in before then None else Some(before[name := digest])
  {
    hide Digest, Partition;
  }

  function NamedDigests(names: seq<string>, files: map<string, Data>, hash: Data -> string): map<string, string> {
    map name | name in names && name in files :: hash(files[name])
  }

  lemma DigestAdded(rest: seq<string>, last: string, files: map<string, Data>, hash: Data -> string)
    requires last in files
    ensures NamedDigests(rest + [last], files, hash) == NamedDigests(rest, files, hash)[last := hash(files[last])]
  {
  }

  /** One more line, at the end of lines that parse. */
  lemma LineParses(lines: seq<string>, before: map<string, string>, name: string, data: Data, hash: Data -> string)
    requires IsHash(hash) && name != "" && name !in before && ParseLines(lines) == Some(before)
    ensures ParseLines(lines + [EntryLine(name, data, hash)]) == Some(before[name := hash(data)])
  {
    EntryIsOneLine(name, data, hash);
    PartitionEntry(hash(data), name);
    assert Digest(hash(data));
    hide Partition, Digest, IsHash;
    var all := lines + [EntryLine(name, data, hash)];
    assert all[..|all| - 1] == lines;
    ParseLast(all);
  }

  /** Distinct names that a manifest can carry, each of a file at hand. */
  predicate Listable(names: seq<string>, files: map<string, Data>) {
    (forall i :: 0 <= i < |names| ==> names[i] in files && names[i] != "" && OneLine(names[i]))
    && (forall i, j :: 0 <= i < j < |names| ==> names[i] != names[j])
  }

  lemma ListableFront(names: seq<string>, files: map<string, Data>)
    requires names != [] && Listable(names, files)
    ensures var rest, last := names[..|names| - 1], names[|names| - 1];
            Listable(rest, files) && last !in rest && last in files && last != "" && OneLine(last)
            && names == rest + [last]
  {
    hide OneLine;
  }

  lemma {:induction false} LinesParse(names: seq<string>, files: map<string, Data>, hash: Data -> string)
    requires IsHash(hash) && Listable(names, files)
    ensures ParseLines(LinesOf(names, files, hash)) == Some(NamedDigests(names, files, hash))
  {
    if names == [] {
      assert NamedDigests(names, files, hash) == map[];
    } else {
      hide OneLine, IsHash, EntryLine, ParseLines, LinesOf, Listable;
      var rest, last := names[..|names| - 1], names[|names| - 1];
      ListableFront(names, files);
      LinesParse(rest, files, hash);
      LineParses(LinesOf(rest, files, hash), NamedDigests(rest, files, hash), last, files[last], hash);
      LinesOfLast(names, files, hash);
      DigestAdded(rest, last, files, hash);
    }
  }

  lemma {:induction false} LinesAreOneLine(names: seq<string>, files: map<string, Data>, hash: Data -> string)
    requires IsHash(hash) && Listable(names, files)
    ensures |LinesOf(names, files, hash)| == |names|
    ensures forall i :: 0 <= i < |names| ==> OneLine(LinesOf(names, files, hash)[i])
  {
    if names != [] {
      hide OneLine, IsHash, EntryLine, Listable;
      ListableFront(names, files);
      LinesAreOneLine(names[..|names| - 1], files, hash);
      EntryIsOneLine(names[|names| - 1], files[names[|names| - 1]], hash);
      LinesOfLast(names, files, hash);
    }
  }

  lemma {:induction false} OnceEach(names: seq<string>, name: string)
    requires forall i, j :: 0 <= i < j < |names| ==> names[i] != names[j]
    ensures multiset(names)[name] <= 1
  {
    if names != [] {
      var rest := names[..|names| - 1];
      assert names == rest + [names[|names| - 1]];
      OnceEach(rest, name);
      if names[|names| - 1] == name { assert name !in rest; }
    }
  }

  lemma SortedDistinct(names: seq<string>)
    requires forall i, j :: 0 <= i < j < |names| ==> names[i] != names[j]
    ensures forall i, j :: 0 <= i < j < |Sort(names)| ==> Sort(names)[i] != Sort(names)[j]
  {
    var sorted := Sort(names);
    hide Sort;
    forall i, j | 0 <= i < j < |sorted|
      ensures sorted[i] != sorted[j]
    {
      OnceEach(names, sorted[i]);
      if sorted[i] == sorted[j] { Twice(sorted, i, j); }
    }
  }

  lemma Twice(names: seq<string>, i: nat, j: nat)
    requires i < j < |names| && names[i] == names[j]
    ensures multiset(names)[names[i]] >= 2
  {
    var front, back := names[..j], names[j + 1..];
    assert names == front + ([names[j]] + back);
    assert names[i] in front;
    assert multiset(names) == multiset(front) + (multiset{names[j]} + multiset(back));
  }

  lemma RoundTrip(entries: Items<Data>, hash: Data -> string)
    requires IsHash(hash) && DistinctKeys(entries) && Nameable(ToMap(entries))
    ensures ParseManifest(ManifestText(entries, hash)) == Some(Digests(ToMap(entries), hash))
  {
    var files, names := ToMap(entries), Sort(KeysOf(entries));
    SortedKeys(entries);
    assert forall i :: 0 <= i < |entries| ==> KeysOf(entries)[i] == entries[i].0;
    SortedDistinct(KeysOf(entries));
    assert forall i :: 0 <= i < |names| ==> names[i] in names;
    assert Listable(names, files);
    LinesParse(names, files, hash);
    LinesAreOneLine(names, files, hash);
    assert names != [] by {
      var name :| name in files;
      assert name in names;
    }
    SplitJoinLines(LinesOf(names, files, hash));
    assert NamedDigests(names, files, hash) == Digests(files, hash);
  }

  lemma {:induction false} PartitionPart(s: string)
    requires OneLine(s) && Partition(s).Some?
    ensures OneLine(Partition(s).value.1)
  {
    if !(s[0] == ' ' && s[1] == ' ') { PartitionPart(s[1..]); }
  }

  lemma {:induction false} ParsedNames(lines: seq<string>)
    requires forall i :: 0 <= i < |lines| ==> OneLine(lines[i])
    requires ParseLines(lines).Some?
    ensures forall name :: name in ParseLines(lines).value ==> name != "" && OneLine(name)
  {
    if lines != [] {
      ParsedNames(lines[..|lines| - 1]);
      PartitionPart(lines[|lines| - 1]);
    }
  }

  lemma ParsedManifestNames(data: Data)
    requires ParseManifest(data).Some?
    ensures forall name :: name in ParseManifest(data).value ==> name != "" && OneLine(name)
  {
    SplitIsOneLine(data);
    ParsedNames(SplitLines(data));
  }

  lemma EmptyManifest(hash: Data -> string)
    ensures ParseManifest(ManifestText([], hash)).None?
  {
    assert KeysOf<Data>([]) == [];
    LineThen("", "");
    assert "" + ("\n" + "") == "\n";
    assert SplitLines("\n") == [""];
    assert ParseLines([""]) == None;
  }

  /**
   Parsing a manifest gives back the names and digests exactly when there is a file and every name is
   one non-empty line.
   */
  lemma RoundTripExactly(entries: Items<Data>, hash: Data -> string)
    requires IsHash(hash) && DistinctKeys(entries)
    ensures ParseManifest(ManifestText(entries, hash)) == Some(Digests(ToMap(entries), hash))
            <==> Nameable(ToMap(entries))
  {
    var files := ToMap(entries);
    assert entries != [] ==> entries[|entries| - 1].0 in files;
    if Nameable(files) {
      RoundTrip(entries, hash);
    } else if ParseManifest(ManifestText(entries, hash)) == Some(Digests(files, hash)) {
      ParsedManifestNames(ManifestText(entries, hash));
      assert forall name :: name in files ==> name in Digests(files, hash);
      assert files == map[];
      EmptyManifest(hash);
    }
  }

  // ---------------------------------------------------------------- the verifier

  const LISTING := "-selected-files-sha256.txt"
  const PUBLIC := "MANIFESTS/public" + LISTING
  const ORIGINAL := "MANIFESTS/original" + LISTING
  const PUBLICATION := "PUBLICATION.json"

  function Metadata(): set<string> {
    {PUBLIC, ORIGINAL, PUBLICATION}
  }

  /** The manifest checks of the verifier's `main`. */
  predicate Verified(entries: map<string, Data>, hash: Data -> string) {
    && Metadata() <= entries.Keys
    && var listed, original := ParseManifest(entries[PUBLIC]), ParseManifest(entries[ORIGINAL]);
      var payload := entries - Metadata();
      listed.Some? && original.Some?
      && listed.value.Keys == payload.Keys && original.value.Keys == payload.Keys
      && forall name :: name in payload ==> hash(payload[name]) == listed.value[name]
  }

  method VerifyBundle(entries: map<string, Data>, hash: Data -> string) returns (ok: bool)
    ensures ok == Verified(entries, hash)
  {
    hide ParseManifest;
    if !(Metadata() <= entries.Keys) { return false; }
    var listed := ReadManifest(entries[PUBLIC]);
    if listed.None? { return false; }
    var original := ReadManifest(entries[ORIGINAL]);
    if original.None? { return false; }
    var payload := entries - Metadata();
    if listed.value.Keys != payload.Keys || original.value.Keys != payload.Keys { return false; }
    var left := payload.Keys;
    while left != {}
      invariant left <= payload.Keys
      invariant forall name :: name in payload && name !in left ==> hash(payload[name]) == listed.value[name]
    {
      var name :| name in left;
      if hash(payload[name]) != listed.value[name] { return false; }
      left := left - {name};
    }
    ok := true;
  }

  /** The archive that the packager writes: the payload, then the metadata over it. */
  function Bundle(payload: Items<Data>, original: Items<Data>, publication: Data, hash: Data -> string)
    : map<string, Data>
  {
    var listed := ToMap(payload)[ORIGINAL := ManifestText(original, hash)][PUBLIC := ManifestText(payload, hash)];
    listed[PUBLICATION := publication]
  }

  lemma PublicPath()
    ensures PUBLIC == "MANIFESTS/public-selected-files-sha256.txt"
  {
  }

  lemma OriginalPath()
    ensures ORIGINAL == "MANIFESTS/original-selected-files-sha256.txt"
  {
  }

  /** Where an archive keeps its two manifests and its description. */
  lemma MetadataPaths()
    ensures Metadata() == {"MANIFESTS/public-selected-files-sha256.txt",
                           "MANIFESTS/original-selected-files-sha256.txt", "PUBLICATION.json"}
  {
    PublicPath();
    OriginalPath();
  }

  lemma MetadataNames()
    ensures PUBLIC != ORIGINAL && PUBLIC != PUBLICATION && ORIGINAL != PUBLICATION
  {
    assert |PUBLICATION| < |PUBLIC| < |ORIGINAL|;
  }

  /** What the verifier reads in a bundle. */
  lemma BundleReads(payload: Items<Data>, original: Items<Data>, publication: Data, hash: Data -> string)
    ensures var bundle := Bundle(payload, original, publication, hash);
            Metadata() <= bundle.Keys && bundle - Metadata() == ToMap(payload) - Metadata()
            && bundle[PUBLIC] == ManifestText(payload, hash) && bundle[ORIGINAL] == ManifestText(original, hash)
  {
    MetadataNames();
    hide ManifestText, ToMap;
  }

  /**
   The packager's bundle verifies exactly when both manifests cover the same names and none of them
   is a metadata path.
   */
  lemma BundleVerifies(payload: Items<Data>, original: Items<Data>, publication: Data, hash: Data -> string)
    requires IsHash(hash) && DistinctKeys(payload) && DistinctKeys(original) && Nameable(ToMap(original))
    ensures Verified(Bundle(payload, original, publication, hash), hash)
            <==> ToMap(payload).Keys == ToMap(original).Keys && ToMap(payload).Keys !! Metadata()
  {
    hide ParseManifest, ManifestText, ToMap, Bundle, Nameable, DistinctKeys, Digests, Metadata;
    var files, others := ToMap(payload), ToMap(original);
    RoundTrip(original, hash);
    BundleReads(payload, original, publication, hash);
    DigestsNamed(files, hash);
    DigestsNamed(others, hash);
    if Nameable(files) {
      RoundTrip(payload, hash);
      WithoutMetadata(files);
    } else {
      UnnameableDiffers(files, others);
    }
  }

  lemma WithoutMetadata(files: map<string, Data>)
    ensures files.Keys !! Metadata() <==> (files - Metadata()).Keys == files.Keys
    ensures forall name :: name in files - Metadata() ==> name in files && (files - Metadata())[name] == files[name]
  {
    hide Metadata;
  }

  lemma PrintableIsOneLine(s: string)
    requires forall c :: c in s ==> ' ' <= c <= '~'
    ensures OneLine(s)
  {
    forall i | 0 <= i < |s|
      ensures !Break(s[i])
    {
      assert s[i] in s;
    }
  }

  lemma Joined(a: string, b: string)
    requires OneLine(a) && OneLine(b)
    ensures OneLine(a + b)
  {
  }

  lemma MetadataNameable()
    ensures forall name :: name in Metadata() ==> name != "" && OneLine(name)
  {
    hide OneLine;
    PrintableIsOneLine(LISTING);
    PrintableIsOneLine("MANIFESTS/public");
    PrintableIsOneLine("MANIFESTS/original");
    Joined("MANIFESTS/public", LISTING);
    Joined("MANIFESTS/original", LISTING);
    PrintableIsOneLine(PUBLICATION);
  }

  lemma Member(files: map<string, Data>) returns (name: string)
    requires files != map[]
    ensures name in files
  {
    name :| name in files;
  }

  /** Files that a manifest cannot name are never those of one that it can, with or without the metadata. */
  lemma UnnameableDiffers(files: map<string, Data>, others: map<string, Data>)
    requires !Nameable(files) && Nameable(others)
    ensures files.Keys != others.Keys && (files - Metadata()).Keys != others.Keys
  {
    MetadataNameable();
    hide OneLine, Metadata;
    var rest := files - Metadata();
    if files == map[] {
      var name := Member(others);
      assert name !in files.Keys && name !in rest.Keys;
    } else {
      var name :| name in files && !(name != "" && OneLine(name));
      assert name in files.Keys && name in rest.Keys && name !in others.Keys;
    }
  }

  /** Two contents that differ and have the same digest, under a name that both sides list. */
  predicate Collides(a: map<string, Data>, b: map<string, Data>, name: string, hash: Data -> string) {
    name in a && name in b && a[name] != b[name] && hash(a[name]) == hash(b[name])
  }

  /** An archive that verifies against the bundle's public manifest has the payload's names and digests. */
  lemma VerifiedListsPayload(payload: Items<Data>, archive: map<string, Data>, hash: Data -> string)
    requires IsHash(hash) && DistinctKeys(payload) && Nameable(ToMap(payload))
    requires PUBLIC in archive && archive[PUBLIC] == ManifestText(payload, hash) && Verified(archive, hash)
    ensures (archive - Metadata()).Keys == ToMap(payload).Keys
    ensures forall name :: name in ToMap(payload) ==> hash(archive[name]) == hash(ToMap(payload)[name])
  {
    RoundTrip(payload, hash);
    hide ParseManifest, ManifestText, ToMap, Nameable, DistinctKeys;
    var files, found := ToMap(payload), archive - Metadata();
    assert Digests(files, hash).Keys == files.Keys;
    forall name | name in files
      ensures hash(archive[name]) == hash(files[name])
    {
      assert name in found && found[name] == archive[name];
    }
  }

  /** The text is a manifest of exactly these names. */
  predicate Names(manifest: Data, names: set<string>) {
    ParseManifest(manifest).Some? && ParseManifest(manifest).value.Keys == names
  }

  /**
   Tampering is found. An archive with the bundle's public manifest verifies exactly when its other
   manifest names the payload, it has the payload's names itself, and every content is the payload's
   or collides with it: a file added or dropped is always refused, and a file altered is refused
   unless the hash does not see the difference.
   */
  lemma TamperingFound(payload: Items<Data>, archive: map<string, Data>, hash: Data -> string)
    requires IsHash(hash) && DistinctKeys(payload) && Nameable(ToMap(payload))
    requires Metadata() <= archive.Keys && archive[PUBLIC] == ManifestText(payload, hash)
    ensures Verified(archive, hash)
            <==> (archive - Metadata()).Keys == ToMap(payload).Keys
                 && Names(archive[ORIGINAL], ToMap(payload).Keys)
                 && forall name :: name in ToMap(payload) ==>
                      archive[name] == ToMap(payload)[name] || Collides(archive, ToMap(payload), name, hash)
  {
    RoundTrip(payload, hash);
    if Verified(archive, hash) { VerifiedListsPayload(payload, archive, hash); }
    hide ParseManifest, ManifestText, ToMap, Nameable, DistinctKeys;
    var files := ToMap(payload);
    assert Digests(files, hash).Keys == files.Keys;
  }

  /** Without a collision among the contents at hand, only the payload itself verifies. */
  lemma OnlyThePayloadVerifies(payload: Items<Data>, archive: map<string, Data>, hash: Data -> string)
    requires IsHash(hash) && DistinctKeys(payload) && Nameable(ToMap(payload))
    requires PUBLIC in archive && archive[PUBLIC] == ManifestText(payload, hash) && Verified(archive, hash)
    requires forall name :: name in archive ==> !Collides(archive, ToMap(payload), name, hash)
    ensures archive - Metadata() == ToMap(payload)
  {
    VerifiedListsPayload(payload, archive, hash);
    hide ParseManifest, ManifestText, ToMap, Nameable, DistinctKeys, Verified;
    var files, found := ToMap(payload), archive - Metadata();
    forall name | name in found
      ensures found[name] == files[name]
    {
      assert name in archive && name in files;
    }
  }
}

/** Exactly which listings and which sshd configurations the host policy checker accepts. */
module FirewallListing {
  import opened Options
  import opened Firewall

  // ---------------------------------------------------------------- chains

  /** The last chain of that name is the named hook's filter of the table, with that policy. */
  predicate ChainIs(entries: seq<Entry>, name: string, policy: string) {
    exists i :: 0 <= i < |entries| && LastNamed(entries, i, name)
      && entries[i].chain == Chain(name, "ip", "discrete_filter", "filter", name, 0, policy)
  }

  predicate LastNamed(entries: seq<Entry>, i: nat, name: string)
    requires i < |entries|
  {
    entries[i].ChainEntry? && entries[i].chain.name == name
    && forall j :: i < j < |entries| && entries[j].ChainEntry? ==> entries[j].chain.name != name
  }

  predicate Hook(name: string) {
    name == "input" || name == "forward" || name == "output"
  }

  /** The three hooks, no other chain, and what they do with packets that no rule decides. */
  predicate ChainsAre(entries: seq<Entry>) {
    && AllHooks(entries)
    && ChainIs(entries, "input", "drop") && ChainIs(entries, "forward", "drop") && ChainIs(entries, "output", "accept")
  }

  lemma {:induction false} ChainsHold(entries: seq<Entry>, name: string) returns (i: nat)
    ensures name in Chains(entries) <==>
              exists k :: 0 <= k < |entries| && entries[k].ChainEntry? && entries[k].chain.name == name
    ensures name in Chains(entries) ==>
              i < |entries| && LastNamed(entries, i, name) && entries[i].chain == Chains(entries)[name]
  {
    i := 0;
    if entries != [] {
      var before, last := entries[..|entries| - 1], entries[|entries| - 1];
      var k := ChainsHold(before, name);
      assert entries == before + [last];
      if last.ChainEntry? && last.chain.name == name {
        i := |entries| - 1;
      } else {
        i := k;
      }
    }
  }

  lemma ChainMeans(entries: seq<Entry>, name: string, policy: string)
    ensures ChainIs(entries, name, policy) <==> ChainFits(Chains(entries), name, policy)
  {
    var i := ChainsHold(entries, name);
    if ChainIs(entries, name, policy) {
      var k :| 0 <= k < |entries| && LastNamed(entries, k, name)
        && entries[k].chain == Chain(name, "ip", "discrete_filter", "filter", name, 0, policy);
      assert k == i;
    }
    hide Chains;
  }

  predicate AllHooks(entries: seq<Entry>) {
    forall i :: 0 <= i < |entries| && entries[i].ChainEntry? ==> Hook(entries[i].chain.name)
  }

  lemma KeysMean(entries: seq<Entry>)
    ensures AllHooks(entries) <==> forall name :: name in Chains(entries) ==> Hook(name)
  {
    hide Chains, Hook;
    forall name: string
      ensures name in Chains(entries) <==>
                exists k :: 0 <= k < |entries| && entries[k].ChainEntry? && entries[k].chain.name == name
    {
      var i := ChainsHold(entries, name);
    }
  }

  lemma ChainsMean(entries: seq<Entry>)
    ensures ChainsAre(entries)
            <==> && Chains(entries).Keys == {"input", "forward", "output"}
                 && ChainFits(Chains(entries), "input", "drop") && ChainFits(Chains(entries), "forward", "drop")
                 && ChainFits(Chains(entries), "output", "accept")
  {
    ChainMeans(entries, "input", "drop");
    ChainMeans(entries, "forward", "drop");
    ChainMeans(entries, "output", "accept");
    var chains := Chains(entries);
    KeysMean(entries);
    hide Chains, ChainIs, AllHooks;
    assert (forall name :: name in chains ==> Hook(name)) <==> chains.Keys <= {"input", "forward", "output"};
  }

  // ---------------------------------------------------------------- rules

  lemma {:induction false} RulesConcat(a: seq<Entry>, b: seq<Entry>)
    ensures Rules(a + b) == Rules(a) + Rules(b)
    decreases |b|
  {
    if b == [] {
      assert a + b == a;
    } else {
      assert (a + b)[..|a + b| - 1] == a + b[..|b| - 1];
      RulesConcat(a, b[..|b| - 1]);
    }
  }

  /** The rules of a listing are its rule entries, in order. */
  lemma RulesSplit(before: seq<Entry>, entry: Entry, after: seq<Entry>)
    ensures Rules([]) == []
    ensures Rules(before + [entry] + after)
            == Rules(before) + (if entry.RuleEntry? then [entry.rule] else []) + Rules(after)
  {
    RulesConcat(before + [entry], after);
    RulesConcat(before, [entry]);
    assert [entry][..0] == [];
  }

  /** An expression with any number of counters in it. */
  predicate Counting(expr: seq<Expr>, bare: seq<Expr>) {
    if expr == [] then bare == []
    else if expr[0] == Counter then Counting(expr[1..], bare)
    else bare != [] && bare[0] == expr[0] && Counting(expr[1..], bare[1..])
  }

  lemma {:induction false} CountingMeans(expr: seq<Expr>, bare: seq<Expr>)
    ensures Counting(expr, bare) <==> WithoutCounters(expr) == bare
  {
    if expr != [] {
      var rest := WithoutCounters(expr[1..]);
      if expr[0] == Counter {
        CountingMeans(expr[1..], bare);
        assert [] + rest == rest;
      } else {
        if bare != [] {
          CountingMeans(expr[1..], bare[1..]);
          assert bare == [bare[0]] + bare[1..];
          assert ([expr[0]] + rest)[1..] == rest;
        }
      }
    }
  }

  /** The texts in which a rule of a kind may be written. */
  predicate Written(expr: seq<Expr>, kind: Kind, op: string) {
    match kind
    case Loopback => expr == [Matching(Match(op, Iifname, Text("lo"), true)), Accept]
    case EstablishedRelated =>
      || expr == [Matching(Match(op, CtState, SetOf(["established", "related"]), true)), Accept]
      || expr == [Matching(Match(op, CtState, ListOf(["established", "related"]), true)), Accept]
    case InvalidState => expr == [Matching(Match(op, CtState, Text("invalid"), true)), Drop]
    case Icmp => expr == [Matching(Match(op, IpProtocol, Text("icmp"), true)), Accept]
    case FinalDrop => expr == [Drop]
    case Port(n) => Public(n) && expr == [Matching(Match(op, TcpDport, Number(n), true)), Accept]
  }

  predicate Public(n: int) {
    n == 80 || n == 443 || n == 22822
  }

  /** The rule stands in the input chain and, counters aside, is written as one of that kind. */
  predicate Spells(rule: Rule, kind: Kind) {
    && rule.family == "ip" && rule.table == "discrete_filter" && rule.chain == "input"
    && var bare := WithoutCounters(rule.expr);
    Written(bare, kind, "==") || Written(bare, kind, "in")
  }

  lemma WrittenMatch(expr: seq<Expr>, kind: Kind, op: string)
    requires Written(expr, kind, op)
    ensures (kind == FinalDrop && expr == [Drop]) || (|expr| == 2 && expr[0].Matching? && expr[0].m.op == op)
  {
  }

  lemma MatchSpells(m: Match, verdict: Expr, kind: Kind)
    ensures MatchKind(m, verdict) == Some(kind)
            <==> kind != FinalDrop
                 && (Written([Matching(m), verdict], kind, "==") || Written([Matching(m), verdict], kind, "in"))
  {
    assert [Matching(m), verdict][0] == Matching(m) && [Matching(m), verdict][1] == verdict;
    assert "lo" != "invalid";
  }

  lemma KindSpells(rule: Rule, kind: Kind)
    ensures KindOf(rule) == Some(kind) <==> Spells(rule, kind)
  {
    var expr := WithoutCounters(rule.expr);
    if |expr| == 2 && expr[0].Matching? {
      MatchSpells(expr[0].m, expr[1], kind);
      assert expr == [Matching(expr[0].m), expr[1]];
    } else {
      if Written(expr, kind, "==") { WrittenMatch(expr, kind, "=="); }
      if Written(expr, kind, "in") { WrittenMatch(expr, kind, "in"); }
    }
    hide WithoutCounters, Written, MatchKind;
    OnlyDrop(kind);
  }

  lemma OnlyDrop(kind: Kind)
    ensures Written([Drop], kind, "==") <==> kind == FinalDrop
    ensures Written([Drop], kind, "in") <==> kind == FinalDrop
  {
    assert |[Drop]| == 1;
  }

  predicate SpelledBy(rules: seq<Rule>, kinds: seq<Kind>) {
    && |rules| == |kinds| && (forall i :: 0 <= i < |kinds| ==> Spells(rules[i], kinds[i]))
    && forall i, j :: 0 <= i < j < |kinds| && kinds[i].Port? ==> kinds[i] != kinds[j]
  }

  lemma {:induction false} KindsSpelled(rules: seq<Rule>, kinds: seq<Kind>)
    ensures Kinds(rules) == Some(kinds) <==> SpelledBy(rules, kinds)
    decreases |rules|
  {
    if rules != [] {
      var before, last := rules[..|rules| - 1], rules[|rules| - 1];
      if kinds != [] {
        var shorter, kind := kinds[..|kinds| - 1], kinds[|kinds| - 1];
        assert kinds == shorter + [kind];
        KindsSpelled(before, shorter);
        KindSpells(last, kind);
        hide KindOf, Spells;
        assert forall i :: 0 <= i < |shorter| ==> shorter[i] == kinds[i];
        assert SpelledBy(rules, kinds) <==> SpelledBy(before, shorter) && Spells(last, kind)
                                            && (kind.Port? ==> kind !in shorter);
      }
    }
  }

  /** The five controls in their order, between them the three ports. */
  predicate Arranged(kinds: seq<Kind>) {
    && Controls(kinds) == [Loopback, EstablishedRelated, InvalidState, Icmp, FinalDrop]
    && Port(80) in kinds && Port(443) in kinds && Port(22822) in kinds
  }

  lemma PortsArePublic(rules: seq<Rule>, kinds: seq<Kind>)
    requires SpelledBy(rules, kinds)
    ensures forall n :: n in Opened(kinds) ==> Public(n)
  {
    hide WithoutCounters, Controls;
  }

  /**
   Exactly which listings are accepted: the three chains with their policies; eight rules that spell,
   counters aside, the five controls in order and each of the three ports once, in any interleaving;
   and a bare drop at the end of the last rule.
   */
  lemma AcceptedListings(entries: seq<Entry>)
    ensures FirewallValid(entries)
            <==> && ChainsAre(entries) && |Rules(entries)| == 8
                 && (exists kinds :: SpelledBy(Rules(entries), kinds) && Arranged(kinds))
                 && var last := Rules(entries)[7].expr; last != [] && last[|last| - 1] == Drop
  {
    ChainsMean(entries);
    var rules := Rules(entries);
    hide Rules, Chains, ChainsAre, ChainFits, Controls, Kinds, SpelledBy;
    if Kinds(rules).Some? {
      var kinds := Kinds(rules).value;
      KindsSpelled(rules, kinds);
      PortsArePublic(rules, kinds);
      OpenedPorts(kinds);
    }
    if exists kinds :: SpelledBy(rules, kinds) && Arranged(kinds) {
      var kinds :| SpelledBy(rules, kinds) && Arranged(kinds);
      KindsSpelled(rules, kinds);
    }
  }

  lemma OpenedPorts(kinds: seq<Kind>)
    requires forall n :: n in Opened(kinds) ==> Public(n)
    ensures Opened(kinds) == PORTS <==> Port(80) in kinds && Port(443) in kinds && Port(22822) in kinds
  {
    OpenedMeans(kinds, 80);
    OpenedMeans(kinds, 443);
    OpenedMeans(kinds, 22822);
    hide Opened;
    if Port(80) in kinds && Port(443) in kinds && Port(22822) in kinds {
      assert forall n :: n in Opened(kinds) <==> n in PORTS;
    }
  }

  // ---------------------------------------------------------------- the SSH policy

  /** A line about a key: the key alone, or the key and a space before a value. */
  predicate About(line: string, key: string) {
    line == key || key + " " <= line
  }

  lemma {:induction false} KeyMeans(line: string, key: string)
    requires ' ' !in key
    ensures Key(line) == key <==> About(line, key)
    ensures key + " " <= line ==> line == key + " " + Value(line)
  {
    if line == "" {
      assert |key + " "| > 0;
    } else if key == "" {
      assert "" + " " == " ";
      if line[0] == ' ' { assert line == " " + line[1..]; }
    } else {
      assert key == [key[0]] + key[1..] && line == [line[0]] + line[1..];
      assert key + " " == [key[0]] + (key[1..] + " ");
      PrefixStep(key + " ", line);
      if line[0] == key[0] {
        assert key[0] in key;
        KeyMeans(line[1..], key[1..]);
      }
    }
  }

  lemma PrefixStep(prefix: string, line: string)
    requires prefix != "" && line != ""
    ensures prefix <= line <==> prefix[0] == line[0] && prefix[1..] <= line[1..]
  {
    if prefix[0] == line[0] && prefix[1..] <= line[1..] {
      assert prefix == [prefix[0]] + prefix[1..] && line == [line[0]] + line[1..];
    }
  }

  /** The key stands on exactly one line, with the value. */
  predicate Stands(lines: seq<string>, key: string, value: string) {
    && key + " " + value in lines
    && forall i, j :: 0 <= i < j < |lines| && About(lines[i], key) ==> !About(lines[j], key)
  }

  lemma {:induction false} NoValue(key: string)
    requires ' ' !in key
    ensures Value(key) == ""
  {
    if key != "" {
      assert key[0] in key;
      NoValue(key[1..]);
    }
  }

  lemma LineMeans(line: string, key: string, value: string)
    requires ' ' !in key && value != ""
    ensures Key(line) == key && Value(line) == value <==> line == key + " " + value
  {
    KeyMeans(line, key);
    NoValue(key);
    if line == key + " " + value {
      assert key + " " <= line;
      assert line[|key| + 1..] == value && (key + " " + Value(line))[|key| + 1..] == Value(line);
    }
    hide Key, Value;
  }

  lemma OnceMeans(lines: seq<string>, key: string, value: string)
    requires ' ' !in key && value != ""
    ensures Once(lines, key, value) <==> Stands(lines, key, value)
  {
    forall i | 0 <= i < |lines|
      ensures Key(lines[i]) == key <==> About(lines[i], key)
      ensures Key(lines[i]) == key && Value(lines[i]) == value <==> lines[i] == key + " " + value
    {
      KeyMeans(lines[i], key);
      LineMeans(lines[i], key, value);
    }
    hide Key, Value, About;
  }

  /** The policy, key by key. */
  predicate Policy(key: string, value: string) {
    (key == "addressfamily" && value == "inet") || (key == "port" && value == "22822")
    || (key == "permitrootlogin" && value == "no") || (key == "passwordauthentication" && value == "no")
    || (key == "kbdinteractiveauthentication" && value == "no")
    || (key == "authenticationmethods" && value == "publickey") || (key == "pubkeyauthentication" && value == "yes")
    || (key == "allowusers" && value == "serveradmin") || (key == "x11forwarding" && value == "no")
    || (key == "allowagentforwarding" && value == "no") || (key == "allowtcpforwarding" && value == "no")
    || (key == "permittunnel" && value == "no")
  }

  lemma PolicyIs(key: string)
    ensures key in SSH ==> Policy(key, SSH[key])
  {
  }

  lemma PolicyDecides(key: string, value: string, other: string)
    requires Policy(key, value) && Policy(key, other)
    ensures value == other
  {
    assert |"addressfamily"| == 13 && |"port"| == 4 && |"permitrootlogin"| == 15 && |"passwordauthentication"| == 22
           && |"kbdinteractiveauthentication"| == 28 && |"authenticationmethods"| == 21
              && |"pubkeyauthentication"| == 20 && |"allowusers"| == 10 && |"x11forwarding"| == 13
                 && |"allowagentforwarding"| == 20 && |"allowtcpforwarding"| == 18 && |"permittunnel"| == 12;
    assert "addressfamily"[0] == 'a' && "x11forwarding"[0] == 'x';
    assert "pubkeyauthentication"[0] == 'p' && "allowagentforwarding"[0] == 'a';
  }

  lemma PolicyIsPlain(key: string, value: string)
    requires Policy(key, value)
    ensures ' ' !in key && value != ""
  {
    ShortKeys();
    LongKeys();
  }

  lemma ShortKeys()
    ensures ' ' !in "port" && ' ' !in "allowusers" && ' ' !in "permittunnel" && ' ' !in "addressfamily"
    ensures ' ' !in "x11forwarding" && ' ' !in "permitrootlogin" && ' ' !in "allowtcpforwarding"
  {
  }

  lemma LongKeys()
    ensures ' ' !in "pubkeyauthentication" && ' ' !in "allowagentforwarding" && ' ' !in "authenticationmethods"
    ensures ' ' !in "passwordauthentication" && ' ' !in "kbdinteractiveauthentication"
  {
  }

  /** Exactly which output of `sshd -T` is accepted: twelve keys on one line each, with these values. */
  lemma AcceptedSsh(lines: seq<string>)
    ensures SshValid(lines, SSH) <==> forall key, value :: Policy(key, value) ==> Stands(lines, key, value)
  {
    hide Once, Stands, Policy, SSH;
    forall key: string, value: string | Policy(key, value)
      ensures key in SSH && SSH[key] == value
      ensures Once(lines, key, value) <==> Stands(lines, key, value)
    {
      PolicyKey(key, value);
      PolicyIs(key);
      PolicyDecides(key, value, SSH[key]);
      PolicyIsPlain(key, value);
      OnceMeans(lines, key, value);
    }
    forall key | key in SSH
      ensures Policy(key, SSH[key])
    {
      PolicyIs(key);
    }
  }

  lemma PolicyKey(key: string, value: string)
    requires Policy(key, value)
    ensures key in SSH
  {
  }
}

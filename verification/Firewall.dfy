/**
 The host policy checker (profiles/discrete-pay/verify.py): what it accepts, and what a rule list
 that it accepts does to a packet.
 */
module Firewall {
  import opened Options

  // ---------------------------------------------------------------- the listing

  /** The left side of a match; only the four the checker knows are told apart. */
  datatype Left = Iifname | CtState | IpProtocol | TcpDport | OtherLeft(text: string)

  /** The right side: a text, a number, a set or a list of texts, or something else. */
  datatype Right =
    | Text(text: string)
    | Number(n: int)
    | SetOf(members: seq<string>)
    | ListOf(members: seq<string>)
    | OtherRight

  /** A match; `bare` says that it has no fields beside `op`, `left` and `right`. */
  datatype Match = Match(op: string, left: Left, right: Right, bare: bool)

  datatype Expr = Counter | Drop | Accept | Matching(m: Match) | OtherExpr

  datatype Rule = Rule(family: string, table: string, chain: string, expr: seq<Expr>)

  datatype Chain = Chain(
    name: string, family: string, table: string, kind: string, hook: string, prio: int, policy: string)

  datatype Entry = ChainEntry(chain: Chain) | RuleEntry(rule: Rule) | OtherEntry

  const PORTS: set<int> := {80, 443, 22822}
  const TABLE := "discrete_filter"

  // ---------------------------------------------------------------- packets

  datatype State = New | Established | Related | Invalid | Untracked

  function StateName(s: State): string {
    match s
    case New => "new"
    case Established => "established"
    case Related => "related"
    case Invalid => "invalid"
    case Untracked => "untracked"
  }

  datatype Packet = Packet(iifname: string, state: State, protocol: string, dport: int)

  function Covers(right: Right, value: string): bool {
    match right
    case Text(t) => t == value
    case SetOf(ms) => value in ms
    case ListOf(ms) => value in ms
    case _ => false
  }

  /** Whether a packet meets a match. */
  predicate Meets(m: Match, p: Packet) {
    match m.left
    case Iifname => Covers(m.right, p.iifname)
    case CtState => Covers(m.right, StateName(p.state))
    case IpProtocol => Covers(m.right, p.protocol)
    case TcpDport => p.protocol == "tcp" && m.right == Number(p.dport)
    case OtherLeft(_) => false
  }

  /** What one rule decides about a packet: its expressions from left to right, up to a verdict or a failed match. */
  function RuleVerdict(expr: seq<Expr>, p: Packet): Option<bool> {
    if expr == [] then None
    else
      match expr[0]
      case Accept => Some(true)
      case Drop => Some(false)
      case Matching(m) => if Meets(m, p) then RuleVerdict(expr[1..], p) else None
      case _ => RuleVerdict(expr[1..], p)
  }

  /** Whether a packet is accepted: the first rule with a verdict, else the chain's policy. */
  predicate Admits(rules: seq<Rule>, policy: bool, p: Packet) {
    if rules == [] then policy
    else match RuleVerdict(rules[0].expr, p)
         case Some(v) => v
         case None => Admits(rules[1..], policy, p)
  }

  // ---------------------------------------------------------------- the checker

  function Chains(entries: seq<Entry>): map<string, Chain> {
    if entries == [] then map[]
    else
      var last := entries[|entries| - 1];
      var before := Chains(entries[..|entries| - 1]);
      if last.ChainEntry? then before[last.chain.name := last.chain] else before
  }

  function Rules(entries: seq<Entry>): seq<Rule> {
    if entries == [] then []
    else
      var last := entries[|entries| - 1];
      Rules(entries[..|entries| - 1]) + if last.RuleEntry? then [last.rule] else []
  }

  function WithoutCounters(expr: seq<Expr>): seq<Expr> {
    if expr == [] then []
    else (if expr[0] == Counter then [] else [expr[0]]) + WithoutCounters(expr[1..])
  }

  datatype Kind = Loopback | EstablishedRelated | InvalidState | Icmp | FinalDrop | Port(n: int)

  function MatchKind(m: Match, verdict: Expr): Option<Kind> {
    if !m.bare || (m.op != "==" && m.op != "in") then None
    else if m.left == Iifname && m.right == Text("lo") && verdict == Accept then Some(Loopback)
    else if m.left == CtState
            && (m.right == SetOf(["established", "related"]) || m.right == ListOf(["established", "related"]))
            && verdict == Accept then Some(EstablishedRelated)
    else if m.left == CtState && m.right == Text("invalid") && verdict == Drop then Some(InvalidState)
    else if m.left == IpProtocol && m.right == Text("icmp") && verdict == Accept then Some(Icmp)
    else if m.left == TcpDport && verdict == Accept && m.right.Number? && m.right.n in PORTS then Some(Port(m.right.n))
    else None
  }

  /** What the checker takes a rule for; `None` where it fails. */
  function KindOf(rule: Rule): Option<Kind> {
    var expr := WithoutCounters(rule.expr);
    if rule.family != "ip" || rule.table != TABLE || rule.chain != "input" then None
    else if expr == [Drop] then Some(FinalDrop)
    else if |expr| == 2 && expr[0].Matching? then MatchKind(expr[0].m, expr[1])
    else None
  }

  /** The kinds of the rules, as far as the checker understands them. */
  function Kinds(rules: seq<Rule>): Option<seq<Kind>> {
    if rules == [] then Some([])
    else match Kinds(rules[..|rules| - 1])
         case None => None
         case Some(ks) => match KindOf(rules[|rules| - 1])
                          case None => None
                          case Some(k) => if k.Port? && k in ks then None else Some(ks + [k])
  }

  function Controls(kinds: seq<Kind>): seq<Kind> {
    if kinds == [] then []
    else Controls(kinds[..|kinds| - 1]) + if kinds[|kinds| - 1].Port? then [] else [kinds[|kinds| - 1]]
  }

  function Opened(kinds: seq<Kind>): set<int> {
    set k | k in kinds && k.Port? :: k.n
  }

  const CONTROLS: seq<Kind> := [Loopback, EstablishedRelated, InvalidState, Icmp, FinalDrop]

  predicate ChainFits(chains: map<string, Chain>, name: string, policy: string) {
    name in chains && chains[name].family == "ip" && chains[name].table == TABLE && chains[name].kind == "filter"
    && chains[name].hook == name && chains[name].prio == 0 && chains[name].policy == policy
  }

  /** `validate_firewall` raises nothing. */
  predicate FirewallValid(entries: seq<Entry>) {
    var chains, rules := Chains(entries), Rules(entries);
    && chains.Keys == {"input", "forward", "output"}
    && ChainFits(chains, "input", "drop") && ChainFits(chains, "forward", "drop")
    && ChainFits(chains, "output", "accept")
    && |rules| == 8
    && Kinds(rules).Some?
    && Controls(Kinds(rules).value) == CONTROLS
    && Opened(Kinds(rules).value) == PORTS
    && rules[7].expr != [] && rules[7].expr[|rules[7].expr| - 1] == Drop
  }

  method ValidateFirewall(entries: seq<Entry>) returns (ok: bool)
    ensures ok == FirewallValid(entries)
  {
    hide Chains, Rules, ChainFits, Kinds, Controls, Opened;
    var chains := Chains(entries);
    if chains.Keys != {"input", "forward", "output"} { return false; }
    if !ChainFits(chains, "input", "drop") || !ChainFits(chains, "forward", "drop")
       || !ChainFits(chains, "output", "accept")
    {
      return false;
    }
    var rules := Rules(entries);
    if |rules| != 8 { return false; }
    var read, ports, controls := ReadRules(rules);
    if !read || controls != CONTROLS || ports != PORTS { return false; }
    var last := rules[|rules| - 1].expr;
    ok := |last| > 0 && last[|last| - 1] == Drop;
  }

  method ReadRules(rules: seq<Rule>) returns (ok: bool, ports: set<int>, controls: seq<Kind>)
    ensures ok == Kinds(rules).Some?
    ensures ok ==> ports == Opened(Kinds(rules).value) && controls == Controls(Kinds(rules).value)
  {
    ports, controls := {}, [];
    ghost var kinds: seq<Kind> := [];
    for i := 0 to |rules|
      invariant Kinds(rules[..i]) == Some(kinds) && |kinds| == i
      invariant controls == Controls(kinds) && ports == Opened(kinds)
    {
      hide Opened, KindOf, Kinds, Controls;
      KindsNext(rules, i, kinds);
      match KindOf(rules[i])
      case None =>
        KindsPrefix(rules, i + 1);
        return false, {}, [];
      case Some(k) =>
        OpenedNext(kinds, k);
        if k.Port? {
          if k.n in ports {
            KindsPrefix(rules, i + 1);
            return false, {}, [];
          }
          ports := ports + {k.n};
        } else {
          controls := controls + [k];
        }
        kinds := kinds + [k];
    }
    assert rules[..|rules|] == rules;
    ok := true;
  }

  lemma KindsNext(rules: seq<Rule>, i: nat, kinds: seq<Kind>)
    requires i < |rules| && Kinds(rules[..i]) == Some(kinds)
    ensures Kinds(rules[..i + 1]) ==
            match KindOf(rules[i])
            case None => None
            case Some(k) => if k.Port? && k in kinds then None else Some(kinds + [k])
  {
    assert rules[..i + 1][..i] == rules[..i];
    hide KindOf;
  }

  lemma OpenedNext(kinds: seq<Kind>, k: Kind)
    ensures Opened(kinds + [k]) == Opened(kinds) + if k.Port? then {k.n} else {}
    ensures k.Port? ==> (k.n in Opened(kinds) <==> k in kinds)
    ensures Controls(kinds + [k]) == Controls(kinds) + if k.Port? then [] else [k]
  {
    assert (kinds + [k])[..|kinds|] == kinds;
    assert forall x :: x in kinds + [k] <==> x in kinds || x == k;
  }

  lemma {:induction false} KindsPrefix(rules: seq<Rule>, n: nat)
    requires n <= |rules| && Kinds(rules[..n]).None?
    ensures Kinds(rules).None?
    decreases |rules|
  {
    if n == |rules| {
      assert rules[..n] == rules;
    } else {
      assert rules[..|rules| - 1][..n] == rules[..n];
      KindsPrefix(rules[..|rules| - 1], n);
    }
  }

  // ---------------------------------------------------------------- kinds decide

  function KindVerdict(k: Kind, p: Packet): Option<bool> {
    match k
    case Loopback => if p.iifname == "lo" then Some(true) else None
    case EstablishedRelated => if p.state == Established || p.state == Related then Some(true) else None
    case InvalidState => if p.state == Invalid then Some(false) else None
    case Icmp => if p.protocol == "icmp" then Some(true) else None
    case FinalDrop => Some(false)
    case Port(n) => if p.protocol == "tcp" && p.dport == n then Some(true) else None
  }

  predicate KindsAdmit(kinds: seq<Kind>, policy: bool, p: Packet) {
    if kinds == [] then policy
    else match KindVerdict(kinds[0], p)
         case Some(v) => v
         case None => KindsAdmit(kinds[1..], policy, p)
  }

  /** Counters decide nothing. */
  lemma {:induction false} CountersDecideNothing(expr: seq<Expr>, p: Packet)
    ensures RuleVerdict(WithoutCounters(expr), p) == RuleVerdict(expr, p)
  {
    if expr != [] {
      CountersDecideNothing(expr[1..], p);
      var rest := WithoutCounters(expr[1..]);
      if expr[0] == Counter {
        assert WithoutCounters(expr) == rest;
      } else {
        assert WithoutCounters(expr)[1..] == rest;
      }
    }
  }

  lemma StateNames(a: State)
    ensures a == Established || a == Related <==> StateName(a) in ["established", "related"]
    ensures a == Invalid <==> StateName(a) == "invalid"
  {
    assert "established"[0] == 'e' && "related"[0] == 'r' && "invalid"[0] == 'i' && "new"[0] == 'n'
           && "untracked"[0] == 'u';
  }

  /** A rule that the checker understands decides as its kind does. */
  lemma KindDecides(rule: Rule, p: Packet)
    requires KindOf(rule).Some?
    ensures RuleVerdict(rule.expr, p) == KindVerdict(KindOf(rule).value, p)
  {
    var expr := WithoutCounters(rule.expr);
    CountersDecideNothing(rule.expr, p);
    StateNames(p.state);
    hide WithoutCounters, StateName;
    if expr == [Drop] {
      assert RuleVerdict([Drop], p) == Some(false);
    } else {
      var m, verdict := expr[0].m, expr[1];
      assert expr == [Matching(m), verdict];
      assert expr[1..] == [verdict];
      assert RuleVerdict([verdict], p) == Some(verdict == Accept);
    }
  }

  lemma {:induction false} KindsDecide(rules: seq<Rule>, policy: bool, p: Packet)
    requires forall i :: 0 <= i < |rules| ==> KindOf(rules[i]).Some?
    ensures Admits(rules, policy, p)
            == KindsAdmit(seq(|rules|, i requires 0 <= i < |rules| => KindOf(rules[i]).value), policy, p)
  {
    var kinds := seq(|rules|, i requires 0 <= i < |rules| => KindOf(rules[i]).value);
    if rules != [] {
      var rest := seq(|rules| - 1, i requires 0 <= i < |rules| - 1 => KindOf(rules[1..][i]).value);
      assert kinds[1..] == rest;
      KindDecides(rules[0], p);
      KindsDecide(rules[1..], policy, p);
    }
  }

  lemma {:induction false} KindsAre(rules: seq<Rule>)
    requires Kinds(rules).Some?
    ensures |Kinds(rules).value| == |rules|
    ensures forall i :: 0 <= i < |rules| ==> KindOf(rules[i]) == Some(Kinds(rules).value[i])
  {
    if rules != [] { KindsAre(rules[..|rules| - 1]); }
  }

  lemma ValidKinds(entries: seq<Entry>, p: Packet)
    requires FirewallValid(entries)
    ensures Admits(Rules(entries), false, p) == KindsAdmit(Kinds(Rules(entries)).value, false, p)
  {
    var rules := Rules(entries);
    KindsAre(rules);
    KindsDecide(rules, false, p);
    assert seq(|rules|, i requires 0 <= i < |rules| => KindOf(rules[i]).value) == Kinds(rules).value;
  }

  // ---------------------------------------------------------------- controls in order

  /** Dropping the first rule drops at most the first control. */
  lemma {:induction false} ControlsFront(kinds: seq<Kind>)
    requires kinds != []
    ensures Controls(kinds) == (if kinds[0].Port? then [] else [kinds[0]]) + Controls(kinds[1..])
  {
    if |kinds| > 1 {
      var init := kinds[..|kinds| - 1];
      ControlsFront(init);
      assert init[1..] == kinds[1..][..|kinds| - 2];
    }
  }

  /** Some rule before the final drop accepts the packet. */
  predicate SomeAccepts(kinds: seq<Kind>, p: Packet) {
    exists k :: k in kinds && KindVerdict(k, p) == Some(true)
  }

  lemma {:induction false} ControlIn(kinds: seq<Kind>, k: Kind)
    ensures k in Controls(kinds) ==> k in kinds
    ensures k in kinds && !k.Port? ==> k in Controls(kinds)
  {
    if kinds != [] {
      ControlIn(kinds[..|kinds| - 1], k);
    }
  }

  /** While nothing but the final drop can refuse a packet, it is admitted just if some rule accepts it. */
  lemma {:induction false} AdmitsIfSomeAccepts(kinds: seq<Kind>, p: Packet)
    requires kinds != [] && kinds[|kinds| - 1] == FinalDrop
    requires forall i :: 0 <= i < |kinds| - 1 ==> KindVerdict(kinds[i], p) != Some(false)
    ensures KindsAdmit(kinds, false, p) == SomeAccepts(kinds, p)
  {
    if |kinds| > 1 {
      AdmitsIfSomeAccepts(kinds[1..], p);
      assert kinds == [kinds[0]] + kinds[1..];
      if KindVerdict(kinds[0], p) == Some(true) { assert kinds[0] in kinds; }
      if SomeAccepts(kinds, p) && KindVerdict(kinds[0], p).None? {
        var k :| k in kinds && KindVerdict(k, p) == Some(true);
        assert k in kinds[1..];
      }
    } else {
      assert kinds == [FinalDrop];
    }
  }

  lemma LastControl(kinds: seq<Kind>)
    requires kinds != [] && Controls(kinds) == CONTROLS && !kinds[|kinds| - 1].Port?
    ensures kinds[|kinds| - 1] == FinalDrop && Controls(kinds[..|kinds| - 1]) == CONTROLS[..4]
  {
    var init, last := kinds[..|kinds| - 1], kinds[|kinds| - 1];
    assert Controls(kinds) == Controls(init) + [last];
    assert |Controls(init)| == 4;
    assert CONTROLS[4] == last;
    assert Controls(init) == (Controls(init) + [last])[..4];
  }

  /** The final drop is the last rule, and the only one of its kind. */
  lemma DropIsLast(entries: seq<Entry>)
    requires FirewallValid(entries)
    ensures var kinds := Kinds(Rules(entries)).value;
            |kinds| == 8 && kinds[7] == FinalDrop && forall i :: 0 <= i < 7 ==> kinds[i] != FinalDrop
  {
    hide Kinds, Rules, Chains, ChainFits, Controls, KindOf, Opened;
    var rules := Rules(entries);
    var kinds := Kinds(rules).value;
    KindsAre(rules);
    LastDrops(rules[7]);
    LastControl(kinds);
    forall i | 0 <= i < 7
      ensures kinds[i] != FinalDrop
    {
      assert kinds[..7][i] in kinds[..7];
      ControlIn(kinds[..7], kinds[i]);
    }
  }

  lemma {:induction false} LastKept(expr: seq<Expr>)
    requires expr != [] && expr[|expr| - 1] != Counter
    ensures WithoutCounters(expr) != []
    ensures WithoutCounters(expr)[|WithoutCounters(expr)| - 1] == expr[|expr| - 1]
  {
    if |expr| > 1 { LastKept(expr[1..]); }
  }

  lemma LastDrops(rule: Rule)
    requires rule.expr != [] && rule.expr[|rule.expr| - 1] == Drop && KindOf(rule).Some?
    ensures KindOf(rule).value == FinalDrop || KindOf(rule).value == InvalidState
  {
    LastKept(rule.expr);
  }

  // ---------------------------------------------------------------- main results

  /** What the profile promises for ordinary traffic from outside. */
  predicate Wanted(p: Packet) {
    p.state == Established || p.state == Related || p.protocol == "icmp"
    || (p.protocol == "tcp" && (p.dport == 80 || p.dport == 443 || p.dport == 22822))
  }

  lemma OpenedMeans(kinds: seq<Kind>, n: int)
    ensures n in Opened(kinds) <==> Port(n) in kinds
  {
  }

  /**
   Soundness of the checker. Under any rule list it accepts, however port rules and control rules
   are interleaved, a packet from outside in a valid state is admitted exactly if it is wanted.
   */
  lemma OutsidePackets(entries: seq<Entry>, p: Packet)
    requires FirewallValid(entries)
    requires p.iifname != "lo" && p.state != Invalid
    ensures Admits(Rules(entries), false, p) <==> Wanted(p)
  {
    hide Kinds, Rules, Chains, ChainFits, Controls, KindOf, Opened, Admits, KindsAdmit;
    var kinds := Kinds(Rules(entries)).value;
    ValidKinds(entries, p);
    DropIsLast(entries);
    AdmitsIfSomeAccepts(kinds, p);
    OpenedMeans(kinds, p.dport);
    ControlIn(kinds, EstablishedRelated);
    ControlIn(kinds, Icmp);
    assert CONTROLS[1] == EstablishedRelated && CONTROLS[3] == Icmp;
    if Wanted(p) {
      assert KindVerdict(EstablishedRelated, p) == Some(true) || KindVerdict(Icmp, p) == Some(true)
             || KindVerdict(Port(p.dport), p) == Some(true);
    }
  }

  lemma {:induction false} LoopbackFirst(kinds: seq<Kind>, p: Packet)
    requires p.iifname == "lo" && Controls(kinds) != [] && Controls(kinds)[0] == Loopback
    ensures KindsAdmit(kinds, false, p)
  {
    if kinds != [] {
      ControlsFront(kinds);
      if kinds[0].Port? { LoopbackFirst(kinds[1..], p); }
    }
  }

  /** Loopback traffic is always admitted, in whatever state. */
  lemma LoopbackPackets(entries: seq<Entry>, p: Packet)
    requires FirewallValid(entries) && p.iifname == "lo"
    ensures Admits(Rules(entries), false, p)
  {
    hide Kinds, Rules, Chains, ChainFits, Controls, KindOf, Opened, Admits, KindsAdmit;
    ValidKinds(entries, p);
    LoopbackFirst(Kinds(Rules(entries)).value, p);
  }

  /** The rules before the one that drops invalid packets. */
  function BeforeInvalid(kinds: seq<Kind>): seq<Kind> {
    if kinds == [] || kinds[0] == InvalidState then [] else [kinds[0]] + BeforeInvalid(kinds[1..])
  }

  lemma {:induction false} ControlsBefore(kinds: seq<Kind>)
    ensures Controls(BeforeInvalid(kinds)) == BeforeInvalid(Controls(kinds))
  {
    if kinds != [] {
      ControlsFront(kinds);
      ControlsBefore(kinds[1..]);
      var rest := BeforeInvalid(kinds[1..]);
      if kinds[0] != InvalidState {
        ControlsFront([kinds[0]] + rest);
        assert ([kinds[0]] + rest)[1..] == rest;
        if kinds[0].Port? {
          assert Controls(kinds) == Controls(kinds[1..]);
        } else {
          assert Controls(kinds)[1..] == Controls(kinds[1..]);
        }
      }
    }
  }

  lemma {:induction false} InvalidDropped(kinds: seq<Kind>, p: Packet)
    requires p.state == Invalid && p.iifname != "lo" && InvalidState in kinds
    requires Icmp !in BeforeInvalid(kinds) && FinalDrop !in BeforeInvalid(kinds)
    ensures KindsAdmit(kinds, false, p) <==> p.protocol == "tcp" && Port(p.dport) in BeforeInvalid(kinds)
  {
    if kinds[0] != InvalidState {
      assert BeforeInvalid(kinds) == [kinds[0]] + BeforeInvalid(kinds[1..]);
      assert kinds == [kinds[0]] + kinds[1..];
      InvalidDropped(kinds[1..], p);
    }
  }

  /**
   A packet in an invalid state passes from outside exactly to a port whose rule stands before the
   one that drops it.
   */
  lemma InvalidPackets(entries: seq<Entry>, p: Packet)
    requires FirewallValid(entries) && p.state == Invalid && p.iifname != "lo"
    ensures Admits(Rules(entries), false, p)
            <==> p.protocol == "tcp" && Port(p.dport) in BeforeInvalid(Kinds(Rules(entries)).value)
    ensures Admits(Rules(entries), false, p) ==>
              p.protocol == "tcp" && (p.dport == 80 || p.dport == 443 || p.dport == 22822)
  {
    hide Kinds, Rules, Chains, ChainFits, Controls, KindOf, Opened, Admits, KindsAdmit;
    var kinds := Kinds(Rules(entries)).value;
    ValidKinds(entries, p);
    ControlsBefore(kinds);
    ControlPrefix();
    ControlIn(BeforeInvalid(kinds), Icmp);
    ControlIn(BeforeInvalid(kinds), FinalDrop);
    ControlIn(kinds, InvalidState);
    assert CONTROLS[2] == InvalidState;
    InvalidDropped(kinds, p);
    BeforeIn(kinds, Port(p.dport));
    OpenedMeans(kinds, p.dport);
  }

  lemma {:induction false} BeforeIn(kinds: seq<Kind>, k: Kind)
    ensures k in BeforeInvalid(kinds) ==> k in kinds
  {
    if kinds != [] && kinds[0] != InvalidState { BeforeIn(kinds[1..], k); }
  }

  lemma ControlPrefix()
    ensures BeforeInvalid(CONTROLS) == [Loopback, EstablishedRelated]
  {
    assert CONTROLS[1..][1..][0] == InvalidState;
    assert BeforeInvalid(CONTROLS[1..][1..]) == [];
    assert BeforeInvalid(CONTROLS[1..]) == [EstablishedRelated];
  }

  // ---------------------------------------------------------------- the SSH policy

  const SSH: map<string, string> := map[
    "addressfamily" := "inet", "port" := "22822", "permitrootlogin" := "no",
    "passwordauthentication" := "no", "kbdinteractiveauthentication" := "no",
    "authenticationmethods" := "publickey", "pubkeyauthentication" := "yes",
    "allowusers" := "serveradmin", "x11forwarding" := "no",
    "allowagentforwarding" := "no", "allowtcpforwarding" := "no", "permittunnel" := "no"]

  /** The part of a line before its first space, and the part after it. */
  function Key(line: string): string {
    if line == "" || line[0] == ' ' then "" else [line[0]] + Key(line[1..])
  }

  function Value(line: string): string {
    if line == "" then "" else if line[0] == ' ' then line[1..] else Value(line[1..])
  }

  /** Every policy key stands on exactly one line, with the policy's value. */
  predicate SshValid(lines: seq<string>, policy: map<string, string>) {
    forall key :: key in policy ==> Once(lines, key, policy[key])
  }

  predicate Once(lines: seq<string>, key: string, value: string) {
    (exists i :: 0 <= i < |lines| && Key(lines[i]) == key && Value(lines[i]) == value)
    && (forall i, j :: 0 <= i < j < |lines| && Key(lines[i]) == key ==> Key(lines[j]) != key)
  }

  predicate Seen(lines: seq<string>, n: nat, key: string, value: string)
    requires n <= |lines|
  {
    exists i :: 0 <= i < n && Key(lines[i]) == key && Value(lines[i]) == value
  }

  predicate NeverTwice(lines: seq<string>, n: nat, key: string)
    requires n <= |lines|
  {
    forall i, j :: 0 <= i < j < n && Key(lines[i]) == key ==> Key(lines[j]) != key
  }

  lemma Repeated(lines: seq<string>, n: nat, key: string, value: string, other: string)
    requires n < |lines| && Seen(lines, n, key, value) && Key(lines[n]) == key
    ensures !Once(lines, key, other)
  {
    hide Key, Value;
  }

  lemma OneMore(lines: seq<string>, n: nat, key: string)
    requires n < |lines| && NeverTwice(lines, n, key)
    requires Key(lines[n]) == key ==> forall i :: 0 <= i < n ==> Key(lines[i]) != key
    ensures NeverTwice(lines, n + 1, key)
  {
    hide Key;
  }

  /** `validate_ssh`, for the lines of `sshd -T`. */
  method ValidateSsh(lines: seq<string>, policy: map<string, string>) returns (ok: bool)
    ensures ok == SshValid(lines, policy)
  {
    hide Key, Value, Seen, NeverTwice, Once;
    var fields: map<string, string> := map[];
    StartsEmpty(lines, policy);
    for n := 0 to |lines|
      invariant fields.Keys <= policy.Keys
      invariant forall key :: key in fields ==> Seen(lines, n, key, fields[key])
      invariant forall i :: 0 <= i < n && Key(lines[i]) in policy ==> Key(lines[i]) in fields
      invariant forall key :: key in policy ==> NeverTwice(lines, n, key)
    {
      var key, value := Key(lines[n]), Value(lines[n]);
      forall k | k in fields
        ensures Seen(lines, n + 1, k, fields[k])
      {
        SeenBefore(lines, n, k, fields[k]);
      }
      if key in policy && key in fields {
        Repeated(lines, n, key, fields[key], policy[key]);
        return false;
      }
      forall k | k in policy
        ensures NeverTwice(lines, n + 1, k)
      {
        OneMore(lines, n, k);
      }
      SeenHere(lines, n);
      if key in policy { fields := fields[key := value]; }
    }
    ok := fields == policy;
    FieldsDecide(lines, fields, policy);
  }

  lemma StartsEmpty(lines: seq<string>, policy: map<string, string>)
    ensures forall key :: key in policy ==> NeverTwice(lines, 0, key)
  {
  }

  lemma SeenBefore(lines: seq<string>, n: nat, key: string, value: string)
    requires n < |lines| && Seen(lines, n, key, value)
    ensures Seen(lines, n + 1, key, value)
  {
    hide Key, Value;
  }

  lemma SeenHere(lines: seq<string>, n: nat)
    requires n < |lines|
    ensures Seen(lines, n + 1, Key(lines[n]), Value(lines[n]))
  {
    hide Key, Value;
  }

  lemma FieldsDecide(lines: seq<string>, fields: map<string, string>, policy: map<string, string>)
    requires fields.Keys <= policy.Keys
    requires forall key :: key in fields ==> Seen(lines, |lines|, key, fields[key])
    requires forall i :: 0 <= i < |lines| && Key(lines[i]) in policy ==> Key(lines[i]) in fields
    requires forall key :: key in policy ==> NeverTwice(lines, |lines|, key)
    ensures (fields == policy) == SshValid(lines, policy)
  {
    hide Key, Value;
    if fields == policy {
      forall key | key in policy
        ensures Once(lines, key, policy[key])
      {
        assert NeverTwice(lines, |lines|, key);
      }
    } else if fields.Keys == policy.Keys {
      var key :| key in policy && fields[key] != policy[key];
      DifferentValue(lines, key, fields[key], policy[key]);
    } else {
      var key :| key in policy && key !in fields;
      assert !Once(lines, key, policy[key]);
    }
  }

  lemma DifferentValue(lines: seq<string>, key: string, value: string, other: string)
    requires Seen(lines, |lines|, key, value) && NeverTwice(lines, |lines|, key) && value != other
    ensures !Once(lines, key, other)
  {
    hide Key, Value;
    var i :| 0 <= i < |lines| && Key(lines[i]) == key && Value(lines[i]) == value;
    assert forall j :: 0 <= j < |lines| && Key(lines[j]) == key ==> j == i;
  }
}

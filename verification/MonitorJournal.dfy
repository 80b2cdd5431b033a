/** Reading the worker's journal (monitoring/discrete-pay/policy.mjs): the latest admissible cycle of each component. */
module MonitorJournal {
  import opened Options
  import opened Monitor

  /** The message of a journal entry, parsed; `None` is a field of another type. */
  datatype Message =
    | Unparsable
    | Message(event: string, component: string, code: string, ok: Option<bool>, timestamp: Option<int>)

  /** A journal line: no JSON, or an entry with its invocation and, if it is a text, its message. */
  datatype Line = Noise | Line(invocation: string, message: Option<Message>)

  /** `cycle`; `Missing` is its null. */
  function Cycle(m: Message): Sample {
    if m.Unparsable? || m.event != "worker_cycle" || m.component !in COMPONENTS || !KnownCode(m.code) || m.ok.None?
       || m.ok.value != (m.code == "success") || m.timestamp.None? || !(0 <= m.timestamp.value <= SAFE)
    then Missing
    else Sample(m.component, m.ok.value, m.code, m.timestamp.value)
  }

  /** The cycle a line contributes: of the asked invocation, and not from the future. */
  function CycleOf(line: Line, invocation: string, now: int): Sample {
    if line.Noise? || invocation == "" || line.invocation != invocation || line.message.None? then Missing
    else
      var value := Cycle(line.message.value);
      if value.Sample? && value.at <= now + 5000 then value else Missing
  }

  /** The seven codes a cycle may carry. */
  predicate CodeOf(code: string) {
    code == "success" || code == "catching_up" || code == "deep_reorg" || code == "scanner_behind"
    || code == "chain_invalid" || code == "rpc_unavailable" || code == "cycle_failed"
  }

  /**
   Exactly which journal lines count as an observation, and of what: a worker cycle of the asked
   invocation, about that component, consistent, and not more than five seconds ahead.
   */
  lemma ObservedExactly(
      lines: seq<Line>, i: nat, component: string, invocation: string, now: int, ok: bool, code: string, at: int)
    requires i < |lines|
    ensures Admissible(lines, i, component, invocation, now)
            && CycleOf(lines[i], invocation, now) == Sample(component, ok, code, at)
            <==> && invocation != ""
                 && lines[i] == Line(invocation, Some(Message("worker_cycle", component, code, Some(ok), Some(at))))
                 && (component == "scanner" || component == "webhook") && CodeOf(code) && (ok <==> code == "success")
                 && 0 <= at <= 9007199254740991 && at <= now + 5000
  {
    assert COMPONENTS[0] == "scanner" && COMPONENTS[1] == "webhook";
    assert FAILURE_CODES[0] == "catching_up" && FAILURE_CODES[1] == "deep_reorg"
           && FAILURE_CODES[2] == "scanner_behind" && FAILURE_CODES[3] == "chain_invalid"
           && FAILURE_CODES[4] == "rpc_unavailable" && FAILURE_CODES[5] == "cycle_failed";
    assert KnownCode(code) <==> CodeOf(code);
    assert component in COMPONENTS <==> component == "scanner" || component == "webhook";
    hide KnownCode, CodeOf, COMPONENTS, FAILURE_CODES;
    if Admissible(lines, i, component, invocation, now)
       && CycleOf(lines[i], invocation, now) == Sample(component, ok, code, at)
    {
      var m := lines[i].message.value;
      assert m.component == component && m.code == code;
    }
  }

  predicate Admissible(lines: seq<Line>, i: nat, component: string, invocation: string, now: int)
    requires i < |lines|
  {
    var value := CycleOf(lines[i], invocation, now);
    value.Sample? && value.component == component
  }

  /** Among the first `n` lines, line `i` is the first of the latest admissible cycles. */
  predicate LatestAt(lines: seq<Line>, n: nat, i: nat, component: string, invocation: string, now: int)
    requires i < n <= |lines|
  {
    Admissible(lines, i, component, invocation, now)
    && forall j :: 0 <= j < n && Admissible(lines, j, component, invocation, now) ==>
         CycleOf(lines[j], invocation, now).at <= CycleOf(lines[i], invocation, now).at
         && (j < i ==> CycleOf(lines[j], invocation, now).at < CycleOf(lines[i], invocation, now).at)
  }

  /** A sample is the first of the latest admissible cycles, or nothing if there is none. */
  predicate Latest(s: Sample, lines: seq<Line>, n: nat, component: string, invocation: string, now: int)
    requires n <= |lines|
  {
    if s.Missing? then forall i :: 0 <= i < n ==> !Admissible(lines, i, component, invocation, now)
    else exists i ::
           0 <= i < n && LatestAt(lines, n, i, component, invocation, now) && s == CycleOf(lines[i], invocation, now)
  }

  /** The sample after one more line: replaced exactly if the line is admissible and strictly later. */
  function Next(s: Sample, lines: seq<Line>, n: nat, component: string, invocation: string, now: int): Sample
    requires n < |lines|
  {
    var value := CycleOf(lines[n], invocation, now);
    if value.Sample? && value.component == component && value.at > (if s.Sample? then s.at else -1) then value else s
  }

  lemma LatestReplaced(s: Sample, lines: seq<Line>, n: nat, component: string, invocation: string, now: int)
    requires n < |lines| && Latest(s, lines, n, component, invocation, now) && (s.Missing? || s.Sample?)
    requires Admissible(lines, n, component, invocation, now)
    requires CycleOf(lines[n], invocation, now).at > (if s.Sample? then s.at else -1)
    ensures Latest(CycleOf(lines[n], invocation, now), lines, n + 1, component, invocation, now)
  {
    hide CycleOf;
    assert LatestAt(lines, n + 1, n, component, invocation, now);
  }

  lemma LatestStays(s: Sample, lines: seq<Line>, n: nat, component: string, invocation: string, now: int)
    requires n < |lines| && Latest(s, lines, n, component, invocation, now)
    requires s.Sample?
    requires Admissible(lines, n, component, invocation, now) ==> CycleOf(lines[n], invocation, now).at <= s.at
    ensures Latest(s, lines, n + 1, component, invocation, now)
  {
    hide CycleOf;
    var i :| 0 <= i < n && LatestAt(lines, n, i, component, invocation, now) && s == CycleOf(lines[i], invocation, now);
    assert LatestAt(lines, n + 1, i, component, invocation, now);
  }

  lemma LatestNext(s: Sample, lines: seq<Line>, n: nat, component: string, invocation: string, now: int)
    requires n < |lines| && Latest(s, lines, n, component, invocation, now)
    requires s.Missing? || (s.Sample? && s.at >= 0)
    ensures var next := Next(s, lines, n, component, invocation, now);
            Latest(next, lines, n + 1, component, invocation, now) && (next.Missing? || (next.Sample? && next.at >= 0))
  {
    CycleTime(lines[n], invocation, now);
    hide CycleOf, LatestAt;
    var value := CycleOf(lines[n], invocation, now);
    if value.Sample? && value.component == component && value.at > (if s.Sample? then s.at else -1) {
      LatestReplaced(s, lines, n, component, invocation, now);
    } else if s.Sample? {
      LatestStays(s, lines, n, component, invocation, now);
    }
  }

  lemma CycleTime(line: Line, invocation: string, now: int)
    ensures var value := CycleOf(line, invocation, now);
            value.Missing? || (value.Sample? && 0 <= value.at && value.component in COMPONENTS)
  {
  }

  /** `fromJournal`: for each component the first of its latest admissible cycles, or nothing. */
  method FromJournal(lines: seq<Line>, invocation: string, now: int) returns (scanner: Sample, webhook: Sample)
    ensures Latest(scanner, lines, |lines|, "scanner", invocation, now)
    ensures Latest(webhook, lines, |lines|, "webhook", invocation, now)
  {
    hide CycleOf, Latest;
    scanner, webhook := Missing, Missing;
    NothingYet(lines, "scanner", invocation, now);
    NothingYet(lines, "webhook", invocation, now);
    for n := 0 to |lines|
      invariant Latest(scanner, lines, n, "scanner", invocation, now)
      invariant Latest(webhook, lines, n, "webhook", invocation, now)
      invariant scanner.Missing? || (scanner.Sample? && scanner.at >= 0)
      invariant webhook.Missing? || (webhook.Sample? && webhook.at >= 0)
    {
      LatestNext(scanner, lines, n, "scanner", invocation, now);
      LatestNext(webhook, lines, n, "webhook", invocation, now);
      CycleTime(lines[n], invocation, now);
      var value := CycleOf(lines[n], invocation, now);
      if value.Missing? { continue; }
      if value.component == "scanner" {
        if value.at > (if scanner.Sample? then scanner.at else -1) { scanner := value; }
      } else {
        if value.at > (if webhook.Sample? then webhook.at else -1) { webhook := value; }
      }
    }
  }

  lemma NothingYet(lines: seq<Line>, component: string, invocation: string, now: int)
    ensures Latest(Missing, lines, 0, component, invocation, now)
  {
  }

  /**
   A snapshot made of what the journal gave is always understood: `issues` raises nothing for it,
   at any later time within the snapshot's own age limit.
   */
  lemma JournalIsUnderstood(
      lines: seq<Line>, invocation: string, at: int, active: bool, scanner: Sample, webhook: Sample, now: int)
    requires Latest(scanner, lines, |lines|, "scanner", invocation, at)
    requires Latest(webhook, lines, |lines|, "webhook", invocation, at)
    requires 0 <= at <= SAFE && at <= now <= at + 30000
    ensures Issues(Snapshot(1, at, active, scanner, webhook), now).Some?
  {
    LatestIsWellFormed(scanner, lines, "scanner", invocation, at, now);
    LatestIsWellFormed(webhook, lines, "webhook", invocation, at, now);
    hide Latest;
  }

  lemma LatestIsWellFormed(s: Sample, lines: seq<Line>, component: string, invocation: string, at: int, now: int)
    requires Latest(s, lines, |lines|, component, invocation, at) && at <= now
    ensures SampleIssue(component, s, now).Some?
  {
  }
}

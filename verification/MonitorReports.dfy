/** What the monitor reports, and when: the issues of a snapshot, their confirmation, and the times of the retries. */
module MonitorReports {
  import opened Options
  import opened Text
  import opened Monitor
  import opened MonitorHistory
  import opened MonitorIssues
  import opened MonitorRestart
  import opened MonitorRuns
  import MonitorDrain

  // ---------------------------------------------------------------- the issues of a snapshot

  predicate Failure(code: string) {
    code == "catching_up" || code == "deep_reorg" || code == "scanner_behind" || code == "chain_invalid"
    || code == "rpc_unavailable" || code == "cycle_failed"
  }

  /** A sample that can be believed: none at all, or one that is consistent and not from the future. */
  predicate Believed(component: string, s: Sample, now: int) {
    s.Missing? || (s.Sample? && s.component == component && (if s.ok then s.code == "success" else Failure(s.code))
                   && 0 <= s.at <= 9007199254740991 && s.at <= now + 5000)
  }

  predicate Trusted(s: Snapshot, now: int) {
    s.Snapshot? && s.version == 1 && -9007199254740991 <= s.at <= 9007199254740991
    && now - 30000 <= s.at <= now + 5000
    && Believed("scanner", s.scanner, now) && Believed("webhook", s.webhook, now)
  }

  /** The issue one sample amounts to: nothing heard for three minutes, or the failure it reports. */
  predicate Reports(component: string, s: Sample, now: int, key: string) {
    || (key == component + "_stale" && (s.Missing? || (s.Sample? && now - s.at > 180000)))
    || (s.Sample? && now - s.at <= 180000 && !s.ok && key == component + "_" + s.code)
  }

  lemma CodesAre(code: string)
    ensures code in FAILURE_CODES <==> Failure(code)
  {
    assert FAILURE_CODES[0] == "catching_up" && FAILURE_CODES[1] == "deep_reorg"
           && FAILURE_CODES[2] == "scanner_behind" && FAILURE_CODES[3] == "chain_invalid"
           && FAILURE_CODES[4] == "rpc_unavailable" && FAILURE_CODES[5] == "cycle_failed";
  }

  lemma FailureIsNoSuccess(code: string)
    ensures Failure(code) ==> code != "success" && code != "stale"
  {
    assert |"success"| == 7 && |"stale"| == 5;
  }

  lemma SampleIssueMeans(component: string, s: Sample, now: int)
    ensures SampleIssue(component, s, now).Some? <==> Believed(component, s, now)
    ensures SampleIssue(component, s, now).Some? ==>
              forall key :: key in SampleIssue(component, s, now).value <==> Reports(component, s, now, key)
  {
    if s.Sample? {
      CodesAre(s.code);
      FailureIsNoSuccess(s.code);
    }
    hide Failure, FAILURE_CODES;
  }

  lemma SortedMembers(keys: seq<string>, key: string)
    ensures key in Sort(keys) <==> key in keys
  {
    assert key in Sort(keys) <==> key in multiset(Sort(keys));
    assert key in keys <==> key in multiset(keys);
  }

  /**
   `issues` raises exactly for a snapshot that cannot be trusted; otherwise it reports an inactive
   worker and the issue of each sample, and nothing else.
   */
  lemma IssuesMean(s: Snapshot, now: int)
    ensures Issues(s, now).Some? <==> Trusted(s, now)
    ensures Issues(s, now).Some? ==> forall key ::
              key in Issues(s, now).value
              <==> (key == "worker_inactive" && !s.active)
                   || Reports("scanner", s.scanner, now, key) || Reports("webhook", s.webhook, now, key)
  {
    hide SampleIssue, Believed, Reports, Sort;
    if s.Snapshot? {
      SampleIssueMeans("scanner", s.scanner, now);
      SampleIssueMeans("webhook", s.webhook, now);
      if Issues(s, now).Some? {
        var scanner, webhook := SampleIssue("scanner", s.scanner, now).value,
          SampleIssue("webhook", s.webhook, now).value;
        var worker := if s.active then [] else ["worker_inactive"];
        forall key: string
          ensures key in Issues(s, now).value
                  <==> (key == "worker_inactive" && !s.active)
                       || Reports("scanner", s.scanner, now, key) || Reports("webhook", s.webhook, now, key)
        {
          SortedMembers(worker + scanner + webhook, key);
        }
      }
    }
  }

  lemma SecondLetters(code: string)
    ensures Family("worker_inactive") == 'o'
    ensures Family("scanner" + "_" + code) == 'c' && Family("webhook" + "_" + code) == 'e'
    ensures Family("scanner" + "_stale") == 'c' && Family("webhook" + "_stale") == 'e'
  {
    assert ("scanner" + "_" + code)[1] == 'c' && ("webhook" + "_" + code)[1] == 'e';
  }

  lemma SamePrefix(prefix: string, a: string, b: string)
    ensures prefix + a == prefix + b <==> a == b
  {
    assert (prefix + a)[|prefix|..] == a && (prefix + b)[|prefix|..] == b;
  }

  lemma ReportsApart(component: string, s: Sample, now: int, code: string)
    requires Believed(component, s, now) && Failure(code)
    ensures Reports(component, s, now, component + "_stale")
            <==> s.Missing? || now - s.at > 180000
    ensures Reports(component, s, now, component + "_" + code)
            <==> s.Sample? && now - s.at <= 180000 && !s.ok && s.code == code
  {
    assert component + "_stale" == component + "_" + "stale" by { assert "_stale" == "_" + "stale"; }
    SamePrefix(component + "_", "stale", code);
    FailureIsNoSuccess(code);
    if s.Sample? {
      SamePrefix(component + "_", s.code, code);
      SamePrefix(component + "_", s.code, "stale");
      FailureIsNoSuccess(s.code);
    }
    hide Failure;
  }

  lemma ReportsFamily(component: string, s: Sample, now: int, key: string)
    requires component == "scanner" || component == "webhook"
    requires Believed(component, s, now)
    ensures Reports(component, s, now, key) ==> Family(key) == if component == "scanner" then 'c' else 'e'
  {
    if s.Sample? { SecondLetters(s.code); } else { SecondLetters(""); }
    hide Failure;
  }

  /**
   Each issue has its own reason. In what `issues` reports of a trusted snapshot, the worker is
   inactive exactly if the snapshot says so; a component is stale exactly if its sample is missing or
   more than three minutes old; and a failure is reported exactly if a sample at most that old has it.
   */
  lemma IssuesExactly(s: Snapshot, now: int, code: string)
    requires Trusted(s, now) && Failure(code)
    ensures Issues(s, now).Some?
    ensures var r := Issues(s, now).value;
            && ("worker_inactive" in r <==> !s.active)
            && ("scanner_stale" in r <==> s.scanner.Missing? || now - s.scanner.at > 180000)
            && ("webhook_stale" in r <==> s.webhook.Missing? || now - s.webhook.at > 180000)
            && ("scanner_" + code in r
                <==> s.scanner.Sample? && now - s.scanner.at <= 180000 && !s.scanner.ok && s.scanner.code == code)
            && ("webhook_" + code in r
                <==> s.webhook.Sample? && now - s.webhook.at <= 180000 && !s.webhook.ok && s.webhook.code == code)
  {
    SecondLetters(code);
    assert "scanner_" == "scanner" + "_" && "webhook_" == "webhook" + "_";
    assert "scanner_stale" == "scanner" + "_stale" && "webhook_stale" == "webhook" + "_stale";
    hide *;
    TrustedSamples(s, now);
    ReportsApart("scanner", s.scanner, now, code);
    ReportsApart("webhook", s.webhook, now, code);
    OwnFamily(s, now, "worker_inactive");
    OwnFamily(s, now, "scanner_stale");
    OwnFamily(s, now, "webhook_stale");
    OwnFamily(s, now, "scanner_" + code);
    OwnFamily(s, now, "webhook_" + code);
  }

  lemma TrustedSamples(s: Snapshot, now: int)
    requires Trusted(s, now)
    ensures s.Snapshot? && Believed("scanner", s.scanner, now) && Believed("webhook", s.webhook, now)
    ensures Issues(s, now).Some?
  {
    IssuesMean(s, now);
  }

  /** The second letter of an issue says whose it is. */
  lemma OwnFamily(s: Snapshot, now: int, key: string)
    requires Trusted(s, now) && Issues(s, now).Some?
    ensures var r := Issues(s, now).value;
            && (key == "worker_inactive" ==> (key in r <==> !s.active))
            && (Family(key) == 'c' ==> (key in r <==> Reports("scanner", s.scanner, now, key)))
            && (Family(key) == 'e' ==> (key in r <==> Reports("webhook", s.webhook, now, key)))
  {
    IssuesMean(s, now);
    SecondLetters("");
    ReportsFamily("scanner", s.scanner, now, key);
    ReportsFamily("webhook", s.webhook, now, key);
    hide Issues, Reports, Believed, Family;
  }

  // ---------------------------------------------------------------- confirmation over runs

  predicate AllTicks(ticks: seq<Event>) {
    forall i :: 0 <= i < |ticks| ==> ticks[i].TickEvent?
  }

  function ObservedKeys(ticks: seq<Event>): seq<string>
    requires AllTicks(ticks)
  {
    seq(|ticks|, i requires 0 <= i < |ticks| => Key(Current(ticks[i].ports)))
  }

  lemma TickObserves(w: World, p: Ports, cut: Cut)
    ensures var next := PlayTick(w, p, cut).observed; next == w.observed || next == w.observed + [Key(Current(p))]
  {
    hide Overflows, Observe, Key, Current, Due, Sent, NewEntries;
  }

  /** Ticks store one observation each, or fewer if some died; if none did, all are there in order. */
  lemma {:induction false} TicksObserve(events: seq<Event>, ticks: seq<Event>)
    requires AllTicks(ticks)
    ensures var before, after := Run(BOOT, events).observed, Run(BOOT, events + ticks).observed;
            && |after| <= |before| + |ticks|
            && (|after| == |before| + |ticks| ==> after == before + ObservedKeys(ticks))
    decreases |ticks|
  {
    hide Run, PlayTick, Key, Current;
    if ticks == [] {
      assert events + ticks == events;
    } else {
      var shorter, last := ticks[..|ticks| - 1], ticks[|ticks| - 1];
      TicksObserve(events, shorter);
      assert events + ticks == (events + shorter) + [last];
      RunSnoc(events + shorter, last);
      TickObserves(Run(BOOT, events + shorter), last.ports, last.cut);
      assert ObservedKeys(ticks) == ObservedKeys(shorter) + [Key(Current(last.ports))];
    }
  }

  /** Every tick observes these issues, and stores them. */
  predicate Agree(events: seq<Event>, ticks: seq<Event>, current: seq<string>) {
    && AllTicks(ticks) && |Run(BOOT, events + ticks).observed| == |Run(BOOT, events).observed| + |ticks|
    && forall i :: 0 <= i < |ticks| ==> Current(ticks[i].ports) == current
  }

  lemma AgreeingKeys(events: seq<Event>, ticks: seq<Event>, current: seq<string>)
    requires Agree(events, ticks, current) && ticks != []
    ensures var o := Run(BOOT, events + ticks).observed;
            |o| >= |ticks| && forall i :: |o| - |ticks| <= i < |o| ==> o[i] == Key(current)
  {
    TicksObserve(events, ticks);
    hide Run, Key, Current;
  }

  lemma LastSettles(keys: seq<string>, key: string)
    requires |keys| >= if key == "" then 2 else 3
    requires forall i :: |keys| - (if key == "" then 2 else 3) <= i < |keys| ==> keys[i] == key
    ensures SettledKey(keys) == Some(key)
  {
  }

  lemma AgreeingTicksSettle(events: seq<Event>, ticks: seq<Event>, current: seq<string>)
    requires TimelyRun(events + ticks) && Agree(events, ticks, current) && ValidIssues(current)
    requires |ticks| == if current == [] then 2 else 3
    ensures Stored(Run(BOOT, events + ticks)).confirmed == Some(Key(current))
  {
    hide Run, Key, Current, TimelyRun, Agree, Notices, ValidIssues, ValidIssueText, Split, Sort;
    AgreeingKeys(events, ticks, current);
    KeyRoundTrip(current);
    HysteresisIsHistory(events + ticks);
    LastSettles(Run(BOOT, events + ticks).observed, Key(current));
  }

  lemma LastAlert(events: seq<Event>, current: seq<string>)
    requires TimelyRun(events) && ValidIssues(current) && current != []
    requires Stored(Run(BOOT, events)).confirmed == Some(Key(current))
    ensures var e := Run(BOOT, events).enqueued; e != [] && e[|e| - 1].issues == Sort(current)
  {
    var w := Run(BOOT, events);
    HysteresisIsHistory(events);
    NoticesAlternate(w.observed);
    KeyRoundTrip(current);
    SortValid(current);
    RunIsSound(events);
    SoundEntries(w);
    hide Run, TimelyRun, Notices, SettledKey, Sound, ValidIssues;
    var e := w.enqueued;
    assert Keys(e)[|e| - 1] == Join(e[|e| - 1].issues);
    JoinSortIsKey(current);
    JoinInjective(e[|e| - 1].issues, Sort(current));
  }

  lemma SoundEntries(w: World)
    requires Sound(w)
    ensures forall i :: 0 <= i < |w.enqueued| ==> ValidIssues(w.enqueued[i].issues)
  {
    hide ValidIssues, Fits, HistoryOf, Notices;
  }

  lemma JoinInjective(a: seq<string>, b: seq<string>)
    requires ValidIssues(a) && ValidIssues(b) && Join(a) == Join(b)
    ensures a == b
  {
    StoredText(a);
    StoredText(b);
    hide ValidIssues, Join, Split;
  }

  function SampleOf(s: Snapshot, component: string): Sample
    requires s.Snapshot?
  {
    if component == "scanner" then s.scanner else s.webhook
  }

  /** The tick reads a trusted snapshot whose sample of the component is recent and failed with the code. */
  predicate SeesFailure(p: Ports, component: string, code: string) {
    && Trusted(p.snapshot, p.t0)
    && var sample := SampleOf(p.snapshot, component);
    && sample.Sample? && !sample.ok && sample.code == code && p.t0 - sample.at <= 180000
  }

  lemma FailureIsObserved(p: Ports, component: string, code: string)
    requires component == "scanner" || component == "webhook"
    requires SeesFailure(p, component, code)
    ensures component + "_" + code in Current(p)
  {
    IssuesMean(p.snapshot, p.t0);
    hide Issues, Trusted, Failure;
  }

  /**
   A failure is confirmed and alerted. Whatever happened before and wherever commands were cut, once
   three ticks in a row have stored the same observation, made of samples of a component that failed
   with some code, the confirmed key names that failure, and so does the latest durable alert.
   */
  lemma FailureIsConfirmed(events: seq<Event>, ticks: seq<Event>, component: string, code: string)
    requires component == "scanner" || component == "webhook"
    requires |ticks| == 3 && AllTicks(ticks) && TimelyRun(events + ticks)
    requires Agree(events, ticks, Current(ticks[0].ports)) && SeesFailure(ticks[0].ports, component, code)
    ensures var w := Run(BOOT, events + ticks);
            && Stored(w).confirmed.Some? && component + "_" + code in Split(Stored(w).confirmed.value)
            && w.enqueued != [] && component + "_" + code in w.enqueued[|w.enqueued| - 1].issues
  {
    var current := Current(ticks[0].ports);
    FailureIsObserved(ticks[0].ports, component, code);
    ObservationValid(ticks[0].ports.snapshot, ticks[0].ports.t0);
    hide Run, TimelyRun, Agree, SeesFailure, ValidIssues;
    AgreeingTicksSettle(events, ticks, current);
    LastAlert(events + ticks, current);
    KeyRoundTrip(current);
    SortedMembers(current, component + "_" + code);
  }

  /** The tick reads a trusted snapshot with nothing to report. */
  predicate SeesNothing(p: Ports) {
    && Trusted(p.snapshot, p.t0) && p.snapshot.active
    && p.snapshot.scanner.Sample? && p.snapshot.scanner.ok && p.t0 - p.snapshot.scanner.at <= 180000
    && p.snapshot.webhook.Sample? && p.snapshot.webhook.ok && p.t0 - p.snapshot.webhook.at <= 180000
  }

  lemma NothingIsObserved(p: Ports)
    requires SeesNothing(p)
    ensures Current(p) == []
  {
    IssuesMean(p.snapshot, p.t0);
    var r := Issues(p.snapshot, p.t0).value;
    hide Issues, Trusted;
    FirstIsIn(r);
  }

  lemma FirstIsIn(keys: seq<string>)
    ensures keys == [] || keys[0] in keys
  {
  }

  /** Two ticks in a row that have stored a healthy observation confirm the recovery. */
  lemma RecoveryIsConfirmed(events: seq<Event>, ticks: seq<Event>)
    requires |ticks| == 2 && AllTicks(ticks) && TimelyRun(events + ticks)
    requires |Run(BOOT, events + ticks).observed| == |Run(BOOT, events).observed| + 2
    requires SeesNothing(ticks[0].ports) && SeesNothing(ticks[1].ports)
    ensures Stored(Run(BOOT, events + ticks)).confirmed == Some("")
  {
    hide Run, SeesNothing, Current;
    NothingIsObserved(ticks[0].ports);
    NothingIsObserved(ticks[1].ports);
    assert Agree(events, ticks, []);
    hide *;
    NothingIsValid();
    AgreeingTicksSettle(events, ticks, []);
  }

  lemma NothingIsValid()
    ensures ValidIssues([]) && Key([]) == ""
  {
    KeyRoundTrip([]);
  }

  // ---------------------------------------------------------------- delivery attempts

  /** The wait after the first, second, ... failure in a row, in milliseconds. */
  function Delay(failures: nat): nat {
    if failures <= 1 then 20000
    else if failures == 2 then 40000
    else if failures == 3 then 80000
    else if failures == 4 then 160000
    else 300000
  }

  lemma BackOffIs(failures: nat)
    requires 1 <= failures
    ensures BackOff(Min(failures, 5)) == Delay(failures)
  {
    assert Pow2(1) == 2 && Pow2(2) == 4 && Pow2(3) == 8 && Pow2(4) == 16 && Pow2(5) == 32;
  }

  /** Complete ticks of which each contacts the receiver as soon as it may, and in vain. */
  predicate Refused(s: State, ports: seq<Ports>) {
    && (forall i :: 0 <= i < |ports| ==> ports[i].fate != Acknowledged)
    && (ports != [] ==> ports[0].t2 >= s.nextAttemptAt.GetOr(0))
    && (forall i :: 0 < i < |ports| ==> ports[i].t2 >= ports[i - 1].t3 + Delay(i))
  }

  lemma RefusedTick(s: State, p: Ports)
    requires Tick(s, p).Some? && Queue(s) != [] && p.fate != Acknowledged && p.t2 >= s.nextAttemptAt.GetOr(0)
    ensures var next := Tick(s, p).value;
            && Queue(next) != [] && Queue(next)[0] == Queue(s)[0]
            && next.failures == Some(Min(s.failures.GetOr(0) + 1, 5))
            && next.nextAttemptAt == Some(p.t3 + BackOff(Min(s.failures.GetOr(0) + 1, 5)))
  {
    hide Key, Current, Sort, BackOff;
  }

  /** An acknowledged delivery takes the head off the queue and starts the schedule afresh. */
  lemma AcknowledgedResets(s: State, p: Ports)
    requires Tick(s, p).Some? && p.fate == Acknowledged && Queue(s) != [] && p.t2 >= s.nextAttemptAt.GetOr(0)
    ensures var next := Tick(s, p).value;
            && next.failures == Some(0) && next.nextAttemptAt == Some(0)
            && Queue(next) ==
               Queue(s)[1..] + if Notifies(s, Key(Current(p)))
                               then [Entry("pay-" + Decimal(p.t1), Sort(Current(p)), p.t1)] else []
  {
    hide Key, Current, Sort, Notifies, Decimal, Overflows;
    ObserveQueue(s, Current(p), p.t1);
    MonitorDrain.ObserveKeepsAttempt(s, Current(p), p.t1);
    hide Observe;
  }

  /**
   The retry schedule. After the k-th refused delivery in a row, counted from the last success or
   from the start, the next attempt is due 20, 40, 80 or 160 seconds later, and 300 seconds from the
   fifth on; the notification that is waiting stays first.
   */
  lemma {:induction false} RetrySchedule(s: State, ports: seq<Ports>)
    requires ports != [] && Queue(s) != [] && s.failures.GetOr(0) == 0
    requires Refused(s, ports) && MonitorDrain.Ticks(s, ports).Some?
    ensures var end := MonitorDrain.Ticks(s, ports).value;
            && end.nextAttemptAt == Some(ports[|ports| - 1].t3 + Delay(|ports|))
            && end.failures == Some(Min(|ports|, 5))
            && Queue(end) != [] && Queue(end)[0] == Queue(s)[0]
    decreases |ports|
  {
    hide Tick, BackOff, Delay;
    var shorter, last := ports[..|ports| - 1], ports[|ports| - 1];
    assert ports == shorter + [last];
    TicksSnoc(s, shorter, last);
    BackOffIs(|ports|);
    if shorter == [] {
      RefusedTick(s, last);
    } else {
      RetrySchedule(s, shorter);
      RefusedTick(MonitorDrain.Ticks(s, shorter).value, last);
    }
  }

  lemma {:induction false} TicksSnoc(s: State, ports: seq<Ports>, last: Ports)
    ensures MonitorDrain.Ticks(s, ports + [last])
            == if MonitorDrain.Ticks(s, ports).None? then None else Tick(MonitorDrain.Ticks(s, ports).value, last)
    decreases |ports|
  {
    hide Tick;
    if ports == [] {
      assert ports + [last] == [last] && [last][1..] == [];
    } else {
      assert (ports + [last])[0] == ports[0] && (ports + [last])[1..] == ports[1..] + [last];
      if Tick(s, ports[0]).Some? { TicksSnoc(Tick(s, ports[0]).value, ports[1..], last); }
    }
  }

  /**
   When the receiver is contacted: a live tick that gets past its first save sends the head of the
   queue, new alert included, exactly when there is one and the time of the next attempt has come.
   A new alert carries the time of the tick and the issues it observed.
   */
  lemma ContactsExactly(w: World, p: Ports, cut: Cut)
    requires w.alive && !Overflows(w.mem, Key(Current(p))) && cut != BeforeSave
    ensures var next := PlayTick(w, p, cut);
            var alert := Entry("pay-" + Decimal(p.t1), Sort(Current(p)), p.t1);
            var queue := Queue(w.mem) + if Notifies(w.mem, Key(Current(p))) then [alert] else [];
            && next.enqueued == w.enqueued + (if Notifies(w.mem, Key(Current(p))) then [alert] else [])
            && next.received ==
               if queue != [] && p.t2 >= w.mem.nextAttemptAt.GetOr(0) && cut != BeforeSend && p.fate != Lost
               then w.received + [queue[0]] else w.received
  {
    hide Key, Current, Sort, Notifies, Decimal, Overflows;
    ObserveQueue(w.mem, Current(p), p.t1);
    MonitorDrain.ObserveKeepsAttempt(w.mem, Current(p), p.t1);
    hide Observe;
  }
}

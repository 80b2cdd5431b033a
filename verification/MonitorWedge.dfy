/** When a tick throws on a full queue, that this does happen, and exactly when the monitor gets over it. */
module MonitorWedge {
  import opened Options
  import opened Text
  import opened Monitor
  import opened MonitorDrain
  import opened MonitorHistory
  import opened MonitorIssues
  import opened MonitorRestart
  import opened MonitorRuns

  // ---------------------------------------------------------------- what is queued

  /** A tick that takes the head off the stored queue: sent, acknowledged and saved. */
  predicate Removes(w: World, e: Event) {
    && e.TickEvent? && e.cut == NoCut && w.alive && e.ports.fate == Acknowledged
    && !Overflows(w.mem, Key(Current(e.ports)))
    && Due(Observe(w.mem, Current(e.ports), e.ports.t1), e.ports.t2)
  }

  /** How many notifications have been delivered for good along a run. */
  function Removed(events: seq<Event>): nat
    decreases |events|
  {
    if events == [] then 0
    else
      var before := events[..|events| - 1];
      Removed(before) + if Removes(Run(BOOT, before), events[|events| - 1]) then 1 else 0
  }

  lemma TickBalance(w: World, p: Ports, cut: Cut)
    requires w.alive ==> w.mem == Stored(w)
    ensures var next := PlayTick(w, p, cut);
            && (next.alive ==> next.mem == Stored(next))
            && |Queue(Stored(next))| + (if Removes(w, TickEvent(p, cut)) then 1 else 0) + |w.enqueued|
               == |next.enqueued| + |Queue(Stored(w))|
  {
    hide Key, Current, Notifies, Overflows, Observe, Sent;
    var key := Key(Current(p));
    if w.alive && !Overflows(w.mem, key) && cut != BeforeSave {
      var s1 := Observe(w.mem, Current(p), p.t1);
      ObserveStepsCore(w.mem, Current(p), p.t1);
      assert |NewEntries(w.mem, s1)| == |Queue(s1)| - |Queue(w.mem)|;
      if Due(s1, p.t2) { SentLength(s1, p.fate == Acknowledged, p.t3); }
    }
  }

  lemma SentLength(s: State, acked: bool, now: nat)
    requires Queue(s) != []
    ensures |Queue(Sent(s, acked, now))| == |Queue(s)| - if acked then 1 else 0
  {
  }

  /** What is stored in the queue is what was notified and not delivered for good. */
  lemma {:induction false} Balance(events: seq<Event>)
    ensures var w := Run(BOOT, events);
            (w.alive ==> w.mem == Stored(w)) && |Queue(Stored(w))| + Removed(events) == |w.enqueued|
    decreases |events|
  {
    if events != [] {
      var before, e := events[..|events| - 1], events[|events| - 1];
      Balance(before);
      hide Queue, Removes, PlayTick, ValidateState, ToJson;
      if e.TickEvent? { TickBalance(Run(BOOT, before), e.ports, e.cut); } else { NotRemoved(Run(BOOT, before), e); }
    }
  }

  lemma NotRemoved(w: World, e: Event)
    requires e.StartEvent?
    ensures !Removes(w, e)
  {
  }

  lemma NotifiesByHistory(s: State, keys: seq<string>, key: string)
    requires HistoryOf(s, keys)
    ensures Notifies(s, key) <==> Notice(keys, key)
  {
    CountedRunLength(s, keys, key);
    SettlesByRunLength(keys + [key]);
    assert (keys + [key])[|keys + [key]| - 1] == key;
  }

  /**
   When a tick throws. After any run, a tick throws exactly if its observation is one to be reported
   and 32 more reports have been made along the history than were delivered for good.
   */
  lemma ThrowsExactly(events: seq<Event>, p: Ports)
    requires TimelyRun(events) && Run(BOOT, events).alive
    ensures var w := Run(BOOT, events);
            Tick(w.mem, p).None?
            <==> Notice(w.observed, Key(Current(p))) && |Notices(w.observed)| == Removed(events) + 32
  {
    RunIsSound(events);
    Balance(events);
    var w := Run(BOOT, events);
    hide Run, Removed, Notices, Notice, SettledKey, Settles, Current, Key, Notifies, Observe, EntryFits, Removed;
    NotifiesByHistory(w.mem, w.observed, Key(Current(p)));
    assert |Keys(w.enqueued)| == |w.enqueued|;
  }

  // ---------------------------------------------------------------- it happens

  const OUTAGE := "snapshot_unavailable"

  function Healthy(at: nat): Snapshot {
    Snapshot(1, at, true, Sample("scanner", true, "success", at), Sample("webhook", true, "success", at))
  }

  /** Ticks with a receiver that never accepts: three without a snapshot, two with a healthy one, and so on. */
  function TickAt(n: nat): Event {
    TickEvent(Ports(if n % 5 < 3 then Unreadable else Healthy(n + 1), n + 1, n + 1, n + 1, n + 1, Lost), NoCut)
  }

  function Outages(n: nat): seq<Event> {
    if n == 0 then [StartEvent(0)] else Outages(n - 1) + [TickAt(n - 1)]
  }

  function KeyAt(n: nat): string {
    if n % 5 < 3 then OUTAGE else ""
  }

  lemma OutageKeys(n: nat)
    requires n <= SAFE - 1
    ensures Key(Current(TickAt(n).ports)) == KeyAt(n)
  {
    if n % 5 < 3 {
      assert Sort([]) == [];
      assert [OUTAGE][1..] == [];
      assert Sort([OUTAGE]) == [OUTAGE];
    } else {
      var s := Healthy(n + 1);
      var none: seq<string> := [];
      assert SampleIssue("scanner", s.scanner, n + 1) == Some(none)
             && SampleIssue("webhook", s.webhook, n + 1) == Some(none);
      assert Sort(none + none + none) == [];
      assert Current(TickAt(n).ports) == [];
    }
  }

  /** The hysteresis fields after `n` such ticks. */
  function CoreAt(n: nat): Core {
    if n == 0 then Core(None, 0, None, false)
    else if n % 5 == 0 then Core(Some(""), 2, Some(""), true)
    else if n % 5 == 4 then Core(Some(""), 1, Some(OUTAGE), true)
    else if n % 5 == 3 then Core(Some(OUTAGE), 3, Some(OUTAGE), true)
    else Core(Some(OUTAGE), n % 5, if n < 5 then None else Some(""), n >= 5)
  }

  function QueuedAt(n: nat): nat {
    2 * (n / 5) + if n % 5 >= 3 then 1 else 0
  }

  lemma CoreAfter(n: nat)
    ensures CoreAt(n + 1) == Step(CoreAt(n), KeyAt(n))
    ensures QueuedAt(n + 1) == QueuedAt(n) + if Notifying(CoreAt(n), KeyAt(n)) then 1 else 0
    ensures Notifying(CoreAt(n), KeyAt(n)) <==> n % 5 == 2 || n % 5 == 4
  {
    assert OUTAGE != "";
  }

  lemma LostTick(w: World, p: Ports)
    requires w.alive && w.mem == Stored(w) && p.fate == Lost && !Overflows(w.mem, Key(Current(p)))
    ensures var next := PlayTick(w, p, NoCut);
            && next.alive && next.mem == Stored(next) && next.clock == p.t3 && next.received == w.received
            && CoreOf(next.mem) == Step(CoreOf(w.mem), Key(Current(p)))
            && |Queue(next.mem)| == |Queue(w.mem)| + if Notifying(CoreOf(w.mem), Key(Current(p))) then 1 else 0
  {
    hide Key, Current, Overflows, Observe, Step, Notifying, Notifies;
    var s1 := Observe(w.mem, Current(p), p.t1);
    ObserveStepsCore(w.mem, Current(p), p.t1);
    if Due(s1, p.t2) { SentLength(s1, false, p.t3); }
  }

  lemma NotifyingMeans(s: State, key: string)
    ensures Notifies(s, key) == Notifying(CoreOf(s), key)
  {
  }

  /** Where the run stands: `n` ticks done, nothing delivered, the counters and the queue as computed. */
  predicate Stands(w: World, n: nat) {
    && w.alive && w.mem == Stored(w) && w.clock == n && w.received == []
    && CoreOf(w.mem) == CoreAt(n) && |Queue(w.mem)| == QueuedAt(n)
  }

  lemma OutageTick(w: World, n: nat)
    requires n <= 81 && Stands(w, n)
    ensures Stands(Play(w, TickAt(n)), n + 1)
  {
    OutageKeys(n);
    CoreAfter(n);
    NotifyingMeans(w.mem, KeyAt(n));
    var p := TickAt(n).ports;
    assert p.fate == Lost && p.t3 == n + 1 && TickAt(n).cut == NoCut;
    assert !Overflows(w.mem, KeyAt(n));
    LostTick(w, p);
    hide Current, Key, Stored, Overflows, CoreAt, Step, Notifying, PlayTick, CoreOf, Queue;
    assert Play(w, TickAt(n)) == PlayTick(w, p, NoCut);
  }

  lemma StartStands()
    ensures Outages(0) == [StartEvent(0)] && Stands(Run(BOOT, Outages(0)), 0)
  {
    assert Outages(0)[..0] == [];
    assert Run(BOOT, []) == BOOT;
  }

  lemma OutagesNext(n: nat)
    requires n > 0
    ensures Outages(n) == Outages(n - 1) + [TickAt(n - 1)]
  {
  }

  lemma {:induction false} AfterOutages(n: nat)
    requires n <= 82
    ensures Stands(Run(BOOT, Outages(n)), n)
  {
    hide *;
    if n == 0 {
      StartStands();
    } else {
      AfterOutages(n - 1);
      OutagesNext(n);
      OutageTick(Run(BOOT, Outages(n - 1)), n - 1);
      RunSnoc(Outages(n - 1), TickAt(n - 1));
    }
  }

  lemma TickIsLater(w: World, n: nat)
    requires n <= 81 && Stands(w, n)
    ensures StrictlyTimely(w.clock, TickAt(n))
  {
    hide CoreAt, CoreOf, Stored;
  }

  lemma StartIsTimely()
    ensures StrictlyTimely(Run(BOOT, []).clock, StartEvent(0))
  {
    assert Run(BOOT, []) == BOOT;
  }

  lemma {:induction false} OutagesAreTimely(n: nat, i: nat)
    requires n <= 82 && i < |Outages(n)|
    ensures StrictlyTimely(Run(BOOT, Outages(n)[..i]).clock, Outages(n)[i])
  {
    hide *;
    if n == 0 {
      StartStands();
      assert Outages(0)[..0] == [];
      StartIsTimely();
    } else {
      OutagesNext(n);
      var before := Outages(n - 1);
      if i < |before| {
        OutagesAreTimely(n - 1, i);
        assert Outages(n)[..i] == before[..i];
      } else {
        assert Outages(n)[..i] == before;
        AfterOutages(n - 1);
        TickIsLater(Run(BOOT, before), n - 1);
      }
    }
  }

  lemma OutagesAreStrict(n: nat)
    requires n <= 82
    ensures StrictRun(Outages(n))
  {
    hide Outages, Run, StrictlyTimely;
    forall i | 0 <= i < |Outages(n)|
      ensures StrictlyTimely(Run(BOOT, Outages(n)[..i]).clock, Outages(n)[i])
    {
      OutagesAreTimely(n, i);
    }
  }

  // ---------------------------------------------------------------- the wedge

  /** 32 entries are stored, and one more observation of this key would be reported. */
  predicate Wedged(w: World, key: string) {
    |Queue(Stored(w))| == 32 && Notifies(Stored(w), key) && (w.alive ==> w.mem == Stored(w))
  }

  /** It happens: 16 outages, recoveries and a 17th outage, with a receiver that never accepts. */
  lemma SomeRunIsWedged()
    ensures StrictRun(Outages(82)) && Wedged(Run(BOOT, Outages(82)), OUTAGE)
  {
    hide *;
    OutagesAreStrict(82);
    AfterOutages(82);
    StandsWedged(Run(BOOT, Outages(82)));
  }

  lemma StandsWedged(w: World)
    requires Stands(w, 82)
    ensures Wedged(w, OUTAGE)
  {
    NotifyingMeans(w.mem, OUTAGE);
    assert CoreAt(82) == Core(Some(OUTAGE), 2, Some(""), true) && OUTAGE != "";
  }

  /** A live tick that observes something else and gets to save it. */
  predicate Escapes(w: World, e: Event, key: string) {
    w.alive && e.TickEvent? && e.cut != BeforeSave && Key(Current(e.ports)) != key
  }

  lemma OnlyTheCandidateNotifies(s: State, key: string)
    requires Notifies(s, key)
    ensures s.candidate == Some(key)
    ensures forall other :: other != key ==> !Notifies(s, other)
  {
  }

  /** Whatever does not escape leaves the wedge as it is: nothing is stored, nothing is sent. */
  lemma StaysWedged(w: World, e: Event, key: string)
    requires Wedged(w, key) && !Escapes(w, e, key)
    ensures var next := Play(w, e); Wedged(next, key) && next.disk == w.disk && next.received == w.received
  {
    hide ValidateState, ToJson, Notifies, Observe, Sent, Key, Current;
  }

  lemma EscapeIsStored(w: World, e: Event, key: string)
    requires Wedged(w, key) && Escapes(w, e, key)
    ensures Play(w, e).disk != w.disk
  {
    OnlyTheCandidateNotifies(w.mem, key);
    var p := e.ports;
    var other := Key(Current(p));
    hide Notifies, Key, Current;
    var s1 := Observe(w.mem, Current(p), p.t1);
    assert s1.candidate == Some(other);
  }

  /** The disk at some point of a run differs from the disk it started with. */
  predicate ChangedAt(w: World, events: seq<Event>, k: nat)
    requires k <= |events|
  {
    Run(w, events[..k]).disk != w.disk
  }

  predicate EscapesAt(w: World, events: seq<Event>, k: nat, key: string)
    requires k < |events|
  {
    Escapes(Run(w, events[..k]), events[k], key)
  }

  lemma RunNext(w: World, events: seq<Event>, k: nat)
    requires k < |events|
    ensures Run(w, events[..k + 1]) == Play(Run(w, events[..k]), events[k])
  {
    assert events[..k + 1][..k] == events[..k];
  }

  lemma {:induction false} NoEscapeYet(w: World, events: seq<Event>, n: nat, key: string)
    requires Wedged(w, key) && n <= |events|
    requires forall k :: 0 <= k < n ==> !EscapesAt(w, events, k, key)
    ensures var end := Run(w, events[..n]); Wedged(end, key) && end.disk == w.disk && end.received == w.received
    decreases n
  {
    if n == 0 {
      assert Run(w, events[..0]) == w;
    } else {
      NoEscapeYet(w, events, n - 1, key);
      RunNext(w, events, n - 1);
      assert !EscapesAt(w, events, n - 1, key);
      StaysWedged(Run(w, events[..n - 1]), events[n - 1], key);
    }
  }

  lemma {:induction false} FirstEscape(w: World, events: seq<Event>, n: nat, key: string) returns (k: nat)
    requires n < |events| && EscapesAt(w, events, n, key)
    ensures k <= n && EscapesAt(w, events, k, key) && forall j :: 0 <= j < k ==> !EscapesAt(w, events, j, key)
    decreases n
  {
    if j: nat :| j < n && EscapesAt(w, events, j, key) {
      k := FirstEscape(w, events, j, key);
    } else {
      k := n;
    }
  }

  /**
   A full queue stops the monitor until something else is observed. Along any further run, restarts
   included and however ready the receiver is, what is stored changes exactly if some live tick
   observes another key and gets to its save; until then nothing is sent either, because the throw
   comes before the send that would make room.
   */
  lemma WedgeEndsExactly(w: World, events: seq<Event>, key: string)
    requires Wedged(w, key)
    ensures (exists k :: 0 <= k <= |events| && ChangedAt(w, events, k))
            <==> (exists k :: 0 <= k < |events| && EscapesAt(w, events, k, key))
    ensures (forall k :: 0 <= k < |events| ==> !EscapesAt(w, events, k, key)) ==> Run(w, events).received == w.received
  {
    hide Wedged, Escapes, Run;
    if n :| 0 <= n < |events| && EscapesAt(w, events, n, key) {
      var k := FirstEscape(w, events, n, key);
      NoEscapeYet(w, events, k, key);
      EscapeIsStored(Run(w, events[..k]), events[k], key);
      RunNext(w, events, k);
      assert ChangedAt(w, events, k + 1);
    } else {
      forall k | 0 <= k <= |events|
        ensures !ChangedAt(w, events, k)
      {
        NoEscapeYet(w, events, k, key);
      }
      NoEscapeYet(w, events, |events|, key);
      assert events[..|events|] == events;
    }
  }
}

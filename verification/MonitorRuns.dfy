/** Whole lives of the monitor: ticks cut anywhere, ambiguous sends, restarts from disk. */
module MonitorRuns {
  import opened Options
  import opened Text
  import opened Monitor
  import opened MonitorHistory
  import opened MonitorIssues
  import opened MonitorRestart

  // ---------------------------------------------------------------- clocks

  /** The clock readings of one event, none earlier than the last reading before it. */
  predicate Timely(clock: nat, e: Event) {
    match e
    case TickEvent(p, _) => clock <= p.t0 <= p.t1 <= p.t2 <= p.t3 <= DATE_MAX
    case StartEvent(now) => clock <= now <= DATE_MAX
  }

  /** Moreover every tick reads a later time than anything before it. */
  predicate StrictlyTimely(clock: nat, e: Event) {
    Timely(clock, e) && (e.TickEvent? ==> clock < e.ports.t0)
  }

  predicate TimelyRun(events: seq<Event>) {
    forall i :: 0 <= i < |events| ==> Timely(Run(BOOT, events[..i]).clock, events[i])
  }

  predicate StrictRun(events: seq<Event>) {
    forall i :: 0 <= i < |events| ==> StrictlyTimely(Run(BOOT, events[..i]).clock, events[i])
  }

  lemma RunSnoc(events: seq<Event>, e: Event)
    ensures Run(BOOT, events + [e]) == Play(Run(BOOT, events), e)
  {
    assert (events + [e])[..|events|] == events;
  }

  // ---------------------------------------------------------------- what every event keeps

  function Keys(entries: seq<Entry>): seq<string> {
    seq(|entries|, i requires 0 <= i < |entries| => Join(entries[i].issues))
  }

  /** What holds between events, whatever was cut and however the clock stood still. */
  predicate Sound(w: World) {
    && w.clock <= DATE_MAX
    && (w.alive ==> w.mem == Stored(w))
    && Fits(Stored(w), w.clock)
    && HistoryOf(Stored(w), w.observed)
    && Keys(w.enqueued) == Notices(w.observed)
    && (forall i :: 0 <= i < |w.enqueued| ==> EntryFits(w.enqueued[i], w.clock))
    && |Queue(Stored(w))| <= |w.enqueued|
    && Queue(Stored(w)) == w.enqueued[|w.enqueued| - |Queue(Stored(w))|..]
  }

  lemma BootSound()
    ensures Sound(BOOT)
  {
    assert Keys([]) == [];
  }

  /** The first half of a tick, up to the first save. */
  lemma SavedSound(w: World, p: Ports, s1: State)
    requires Sound(w) && w.alive
    requires w.clock <= p.t1 <= p.t3 <= DATE_MAX
    requires !Overflows(w.mem, Key(Current(p)))
    requires s1 == Observe(w.mem, Current(p), p.t1)
    ensures Sound(Saved(w.(clock := p.t3), s1, Key(Current(p))))
    ensures NewEntries(w.mem, s1)
            == if Notifies(w.mem, Key(Current(p))) then [Entry(Id(p.t1), Sort(Current(p)), p.t1)] else []
  {
    hide ValidIssues, Key, Sort, Settles, SettledKey, Notices, Notice, HistoryOf, Id, Current;
    var current := Current(p);
    var key := Key(current);
    var after := Saved(w.(clock := p.t3), s1, key);
    CurrentValid(p);
    FitsLater(w.mem, w.clock, p.t1);
    ObserveFits(w.mem, current, p.t1);
    FitsLater(s1, p.t1, p.t3);
    ObserveFollowsHistory(w.mem, w.observed, current, p.t1);
    ObserveQueue(w.mem, current, p.t1);
    if Notifies(w.mem, key) {
      var e := Entry(Id(p.t1), Sort(current), p.t1);
      NewEntryFits(current, p.t1, p.t3);
      assert Keys(w.enqueued + [e]) == Keys(w.enqueued) + [Join(e.issues)];
      JoinSortIsKey(current);
    } else {
      assert w.enqueued + [] == w.enqueued;
    }
    EntriesFitLater(w.enqueued, w.clock, p.t3);
  }

  lemma CurrentValid(p: Ports)
    ensures ValidIssues(Current(p))
  {
    ObservationValid(p.snapshot, p.t0);
  }

  lemma JoinSortIsKey(current: seq<string>)
    ensures Join(Sort(current)) == Key(current)
  {
  }

  lemma NewEntryFits(current: seq<string>, now: nat, clock: nat)
    requires ValidIssues(current) && now <= clock
    ensures EntryFits(Entry(Id(now), Sort(current), now), clock)
  {
    SortValid(current);
  }

  lemma EntriesFitLater(entries: seq<Entry>, clock: nat, later: nat)
    requires clock <= later && forall i :: 0 <= i < |entries| ==> EntryFits(entries[i], clock)
    ensures forall i :: 0 <= i < |entries| ==> EntryFits(entries[i], later)
  {
    hide ValidIssues, Id;
  }

  lemma ObserveQueue(s: State, current: seq<string>, now: nat)
    requires !Overflows(s, Key(current))
    ensures Queue(Observe(s, current, now)) ==
            Queue(s) + (if Notifies(s, Key(current)) then [Entry(Id(now), Sort(current), now)] else [])
  {
  }

  /** The second half: the stored queue loses exactly its head, or nothing. */
  lemma SentSound(w: World, acked: bool, s2: State)
    requires Sound(w) && w.alive && Queue(w.mem) != []
    requires s2 == Sent(w.mem, acked, w.clock)
    ensures Sound(w.(mem := s2, disk := Some(s2)))
  {
    hide ValidIssues, Settles, SettledKey, Notices, EntryFits;
    SentFits(w.mem, acked, w.clock);
  }

  lemma StopSound(w: World)
    requires Sound(w)
    ensures Sound(Dead(w))
  {
    hide HistoryOf, Notices, EntryFits, Fits;
  }

  lemma LaterSound(w: World, clock: nat)
    requires Sound(w) && w.clock <= clock <= DATE_MAX
    ensures Sound(w.(clock := clock))
  {
    hide HistoryOf, Notices;
    FitsLater(Stored(w), w.clock, clock);
    EntriesFitLater(w.enqueued, w.clock, clock);
  }

  lemma ReceivedSound(w: World, received: seq<Entry>)
    requires Sound(w)
    ensures Sound(w.(received := received))
  {
    hide HistoryOf, Notices, EntryFits, Fits;
  }

  lemma TickKeepsSound(w: World, p: Ports, cut: Cut)
    requires Sound(w) && Timely(w.clock, TickEvent(p, cut))
    ensures Sound(PlayTick(w, p, cut))
  {
    hide Sound, Observe, Overflows, Sent, Saved, Key, Current;
    LaterSound(w, p.t3);
    StopSound(w.(clock := p.t3));
    if w.alive && !Overflows(w.mem, Key(Current(p))) && cut != BeforeSave {
      var s1 := Observe(w.mem, Current(p), p.t1);
      var w1 := Saved(w.(clock := p.t3), s1, Key(Current(p)));
      SavedSound(w, p, s1);
      SavedFacts(w, s1, p);
      StopSound(w1);
      if Due(s1, p.t2) && cut != BeforeSend {
        var received := if p.fate != Lost then w1.received + [Queue(s1)[0]] else w1.received;
        ReceivedSound(w1, received);
        var w2 := w1.(received := received);
        StopSound(w2);
        SentSound(w2, p.fate == Acknowledged, Sent(s1, p.fate == Acknowledged, p.t3));
      }
    }
  }

  lemma SavedFacts(w: World, s1: State, p: Ports)
    ensures var w1 := Saved(w.(clock := p.t3), s1, Key(Current(p)));
            w1.mem == s1 && w1.clock == p.t3 && w1.alive == w.alive && w1.received == w.received && Stored(w1) == s1
  {
  }

  /** A start on a state this monitor saved never fails validation. */
  lemma StartKeepsSound(w: World, now: nat)
    requires Sound(w) && Timely(w.clock, StartEvent(now))
    ensures Sound(PlayStart(w, now)) && PlayStart(w, now).alive
  {
    hide HistoryOf, Notices, ValidateState, Fits;
    LaterSound(w, now);
    FitsValidates(Stored(w), w.clock, now);
  }

  lemma PlayKeepsSound(w: World, e: Event)
    requires Sound(w) && Timely(w.clock, e)
    ensures Sound(Play(w, e))
  {
    match e
    case TickEvent(p, cut) => TickKeepsSound(w, p, cut);
    case StartEvent(now) => StartKeepsSound(w, now);
  }

  lemma {:induction false} RunIsSound(events: seq<Event>)
    requires TimelyRun(events)
    ensures Sound(Run(BOOT, events))
    decreases |events|
  {
    hide Sound, Play;
    if events == [] {
      BootSound();
    } else {
      var before, last := events[..|events| - 1], events[|events| - 1];
      assert forall i :: 0 <= i < |before| ==> before[..i] == events[..i];
      RunIsSound(before);
      PlayKeepsSound(Run(BOOT, before), last);
    }
  }

  // ---------------------------------------------------------------- main results: history and restart

  /**
   Hysteresis is history. After any run, cut and restarted anywhere, the confirmed key is the key of
   the latest stored observation that agreed with the two before it (one, if empty), and the
   notifications made durable are exactly the reports that definition gives along the history.
   */
  lemma HysteresisIsHistory(events: seq<Event>)
    requires TimelyRun(events)
    ensures var w := Run(BOOT, events);
            && Stored(w).confirmed == SettledKey(w.observed)
            && Keys(w.enqueued) == Notices(w.observed)
  {
    hide Settles, Notices, SettledKey, Fits, EntryFits, Run;
    RunIsSound(events);
  }

  /** Durable notifications alternate, and the first one ever is an alert, never a recovery. */
  lemma NotificationsAlternate(events: seq<Event>)
    requires TimelyRun(events)
    ensures var e := Run(BOOT, events).enqueued;
            && (e != [] ==> e[0].issues != [])
            && forall i :: 0 <= i < |e| - 1 ==> e[i].issues != e[i + 1].issues
  {
    hide Settles, SettledKey, Fits, EntryFits, Run, HistoryOf, Notices;
    RunIsSound(events);
    var w := Run(BOOT, events);
    NoticesAlternate(w.observed);
    var e := w.enqueued;
    if e != [] { assert Keys(e)[0] == Join(e[0].issues) == Notices(w.observed)[0]; }
    forall i | 0 <= i < |e| - 1
      ensures e[i].issues != e[i + 1].issues
    {
      assert Keys(e)[i] != Keys(e)[i + 1];
    }
  }

  /**
   Restart closure. Whatever was cut, the file on disk validates at any later time, parses back to
   the very state that was saved, and is small enough to be read; so a start always succeeds.
   */
  lemma RestartClosure(events: seq<Event>, now: nat)
    requires TimelyRun(events)
    requires Run(BOOT, events).clock <= now <= DATE_MAX
    ensures var w := Run(BOOT, events);
            && PlayStart(w, now).alive && PlayStart(w, now).mem == Stored(w)
            && (w.disk.Some? ==>
                  && ValidateState(ToJson(w.disk.value), now)
                  && FromJson(ToJson(w.disk.value)) == w.disk.value
                  && |Stringify(w.disk.value)| <= 16384)
  {
    RunIsSound(events);
    var w := Run(BOOT, events);
    hide *;
    RestartOfSound(w, now);
  }

  /**
   When a set-back clock stops the monitor. After any run that has stored a file, a start at any
   time, earlier ones included, succeeds exactly when the next attempt is at most six minutes ahead
   of it and every queued notification at most five seconds.
   */
  lemma RestartExactly(events: seq<Event>, now: nat)
    requires TimelyRun(events) && Run(BOOT, events).disk.Some?
    ensures var w := Run(BOOT, events);
            PlayStart(w, now).alive
            <==> w.disk.value.nextAttemptAt.GetOr(0) <= now + 360000
                 && forall i :: 0 <= i < |Queue(w.disk.value)| ==> Queue(w.disk.value)[i].at <= now + 5000
  {
    RunIsSound(events);
    var w := Run(BOOT, events);
    hide Run, TimelyRun, HistoryOf, Notices, ValidateState, Fits, ToJson;
    FitsValidates(Stored(w), w.clock, now);
  }

  lemma RestartOfSound(w: World, now: nat)
    requires Sound(w) && w.clock <= now <= DATE_MAX
    ensures PlayStart(w, now).alive && PlayStart(w, now).mem == Stored(w)
    ensures w.disk.Some? ==>
              && ValidateState(ToJson(w.disk.value), now)
              && FromJson(ToJson(w.disk.value)) == w.disk.value
              && |Stringify(w.disk.value)| <= 16384
  {
    hide HistoryOf, Notices, ValidateState, Fits, FromJson, ToJson, Stringify;
    FitsValidates(Stored(w), w.clock, now);
    StateRoundTrip(Stored(w));
    StateLength(Stored(w), w.clock);
  }

  // ---------------------------------------------------------------- delivery

  function Ids(entries: seq<Entry>): seq<string> {
    seq(|entries|, i requires 0 <= i < |entries| => entries[i].id)
  }

  /** Adjacent repeats of one id removed. */
  function Dedup(ids: seq<string>): seq<string> {
    if |ids| <= 1 then ids
    else
      var before, last := ids[..|ids| - 1], ids[|ids| - 1];
      if last == before[|before| - 1] then Dedup(before) else Dedup(before) + [last]
  }

  lemma {:induction false} DedupKeepsEnds(ids: seq<string>)
    requires ids != []
    ensures Dedup(ids) != [] && Dedup(ids)[|Dedup(ids)| - 1] == ids[|ids| - 1]
    ensures forall x :: x in Dedup(ids) ==> x in ids
    decreases |ids|
  {
    if |ids| > 1 { DedupKeepsEnds(ids[..|ids| - 1]); }
  }

  lemma DedupAppend(ids: seq<string>, x: string)
    ensures Dedup(ids + [x]) == if ids != [] && ids[|ids| - 1] == x then Dedup(ids) else Dedup(ids) + [x]
  {
    var longer := ids + [x];
    if ids == [] {
      assert longer == [x];
    } else {
      assert longer[..|longer| - 1] == ids && longer[|longer| - 1] == x;
      assert Dedup(longer) == if x == ids[|ids| - 1] then Dedup(ids) else Dedup(ids) + [x];
    }
  }

  predicate StrictlyLater(entries: seq<Entry>, clock: nat) {
    && (forall i :: 0 <= i < |entries| ==> entries[i].id == Id(entries[i].at) && entries[i].at <= clock)
    && (forall i, j :: 0 <= i < j < |entries| ==> entries[i].at < entries[j].at)
  }

  lemma IdsDiffer(entries: seq<Entry>, clock: nat, i: nat, j: nat)
    requires StrictlyLater(entries, clock) && i < j < |entries|
    ensures entries[i].id != entries[j].id
  {
    if Id(entries[i].at) == Id(entries[j].at) {
      assert Id(entries[i].at)[4..] == Decimal(entries[i].at);
      assert Id(entries[j].at)[4..] == Decimal(entries[j].at);
      DecimalInjective(entries[i].at, entries[j].at);
    }
  }

  /** How many durable notifications are no longer queued. */
  function Done(w: World): int {
    |w.enqueued| - |Queue(Stored(w))|
  }

  /** What the receiver holds is the done notifications, perhaps with the head of the queue once more. */
  predicate Delivered(w: World) {
    && StrictlyLater(w.enqueued, w.clock)
    && 0 <= Done(w)
    && (forall i :: 0 <= i < |w.received| ==> w.received[i] in w.enqueued)
    && (|| Dedup(Ids(w.received)) == Ids(w.enqueued[..Done(w)])
        || (Done(w) < |w.enqueued| && Dedup(Ids(w.received)) == Ids(w.enqueued[..Done(w) + 1])))
  }

  /** Accepting the head of the queue, again or for the first time. */
  lemma ReceiveHead(w: World)
    requires Sound(w) && Delivered(w) && w.alive && Queue(w.mem) != []
    ensures var head := Queue(w.mem)[0];
            && Done(w) < |w.enqueued| && head == w.enqueued[Done(w)]
            && Dedup(Ids(w.received + [head])) == Ids(w.enqueued[..Done(w) + 1])
  {
    hide HistoryOf, Notices, Fits, EntryFits, Dedup, Id;
    var head, m := Queue(w.mem)[0], Done(w);
    assert head == w.enqueued[m];
    assert Ids(w.received + [head]) == Ids(w.received) + [head.id];
    assert Ids(w.enqueued[..m]) == Ids(w.enqueued)[..m] && Ids(w.enqueued[..m + 1]) == Ids(w.enqueued)[..m + 1];
    if m > 0 { IdsDiffer(w.enqueued, w.clock, m - 1, m); }
    ReceiveId(Ids(w.received), Ids(w.enqueued), m);
  }

  lemma ReceiveId(ids: seq<string>, order: seq<string>, m: nat)
    requires m < |order| && (m > 0 ==> order[m - 1] != order[m])
    requires Dedup(ids) == order[..m] || Dedup(ids) == order[..m + 1]
    ensures Dedup(ids + [order[m]]) == order[..m + 1]
  {
    hide Dedup;
    DedupAppend(ids, order[m]);
    assert order[..m + 1] == order[..m] + [order[m]];
    if ids != [] {
      DedupKeepsEnds(ids);
    } else {
      DedupNothing();
    }
  }

  lemma DedupNothing()
    ensures Dedup([]) == []
  {
  }

  /** Saving an observation changes neither what is done nor what was received. */
  lemma SavedDelivered(w: World, p: Ports, s1: State)
    requires Sound(w) && Delivered(w) && w.alive
    requires w.clock < p.t1 <= p.t3 <= DATE_MAX
    requires !Overflows(w.mem, Key(Current(p)))
    requires s1 == Observe(w.mem, Current(p), p.t1)
    ensures Delivered(Saved(w.(clock := p.t3), s1, Key(Current(p))))
  {
    hide Key, Sort, Current, HistoryOf, Notices, Fits, EntryFits, Dedup, Ids, Id, Observe, Overflows, Notifies;
    var key := Key(Current(p));
    var after := Saved(w.(clock := p.t3), s1, key);
    SavedSound(w, p, s1);
    ObserveQueue(w.mem, Current(p), p.t1);
    assert |after.enqueued| - |w.enqueued| == |Queue(s1)| - |Queue(w.mem)|;
    assert Done(after) == Done(w);
    assert after.enqueued[..Done(w)] == w.enqueued[..Done(w)];
    if Done(w) < |w.enqueued| { assert after.enqueued[..Done(w) + 1] == w.enqueued[..Done(w) + 1]; }
  }

  /** An acknowledged head is done; an unacknowledged one stays queued. */
  lemma SentDelivered(w: World, fate: Fate)
    requires Sound(w) && Delivered(w) && w.alive && Queue(w.mem) != []
    ensures var head := Queue(w.mem)[0];
            var w2 := w.(received := if fate != Lost then w.received + [head] else w.received);
            var s2 := Sent(w.mem, fate == Acknowledged, w.clock);
            Delivered(w2) && Delivered(w2.(mem := s2, disk := Some(s2)))
  {
    hide HistoryOf, Notices, Fits, EntryFits, Dedup, Ids, StrictlyLater, BackOff;
    ReceiveHead(w);
  }

  lemma TickKeepsDelivered(w: World, p: Ports, cut: Cut)
    requires Sound(w) && Delivered(w) && StrictlyTimely(w.clock, TickEvent(p, cut))
    ensures Delivered(PlayTick(w, p, cut))
  {
    hide Sound, Delivered, Observe, Overflows, Sent, Saved, Key, Current;
    LaterDelivered(w, p.t3);
    StopDelivered(w.(clock := p.t3));
    if w.alive && !Overflows(w.mem, Key(Current(p))) && cut != BeforeSave {
      var s1 := Observe(w.mem, Current(p), p.t1);
      var w1 := Saved(w.(clock := p.t3), s1, Key(Current(p)));
      SavedSound(w, p, s1);
      SavedDelivered(w, p, s1);
      SavedFacts(w, s1, p);
      StopDelivered(w1);
      if Due(s1, p.t2) && cut != BeforeSend {
        SentDelivered(w1, p.fate);
        StopDelivered(w1.(received := if p.fate != Lost then w1.received + [Queue(s1)[0]] else w1.received));
      }
    }
  }

  lemma LaterDelivered(w: World, clock: nat)
    requires Delivered(w) && w.clock <= clock
    ensures Delivered(w.(clock := clock))
  {
    hide Dedup, Ids;
  }

  lemma StopDelivered(w: World)
    requires Delivered(w)
    ensures Delivered(Dead(w))
  {
    hide Dedup, Ids, StrictlyLater;
  }

  lemma StartKeepsDelivered(w: World, now: nat)
    requires Delivered(w) && w.clock <= now
    ensures Delivered(PlayStart(w, now))
  {
    hide Dedup, Ids, ValidateState, ToJson;
  }

  lemma {:induction false} RunIsDelivered(events: seq<Event>)
    requires StrictRun(events)
    ensures TimelyRun(events) && Delivered(Run(BOOT, events))
    decreases |events|
  {
    hide Delivered, Play, Sound;
    forall i | 0 <= i < |events|
      ensures Timely(Run(BOOT, events[..i]).clock, events[i])
    {
      assert StrictlyTimely(Run(BOOT, events[..i]).clock, events[i]);
    }
    if events == [] {
      BootDelivered();
    } else {
      var before, last := events[..|events| - 1], events[|events| - 1];
      assert forall i :: 0 <= i < |before| ==> before[..i] == events[..i];
      RunIsDelivered(before);
      RunIsSound(before);
      PlayKeepsDelivered(Run(BOOT, before), last);
    }
  }

  lemma BootDelivered()
    ensures Delivered(BOOT)
  {
    assert Ids([]) == [];
  }

  lemma PlayKeepsDelivered(w: World, e: Event)
    requires Sound(w) && Delivered(w) && StrictlyTimely(w.clock, e)
    ensures Delivered(Play(w, e))
  {
    match e
    case TickEvent(p, cut) => TickKeepsDelivered(w, p, cut);
    case StartEvent(now) => StartKeepsDelivered(w, now);
  }

  /**
   At-least-once delivery in order. With ticks cut anywhere, answers lost, and restarts, what the
   receiver accepted, adjacent repeats of one id removed, is a prefix of the order in which
   notifications became durable; nothing is ever sent that was not durable first; and every durable
   notification has been accepted or is still in the stored queue.
   */
  lemma AtLeastOnceInOrder(events: seq<Event>)
    requires StrictRun(events)
    ensures var w := Run(BOOT, events);
            && Dedup(Ids(w.received)) <= Ids(w.enqueued)
            && (forall i :: 0 <= i < |w.received| ==> w.received[i] in w.enqueued)
            && (forall i :: 0 <= i < |w.enqueued| ==>
                  w.enqueued[i].id in Ids(w.received) || w.enqueued[i] in Queue(Stored(w)))
  {
    RunIsDelivered(events);
    RunIsSound(events);
    var w := Run(BOOT, events);
    hide *;
    DeliveredMeans(w);
  }

  lemma DeliveredMeans(w: World)
    requires Sound(w) && Delivered(w)
    ensures Dedup(Ids(w.received)) <= Ids(w.enqueued)
    ensures forall i :: 0 <= i < |w.received| ==> w.received[i] in w.enqueued
    ensures forall i :: 0 <= i < |w.enqueued| ==>
              w.enqueued[i].id in Ids(w.received) || w.enqueued[i] in Queue(Stored(w))
  {
    hide HistoryOf, Notices, Fits, EntryFits, Dedup, StrictlyLater;
    var m := Done(w);
    if Ids(w.received) != [] { DedupKeepsEnds(Ids(w.received)); } else { DedupNothing(); }
    forall i | 0 <= i < |w.enqueued|
      ensures w.enqueued[i].id in Ids(w.received) || w.enqueued[i] in Queue(Stored(w))
    {
      if i < m {
        assert w.enqueued[i].id == Dedup(Ids(w.received))[i];
      } else {
        assert w.enqueued[i] == Queue(Stored(w))[i - m];
      }
    }
  }
}

/** The running monitor: the mutated state object, its file, and the receiver it talks to. */
module MonitorProcess {
  import opened Options
  import opened Text
  import opened Monitor

  class Process {
    // the state object
    var candidate: Option<string>
    var count: Option<nat>
    var confirmed: Option<string>
    var initialized: Option<bool>
    var queue: Option<seq<Entry>>
    var failures: Option<nat>
    var nextAttemptAt: Option<nat>
    // its file, and the outside
    var file: Option<State>
    var alive: bool
    var received: seq<Entry>
    ghost var clock: nat
    ghost var observed: seq<string>
    ghost var enqueued: seq<Entry>

    ghost function Mem(): State
      reads this
    {
      State(candidate, count, confirmed, initialized, queue, failures, nextAttemptAt)
    }

    ghost function World(): Monitor.World
      reads this
    {
      Monitor.World(Mem(), file, alive, received, clock, observed, enqueued)
    }

    method Snap() returns (s: State)
      ensures s == Mem()
    {
      s := State(candidate, count, confirmed, initialized, queue, failures, nextAttemptAt);
    }

    /** Fills the list of issues component by component; None is the thrown error. */
    method FindIssues(s: Snapshot, now: int) returns (r: Option<seq<string>>)
      ensures r == Issues(s, now)
    {
      if s.Unreadable? || s.version != 1 || s.at < -SAFE || s.at > SAFE || s.at > now + 5000 || now - s.at > 30000 {
        return None;
      }
      var result: seq<string> := [];
      if !s.active { result := result + ["worker_inactive"]; }
      ghost var worker := result;
      for i := 0 to |COMPONENTS|
        invariant forall j :: 0 <= j < i ==> SampleIssue(COMPONENTS[j], SampleOf(s, j), now).Some?
        invariant result == worker + Collected(s, now, i)
      {
        hide SampleIssue;
        var more := FindIssue(COMPONENTS[i], SampleOf(s, i), now);
        if more.None? {
          IssuesRefused(s, now, i);
          return None;
        }
        result := result + more.value;
      }
      IssuesCollected(s, now);
      r := Some(Sort(result));
    }

    /** The issue of one component, if its sample can be believed. */
    method FindIssue(component: string, value: Sample, now: int) returns (r: Option<seq<string>>)
      ensures r == SampleIssue(component, value, now)
    {
      if value.Missing? { return Some([component + "_stale"]); }
      if !WellFormedSample(component, value, now) { return None; }
      if now - value.at > 180000 { return Some([component + "_stale"]); }
      if !value.ok { return Some([component + "_" + value.code]); }
      return Some([]);
    }

    static function SampleOf(s: Snapshot, i: nat): Sample
      requires s.Snapshot?
    {
      if i == 0 then s.scanner else s.webhook
    }

    static ghost function Collected(s: Snapshot, now: int, i: nat): seq<string>
      requires s.Snapshot? && i <= |COMPONENTS|
    {
      if i == 0 then []
      else Collected(s, now, i - 1) + SampleIssue(COMPONENTS[i - 1], SampleOf(s, i - 1), now).GetOr([])
    }

    static lemma IssuesRefused(s: Snapshot, now: int, i: nat)
      requires s.Snapshot? && i < |COMPONENTS| && SampleIssue(COMPONENTS[i], SampleOf(s, i), now).None?
      ensures Issues(s, now).None?
    {
      hide SampleIssue, Sort;
      assert COMPONENTS[i] == if i == 0 then "scanner" else "webhook";
    }

    static lemma IssuesCollected(s: Snapshot, now: int)
      requires s.Snapshot?
      requires !(s.version != 1 || s.at < -SAFE || s.at > SAFE || s.at > now + 5000 || now - s.at > 30000)
      requires forall j :: 0 <= j < |COMPONENTS| ==> SampleIssue(COMPONENTS[j], SampleOf(s, j), now).Some?
      ensures Issues(s, now) == Some(Sort((if s.active then [] else ["worker_inactive"]) + Collected(s, now, 2)))
    {
      hide SampleIssue, Sort;
      var worker := if s.active then [] else ["worker_inactive"];
      assert SampleIssue(COMPONENTS[0], SampleOf(s, 0), now).Some?
             && SampleIssue(COMPONENTS[1], SampleOf(s, 1), now).Some?;
      var scanner := SampleIssue("scanner", s.scanner, now).value;
      var webhook := SampleIssue("webhook", s.webhook, now).value;
      assert Collected(s, now, 1) == [] + scanner;
      assert Collected(s, now, 2) == Collected(s, now, 1) + webhook;
      assert worker + ([] + scanner + webhook) == worker + scanner + webhook;
    }

    /** The hysteresis step; false is the thrown error, which leaves the counters advanced in memory. */
    method ObserveNow(current: seq<string>, now: nat) returns (ok: bool)
      modifies this`candidate, this`count, this`confirmed, this`initialized, this`queue
      ensures ok == !Overflows(old(Mem()), Key(current))
      ensures ok ==> Mem() == Observe(old(Mem()), current, now)
      ensures !ok ==> Mem() == Counted(old(Mem()), Key(current))
    {
      hide Sort, Join, Decimal;
      var sorted := Sort(current);
      var key := Join(sorted);
      if candidate != Some(key) {
        candidate := Some(key);
        count := Some(0);
      }
      count := Some(Min(count.GetOr(0) + 1, 3));
      if count.value >= (if key != "" then 3 else 2) && confirmed != Some(key) {
        if initialized == Some(true) || key != "" {
          if queue.None? { queue := Some([]); }
          if |queue.value| >= 32 { return false; }
          queue := Some(queue.value + [Entry("pay-" + Decimal(now), sorted, now)]);
        }
        confirmed := Some(key);
        initialized := Some(true);
      }
      return true;
    }

    /** Write to a temporary name, sync, rename: the file is the old state or the new one. */
    method Persist()
      modifies this`file
      ensures file == Some(Mem())
    {
      var s := Snap();
      file := Some(s);
    }

    /** Everything the process held in memory is gone. */
    method Die()
      modifies this
      ensures World() == Dead(old(World()))
    {
      candidate, count, confirmed, initialized := None, None, None, None;
      queue, failures, nextAttemptAt := None, None, None;
      alive := false;
    }

    method RunTick(p: Ports, cut: Cut)
      modifies this
      ensures World() == PlayTick(old(World()), p, cut)
    {
      hide Key, Observe, Overflows, Sort, Current, NewEntries;
      clock := p.t3;
      if !alive { return; }
      var ok := ObserveAndSave(p, cut == BeforeSave);
      if !ok { return; }
      if queue.GetOr([]) == [] || p.t2 < nextAttemptAt.GetOr(0) { return; }
      SendHead(p, cut);
    }

    /** Look at the snapshot and save what follows from it, before anything is sent; false if the process dies. */
    method ObserveAndSave(p: Ports, cut: bool) returns (ok: bool)
      requires alive
      modifies this
      ensures ok == !(Overflows(old(Mem()), Key(Current(p))) || cut)
      ensures World() == if ok then Saved(old(World()), Observe(old(Mem()), Current(p), p.t1), Key(Current(p)))
                         else Dead(old(World()))
    {
      hide Issues, Key, Observe, Overflows, Sort, NewEntries;
      var found := FindIssues(p.snapshot, p.t0);
      var current := if found.Some? then found.value else ["snapshot_unavailable"];
      ghost var before := Mem();
      assert current == Current(p);
      ok := ObserveNow(current, p.t1);
      if !ok || cut {
        Die();
        return false;
      }
      Persist();
      observed := observed + [Key(current)];
      enqueued := enqueued + NewEntries(before, Mem());
    }

    /** Contact the receiver, then record the outcome durably. */
    method SendHead(p: Ports, cut: Cut)
      requires Due(Mem(), p.t2) && file == Some(Mem()) && alive
      modifies this
      ensures World() ==
              if cut == BeforeSend then Dead(old(World())) else
              var reached := if p.fate != Lost then old(received) + [Queue(old(Mem()))[0]] else old(received);
              var w2 := old(World()).(received := reached);
              var s2 := Sent(old(Mem()), p.fate == Acknowledged, p.t3);
              if cut == AfterSend then Dead(w2) else w2.(mem := s2, disk := Some(s2))
    {
      if cut == BeforeSend {
        Die();
        return;
      }
      if p.fate != Lost { received := received + [queue.value[0]]; }
      if cut == AfterSend {
        Die();
        return;
      }
      RecordOutcome(p.fate == Acknowledged, p.t3);
    }

    /** Take the head off the queue, or put the next attempt off; then save. */
    method RecordOutcome(acknowledged: bool, now: nat)
      requires Queue(Mem()) != []
      modifies this
      ensures var s2 := Sent(old(Mem()), acknowledged, now);
              World() == old(World()).(mem := s2, disk := Some(s2))
    {
      if acknowledged {
        queue := Some(queue.value[1..]);
        failures := Some(0);
        nextAttemptAt := Some(0);
      } else {
        failures := Some(Min(failures.GetOr(0) + 1, 5));
        nextAttemptAt := Some(now + Min(300000, 10000 * Pow2(failures.value)));
      }
      Persist();
    }

    /** Load, validate, and take up the saved state; an invalid one stops the process. */
    method StartUp(now: nat)
      modifies this
      ensures World() == PlayStart(old(World()), now)
    {
      hide ValidateState, ToJson;
      clock := now;
      if file.None? {
        TakeUp(EMPTY);
        return;
      }
      if !ValidateState(ToJson(file.value), now) {
        Die();
        return;
      }
      TakeUp(file.value);
    }

    method TakeUp(s: State)
      modifies this
      ensures World() == old(World()).(mem := s, alive := true)
    {
      candidate, count, confirmed, initialized := s.candidate, s.count, s.confirmed, s.initialized;
      queue, failures, nextAttemptAt := s.queue, s.failures, s.nextAttemptAt;
      alive := true;
    }
  }
}

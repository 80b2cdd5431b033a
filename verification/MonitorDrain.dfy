/** How fast the queue can grow, and how it empties. */
module MonitorDrain {
  import opened Options
  import opened Text
  import opened Monitor

  // ---------------------------------------------------------------- the growth of the queue

  /** The hysteresis fields alone. */
  datatype Core = Core(candidate: Option<string>, count: nat, confirmed: Option<string>, initialized: bool)

  function CoreOf(s: State): Core {
    Core(s.candidate, s.count.GetOr(0), s.confirmed, s.initialized == Some(true))
  }

  function RunLength(c: Core, key: string): nat {
    Min((if c.candidate == Some(key) then c.count else 0) + 1, 3)
  }

  predicate Confirming(c: Core, key: string) {
    RunLength(c, key) >= Threshold(key) && c.confirmed != Some(key)
  }

  predicate Notifying(c: Core, key: string) {
    Confirming(c, key) && (c.initialized || key != "")
  }

  function Step(c: Core, key: string): Core {
    var confirming := Confirming(c, key);
    Core(Some(key), RunLength(c, key), if confirming then Some(key) else c.confirmed, c.initialized || confirming)
  }

  function Notifications(c: Core, keys: seq<string>): nat
    decreases |keys|
  {
    if keys == [] then 0
    else (if Notifying(c, keys[0]) then 1 else 0) + Notifications(Step(c, keys[0]), keys[1..])
  }

  /** After a confirmation the candidate is the confirmed key, until something else is seen. */
  predicate AtRest(c: Core) {
    c.candidate.Some? && c.candidate == c.confirmed
  }

  lemma OneOfFour(c: Core, k1: string, k2: string, k3: string, k4: string)
    requires AtRest(c)
    ensures var c1 := Step(c, k1);
            var c2 := Step(c1, k2);
            var c3 := Step(c2, k3);
            && !Notifying(c, k1)
            && !(Notifying(c1, k2) && Notifying(c2, k3))
            && !(Notifying(c1, k2) && Notifying(c3, k4))
            && !(Notifying(c2, k3) && Notifying(c3, k4))
  {
  }

  /** At rest, the next four observations carry at most one notification. */
  lemma RestIsQuiet(c: Core, keys: seq<string>)
    requires AtRest(c) && |keys| <= 4
    ensures Notifications(c, keys) <= 1
  {
    hide Notifying, Step, AtRest;
    var k1 := if |keys| >= 1 then keys[0] else "";
    var k2 := if |keys| >= 2 then keys[1] else "";
    var k3 := if |keys| >= 3 then keys[2] else "";
    var k4 := if |keys| >= 4 then keys[3] else "";
    var c1 := Step(c, k1);
    var c2 := Step(c1, k2);
    var c3 := Step(c2, k3);
    OneOfFour(c, k1, k2, k3, k4);
    if |keys| >= 4 {
      assert keys[3..] == [k4]
             && Notifications(c3, keys[3..]) == (if Notifying(c3, k4) then 1 else 0) + Notifications(Step(c3, k4), []);
    }
    if |keys| >= 3 {
      assert keys[2..][1..] == keys[3..];
      assert Notifications(c2, keys[2..]) == (if Notifying(c2, k3) then 1 else 0) + Notifications(c3, keys[3..]);
    }
    if |keys| >= 2 {
      assert keys[1..][1..] == keys[2..];
      assert Notifications(c1, keys[1..]) == (if Notifying(c1, k2) then 1 else 0) + Notifications(c2, keys[2..]);
    }
  }

  /** Any five consecutive observations, from any state at all, carry at most two notifications. */
  lemma {:induction false} FiveCarryTwo(c: Core, keys: seq<string>)
    requires |keys| <= 5
    ensures Notifications(c, keys) <= 2
    decreases |keys|
  {
    if keys != [] {
      if Notifying(c, keys[0]) {
        RestIsQuiet(Step(c, keys[0]), keys[1..]);
      } else {
        FiveCarryTwo(Step(c, keys[0]), keys[1..]);
      }
    }
  }

  lemma ObserveStepsCore(s: State, current: seq<string>, now: nat)
    requires !Overflows(s, Key(current))
    ensures CoreOf(Observe(s, current, now)) == Step(CoreOf(s), Key(current))
    ensures Notifies(s, Key(current)) == Notifying(CoreOf(s), Key(current))
    ensures |Queue(Observe(s, current, now))| == |Queue(s)| + (if Notifies(s, Key(current)) then 1 else 0)
  {
  }

  // ---------------------------------------------------------------- an accepting receiver empties it

  /** Uninterrupted ticks; None if one of them throws. */
  function Ticks(s: State, ports: seq<Ports>): Option<State>
    decreases |ports|
  {
    if ports == [] then Some(s)
    else
      var next := Tick(s, ports[0]);
      if next.None? then None else Ticks(next.value, ports[1..])
  }

  function KeysOf(ports: seq<Ports>): seq<string> {
    seq(|ports|, i requires 0 <= i < |ports| => Key(Current(ports[i])))
  }

  /** One tick with an accepting receiver: one in if notified, one out if there is any. */
  lemma AcceptingTick(s: State, p: Ports)
    requires p.fate == Acknowledged && p.t2 >= s.nextAttemptAt.GetOr(0) && |Queue(s)| <= 31
    ensures var next := Tick(s, p);
            && next.Some? && next.value.nextAttemptAt.GetOr(0) <= p.t2
            && (next.value.nextAttemptAt == s.nextAttemptAt || next.value.nextAttemptAt == Some(0))
            && CoreOf(next.value) == Step(CoreOf(s), Key(Current(p)))
            && var grown := |Queue(s)| + (if Notifying(CoreOf(s), Key(Current(p))) then 1 else 0);
               |Queue(next.value)| == if grown == 0 then 0 else grown - 1
  {
    hide Current, Key, Notifies, Notifying, Step, Overflows;
    NoOverflow(s, Key(Current(p)));
    var s1 := Observe(s, Current(p), p.t1);
    ObserveStepsCore(s, Current(p), p.t1);
    ObserveKeepsAttempt(s, Current(p), p.t1);
  }

  lemma NoOverflow(s: State, key: string)
    requires |Queue(s)| <= 31
    ensures !Overflows(s, key)
  {
  }

  lemma ObserveKeepsAttempt(s: State, current: seq<string>, now: nat)
    requires !Overflows(s, Key(current))
    ensures Observe(s, current, now).nextAttemptAt == s.nextAttemptAt
  {
  }

  predicate RetriesDue(s: State, ports: seq<Ports>) {
    forall i :: 0 <= i < |ports| ==> ports[i].fate == Acknowledged && ports[i].t2 >= s.nextAttemptAt.GetOr(0)
  }

  /** Accepting ticks: what was queued and what is notified goes out, one per tick, until nothing is left. */
  lemma {:induction false} AcceptingTicks(s: State, ports: seq<Ports>)
    requires RetriesDue(s, ports) && |Queue(s)| <= 31
    ensures var end := Ticks(s, ports);
            && end.Some? && |Queue(end.value)| <= |Queue(s)|
            && (end.value.nextAttemptAt == s.nextAttemptAt || end.value.nextAttemptAt == Some(0))
            && (Queue(end.value) == []
                || |Queue(end.value)| + |ports| <= |Queue(s)| + Notifications(CoreOf(s), KeysOf(ports)))
    decreases |ports|
  {
    hide Tick, CoreOf, Step, Notifying, Queue, Key, Current;
    if ports != [] {
      var p := ports[0];
      AcceptingTick(s, p);
      var next := Tick(s, p).value;
      AcceptingTicks(next, ports[1..]);
      KeysOfTail(ports);
    }
  }

  lemma KeysOfTail(ports: seq<Ports>)
    requires ports != []
    ensures KeysOf(ports) != [] && KeysOf(ports)[0] == Key(Current(ports[0]))
            && KeysOf(ports)[1..] == KeysOf(ports[1..])
  {
    hide Key, Current;
  }

  lemma {:induction false} TicksConcat(s: State, a: seq<Ports>, b: seq<Ports>)
    requires Ticks(s, a).Some?
    ensures Ticks(s, a + b) == Ticks(Ticks(s, a).value, b)
    decreases |a|
  {
    hide Tick;
    if a == [] {
      assert a + b == b;
    } else {
      assert (a + b)[0] == a[0] && (a + b)[1..] == a[1..] + b;
      TicksConcat(Tick(s, a[0]).value, a[1..], b);
    }
  }

  /** Five accepting ticks empty the queue or shorten it by three. */
  lemma OneBlock(s: State, block: seq<Ports>)
    requires RetriesDue(s, block) && |block| == 5 && |Queue(s)| <= 31
    ensures var end := Ticks(s, block);
            && end.Some? && (Queue(end.value) == [] || |Queue(end.value)| + 3 <= |Queue(s)|)
            && (end.value.nextAttemptAt == s.nextAttemptAt || end.value.nextAttemptAt == Some(0))
  {
    hide Ticks, CoreOf, Queue, Notifications;
    AcceptingTicks(s, block);
    FiveCarryTwo(CoreOf(s), KeysOf(block));
  }

  /**
   Drain bound. Once a retry is due and the receiver accepts, a queue of at most 31 entries never
   overflows and is empty after five ticks for every started group of three entries, whatever is
   observed meanwhile.
   */
  lemma {:induction false} Drains(s: State, ports: seq<Ports>)
    requires RetriesDue(s, ports) && |Queue(s)| <= 31
    requires |ports| >= 5 * ((|Queue(s)| + 2) / 3)
    ensures Ticks(s, ports).Some? && Queue(Ticks(s, ports).value) == []
    decreases |ports|
  {
    hide Ticks, CoreOf, Queue, KeysOf, Notifications;
    AcceptingTicks(s, ports);
    if |Queue(s)| > 0 {
      var block, rest := ports[..5], ports[5..];
      OneBlock(s, block);
      var mid := Ticks(s, block).value;
      TicksConcat(s, block, rest);
      assert ports == block + rest;
      Drains(mid, rest);
    }
  }
}

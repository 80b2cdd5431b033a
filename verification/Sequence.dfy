/**
 The supervised test sequence (qualification/discrete-pay/combined-sequence.py): wait for a
 prerequisite, pause the private stack under a durable marker, and restore it afterwards.

 Both commands are sequences of atomic steps; a crash may fall between any two of them, so a cut
 command is a prefix of its steps. Everything read from outside is an input.
 */
module Sequence {
  import opened Options

  // ---------------------------------------------------------------- the prerequisite

  /** `systemctl show` of the native unit. */
  datatype Native = Native(
    loadState: string, activeState: string, result: string, exitStatus: string, controlGroup: string)

  /** evidence.json: the fields that are looked at, each check with its count, and the file's digest. */
  datatype Proof = Proof(
    result: string, target: int, payCommit: string, walletdCommit: string, checks: map<string, Option<int>>)

  const COMPLETED_NATIVE_SHA := "450474e339e6ebeb91e0720c130cb567d0d0e60ca753a8dba34992364d862624"
  const PAY_COMMIT := "4d2f06952e2a566df4e92e9ee82b9f38601e0427"
  const WALLETD_COMMIT := "8703c16fa40ffc8456e3d71696b6220b32b4d74a"
  const BURST := "native large registry merchant four-request burst"
  const REOPEN := "wallet and facade reopen preserves all issued invoices and original payment"

  datatype Answer = Yes | No | Raises

  function Prerequisite(value: Native, proof: Option<Proof>, evidenceSha: Option<string>): Answer {
    var collected := value.loadState == "not-found";
    if collected && (proof.None? || evidenceSha != Some(COMPLETED_NATIVE_SHA) || value.activeState != "inactive"
                     || value.controlGroup != "")
    then Raises
    else if !collected && value.loadState != "loaded" then Raises
    else if value.activeState == "active" || value.activeState == "activating"
            || value.activeState == "deactivating" then No
    else if !collected && (value.activeState != "inactive" || value.result != "success" || value.exitStatus != "0"
                             || value.controlGroup != "")
    then Raises
    else if proof.None? then Yes
    else if proof.value.result != "PASS" || proof.value.target != 100000
            || proof.value.payCommit != PAY_COMMIT || proof.value.walletdCommit != WALLETD_COMMIT then Raises
    else if !Counted(proof.value, BURST) || !Counted(proof.value, REOPEN) then Raises
    else Yes
  }

  predicate Counted(proof: Proof, name: string) {
    name in proof.checks && proof.checks[name] == Some(100000)
  }

  /** One reading of the unit, with the evidence file as it is then. */
  datatype Reading = Reading(value: Native, proof: Option<Proof>, sha: Option<string>)

  function AnswerTo(r: Reading): Answer {
    Prerequisite(r.value, r.proof, r.sha)
  }

  /** `current_prerequisite` looks at the evidence only when the unit is gone. */
  function Current(value: Native, proof: Proof, sha: string): Reading {
    if value.loadState != "not-found" then Reading(value, None, None) else Reading(value, Some(proof), Some(sha))
  }

  /** Polling: the first reading that is not a plain no, or `None` when the deadline passes. */
  function Wait(polls: seq<(Native, Proof, string)>): Option<Reading> {
    if polls == [] then None
    else
      var r := Current(polls[0].0, polls[0].1, polls[0].2);
      if AnswerTo(r) == No then Wait(polls[1..]) else Some(r)
  }

  // ---------------------------------------------------------------- the machine

  datatype Phase = WaitingNative | WaitingGui | CombinedPreparing | CombinedRunning | CombinedPassed

  /** sequence-state.json. */
  datatype Saved = Saved(
    phase: Phase, paused: bool, restored: bool, installSha: Option<string>, nativeEvidence: Option<string>)

  /**
   The marker on disk; whether the target is down because the run stopped it; whether the child
   unit is loaded; and the prerequisite readings that were answered with yes.
   */
  datatype Machine = Machine(marker: Option<Saved>, heldDown: bool, child: bool, confirmed: seq<Reading>)

  datatype Step =
    | Save(saved: Saved)
    | Confirm(reading: Reading)
    | StopTarget
    | StopOthers
    | LaunchChild
    | ChildEnds(started: bool, stays: bool)   // its ExecStopPost may start the target
    | StopChild(started: bool)
    | StartTarget

  function Effect(m: Machine, step: Step): Machine {
    match step
    case Save(saved) => m.(marker := Some(saved))
    case Confirm(r) => m.(confirmed := m.confirmed + [r])
    case StopTarget => m.(heldDown := true)
    case StopOthers => m
    case LaunchChild => m.(child := true)
    case ChildEnds(started, stays) => m.(heldDown := m.heldDown && !started, child := stays)
    case StopChild(started) => m.(heldDown := m.heldDown && !started, child := false)
    case StartTarget => m.(heldDown := false)
  }

  function Play(m: Machine, steps: seq<Step>): Machine
    decreases |steps|
  {
    if steps == [] then m else Play(Effect(m, steps[0]), steps[1..])
  }

  // ---------------------------------------------------------------- the two commands

  /** What a restore reads, and how its commands turn out. */
  datatype RestoreInputs = RestoreInputs(
    installerValid: bool, installSha: string, verified: bool, stopChild: bool, childStarts: bool, start: bool)

  /** `restore`. */
  function RestoreSteps(m: Machine, env: RestoreInputs): seq<Step> {
    if m.marker.None? || !m.marker.value.paused then []
    else
      var saved := m.marker.value;
      if !env.installerValid || saved.installSha != Some(env.installSha) || !env.verified then []
      else
        (if m.child then [StopChild(env.childStarts)] else [])
        + if m.child && !env.stopChild then []
          else if !env.start then []
          else [StartTarget, Save(saved.(paused := false, restored := true))]
  }

  datatype RunInputs = RunInputs(
    root: bool, pins: bool,
    polls: seq<(Native, Proof, string)>,
    again: Native, proof: Proof, sha: string,
    gui: bool, installValid: bool, targetActive: bool, installSha: string,
    stops: bool, stopFails: bool, stopOthers: bool, quiet: bool,
    childEnds: bool, childStarts: bool, childStays: bool, passed: bool,
    restore: RestoreInputs)

  const WAITING := Saved(WaitingNative, false, false, None, None)

  function GuiMarker(env: RunInputs): Saved {
    WAITING.(phase := WaitingGui, nativeEvidence := Some(env.sha))
  }

  function PausedMarker(env: RunInputs): Saved {
    GuiMarker(env).(phase := CombinedPreparing, paused := true, installSha := Some(env.installSha))
  }

  function ChildSteps(env: RunInputs): seq<Step> {
    [LaunchChild]
    + (if env.childEnds then [ChildEnds(env.childStarts, env.childStays)] else [])
    + if env.childEnds && env.passed then [Save(PausedMarker(env).(phase := CombinedPassed))] else []
  }

  /** The body of the `try`; a failed stop may still have stopped the target. */
  function TrySteps(env: RunInputs): seq<Step> {
    (if env.stops then [StopTarget] else [])
    + if !env.stops || env.stopFails then []
      else if !env.stopOthers then []
      else
        [StopOthers]
        + if !env.quiet then [] else [Save(PausedMarker(env).(phase := CombinedRunning))] + ChildSteps(env)
  }

  function PauseSteps(m: Machine, env: RunInputs): seq<Step> {
    var body := [Save(PausedMarker(env))] + TrySteps(env);
    body + RestoreSteps(Play(m, body), env.restore)
  }

  /** `run`, with the `restore` of its `finally`. */
  function RunSteps(m: Machine, env: RunInputs): seq<Step> {
    if !env.root || m.marker.Some? || !env.pins || m.child then []
    else
      var first := Wait(env.polls);
      if first.None? || AnswerTo(first.value) != Yes then [Save(WAITING)]
      else
        var waited := [Save(WAITING), Confirm(first.value)];
        var second := Reading(env.again, Some(env.proof), Some(env.sha));
        if AnswerTo(second) != Yes then waited
        else
          var confirmed := waited + [Confirm(second), Save(GuiMarker(env))];
          if !env.gui || !env.installValid || !env.targetActive then confirmed
          else confirmed + PauseSteps(Play(m, confirmed), env)
  }

  // ---------------------------------------------------------------- the invariant

  predicate Confirmed(m: Machine) {
    |m.confirmed| >= 2 && forall r :: r in m.confirmed ==> AnswerTo(r) == Yes
  }

  /**
   A target the run stopped has its durable marker; a paused marker has both confirmations and knows
   the installation.
   */
  predicate Inv(m: Machine) {
    && (m.heldDown ==> m.marker.Some? && m.marker.value.paused)
    && (m.marker.Some? && m.marker.value.paused ==> Confirmed(m) && m.marker.value.installSha.Some?)
    && (forall r :: r in m.confirmed ==> AnswerTo(r) == Yes)
  }

  /** What a step needs in order to keep the invariant. */
  predicate Allowed(m: Machine, step: Step) {
    match step
    case Save(saved) => (m.heldDown ==> saved.paused) && (saved.paused ==> Confirmed(m) && saved.installSha.Some?)
    case Confirm(r) => AnswerTo(r) == Yes
    case StopTarget => m.marker.Some? && m.marker.value.paused
    case _ => true
  }

  predicate AllAllowed(m: Machine, steps: seq<Step>)
    decreases |steps|
  {
    steps == [] || (Allowed(m, steps[0]) && AllAllowed(Effect(m, steps[0]), steps[1..]))
  }

  lemma EffectKeeps(m: Machine, step: Step)
    requires Inv(m) && Allowed(m, step)
    ensures Inv(Effect(m, step))
  {
    hide AnswerTo;
  }

  lemma {:induction false} PrefixKeeps(m: Machine, steps: seq<Step>, k: nat)
    requires Inv(m) && AllAllowed(m, steps) && k <= |steps|
    ensures Inv(Play(m, steps[..k]))
    decreases |steps|
  {
    if k > 0 {
      EffectKeeps(m, steps[0]);
      assert steps[..k][1..] == steps[1..][..k - 1];
      PrefixKeeps(Effect(m, steps[0]), steps[1..], k - 1);
    }
  }

  lemma {:induction false} PlayConcat(m: Machine, a: seq<Step>, b: seq<Step>)
    ensures Play(m, a + b) == Play(Play(m, a), b)
    ensures AllAllowed(m, a) && AllAllowed(Play(m, a), b) ==> AllAllowed(m, a + b)
    decreases |a|
  {
    if a == [] {
      assert a + b == b;
    } else {
      assert (a + b)[1..] == a[1..] + b;
      PlayConcat(Effect(m, a[0]), a[1..], b);
    }
  }

  lemma PlayOne(m: Machine, s: Step)
    ensures Play(m, [s]) == Effect(m, s)
    ensures AllAllowed(m, [s]) == Allowed(m, s)
  {
    assert [s][0] == s && [s][1..] == [];
  }

  lemma PlayTwo(m: Machine, s: Step, t: Step)
    ensures Play(m, [s, t]) == Effect(Effect(m, s), t)
    ensures AllAllowed(m, [s, t]) == (Allowed(m, s) && Allowed(Effect(m, s), t))
  {
    assert [s, t][0] == s && [s, t][1..] == [t];
    PlayOne(Effect(m, s), t);
  }

  lemma RestoreAllowed(m: Machine, env: RestoreInputs)
    requires Inv(m)
    ensures AllAllowed(m, RestoreSteps(m, env))
  {
    hide AnswerTo;
    if m.marker.Some? && m.marker.value.paused {
      var saved := m.marker.value;
      var stop := if m.child then [StopChild(env.childStarts)] else [];
      var now := if m.child then Effect(m, StopChild(env.childStarts)) else m;
      var finish := [StartTarget, Save(saved.(paused := false, restored := true))];
      if m.child { PlayOne(m, StopChild(env.childStarts)); }
      PlayTwo(now, StartTarget, finish[1]);
      PlayConcat(m, stop, finish);
      PlayConcat(m, stop, []);
      assert stop + [] == stop;
    }
  }

  /** The pause is in force: a paused marker for this installation, after both confirmations. */
  predicate InForce(m: Machine, env: RunInputs) {
    m.marker.Some? && m.marker.value.paused && m.marker.value.installSha == Some(env.installSha) && Confirmed(m)
  }

  lemma ChildAllowed(m: Machine, env: RunInputs)
    requires InForce(m, env)
    ensures AllAllowed(m, ChildSteps(env)) && InForce(Play(m, ChildSteps(env)), env)
  {
    hide AnswerTo, Confirmed;
    var launch, ends := [LaunchChild], if env.childEnds then [ChildEnds(env.childStarts, env.childStays)] else [];
    var last := PausedMarker(env).(phase := CombinedPassed);
    var saves := if env.childEnds && env.passed then [Save(last)] else [];
    PlayOne(m, LaunchChild);
    var launched := Effect(m, LaunchChild);
    PlayOne(launched, ChildEnds(env.childStarts, env.childStays));
    var ended := Play(launched, ends);
    PlayOne(ended, Save(last));
    SameConfirmed(m, launched);
    SameConfirmed(m, ended);
    SameConfirmed(m, Play(ended, saves));
    PlayConcat(m, launch, ends);
    PlayConcat(m, launch + ends, saves);
  }

  lemma SameConfirmed(m: Machine, n: Machine)
    ensures m.confirmed == n.confirmed ==> Confirmed(m) == Confirmed(n)
  {
  }

  lemma TryAllowed(m: Machine, env: RunInputs)
    requires InForce(m, env)
    ensures AllAllowed(m, TrySteps(env)) && InForce(Play(m, TrySteps(env)), env)
  {
    hide AnswerTo, Confirmed, ChildSteps;
    var stop := if env.stops then [StopTarget] else [];
    PlayOne(m, StopTarget);
    var stopped := Play(m, stop);
    var running := PausedMarker(env).(phase := CombinedRunning);
    PlayTwo(stopped, StopOthers, Save(running));
    PlayOne(stopped, StopOthers);
    SameConfirmed(m, stopped);
    var marked := Play(stopped, [StopOthers, Save(running)]);
    SameConfirmed(m, marked);
    PlayConcat(m, stop, []);
    PlayConcat(m, stop, [StopOthers]);
    if env.stops && !env.stopFails && env.stopOthers {
      if env.quiet {
        ChildAllowed(marked, env);
        PlayConcat(stopped, [StopOthers, Save(running)], ChildSteps(env));
        PlayConcat(m, stop, [StopOthers, Save(running)] + ChildSteps(env));
        assert TrySteps(env) == stop + ([StopOthers, Save(running)] + ChildSteps(env));
      } else {
        assert TrySteps(env) == stop + [StopOthers];
      }
    } else {
      assert TrySteps(env) == stop + [];
    }
  }

  lemma PauseAllowed(m: Machine, env: RunInputs)
    requires Inv(m) && Confirmed(m)
    ensures AllAllowed(m, PauseSteps(m, env))
    ensures var body := [Save(PausedMarker(env))] + TrySteps(env);
            Inv(Play(m, body)) && InForce(Play(m, body), env)
  {
    hide AnswerTo, TrySteps, RestoreSteps, Confirmed;
    var first := Save(PausedMarker(env));
    var body := [first] + TrySteps(env);
    PlayOne(m, first);
    SameConfirmed(m, Effect(m, first));
    TryAllowed(Effect(m, first), env);
    PlayConcat(m, [first], TrySteps(env));
    PrefixKeeps(m, body, |body|);
    assert body[..|body|] == body;
    RestoreAllowed(Play(m, body), env.restore);
    PlayConcat(m, body, RestoreSteps(Play(m, body), env.restore));
  }

  lemma WaitedAllowed(m: Machine, env: RunInputs, first: Reading)
    requires Inv(m) && m.marker.None? && AnswerTo(first) == Yes
    ensures AllAllowed(m, [Save(WAITING)]) && AllAllowed(m, [Save(WAITING), Confirm(first)])
    ensures var second := Reading(env.again, Some(env.proof), Some(env.sha));
            AnswerTo(second) == Yes ==>
              var confirmed := [Save(WAITING), Confirm(first)] + [Confirm(second), Save(GuiMarker(env))];
              AllAllowed(m, confirmed) && Inv(Play(m, confirmed)) && Confirmed(Play(m, confirmed))
  {
    hide AnswerTo;
    PlayOne(m, Save(WAITING));
    PlayTwo(m, Save(WAITING), Confirm(first));
    var second := Reading(env.again, Some(env.proof), Some(env.sha));
    var waited := Play(m, [Save(WAITING), Confirm(first)]);
    PlayTwo(waited, Confirm(second), Save(GuiMarker(env)));
    PlayConcat(m, [Save(WAITING), Confirm(first)], [Confirm(second), Save(GuiMarker(env))]);
    if AnswerTo(second) == Yes {
      var confirmed := [Save(WAITING), Confirm(first)] + [Confirm(second), Save(GuiMarker(env))];
      PrefixKeeps(m, confirmed, |confirmed|);
      assert confirmed[..|confirmed|] == confirmed;
      var end := Play(m, confirmed);
      assert end.confirmed == m.confirmed + [first] + [second];
    }
  }

  lemma RunAllowed(m: Machine, env: RunInputs)
    requires Inv(m)
    ensures AllAllowed(m, RunSteps(m, env))
  {
    hide AnswerTo, PauseSteps, Confirmed, Inv;
    if env.root && m.marker.None? && env.pins && !m.child {
      var first := Wait(env.polls);
      NothingHeld(m);
      PlayOne(m, Save(WAITING));
      if first.Some? && AnswerTo(first.value) == Yes {
        WaitedAllowed(m, env, first.value);
        var second := Reading(env.again, Some(env.proof), Some(env.sha));
        if AnswerTo(second) == Yes {
          var confirmed := [Save(WAITING), Confirm(first.value)] + [Confirm(second), Save(GuiMarker(env))];
          PauseAllowed(Play(m, confirmed), env);
          PlayConcat(m, confirmed, PauseSteps(Play(m, confirmed), env));
        }
      }
    }
  }

  lemma NothingHeld(m: Machine)
    requires Inv(m) && m.marker.None?
    ensures !m.heldDown
  {
  }

  // ---------------------------------------------------------------- whole histories

  /** What can happen: a run or a restore, cut after some of its steps, or the child ending by itself. */
  datatype Event =
    | RunCut(run: RunInputs, after: nat)
    | RestoreCut(restore: RestoreInputs, after: nat)
    | ChildExits(started: bool, stays: bool)

  function Cut(steps: seq<Step>, after: nat): seq<Step> {
    if after <= |steps| then steps[..after] else steps
  }

  function StepsOf(m: Machine, e: Event): seq<Step> {
    match e
    case RunCut(env, after) => Cut(RunSteps(m, env), after)
    case RestoreCut(env, after) => Cut(RestoreSteps(m, env), after)
    case ChildExits(started, stays) => if m.child then [ChildEnds(started, stays)] else []
  }

  function Reach(m: Machine, events: seq<Event>): Machine
    decreases |events|
  {
    if events == [] then m else Reach(Play(m, StepsOf(m, events[0])), events[1..])
  }

  lemma EventKeeps(m: Machine, e: Event)
    requires Inv(m)
    ensures Inv(Play(m, StepsOf(m, e)))
  {
    hide AnswerTo, RunSteps, RestoreSteps, AllAllowed, Inv;
    match e
    case RunCut(env, after) =>
      RunAllowed(m, env);
      var steps := RunSteps(m, env);
      PrefixKeeps(m, steps, if after <= |steps| then after else |steps|);
      assert steps[..|steps|] == steps;
    case RestoreCut(env, after) =>
      RestoreAllowed(m, env);
      var steps := RestoreSteps(m, env);
      PrefixKeeps(m, steps, if after <= |steps| then after else |steps|);
      assert steps[..|steps|] == steps;
    case ChildExits(started, stays) =>
      PlayOne(m, ChildEnds(started, stays));
      EffectKeeps(m, ChildEnds(started, stays));
  }

  /**
   In every crash state of every history, a target the run stopped has its durable marker, set only
   after two confirmations.
   */
  lemma {:induction false} PausedWhileHeld(m: Machine, events: seq<Event>)
    requires Inv(m)
    ensures Inv(Reach(m, events))
    decreases |events|
  {
    if events != [] {
      EventKeeps(m, events[0]);
      PausedWhileHeld(Play(m, StepsOf(m, events[0])), events[1..]);
    }
  }

  /** A restore whose commands work, on the installation that was paused. */
  predicate Works(env: RestoreInputs, saved: Saved) {
    env.installerValid && saved.installSha == Some(env.installSha) && env.verified && env.stopChild && env.start
  }

  lemma RestoreEnds(m: Machine, env: RestoreInputs)
    requires m.marker.Some? && m.marker.value.paused && Works(env, m.marker.value)
    ensures var end := Play(m, RestoreSteps(m, env));
            !end.heldDown && !end.child && end.marker == Some(m.marker.value.(paused := false, restored := true))
  {
    var saved := m.marker.value;
    var stop := if m.child then [StopChild(env.childStarts)] else [];
    var finish := [StartTarget, Save(saved.(paused := false, restored := true))];
    if m.child { PlayOne(m, StopChild(env.childStarts)); }
    var now := Play(m, stop);
    PlayTwo(now, StartTarget, finish[1]);
    PlayConcat(m, stop, finish);
    assert RestoreSteps(m, env) == stop + finish;
  }

  /**
   Whatever happened before, if the run is holding the target down, one uninterrupted restore on the
   recorded installation starts it again and completes the marker.
   */
  lemma RestoreBringsBack(events: seq<Event>, env: RestoreInputs)
    requires var m := Reach(Machine(None, false, false, []), events);
             m.heldDown && m.marker.Some? ==> Works(env, m.marker.value)
    ensures var m := Reach(Machine(None, false, false, []), events);
            m.heldDown ==>
              var end := Play(m, RestoreSteps(m, env));
              m.marker.Some? && !end.heldDown && end.marker == Some(m.marker.value.(paused := false, restored := true))
  {
    var start := Machine(None, false, false, []);
    PausedWhileHeld(start, events);
    var m := Reach(start, events);
    if m.heldDown { RestoreEnds(m, env); }
  }

  /** After a completed restore, no later run or restore does anything, however often either is started. */
  lemma {:induction false} CompletedIsFinal(m: Machine, events: seq<Event>)
    requires m.marker.Some? && !m.marker.value.paused && !m.heldDown
    ensures Reach(m, events).marker == m.marker && !Reach(m, events).heldDown
    decreases |events|
  {
    if events != [] {
      var e := events[0];
      if e.ChildExits? { PlayOne(m, ChildEnds(e.started, e.stays)); }
      CompletedIsFinal(Play(m, StepsOf(m, e)), events[1..]);
    }
  }

  /** An uninterrupted run that paused the stack leaves it running, whatever failed in between. */
  lemma RunRestores(m: Machine, env: RunInputs)
    requires Inv(m) && Works(env.restore, PausedMarker(env))
    ensures var end := Play(m, RunSteps(m, env));
            end.marker.Some? && end.marker.value.paused ==> m.marker.Some? && m.marker.value.paused
    ensures m.marker.None? ==> !Play(m, RunSteps(m, env)).heldDown
  {
    hide AnswerTo, Confirmed, PauseSteps;
    if env.root && m.marker.None? && env.pins && !m.child {
      var first := Wait(env.polls);
      PlayOne(m, Save(WAITING));
      if first.Some? && AnswerTo(first.value) == Yes {
        WaitedAllowed(m, env, first.value);
        PlayTwo(m, Save(WAITING), Confirm(first.value));
        var second := Reading(env.again, Some(env.proof), Some(env.sha));
        var waited := Play(m, [Save(WAITING), Confirm(first.value)]);
        if AnswerTo(second) == Yes {
          var confirmed := [Save(WAITING), Confirm(first.value)] + [Confirm(second), Save(GuiMarker(env))];
          PlayTwo(waited, Confirm(second), Save(GuiMarker(env)));
          PlayConcat(m, [Save(WAITING), Confirm(first.value)], [Confirm(second), Save(GuiMarker(env))]);
          var ready := Play(m, confirmed);
          PauseRestores(ready, env);
          PlayConcat(m, confirmed, PauseSteps(ready, env));
        }
      }
    }
  }

  lemma PauseRestores(m: Machine, env: RunInputs)
    requires Inv(m) && Confirmed(m) && Works(env.restore, PausedMarker(env))
    ensures var end := Play(m, PauseSteps(m, env));
            !end.heldDown && end.marker.Some? && !end.marker.value.paused && end.marker.value.restored
  {
    PauseAllowed(m, env);
    hide AnswerTo, Confirmed, TrySteps, RestoreSteps;
    var body := [Save(PausedMarker(env))] + TrySteps(env);
    var now := Play(m, body);
    RestoreEnds(now, env.restore);
    PlayConcat(m, body, RestoreSteps(now, env.restore));
  }
}

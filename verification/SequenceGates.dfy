/** What the test sequence waits for before it stops anything, and what a restore demands. */
module SequenceGates {
  import opened Options
  import opened Sequence

  // ---------------------------------------------------------------- the prerequisite

  predicate Busy(value: Native) {
    value.activeState == "active" || value.activeState == "activating" || value.activeState == "deactivating"
  }

  /** The unit is still there and has stopped cleanly. */
  predicate StoppedCleanly(value: Native) {
    value.loadState == "loaded" && value.activeState == "inactive" && value.result == "success"
    && value.exitStatus == "0" && value.controlGroup == ""
  }

  /** The unit is gone, and the audited evidence file is at hand. */
  predicate Collected(value: Native, sha: Option<string>) {
    value.loadState == "not-found" && value.activeState == "inactive" && value.controlGroup == ""
    && sha == Some("450474e339e6ebeb91e0720c130cb567d0d0e60ca753a8dba34992364d862624")
  }

  /** The evidence of a passed run of 100000 on exactly these two commits. */
  predicate Exact(proof: Proof) {
    && proof.result == "PASS" && proof.target == 100000
    && proof.payCommit == "4d2f06952e2a566df4e92e9ee82b9f38601e0427"
    && proof.walletdCommit == "8703c16fa40ffc8456e3d71696b6220b32b4d74a"
    && Has100000(proof, "native large registry merchant four-request burst")
    && Has100000(proof, "wallet and facade reopen preserves all issued invoices and original payment")
  }

  predicate Has100000(proof: Proof, check: string) {
    check in proof.checks && proof.checks[check] == Some(100000)
  }

  /**
   The prerequisite holds exactly after a clean stop, or for a unit that is gone with the audited
   evidence, and any evidence given must be exact; it is waited for only while the unit is busy.
   */
  lemma PrerequisiteMeans(value: Native, proof: Option<Proof>, sha: Option<string>)
    ensures Prerequisite(value, proof, sha) == Yes
            <==> && (StoppedCleanly(value) || (Collected(value, sha) && proof.Some?))
                 && (proof.Some? ==> Exact(proof.value))
    ensures Prerequisite(value, proof, sha) == No <==> value.loadState == "loaded" && Busy(value)
  {
    assert "active" != "inactive" && "activating" != "inactive" && "deactivating" != "inactive";
    assert "loaded" != "not-found";
    hide Counted;
    CountedMeans(proof);
  }

  lemma CountedMeans(proof: Option<Proof>)
    ensures proof.Some? ==>
              && Counted(proof.value, BURST)
                 == Has100000(proof.value, "native large registry merchant four-request burst")
              && Counted(proof.value, REOPEN)
                 == Has100000(proof.value,
                   "wallet and facade reopen preserves all issued invoices and original payment")
  {
  }

  /** The poll at a place, with the evidence looked at only if the unit is gone. */
  function Poll(polls: seq<(Native, Proof, string)>, i: nat): Answer
    requires i < |polls|
  {
    var (value, proof, sha) := polls[i];
    if value.loadState == "not-found"
      then Prerequisite(value, Some(proof), Some(sha)) else Prerequisite(value, None, None)
  }

  /** Waiting ends with yes at the first poll that is not a plain no, if that one is a yes. */
  predicate Awaited(polls: seq<(Native, Proof, string)>) {
    exists i :: 0 <= i < |polls| && FirstYes(polls, i)
  }

  predicate FirstYes(polls: seq<(Native, Proof, string)>, i: nat)
    requires i < |polls|
  {
    Poll(polls, i) == Yes && forall j :: 0 <= j < i ==> Poll(polls, j) == No
  }

  lemma {:induction false} WaitMeans(polls: seq<(Native, Proof, string)>)
    ensures Wait(polls).Some? && AnswerTo(Wait(polls).value) == Yes <==> Awaited(polls)
  {
    if polls != [] {
      assert AnswerTo(Current(polls[0].0, polls[0].1, polls[0].2)) == Poll(polls, 0) by { hide Prerequisite; }
      hide AnswerTo, Poll;
      if Poll(polls, 0) == No {
        WaitMeans(polls[1..]);
        AwaitedLater(polls);
      } else if Awaited(polls) {
        var i :| 0 <= i < |polls| && FirstYes(polls, i);
        assert i == 0;
      } else {
        assert !FirstYes(polls, 0);
      }
    }
  }

  lemma FirstYesLater(polls: seq<(Native, Proof, string)>, i: nat)
    requires i < |polls| && Poll(polls, 0) == No
    ensures FirstYes(polls, i) <==> i > 0 && FirstYes(polls[1..], i - 1)
  {
    assert forall j :: 0 <= j < |polls| - 1 ==> Poll(polls[1..], j) == Poll(polls, j + 1);
    hide Poll;
    if i > 0 && FirstYes(polls[1..], i - 1) {
      forall j | 0 <= j < i
        ensures Poll(polls, j) == No
      {
        if j > 0 { assert Poll(polls[1..], j - 1) == No; }
      }
    }
  }

  lemma AwaitedLater(polls: seq<(Native, Proof, string)>)
    requires polls != [] && Poll(polls, 0) == No
    ensures Awaited(polls) <==> Awaited(polls[1..])
  {
    hide Poll, FirstYes;
    if Awaited(polls) {
      var i :| 0 <= i < |polls| && FirstYes(polls, i);
      FirstYesLater(polls, i);
    }
    if Awaited(polls[1..]) {
      var i :| 0 <= i < |polls[1..]| && FirstYes(polls[1..], i);
      FirstYesLater(polls, i + 1);
    }
  }

  // ---------------------------------------------------------------- the pause

  /** Everything that must hold before the private stack may be paused. */
  predicate MayPause(m: Machine, env: RunInputs) {
    && env.root && env.pins && m.marker.None? && !m.child
    && Awaited(env.polls) && Prerequisite(env.again, Some(env.proof), Some(env.sha)) == Yes
    && env.gui && env.installValid && env.targetActive
  }

  predicate Pauses(step: Step) {
    step.Save? && step.saved.paused
  }

  lemma RestoresDoNotPause(m: Machine, env: RestoreInputs)
    ensures forall step :: step in RestoreSteps(m, env) ==> !Pauses(step) && !step.StopTarget?
  {
  }

  lemma NoPause(m: Machine, env: RunInputs)
    ensures !Pauses(Save(WAITING)) && !Pauses(Save(GuiMarker(env)))
  {
  }

  lemma PauseStepsStart(m: Machine, env: RunInputs)
    ensures PauseSteps(m, env) != [] && PauseSteps(m, env)[0] == Save(PausedMarker(env))
            && Pauses(PauseSteps(m, env)[0])
    ensures StopTarget in PauseSteps(m, env) <==> env.stops
  {
    var body := [Save(PausedMarker(env))] + TrySteps(env);
    RestoresDoNotPause(Play(m, body), env.restore);
    assert StopTarget in TrySteps(env) <==> env.stops by { StopsFirst(env); }
    hide TrySteps, RestoreSteps, Play;
  }

  lemma StopsFirst(env: RunInputs)
    ensures StopTarget in TrySteps(env) <==> env.stops
  {
    if env.stops { assert TrySteps(env)[0] == StopTarget; }
  }

  /**
   A run pauses the stack exactly when it may: as root, with its pins, over no earlier marker and no
   child unit, after the prerequisite was answered with yes while waiting and once more, with the GUI
   at rest, a valid installation and an active target. Only then can it stop the target.
   */
  lemma RunPausesExactly(m: Machine, env: RunInputs)
    ensures (exists step :: step in RunSteps(m, env) && Pauses(step)) <==> MayPause(m, env)
    ensures StopTarget in RunSteps(m, env) <==> MayPause(m, env) && env.stops
  {
    WaitMeans(env.polls);
    NoPause(m, env);
    hide AnswerTo, Prerequisite, Wait, Awaited, PauseSteps, Pauses, Play;
    if MayPause(m, env) {
      var confirmed := RunIs(m, env);
      hide RunSteps;
      var paused := PauseSteps(Play(m, confirmed), env);
      PauseStepsStart(Play(m, confirmed), env);
      assert (confirmed + paused)[|confirmed|] == paused[0];
      assert RunSteps(m, env)[|confirmed|] in RunSteps(m, env);
      ConfirmedStopsNothing(confirmed, paused);
    } else {
      ShortRun(m, env);
    }
  }

  lemma ConfirmedStopsNothing(confirmed: seq<Step>, paused: seq<Step>)
    requires StopTarget !in confirmed
    ensures StopTarget in confirmed + paused <==> StopTarget in paused
  {
  }

  lemma ShortRun(m: Machine, env: RunInputs)
    requires !MayPause(m, env)
    requires Wait(env.polls).Some? && AnswerTo(Wait(env.polls).value) == Yes <==> Awaited(env.polls)
    ensures forall step :: step in RunSteps(m, env) ==> !Pauses(step) && !step.StopTarget?
  {
    hide Prerequisite, Wait, Awaited, PauseSteps;
  }

  /** Where a run that may pause gets to: the confirmations, then the pause. */
  lemma RunIs(m: Machine, env: RunInputs) returns (confirmed: seq<Step>)
    requires MayPause(m, env)
    ensures RunSteps(m, env) == confirmed + PauseSteps(Play(m, confirmed), env)
    ensures forall step :: step in confirmed ==>
              step.Confirm? || step == Save(WAITING) || step == Save(GuiMarker(env))
    ensures Play(m, confirmed).marker == Some(GuiMarker(env))
  {
    WaitMeans(env.polls);
    var second := Reading(env.again, Some(env.proof), Some(env.sha));
    assert AnswerTo(second) == Prerequisite(env.again, Some(env.proof), Some(env.sha));
    hide AnswerTo, Prerequisite, Wait, Awaited, PauseSteps;
    var waited := [Save(WAITING), Confirm(Wait(env.polls).value)];
    confirmed := waited + [Confirm(second), Save(GuiMarker(env))];
    PlayConcat(m, waited, [Confirm(second), Save(GuiMarker(env))]);
    PlayTwo(Play(m, waited), Confirm(second), Save(GuiMarker(env)));
  }

  /**
   Whatever a run saves as paused records the digest of the installation that it paused and the digest
   of the evidence it was confirmed by.
   */
  lemma PausesRecord(m: Machine, env: RunInputs, step: Step)
    requires step in RunSteps(m, env) && Pauses(step)
    ensures step.saved.installSha == Some(env.installSha) && step.saved.nativeEvidence == Some(env.sha)
    ensures !step.saved.restored
  {
    RunPausesExactly(m, env);
    var confirmed := RunIs(m, env);
    var now := Play(m, confirmed);
    var body := [Save(PausedMarker(env))] + TrySteps(env);
    assert step in confirmed || step in PauseSteps(now, env) by { hide RunSteps, PauseSteps; }
    RestoresDoNotPause(Play(now, body), env.restore);
    assert step in PauseSteps(now, env) ==> step in body by { hide TrySteps, RestoreSteps; }
  }

  /** A run claims to have passed only if every command and check of the test succeeded. */
  lemma PassedOnlyIf(m: Machine, env: RunInputs, step: Step)
    requires step in RunSteps(m, env) && step.Save? && step.saved.phase == CombinedPassed
    ensures MayPause(m, env)
    ensures env.stops && !env.stopFails && env.stopOthers && env.quiet && env.childEnds && env.passed
  {
    if MayPause(m, env) {
      var confirmed := RunIs(m, env);
      var now := Play(m, confirmed);
      assert step in PauseSteps(now, env) by { hide RunSteps, PauseSteps; }
      PassedInPause(now, env, step);
    } else {
      WaitMeans(env.polls);
      ShortRunSaves(m, env, step);
    }
  }

  lemma ShortRunSaves(m: Machine, env: RunInputs, step: Step)
    requires !MayPause(m, env)
    requires Wait(env.polls).Some? && AnswerTo(Wait(env.polls).value) == Yes <==> Awaited(env.polls)
    ensures step in RunSteps(m, env) ==> step.Confirm? || step == Save(WAITING) || step == Save(GuiMarker(env))
  {
    hide Prerequisite, Wait, Awaited, PauseSteps;
  }

  lemma PassedInPause(m: Machine, env: RunInputs, step: Step)
    requires m.marker == Some(GuiMarker(env))
    requires step in PauseSteps(m, env) && step.Save? && step.saved.phase == CombinedPassed
    ensures env.stops && !env.stopFails && env.stopOthers && env.quiet && env.childEnds && env.passed
  {
    var body := [Save(PausedMarker(env))] + TrySteps(env);
    if step in TrySteps(env) {
      PassedInTry(env, step);
    } else if !(env.stops && !env.stopFails && env.stopOthers && env.quiet && env.childEnds && env.passed) {
      MarkerOfTry(m, env);
    }
    hide TrySteps, Play;
  }

  lemma PassedInTry(env: RunInputs, step: Step)
    requires step in TrySteps(env) && step.Save? && step.saved.phase == CombinedPassed
    ensures env.stops && !env.stopFails && env.stopOthers && env.quiet && env.childEnds && env.passed
  {
  }

  predicate NotPassed(m: Machine) {
    m.marker.Some? ==> m.marker.value.phase != CombinedPassed
  }

  lemma {:induction false} PlayNotPassed(m: Machine, steps: seq<Step>)
    requires NotPassed(m)
    requires forall step :: step in steps && step.Save? ==> step.saved.phase != CombinedPassed
    ensures NotPassed(Play(m, steps))
    decreases |steps|
  {
    if steps != [] {
      assert steps[0] in steps;
      PlayNotPassed(Effect(m, steps[0]), steps[1..]);
    }
  }

  lemma MarkerOfTry(m: Machine, env: RunInputs)
    requires NotPassed(m)
    requires !(env.stops && !env.stopFails && env.stopOthers && env.quiet && env.childEnds && env.passed)
    ensures NotPassed(Play(m, [Save(PausedMarker(env))] + TrySteps(env)))
  {
    var body := [Save(PausedMarker(env))] + TrySteps(env);
    forall step | step in body && step.Save?
      ensures step.saved.phase != CombinedPassed
    {
      if step in TrySteps(env) && step.saved.phase == CombinedPassed { PassedInTry(env, step); }
    }
    PlayNotPassed(m, body);
  }

  // ---------------------------------------------------------------- the restore

  /**
   A restore starts the target exactly when the stack is paused, the installer is the known one, the
   installation is the recorded one and verifies, and its own commands work; otherwise it does no
   more than stop the child unit, and that only with the checks passed.
   */
  lemma RestoreActsExactly(m: Machine, env: RestoreInputs)
    ensures var checked := m.marker.Some? && m.marker.value.paused && env.installerValid
                           && m.marker.value.installSha == Some(env.installSha) && env.verified;
            && (StartTarget in RestoreSteps(m, env) <==> checked && (m.child ==> env.stopChild) && env.start)
            && (!checked ==> RestoreSteps(m, env) == [])
            && (StopChild(env.childStarts) in RestoreSteps(m, env) <==> checked && m.child)
  {
    var steps := RestoreSteps(m, env);
    if m.marker.Some? && m.child && |steps| > 0 { assert steps[0] == StopChild(env.childStarts); }
    if m.marker.Some? && |steps| >= 2 { assert steps[|steps| - 2] == StartTarget; }
  }
}

/** The two commands of the test sequence, acting on the machine step by step. */
module SequenceTool {
  import opened Options
  import opened Sequence

  class Supervisor {
    var machine: Machine

    /** The steps taken so far. */
    ghost var trace: seq<Step>

    constructor (machine: Machine)
      ensures this.machine == machine && trace == []
    {
      this.machine := machine;
      trace := [];
    }

    method Do(step: Step)
      modifies this
      ensures machine == Effect(old(machine), step) && trace == old(trace) + [step]
    {
      machine := Effect(machine, step);
      trace := trace + [step];
    }

    method Restore(env: RestoreInputs)
      modifies this
      ensures trace == old(trace) + RestoreSteps(old(machine), env)
      ensures machine == Play(old(machine), RestoreSteps(old(machine), env))
    {
      ghost var start := machine;
      if machine.marker.None? { return; }
      var saved := machine.marker.value;
      if !saved.paused { return; }
      if !env.installerValid || saved.installSha != Some(env.installSha) || !env.verified { return; }
      ghost var stop: seq<Step> := [];
      if machine.child {
        Do(StopChild(env.childStarts));
        stop := [StopChild(env.childStarts)];
        PlayOne(start, stop[0]);
        if !env.stopChild {
          assert RestoreSteps(start, env) == stop;
          return;
        }
      }
      if !env.start {
        assert RestoreSteps(start, env) == stop;
        return;
      }
      var last := saved.(paused := false, restored := true);
      PlayTwo(machine, StartTarget, Save(last));
      PlayConcat(start, stop, [StartTarget, Save(last)]);
      Do(StartTarget);
      Do(Save(last));
      assert RestoreSteps(start, env) == stop + [StartTarget, Save(last)];
    }

    /** Poll until an answer that is not a plain no. */
    method Await(polls: seq<(Native, Proof, string)>) returns (r: Option<Reading>)
      ensures r == Wait(polls)
    {
      for i := 0 to |polls|
        invariant Wait(polls) == Wait(polls[i..])
      {
        var reading := Current(polls[i].0, polls[i].1, polls[i].2);
        assert polls[i..][0] == polls[i] && polls[i..][1..] == polls[i + 1..];
        if AnswerTo(reading) != No { return Some(reading); }
      }
      assert polls[|polls|..] == [];
      r := None;
    }

    /** The body of the `try`. */
    method Qualify(saved: Saved, env: RunInputs)
      requires saved == PausedMarker(env)
      modifies this
      ensures trace == old(trace) + TrySteps(env) && machine == Play(old(machine), TrySteps(env))
    {
      ghost var start, before := machine, trace;
      if !env.stops { return; }
      PlayOne(machine, StopTarget);
      Do(StopTarget);
      if env.stopFails || !env.stopOthers {
        assert TrySteps(env) == [StopTarget];
        return;
      }
      PlayOne(machine, StopOthers);
      PlayConcat(start, [StopTarget], [StopOthers]);
      Do(StopOthers);
      if !env.quiet {
        assert TrySteps(env) == [StopTarget] + [StopOthers];
        return;
      }
      var running := saved.(phase := CombinedRunning);
      PlayTwo(Effect(start, StopTarget), StopOthers, Save(running));
      PlayConcat(start, [StopTarget], [StopOthers, Save(running)]);
      Do(Save(running));
      PlayConcat(start, [StopTarget] + [StopOthers, Save(running)], ChildSteps(env));
      RunChild(saved, env);
      assert TrySteps(env) == [StopTarget] + [StopOthers, Save(running)] + ChildSteps(env);
      assert trace == before + TrySteps(env);
    }

    method RunChild(saved: Saved, env: RunInputs)
      requires saved == PausedMarker(env)
      modifies this
      ensures trace == old(trace) + ChildSteps(env) && machine == Play(old(machine), ChildSteps(env))
    {
      ghost var start := machine;
      PlayOne(start, LaunchChild);
      Do(LaunchChild);
      if !env.childEnds {
        assert ChildSteps(env) == [LaunchChild];
        return;
      }
      var ends, passed := ChildEnds(env.childStarts, env.childStays), Save(saved.(phase := CombinedPassed));
      PlayTwo(start, LaunchChild, ends);
      Do(ends);
      if !env.passed {
        assert ChildSteps(env) == [LaunchChild, ends];
        return;
      }
      PlayOne(machine, passed);
      PlayConcat(start, [LaunchChild, ends], [passed]);
      Do(passed);
      assert ChildSteps(env) == [LaunchChild, ends] + [passed];
    }

    method Run(env: RunInputs)
      modifies this
      ensures trace == old(trace) + RunSteps(old(machine), env)
      ensures machine == Play(old(machine), RunSteps(old(machine), env))
    {
      hide AnswerTo, TrySteps, RestoreSteps, Wait;
      ghost var start, before := machine, trace;
      if !env.root || machine.marker.Some? || !env.pins || machine.child { return; }
      var saved := WAITING;
      PlayOne(machine, Save(saved));
      Do(Save(saved));
      var first := Await(env.polls);
      if first.None? || AnswerTo(first.value) != Yes { return; }
      PlayTwo(start, Save(saved), Confirm(first.value));
      Do(Confirm(first.value));
      var second := Reading(env.again, Some(env.proof), Some(env.sha));
      if AnswerTo(second) != Yes { return; }
      saved := saved.(phase := WaitingGui, nativeEvidence := Some(env.sha));
      PlayTwo(machine, Confirm(second), Save(saved));
      PlayConcat(start, [Save(WAITING), Confirm(first.value)], [Confirm(second), Save(saved)]);
      Do(Confirm(second));
      Do(Save(saved));
      ghost var confirmed := [Save(WAITING), Confirm(first.value)] + [Confirm(second), Save(saved)];
      assert trace == before + confirmed;
      if !env.gui || !env.installValid || !env.targetActive { return; }
      PlayConcat(start, confirmed, PauseSteps(machine, env));
      Pause(saved, env);
    }

    method Pause(waiting: Saved, env: RunInputs)
      requires waiting == GuiMarker(env)
      modifies this
      ensures trace == old(trace) + PauseSteps(old(machine), env)
              && machine == Play(old(machine), PauseSteps(old(machine), env))
    {
      hide TrySteps, RestoreSteps;
      ghost var start := machine;
      var saved := waiting.(phase := CombinedPreparing, paused := true, installSha := Some(env.installSha));
      PlayOne(start, Save(saved));
      PlayConcat(start, [Save(saved)], TrySteps(env));
      Do(Save(saved));
      Qualify(saved, env);
      ghost var body := [Save(saved)] + TrySteps(env);
      PlayConcat(start, body, RestoreSteps(machine, env.restore));
      Restore(env.restore);
    }
  }
}

/** The tool itself, file by file and call by call, proved against the step lists. */
module UpgradeTool {
  import opened Options
  import opened Upgrade
  import opened UpgradeSafety

  class Machine {
    var units: map<UnitName, string>
    var install: InstallFile
    var acceptance: AcceptanceFile
    var workExists: bool
    var beforeInstall: Option<InstallFile>
    var beforeAcceptance: Option<AcceptanceFile>
    var plan: Option<Plan>
    var loaded: map<UnitName, string>
    var running: map<UnitName, string>
    /** Steps the process may still take before it dies. */
    var lives: nat
    ghost var history: seq<Milestone>

    ghost function State(): Disk
      reads this
    {
      Disk(units, install, acceptance, workExists, beforeInstall, beforeAcceptance, plan, loaded, running, history)
    }

    /** One step was taken completely, or the process ended before it. */
    twostate predicate Took(s: Step, ok: bool)
      reads this
    {
      && (ok <==> old(lives) > 0 && !Refused(old(State()), s))
      && (ok ==> lives == old(lives) - 1 && State() == Apply(old(State()), s))
      && (!ok ==> lives == old(lives) && State() == old(State()))
    }

    // ---------------------------------------------------------------- atomic steps

    method SavePlan(p: Plan) returns (ok: bool)
      modifies this
      ensures Took(Save(p), ok)
    {
      if lives == 0 { return false; }
      history := history + MilestonesOf(State(), p);
      plan := Some(p);
      lives := lives - 1;
      return true;
    }

    method PrivateWriteUnit(name: UnitName, text: string) returns (ok: bool)
      modifies this
      ensures Took(WriteUnit(name, text), ok)
      ensures workExists == old(workExists) && plan == old(plan)
    {
      if lives == 0 { return false; }
      units := units[name := text];
      lives := lives - 1;
      return true;
    }

    method PrivateWriteInstall(file: InstallFile) returns (ok: bool)
      modifies this
      ensures Took(WriteInstall(file), ok)
    {
      if lives == 0 { return false; }
      install := file;
      lives := lives - 1;
      return true;
    }

    method PrivateWriteAcceptance(file: AcceptanceFile) returns (ok: bool)
      modifies this
      ensures Took(WriteAcceptance(file), ok)
    {
      if lives == 0 { return false; }
      acceptance := file;
      lives := lives - 1;
      return true;
    }

    method MakeWorkDirectory() returns (ok: bool)
      modifies this
      ensures Took(MakeWork, ok)
    {
      if lives == 0 { return false; }
      workExists := true;
      lives := lives - 1;
      return true;
    }

    method RetainInstall() returns (ok: bool)
      modifies this
      ensures Took(KeepInstall, ok)
    {
      if lives == 0 { return false; }
      beforeInstall := Some(install);
      lives := lives - 1;
      return true;
    }

    method RetainAcceptance() returns (ok: bool)
      modifies this
      ensures Took(KeepAcceptance, ok)
    {
      if lives == 0 { return false; }
      beforeAcceptance := Some(acceptance);
      lives := lives - 1;
      return true;
    }

    method BackUp() returns (ok: bool)
      modifies this
      ensures Took(BackUpDatabases, ok)
    {
      if lives == 0 { return false; }
      lives := lives - 1;
      return true;
    }

    /** `systemctl stop` of the four units. */
    method Stop() returns (ok: bool)
      modifies this
      ensures Took(StopUnits, ok)
    {
      if lives == 0 { return false; }
      running := Stopped(running);
      lives := lives - 1;
      return true;
    }

    method Reload() returns (ok: bool)
      modifies this
      ensures Took(DaemonReload, ok)
    {
      if lives == 0 { return false; }
      loaded := units;
      lives := lives - 1;
      return true;
    }

    method Start() returns (ok: bool)
      modifies this
      ensures Took(StartUnits, ok)
    {
      if lives == 0 { return false; }
      running := Roles(loaded) + running;
      lives := lives - 1;
      return true;
    }

    method Restart() returns (ok: bool)
      modifies this
      ensures Took(RestartUnits, ok)
    {
      if lives == 0 { return false; }
      running := running + Roles(loaded);
      history := history + [Restarted];
      lives := lives - 1;
      return true;
    }

    /** Digests of the files a state owns, name by name. */
    method ValidateOwned(state: Install) returns (ok: bool)
      ensures ok == Owned(state, units)
    {
      var todo := state.units.Keys;
      while todo != {}
        invariant todo <= state.units.Keys
        invariant forall name :: name in state.units && name !in todo ==>
                    name in units && Sha256(units[name]) == state.units[name]
        decreases |todo|
      {
        var name :| name in todo;
        if name !in units || Sha256(units[name]) != state.units[name] { return false; }
        todo := todo - {name};
      }
      ok := forall r :: r in ROLES ==> r in state.units;
    }

    method VerifyRunning(state: Install) returns (ok: bool)
      modifies this
      ensures Took(Check(state), ok)
    {
      if lives == 0 { return false; }
      var owned := ValidateOwned(state);
      if !owned { return false; }
      var todo := state.units.Keys;
      while todo != {}
        invariant todo <= state.units.Keys
        invariant forall name :: name in state.units && name !in todo ==>
                    name in running && Sha256(running[name]) == state.units[name]
        decreases |todo|
      {
        var name :| name in todo;
        if name !in running || Sha256(running[name]) != state.units[name] { return false; }
        todo := todo - {name};
      }
      history := history + [Checked(state)];
      lives := lives - 1;
      return true;
    }

    // ---------------------------------------------------------------- guards

    /** Refuses any unit or install.json that neither the baseline nor this upgrade wrote. */
    method CheckSwitchFiles(p: Plan) returns (ok: bool)
      ensures ok == SwitchFilesOk(State(), p)
    {
      for i := 0 to |p.units|
        invariant forall j :: 0 <= j < i ==>
                    && IsRole(p.units[j].name)
                    && p.units[j].name in units
                    && (units[p.units[j].name] == p.units[j].before || units[p.units[j].name] == p.units[j].after)
      {
        var change := p.units[i];
        if !IsRole(change.name) { return false; }
        if change.name !in units || (units[change.name] != change.before && units[change.name] != change.after) {
          return false;
        }
      }
      if install.value != p.oldState && install.value != p.newState && install.value != p.acceptedState {
        return false;
      }
      var todo := p.oldState.units.Keys;
      while todo != {}
        invariant todo <= p.oldState.units.Keys
        invariant forall name :: name in p.oldState.units && name !in todo && !ChangedBy(p, name) ==>
                    name in units && Sha256(units[name]) == p.oldState.units[name]
        decreases |todo|
      {
        var name :| name in todo;
        if !ChangedBy(p, name) && (name !in units || Sha256(units[name]) != p.oldState.units[name]) { return false; }
        todo := todo - {name};
      }
      return true;
    }

    // ---------------------------------------------------------------- operations

    method WriteUnits(changes: seq<UnitChange>, forward: bool) returns (ok: bool)
      modifies this
      ensures Proc(State(), lives, ok) == Do(old(State()), old(lives), Writes(changes, forward))
    {
      assert changes[0..] == changes;
      for i := 0 to |changes|
        invariant Do(old(State()), old(lives), Writes(changes, forward))
                  == Do(State(), lives, Writes(changes[i..], forward))
      {
        var change := changes[i];
        var step := WriteUnit(change.name, TextOf(change, forward));
        assert Writes(changes[i..], forward) == [step] + Writes(changes[i + 1..], forward);
        DoCons(State(), lives, step, Writes(changes[i + 1..], forward));
        ok := PrivateWriteUnit(change.name, TextOf(change, forward));
        if !ok { return; }
      }
      return true;
    }

    method MayPrepare(c: Candidate) returns (ok: bool)
      ensures ok == PrepareAllowed(State(), c)
    {
      if workExists || install != c.pinnedInstall || install.value.phase != "enabled" { return false; }
      ok := PassesNow(install.value);
      hide Passes;
      ok := ok && forall r :: r in ROLES ==> r in units && r in c.after;
    }

    method Prepare(c: Candidate) returns (ok: bool)
      modifies this
      ensures Proc(State(), lives, ok) == Upgrade.Prepare(old(State()), old(lives), c)
    {
      var fine := MayPrepare(c);
      if !fine { return false; }
      hide Apply, Do, Refused, Passes;
      ghost var s0 := State();
      var changes, digests := ChangeRoles(c.after);
      var newState := CandidateState(install.value, c, digests);
      var p := Plan(
        install.value, newState, newState.(phase := "enabled"), changes, Prepared, false, false, None, false, false);
      assert p == NewPlan(s0, c);
      ghost var t := PrepareSteps(s0, c);
      DoCons(State(), lives, t[0], [t[1]] + ([t[2]] + ([t[3]])));
      assert t == [t[0]] + ([t[1]] + ([t[2]] + ([t[3]])));
      ok := MakeWorkDirectory();
      if !ok { return; }
      DoCons(State(), lives, t[1], [t[2]] + ([t[3]]));
      ok := RetainInstall();
      if !ok { return; }
      DoCons(State(), lives, t[2], [t[3]]);
      ok := RetainAcceptance();
      if !ok { return; }
      DoLast(State(), lives, t[3]);
      ok := SavePlan(p);
    }

    method PassesNow(state: Install) returns (ok: bool)
      ensures ok == Passes(State(), state)
    {
      ok := ValidateOwned(state);
      if !ok { return; }
      var todo := state.units.Keys;
      while todo != {}
        invariant todo <= state.units.Keys
        invariant forall name :: name in state.units && name !in todo ==>
                    name in running && Sha256(running[name]) == state.units[name]
        decreases |todo|
      {
        var name :| name in todo;
        if name !in running || Sha256(running[name]) != state.units[name] { return false; }
        todo := todo - {name};
      }
    }

    /** The four unit changes and the digests of their new texts, grown role by role. */
    method ChangeRoles(after: map<UnitName, string>) returns (changes: seq<UnitChange>, digests: map<UnitName, Digest>)
      requires forall r :: r in ROLES ==> r in units && r in after
      ensures changes == Changes(units, after, ROLES)
      ensures digests == RoleDigests(after)
    {
      changes, digests := [], map[];
      for i := 0 to |ROLES|
        invariant changes == Changes(units, after, ROLES)[..i]
        invariant forall r :: r in digests <==> r in ROLES[..i]
        invariant forall r :: r in digests ==> digests[r] == Sha256(after[r])
      {
        var name := ROLES[i];
        assert ROLES[..i + 1] == ROLES[..i] + [name];
        changes := changes + [UnitChange(name, units[name], after[name])];
        digests := digests[name := Sha256(after[name])];
      }
      assert ROLES[..|ROLES|] == ROLES;
    }

    method Activate(backups: map<string, Digest>) returns (ok: bool)
      modifies this
      ensures Proc(State(), lives, ok) == Upgrade.Activate(old(State()), old(lives), backups)
    {
      if plan.None? { return false; }
      var p := plan.value;
      if p.accepted || p.recover || (p.phase != Prepared && p.phase != RolledBack) { return false; }
      var fine := CheckSwitchFiles(p);
      if !fine { return false; }
      fine := ValidateOwned(p.oldState);
      if !fine { return false; }
      ghost var p0 := p;
      ghost var head, writes, tail := ActivateHead(p, backups), Writes(p.units, true), ActivateTail(p, backups);
      assert ActivateSteps(p, backups) == head + (writes + tail);
      DoConcat(State(), lives, head, writes + tail);
      ok, p := Arm(p, backups);
      if !ok { return; }
      DoConcat(State(), lives, writes, tail);
      ok := WriteUnits(p.units, true);
      if !ok { return; }
      ok := Switch(p0, p, backups);
    }

    /** From the save that owes a recovery to the retained database copies. */
    method Arm(p: Plan, backups: map<string, Digest>) returns (ok: bool, q: Plan)
      modifies this
      ensures Proc(State(), lives, ok) == Do(old(State()), old(lives), ActivateHead(p, backups))
      ensures ok ==> q == BackedUp(Armed(p), backups)
    {
      hide Apply, Do, Refused;
      q := p.(recover := true, phase := Switching);
      ghost var more := if p.backups.None? then [BackUpDatabases, Save(BackedUp(q, backups))] else [];
      assert ActivateHead(p, backups) == [Save(q)] + ([StopUnits] + more);
      DoCons(State(), lives, Save(q), [StopUnits] + more);
      ok := SavePlan(q);
      if !ok { return; }
      DoCons(State(), lives, StopUnits, more);
      ok := Stop();
      if !ok { return; }
      DoNothing(State(), lives);
      if q.backups.None? {
        assert more == [BackUpDatabases] + [Save(BackedUp(q, backups))];
        DoCons(State(), lives, BackUpDatabases, [Save(BackedUp(q, backups))]);
        ok := BackUp();
        if !ok { return; }
        q := q.(backups := Some(backups));
        DoLast(State(), lives, Save(q));
        ok := SavePlan(q);
      }
    }

    /** From the new install.json to the verified candidate. */
    method Switch(ghost p0: Plan, p: Plan, backups: map<string, Digest>) returns (ok: bool)
      requires p == BackedUp(Armed(p0), backups)
      modifies this
      ensures Proc(State(), lives, ok) == Do(old(State()), old(lives), ActivateTail(p0, backups))
    {
      hide Apply, Do, Refused;
      ghost var t := ActivateTail(p0, backups);
      assert t == [t[0]] + ([t[1]] + t[2..]);
      DoCons(State(), lives, t[0], [t[1]] + t[2..]);
      ok := PrivateWriteInstall(Dumps(p.newState));
      if !ok { return; }
      DoCons(State(), lives, t[1], t[2..]);
      ok := Reload();
      if !ok { return; }
      ok := Launch(p0, p, backups);
    }

    /** Start the candidate, check it and record that. */
    method Launch(ghost p0: Plan, p: Plan, backups: map<string, Digest>) returns (ok: bool)
      requires p == BackedUp(Armed(p0), backups)
      modifies this
      ensures Proc(State(), lives, ok) == Do(old(State()), old(lives), ActivateTail(p0, backups)[2..])
    {
      hide Apply, Do, Refused;
      ghost var t := ActivateTail(p0, backups)[2..];
      assert t == [t[0]] + ([t[1]] + [t[2]]);
      DoCons(State(), lives, t[0], [t[1]] + [t[2]]);
      ok := Start();
      if !ok { return; }
      DoCons(State(), lives, t[1], [t[2]]);
      ok := VerifyRunning(p.newState);
      if !ok { return; }
      DoLast(State(), lives, t[2]);
      ok := SavePlan(p.(phase := CandidateVerified));
    }

    method Recover() returns (ok: bool)
      modifies this
      ensures Proc(State(), lives, ok) == Upgrade.Recover(old(State()), old(lives))
    {
      if plan.None? || !plan.value.recover || plan.value.accepted { return true; }
      var p := plan.value;
      var fine := CheckSwitchFiles(p);
      if !fine || beforeInstall.None? || beforeAcceptance.None? { return false; }
      var keptInstall, keptAcceptance := beforeInstall.value, beforeAcceptance.value;
      ghost var writes, tail := Writes(p.units, false), PutBackSteps(p, keptInstall, keptAcceptance);
      assert RecoverSteps(State()) == [StopUnits] + (writes + tail);
      DoCons(State(), lives, StopUnits, writes + tail);
      ok := Stop();
      if !ok { return; }
      DoConcat(State(), lives, writes, tail);
      ok := WriteUnits(p.units, false);
      if !ok { return; }
      ok := PutBack(p, keptInstall, keptAcceptance);
    }

    ghost function PutBackSteps(p: Plan, keptInstall: InstallFile, keptAcceptance: AcceptanceFile): seq<Step> {
      [WriteInstall(keptInstall), WriteAcceptance(keptAcceptance), DaemonReload, StartUnits, Check(p.oldState),
       Save(Disarmed(p))]
    }

    /** From the retained install.json to the end of the rollback. */
    method PutBack(p: Plan, keptInstall: InstallFile, keptAcceptance: AcceptanceFile) returns (ok: bool)
      modifies this
      ensures Proc(State(), lives, ok) == Do(old(State()), old(lives), PutBackSteps(p, keptInstall, keptAcceptance))
    {
      hide Apply, Do, Refused;
      ghost var t := PutBackSteps(p, keptInstall, keptAcceptance);
      assert t == [t[0]] + ([t[1]] + ([t[2]] + ([t[3]] + ([t[4]] + ([t[5]])))));
      DoCons(State(), lives, t[0], [t[1]] + ([t[2]] + ([t[3]] + ([t[4]] + ([t[5]])))));
      ok := PrivateWriteInstall(keptInstall);
      if !ok { return; }
      DoCons(State(), lives, t[1], [t[2]] + ([t[3]] + ([t[4]] + ([t[5]]))));
      ok := PrivateWriteAcceptance(keptAcceptance);
      if !ok { return; }
      DoCons(State(), lives, t[2], [t[3]] + ([t[4]] + ([t[5]])));
      ok := Reload();
      if !ok { return; }
      DoCons(State(), lives, t[3], [t[4]] + ([t[5]]));
      ok := Start();
      if !ok { return; }
      DoCons(State(), lives, t[4], [t[5]]);
      ok := VerifyRunning(p.oldState);
      if !ok { return; }
      DoLast(State(), lives, t[5]);
      var done := p;
      if done.trialFailureInjected && done.phase == CandidateVerified {
        done := done.(rollbackVerified := true);
      }
      done := done.(phase := RolledBack, recover := false);
      assert done == Disarmed(p);
      ok := SavePlan(done);
    }

    method Accept() returns (ok: bool)
      modifies this
      ensures Proc(State(), lives, ok) == Upgrade.Accept(old(State()), old(lives))
    {
      hide Apply, Do, Refused;
      if plan.None? { return false; }
      var p := plan.value;
      if p.phase != CandidateVerified || !p.recover || !p.rollbackVerified { return false; }
      ghost var t := AcceptSteps(p);
      assert t == [t[0]] + ([t[1]] + ([t[2]] + ([t[3]] + ([t[4]]))));
      DoCons(State(), lives, t[0], [t[1]] + ([t[2]] + ([t[3]] + ([t[4]]))));
      ok := Restart();
      if !ok { return; }
      DoCons(State(), lives, t[1], [t[2]] + ([t[3]] + ([t[4]])));
      ok := VerifyRunning(p.newState);
      if !ok { return; }
      DoCons(State(), lives, t[2], [t[3]] + ([t[4]]));
      ok := PrivateWriteInstall(Dumps(p.acceptedState));
      if !ok { return; }
      DoCons(State(), lives, t[3], [t[4]]);
      ok := PrivateWriteAcceptance(Evidence(p.newState.release, |p.newState.units|));
      if !ok { return; }
      DoLast(State(), lives, t[4]);
      ok := SavePlan(p.(accepted := true, recover := false, phase := AcceptedPhase));
    }

    // ---------------------------------------------------------------- commands

    method TrialCommand(c: Candidate, backups: map<string, Digest>) returns (ok: bool)
      modifies this
      ensures Proc(State(), lives, ok) == Upgrade.Trial(old(State()), old(lives), c, backups)
    {
      hide Apply, Do, Refused, Upgrade.Prepare, Upgrade.Activate;
      ok := Prepare(c);
      if !ok { return; }
      ok := Activate(backups);
      if !ok { return; }
      if plan.None? { return false; }
      var p := plan.value.(trialFailureInjected := true);
      DoLast(State(), lives, Save(p));
      ok := SavePlan(p);
    }

    method ActivateCommand(backups: map<string, Digest>) returns (ok: bool)
      modifies this
      ensures Proc(State(), lives, ok) == Upgrade.Retry(old(State()), old(lives), backups)
    {
      if plan.None? || !plan.value.rollbackVerified || plan.value.phase != RolledBack { return false; }
      ok := Activate(backups);
      if !ok { return; }
      ok := Accept();
    }
  }

  lemma DoLast(d: Disk, n: nat, s: Step)
    ensures Do(d, n, [s]) == if n == 0 || Refused(d, s) then Proc(d, n, false) else Proc(Apply(d, s), n - 1, true)
  {
    DoCons(d, n, s, []);
  }

  lemma DoNothing(d: Disk, n: nat)
    ensures Do(d, n, []) == Proc(d, n, true)
  {
  }
}

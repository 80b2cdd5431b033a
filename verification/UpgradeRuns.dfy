/** Whole lives of the machine: any commands, each cut anywhere, with reboots in between. */
module UpgradeRuns {
  import opened Options
  import opened Upgrade
  import opened UpgradeSafety

  // ---------------------------------------------------------------- what the history must contain

  predicate Subseq(pattern: seq<Milestone>, h: seq<Milestone>) {
    if pattern == [] then true
    else if h == [] then false
    else (pattern[|pattern| - 1] == h[|h| - 1] && Subseq(pattern[..|pattern| - 1], h[..|h| - 1]))
         || Subseq(pattern, h[..|h| - 1])
  }

  lemma SubseqAppend(pattern: seq<Milestone>, h: seq<Milestone>, m: Milestone)
    requires Subseq(pattern, h)
    ensures Subseq(pattern + [m], h + [m])
    ensures Subseq(pattern, h + [m])
  {
    assert (pattern + [m])[..|pattern|] == pattern;
    assert (h + [m])[..|h|] == h;
  }

  lemma {:induction false} SubseqExtend(pattern: seq<Milestone>, h: seq<Milestone>, longer: seq<Milestone>)
    requires Subseq(pattern, h) && h <= longer
    ensures Subseq(pattern, longer)
    decreases |longer|
  {
    if |h| == |longer| {
      assert h == longer;
    } else {
      SubseqExtend(pattern, h, longer[..|longer| - 1]);
    }
  }

  /** The candidate was checked running before the injected failure was recorded. */
  function TrialTrace(p: Plan): seq<Milestone> {
    [Checked(p.newState), Injected]
  }

  /** Then a recovery checked the old release and ran to its end. */
  function RollbackTrace(p: Plan): seq<Milestone> {
    TrialTrace(p) + [Checked(p.oldState), RollbackSaved]
  }

  /** Then the candidate was checked again, restarted, checked once more, and accepted. */
  function AcceptTrace(p: Plan): seq<Milestone> {
    RollbackTrace(p) + [Checked(p.newState), Restarted, Checked(p.newState), AcceptanceSaved]
  }

  predicate Gated(d: Disk) {
    d.plan.Some? ==>
      var p := d.plan.value;
      && (p.trialFailureInjected ==> Subseq(TrialTrace(p), d.history))
      && (p.rollbackVerified ==> Subseq(RollbackTrace(p), d.history))
      && (p.accepted ==> Subseq(AcceptTrace(p), d.history))
  }

  predicate Inv(base: Disk, d: Disk) {
    Safe(base, d) && Gated(d)
  }

  lemma GateCarries(d: Disk, next: Disk)
    requires Gated(d) && d.plan.Some? && next.plan.Some?
    requires SameCore(d.plan.value, next.plan.value)
    requires d.history <= next.history
    requires !next.plan.value.accepted
    ensures Gated(next)
  {
    var p := d.plan.value;
    if p.trialFailureInjected { SubseqExtend(TrialTrace(p), d.history, next.history); }
    if p.rollbackVerified { SubseqExtend(RollbackTrace(p), d.history, next.history); }
  }

  // ---------------------------------------------------------------- one command

  lemma RecoverStepsAre(base: Disk, d: Disk)
    requires RecoverAllowed(d) && Kept(base, d) && |d.plan.value.units| == 4
    ensures var p := d.plan.value;
            RecoverSteps(d) == [StopUnits] + (Writes(p.units, false) + RecoverTail(base, p))
  {
  }

  lemma RecoverTailKeeps(base: Disk, p: Plan)
    ensures AllKeep(base, p, RecoverTail(base, p)[..5])
  {
    assert RecoverTail(base, p)[..5] ==
           [WriteInstall(base.install), WriteAcceptance(base.acceptance), DaemonReload, StartUnits, Check(p.oldState)];
  }

  lemma FirstTen(writes: seq<Step>, tail: seq<Step>)
    requires |writes| == 4 && |tail| == 6
    ensures var steps := [StopUnits] + (writes + tail);
            |steps| == 11 && steps[..10] == [StopUnits] + (writes + tail[..5])
  {
  }

  lemma RecoverStepsKeep(base: Disk, d: Disk)
    requires Pending(base, d) && RecoverAllowed(d)
    ensures |RecoverSteps(d)| == 11 && AllKeep(base, d.plan.value, RecoverSteps(d)[..10])
  {
    var p := d.plan.value;
    var writes, tail := Writes(p.units, false), RecoverTail(base, p);
    RecoverStepsAre(base, d);
    PlanStates(base, p);
    hide *;
    WritesKeep(base, p, false);
    RecoverTailKeeps(base, p);
    AllKeepConcat(base, p, writes, tail[..5]);
    AllKeepConcat(base, p, [StopUnits], writes + tail[..5]);
    FirstTen(writes, tail);
  }

  lemma CutRecovery(base: Disk, d: Disk, n: nat)
    requires Pending(base, d) && n < 11
    ensures var next := Recover(d, n).disk;
            Pending(base, next) && SameCore(d.plan.value, next.plan.value) && d.history <= next.history
  {
    PendingIsRecoverable(base, d);
    RecoverStepsKeep(base, d);
    CutBeforeLast(d, n, RecoverSteps(d));
    DoKeepsPending(base, d, n, d.plan.value, RecoverSteps(d)[..10]);
    HistoryGrows(d, n, RecoverSteps(d));
  }

  lemma RecoveredIsIdle(base: Disk, d: Disk)
    requires Pending(base, d)
    ensures var next := Recovered(base, d, d.plan.value);
            Idle(base, next) && next.plan.value.phase == RolledBack && Untouched(base, next)
  {
    RecoveredRuns(base, d);
    RecoveredRest(base, d);
    hide PlanFor, FixturesLive, Recoverable, Recovered, Untouched, Kept, Pending;
  }

  lemma RecoveredRest(base: Disk, d: Disk)
    requires Pending(base, d)
    ensures var next := Recovered(base, d, d.plan.value);
            && next.plan.Some? && PlanFor(base, next.plan.value) && next.workExists && Kept(base, next)
            && !next.plan.value.recover && !next.plan.value.accepted && next.plan.value.phase == RolledBack
            && Untouched(base, next)
  {
    RecoveredSide(base, d.plan.value);
    DisarmedPlan(base, d.plan.value);
    hide PlanFor, FixturesLive, Recoverable, Side, Roles, Stopped, Disarmed, Kept;
  }

  lemma DisarmedPlan(base: Disk, p: Plan)
    requires PlanFor(base, p)
    ensures PlanFor(base, Disarmed(p)) && Disarmed(p).phase == RolledBack && !Disarmed(p).recover
    ensures Disarmed(p).accepted == p.accepted
  {
  }

  lemma RecoveredRuns(base: Disk, d: Disk)
    requires Pending(base, d)
    ensures FixturesLive(base, Recovered(base, d, d.plan.value))
  {
    var p := d.plan.value;
    hide Recoverable, Kept, SideText, Covers;
    RecoveredSide(base, p);
    forall name | name in base.install.value.units && !IsRole(name)
      ensures name in base.units && base.units[name] == Recovered(base, d, p).running[name]
    {
      SideOwned(base, p, false, name);
    }
  }

  lemma RecoveredSide(base: Disk, p: Plan)
    requires PlanFor(base, p)
    ensures Side(base, p, false) == base.units
  {
    forall name | name in base.units
      ensures SideText(base, p, name, false) == base.units[name]
    {
      if IsRole(name) { assert Covers(base, p, RoleIndex(name), name); }
    }
  }

  /** What a completed recovery adds to the history. */
  function Rollback(p: Plan): seq<Milestone> {
    [Checked(p.oldState), RollbackSaved]
  }

  lemma RollbackRecorded(p: Plan, h: seq<Milestone>)
    ensures Subseq(TrialTrace(p), h) ==>
              Subseq(TrialTrace(p), h + Rollback(p)) && Subseq(RollbackTrace(p), h + Rollback(p))
    ensures Subseq(RollbackTrace(p), h) ==> Subseq(RollbackTrace(p), h + Rollback(p))
  {
    hide Subseq, TrialTrace;
    if Subseq(TrialTrace(p), h) {
      SubseqExtend(TrialTrace(p), h, h + Rollback(p));
      SubseqAppendTwo(TrialTrace(p), h, Checked(p.oldState), RollbackSaved);
    }
    if Subseq(RollbackTrace(p), h) { SubseqExtend(RollbackTrace(p), h, h + Rollback(p)); }
  }

  lemma RollbackGate(base: Disk, d: Disk)
    requires Pending(base, d) && Gated(d)
    ensures Gated(Recovered(base, d, d.plan.value))
  {
    var p := d.plan.value;
    hide Subseq, PlanFor, Recoverable, Kept, FixturesLive, Side, Roles, Stopped, AcceptTrace;
    assert !Disarmed(p).accepted && TrialTrace(Disarmed(p)) == TrialTrace(p);
    assert RollbackTrace(Disarmed(p)) == RollbackTrace(p) && Recovered(base, d, p).history == d.history + Rollback(p);
    hide TrialTrace, RollbackTrace, Rollback;
    RollbackRecorded(p, d.history);
  }

  lemma RecoverKeepsInv(base: Disk, d: Disk, n: nat)
    requires Inv(base, d)
    ensures Inv(base, Recover(d, n).disk)
  {
    if RecoveryPending(d) {
      assert Pending(base, d);
      if n >= 11 {
        RecoverEnds(base, d, n);
        RecoveredIsIdle(base, d);
        RollbackGate(base, d);
      } else {
        CutRecovery(base, d, n);
        GateCarries(d, Recover(d, n).disk);
      }
    }
  }

  lemma ActivateStepsAre(p: Plan, backups: map<string, Digest>)
    ensures ActivateSteps(p, backups) ==
            [Save(Armed(p))] + ActivateRest(p, backups)
  {
  }

  lemma ActivateHeadKeeps(base: Disk, p: Plan, backups: map<string, Digest>)
    requires !p.accepted
    ensures AllKeep(base, p, ActivateHead(p, backups)[1..])
  {
    if p.backups.None? {
      assert ActivateHead(p, backups)[1..] == [StopUnits, BackUpDatabases, Save(BackedUp(Armed(p), backups))];
    } else {
      assert ActivateHead(p, backups)[1..] == [StopUnits];
    }
  }

  lemma ActivateRestKeeps(base: Disk, p: Plan, backups: map<string, Digest>)
    requires PlanFor(base, p) && !p.accepted
    ensures AllKeep(base, p, ActivateRest(p, backups))
  {
    ActivateHeadKeeps(base, p, backups);
    WritesKeep(base, p, true);
    assert AllKeep(base, p, ActivateTail(p, backups));
    AllKeepConcat(base, p, Writes(p.units, true), ActivateTail(p, backups));
    AllKeepConcat(base, p, ActivateHead(p, backups)[1..], Writes(p.units, true) + ActivateTail(p, backups));
  }

  lemma ArmedIsPending(base: Disk, d: Disk)
    requires Idle(base, d)
    ensures var p := d.plan.value;
            Apply(d, Save(Armed(p))) == d.(plan := Some(Armed(p))) && Pending(base, d.(plan := Some(Armed(p))))
  {
    var p := d.plan.value;
    QuietSave(d, Armed(p));
    BaseIsReachable(base, d, p);
    CoreDecides(base, d, p, Armed(p));
  }

  /** Wherever activation is cut, the machine is untouched or a recovery is already owed and possible. */
  lemma CutActivation(base: Disk, d: Disk, n: nat, backups: map<string, Digest>)
    requires Idle(base, d)
    ensures var next := Activate(d, n, backups).disk;
            && (n == 0 ==> next == d)
            && (n > 0 ==> Pending(base, next) && SameCore(d.plan.value, next.plan.value) && d.history <= next.history)
  {
    hide *;
    ActivateIs(base, d, n, backups);
    if n > 0 { ArmedRuns(base, d, n - 1, backups); }
  }

  lemma ActivateIs(base: Disk, d: Disk, n: nat, backups: map<string, Digest>)
    requires Idle(base, d)
    ensures var p := d.plan.value;
            Activate(d, n, backups) ==
            if n == 0 then Proc(d, n, false) else Do(d.(plan := Some(Armed(p))), n - 1, ActivateRest(p, backups))
  {
    IdleIsActivatable(base, d);
    ActivateUnfolds(d, n, d.plan.value, backups);
  }

  lemma ArmedRuns(base: Disk, d: Disk, n: nat, backups: map<string, Digest>)
    requires Idle(base, d)
    ensures var p := d.plan.value;
            var next := Do(d.(plan := Some(Armed(p))), n, ActivateRest(p, backups)).disk;
            Pending(base, next) && SameCore(p, next.plan.value) && d.history <= next.history
  {
    var p := d.plan.value;
    ArmedIsPending(base, d);
    ActivateRestKeeps(base, p, backups);
    CutRest(base, d.(plan := Some(Armed(p))), n, p, ActivateRest(p, backups));
  }

  function ActivateRest(p: Plan, backups: map<string, Digest>): seq<Step> {
    ActivateHead(p, backups)[1..] + (Writes(p.units, true) + ActivateTail(p, backups))
  }

  lemma ActivateUnfolds(d: Disk, n: nat, p: Plan, backups: map<string, Digest>)
    requires ActivateAllowed(d) && d.plan == Some(p)
    ensures Activate(d, n, backups) ==
            if n == 0 then Proc(d, n, false) else Do(d.(plan := Some(Armed(p))), n - 1, ActivateRest(p, backups))
  {
    ActivateStepsAre(p, backups);
    QuietSave(d, Armed(p));
    DoCons(d, n, Save(Armed(p)), ActivateRest(p, backups));
  }

  lemma CutRest(base: Disk, d: Disk, n: nat, p: Plan, rest: seq<Step>)
    requires Pending(base, d) && SameCore(p, d.plan.value) && AllKeep(base, p, rest)
    ensures var next := Do(d, n, rest).disk;
            Pending(base, next) && SameCore(p, next.plan.value) && d.history <= next.history
  {
    DoKeepsPending(base, d, n, p, rest);
    HistoryGrows(d, n, rest);
  }

  lemma ActivateKeepsInv(base: Disk, d: Disk, n: nat, backups: map<string, Digest>)
    requires Inv(base, d)
    ensures Inv(base, Activate(d, n, backups).disk)
  {
    if ActivateAllowed(d) {
      assert Idle(base, d);
      CutActivation(base, d, n, backups);
      if n > 0 { GateCarries(d, Activate(d, n, backups).disk); }
    }
  }

  lemma AcceptStepsKeep(base: Disk, p: Plan)
    ensures AllKeep(base, p, AcceptSteps(p)[..4])
  {
    assert AcceptSteps(p)[..4] ==
           [RestartUnits, Check(p.newState), WriteInstall(Dumps(p.acceptedState)), WriteAcceptance(Evidenced(p))];
  }

  lemma CutAcceptance(base: Disk, d: Disk, n: nat)
    requires Pending(base, d) && n < 5
    ensures var next := Accept(d, n).disk;
            Pending(base, next) && SameCore(d.plan.value, next.plan.value) && d.history <= next.history
  {
    var p := d.plan.value;
    if AcceptAllowed(d) {
      AcceptStepsKeep(base, p);
      CutBeforeLast(d, n, AcceptSteps(p));
      DoKeepsPending(base, d, n, p, AcceptSteps(p)[..4]);
      HistoryGrows(d, n, AcceptSteps(p));
    }
  }

  /** The candidate is in place and running from disk, and the files behind it can still be put back. */
  predicate InPlace(base: Disk, d: Disk) {
    && Pending(base, d)
    && d.plan.value.phase == CandidateVerified
    && d.units == Side(base, d.plan.value, true) && d.loaded == d.units
  }

  lemma ActivatedInPlace(base: Disk, d: Disk, n: nat, backups: map<string, Digest>)
    requires Idle(base, d) && Activate(d, n, backups).ok
    ensures var next := Activate(d, n, backups).disk;
            && InPlace(base, next)
            && SameCore(d.plan.value, next.plan.value)
            && next.history == d.history + [Checked(d.plan.value.newState)]
  {
    var p := d.plan.value;
    ActivateEnds(base, d, n, backups);
    CutActivation(base, d, n, backups);
    SameSides(base, p, ActivatedPlan(p, backups), true);
  }

  /** Acceptance right after activation completes exactly when it is not cut short. */
  lemma AcceptEnds(base: Disk, d: Disk, n: nat)
    requires InPlace(base, d) && d.plan.value.rollbackVerified
    ensures n >= 5 ==> Accept(d, n) == Proc(Accepted(d, d.plan.value), n - 5, true)
    ensures n < 5 ==> !Accept(d, n).ok
  {
    AcceptedPasses(base, d, d.plan.value);
    AcceptRuns(d, n, d.plan.value);
  }

  lemma AcceptedIsFinished(base: Disk, d: Disk)
    requires InPlace(base, d)
    ensures Finished(base, Accepted(d, d.plan.value))
  {
    var p := d.plan.value;
    SameSides(base, p, AcceptedPlan(p), true);
    AcceptedRuns(base, d);
  }

  lemma AcceptedRuns(base: Disk, d: Disk)
    requires InPlace(base, d)
    ensures RunsItsFiles(base, Accepted(d, d.plan.value))
  {
    var p := d.plan.value;
    hide Recoverable, Kept, FixturesLive, Side, Covers, Accepted, Roles;
    forall name | name in base.install.value.units
      ensures var end := Accepted(d, p);
              name in end.units && name in end.running && end.running[name] == end.units[name]
    {
      RestartedName(base, d, p, name);
    }
  }

  lemma AcceptGate(d: Disk, h: seq<Milestone>)
    requires d.plan.Some? && d.history == h + [Checked(d.plan.value.newState)]
    requires Subseq(RollbackTrace(d.plan.value), h)
    ensures Subseq(AcceptTrace(d.plan.value), Accepted(d, d.plan.value).history)
  {
    var p := d.plan.value;
    var tail := [Checked(p.newState), Restarted, Checked(p.newState), AcceptanceSaved];
    SubseqAppendFour(RollbackTrace(p), h, tail[0], tail[1], tail[2], tail[3]);
    assert [tail[0], tail[1], tail[2], tail[3]] == tail;
    assert Accepted(d, p).history == h + tail;
  }

  lemma SubseqAppendTwo(pattern: seq<Milestone>, h: seq<Milestone>, a: Milestone, b: Milestone)
    requires Subseq(pattern, h)
    ensures Subseq(pattern + [a, b], h + [a, b])
  {
    hide Subseq;
    SubseqAppend(pattern, h, a);
    SubseqAppend(pattern + [a], h + [a], b);
    assert pattern + [a, b] == pattern + [a] + [b];
    assert h + [a, b] == h + [a] + [b];
  }

  lemma SubseqAppendFour(
      pattern: seq<Milestone>, h: seq<Milestone>, a: Milestone, b: Milestone, c: Milestone, e: Milestone)
    requires Subseq(pattern, h)
    ensures Subseq(pattern + [a, b, c, e], h + [a, b, c, e])
  {
    hide Subseq;
    SubseqAppendTwo(pattern, h, a, b);
    SubseqAppendTwo(pattern + [a, b], h + [a, b], c, e);
    assert pattern + [a, b, c, e] == pattern + [a, b] + [c, e];
    assert h + [a, b, c, e] == h + [a, b] + [c, e];
  }

  // ---------------------------------------------------------------- preparation

  lemma PreparedPlan(base: Disk, d: Disk, c: Candidate)
    requires Untouched(base, d) && PrepareAllowed(d, c)
    ensures PlanFor(base, NewPlan(d, c))
  {
    var p := NewPlan(d, c);
    RoleCovered(base, d, c, 0);
    RoleCovered(base, d, c, 1);
    RoleCovered(base, d, c, 2);
    RoleCovered(base, d, c, 3);
    OthersKept(d, c);
    hide Covers, Changes, CandidateState, RoleDigests;
    assert ROLES[0] == Facade && ROLES[1] == Gateway && ROLES[2] == Public && ROLES[3] == Worker;
  }

  lemma RoleCovered(base: Disk, d: Disk, c: Candidate, i: nat)
    requires Untouched(base, d) && PrepareAllowed(d, c) && i < 4
    ensures Covers(base, NewPlan(d, c), i, ROLES[i])
  {
    hide Passes;
    assert ROLES[i] in ROLES;
  }

  lemma OthersKept(d: Disk, c: Candidate)
    requires PrepareAllowed(d, c)
    ensures var p := NewPlan(d, c);
            |p.units| == 4 && p.newState.units.Keys == p.oldState.units.Keys
            && forall name ::
                 name in p.oldState.units && !IsRole(name) ==> p.newState.units[name] == p.oldState.units[name]
  {
    assert ROLES[0] == Facade && ROLES[1] == Gateway && ROLES[2] == Public && ROLES[3] == Worker;
  }

  function PreparedDisk(d: Disk, c: Candidate): Disk
    requires PrepareAllowed(d, c)
  {
    d.(workExists := true, beforeInstall := Some(d.install), beforeAcceptance := Some(d.acceptance),
      plan := Some(NewPlan(d, c)))
  }

  lemma PrepareEnds(d: Disk, n: nat, c: Candidate)
    requires PrepareAllowed(d, c) && d.plan.None?
    ensures n >= 4 ==> Prepare(d, n, c) == Proc(PreparedDisk(d, c), n - 4, true)
    ensures n < 4 ==> !Prepare(d, n, c).ok
    ensures n < 4 ==> var next := Prepare(d, n, c).disk;
                      next == d.(workExists := next.workExists, beforeInstall := next.beforeInstall,
                        beforeAcceptance := next.beforeAcceptance)
  {
    var t := PrepareSteps(d, c);
    var d1 := d.(workExists := true);
    var d2 := d1.(beforeInstall := Some(d.install));
    var d3 := d2.(beforeAcceptance := Some(d.acceptance));
    DoCons(d, n, t[0], [t[1]] + ([t[2]] + ([t[3]] + [])));
    assert t == [t[0]] + ([t[1]] + ([t[2]] + ([t[3]] + [])));
    if n >= 1 { DoCons(d1, n - 1, t[1], [t[2]] + ([t[3]] + [])); }
    if n >= 2 { DoCons(d2, n - 2, t[2], [t[3]] + []); }
    if n >= 3 {
      DoCons(d3, n - 3, t[3], []);
      assert MilestonesOf(d3, NewPlan(d, c)) == [];
      assert d3.history + [] == d.history;
    }
  }

  lemma PreparedIsIdle(base: Disk, d: Disk, c: Candidate)
    requires Unprepared(base, d) && PrepareAllowed(d, c)
    ensures Idle(base, PreparedDisk(d, c)) && Gated(PreparedDisk(d, c))
    ensures !PreparedDisk(d, c).plan.value.trialFailureInjected && !PreparedDisk(d, c).plan.value.rollbackVerified
  {
    PreparedPlan(base, d, c);
    assert PreparedDisk(d, c).plan.value.phase == Prepared;
    forall name | name in base.install.value.units && !IsRole(name)
      ensures name in base.units && name in d.running && d.running[name] == base.units[name]
    {
      assert Sha256(d.units[name]) == Sha256(d.running[name]);
    }
  }

  // ---------------------------------------------------------------- the commands keep the invariant

  lemma InjectGate(base: Disk, d: Disk, h: seq<Milestone>)
    requires Pending(base, d) && !d.plan.value.trialFailureInjected && !d.plan.value.rollbackVerified
    requires d.history == h + [Checked(d.plan.value.newState)]
    ensures var next := Apply(d, Save(d.plan.value.(trialFailureInjected := true)));
            Pending(base, next) && Gated(next)
  {
    var p := d.plan.value;
    InjectedPending(base, d, p);
    InjectedGated(d, p, h);
  }

  lemma InjectedSave(d: Disk, p: Plan)
    requires d.plan == Some(p) && !p.trialFailureInjected && !p.accepted && p.phase != RolledBack
    ensures var q := p.(trialFailureInjected := true);
            Apply(d, Save(q)) == d.(plan := Some(q), history := d.history + [Injected])
  {
    assert MilestonesOf(d, p.(trialFailureInjected := true)) == [Injected];
  }

  lemma InjectedPending(base: Disk, d: Disk, p: Plan)
    requires Pending(base, d) && d.plan == Some(p) && !p.trialFailureInjected
    ensures Pending(base, Apply(d, Save(p.(trialFailureInjected := true))))
  {
    InjectedCore(base, d, p);
    InjectedSave(d, p);
    hide PlanFor, UnitsWithin, InstallWithin, AcceptanceWithin, Apply;
  }

  lemma InjectedGated(d: Disk, p: Plan, h: seq<Milestone>)
    requires d.plan == Some(p) && !p.trialFailureInjected && !p.rollbackVerified && !p.accepted && p.phase != RolledBack
    requires d.history == h + [Checked(p.newState)]
    ensures Gated(Apply(d, Save(p.(trialFailureInjected := true))))
  {
    var q := p.(trialFailureInjected := true);
    InjectedSave(d, p);
    hide Subseq, Apply;
    NothingPrecedes(h);
    SubseqAppend([], h, Checked(p.newState));
    SubseqAppend([] + [Checked(p.newState)], h + [Checked(p.newState)], Injected);
    assert TrialTrace(q) == [] + [Checked(p.newState)] + [Injected];
  }

  lemma NothingPrecedes(h: seq<Milestone>)
    ensures Subseq([], h)
  {
  }

  lemma InjectedCore(base: Disk, d: Disk, p: Plan)
    ensures var q := p.(trialFailureInjected := true);
            && (PlanFor(base, p) ==> PlanFor(base, q))
            && (Recoverable(base, d, p) ==> Recoverable(base, d, q))
  {
    var q := p.(trialFailureInjected := true);
    assert forall name, forward: bool ::
             name in base.units ==> SideText(base, p, name, forward) == SideText(base, q, name, forward);
  }

  function TrialRest(d: Disk, n: nat, backups: map<string, Digest>): Proc {
    var activated := Activate(d, n, backups);
    if !activated.ok || activated.disk.plan.None? then activated.(ok := false) else
    Do(activated.disk, activated.lives, [Save(activated.disk.plan.value.(trialFailureInjected := true))])
  }

  lemma TrialIs(d: Disk, n: nat, c: Candidate, backups: map<string, Digest>)
    ensures var prepared := Prepare(d, n, c);
            Trial(d, n, c, backups)
            == if prepared.ok then TrialRest(prepared.disk, prepared.lives, backups) else prepared
  {
  }

  lemma CutPreparation(base: Disk, d: Disk, n: nat, c: Candidate)
    requires Unprepared(base, d) && PrepareAllowed(d, c) && n < 4
    ensures Inv(base, Prepare(d, n, c).disk)
  {
    PrepareEnds(d, n, c);
  }

  lemma TrialKeepsInv(base: Disk, d: Disk, n: nat, c: Candidate, backups: map<string, Digest>)
    requires Inv(base, d)
    ensures Inv(base, Trial(d, n, c, backups).disk)
  {
    hide *;
    TrialIs(d, n, c, backups);
    if PrepareAllowed(d, c) {
      PreparationIsFirst(base, d, c);
      PrepareEnds(d, n, c);
      if n >= 4 {
        PreparedIsIdle(base, d, c);
        TrialFromPrepared(base, PreparedDisk(d, c), n - 4, backups);
      } else {
        CutPreparation(base, d, n, c);
      }
    } else {
      RefusedPreparation(d, n, c);
    }
  }

  lemma PreparationIsFirst(base: Disk, d: Disk, c: Candidate)
    requires Inv(base, d) && PrepareAllowed(d, c)
    ensures Unprepared(base, d) && d.plan.None?
  {
  }

  lemma RefusedPreparation(d: Disk, n: nat, c: Candidate)
    requires !PrepareAllowed(d, c)
    ensures Prepare(d, n, c) == Proc(d, n, false)
  {
  }

  lemma TrialFromPrepared(base: Disk, d: Disk, n: nat, backups: map<string, Digest>)
    requires Idle(base, d) && Gated(d)
    requires !d.plan.value.trialFailureInjected && !d.plan.value.rollbackVerified
    ensures Inv(base, TrialRest(d, n, backups).disk)
  {
    hide Do, Activate, PlanFor, Recoverable, Kept, FixturesLive, Side;
    var activated := Activate(d, n, backups);
    CutActivation(base, d, n, backups);
    if n > 0 { GateCarries(d, activated.disk); }
    if activated.ok {
      ActivatedInPlace(base, d, n, backups);
      InjectGate(base, activated.disk, d.history);
      SingleSave(activated.disk, activated.lives, activated.disk.plan.value.(trialFailureInjected := true));
    }
  }

  lemma SingleSave(d: Disk, n: nat, p: Plan)
    ensures Do(d, n, [Save(p)]).disk == if n == 0 then d else Apply(d, Save(p))
  {
    DoCons(d, n, Save(p), []);
  }

  lemma RetryKeepsInv(base: Disk, d: Disk, n: nat, backups: map<string, Digest>)
    requires Inv(base, d)
    ensures Inv(base, Retry(d, n, backups).disk)
  {
    if d.plan.Some? && d.plan.value.rollbackVerified && d.plan.value.phase == RolledBack {
      assert Idle(base, d);
      var activated := Activate(d, n, backups);
      ActivateKeepsInv(base, d, n, backups);
      if activated.ok {
        ActivatedInPlace(base, d, n, backups);
        AcceptKeepsInv(base, activated.disk, activated.lives, d.history);
      }
    }
  }

  lemma AcceptedGated(d: Disk, h: seq<Milestone>)
    requires d.plan.Some? && d.history == h + [Checked(d.plan.value.newState)]
    requires Subseq(RollbackTrace(d.plan.value), h)
    requires Gated(d)
    ensures Gated(Accepted(d, d.plan.value))
  {
    var p := d.plan.value;
    AcceptGate(d, h);
    SubseqExtend(RollbackTrace(p), h, Accepted(d, p).history);
    if p.trialFailureInjected { SubseqExtend(TrialTrace(p), d.history, Accepted(d, p).history); }
  }

  lemma AcceptKeepsInv(base: Disk, d: Disk, n: nat, h: seq<Milestone>)
    requires InPlace(base, d) && Gated(d) && d.plan.value.rollbackVerified
    requires d.history == h + [Checked(d.plan.value.newState)]
    requires Subseq(RollbackTrace(d.plan.value), h)
    ensures Inv(base, Accept(d, n).disk)
  {
    hide Do, Accept, Accepted, PlanFor, Recoverable, Kept, FixturesLive, Side, FullyAccepted, Gated, Finished, Subseq;
    if n >= 5 {
      AcceptEnds(base, d, n);
      AcceptedIsFinished(base, d);
      AcceptedGated(d, h);
    } else {
      CutAcceptance(base, d, n);
      GateCarries(d, Accept(d, n).disk);
    }
  }

  /** A reboot loads the units from their files, so the units the plan does not name still run theirs. */
  lemma BootKeepsFixtures(base: Disk, d: Disk)
    requires Idle(base, d) || Pending(base, d)
    ensures FixturesLive(base, Play(d, Boot))
  {
    var p := d.plan.value;
    hide Recoverable, Kept, PlanFor, InstallWithin, AcceptanceWithin, FixturesLive;
    forall name | name in base.install.value.units && !IsRole(name)
      ensures name in base.units && name in d.units && d.units[name] == base.units[name]
    {
      FixtureUnits(base, d, name);
    }
    BootedFixtures(base, d);
  }

  lemma FixtureUnits(base: Disk, d: Disk, name: UnitName)
    requires Idle(base, d) || Pending(base, d)
    requires name in base.install.value.units && !IsRole(name)
    ensures name in base.units && name in d.units && d.units[name] == base.units[name]
  {
    SideOwned(base, d.plan.value, false, name);
    hide Kept, FixturesLive, InstallWithin, AcceptanceWithin, Covers;
  }

  lemma BootedFixtures(base: Disk, d: Disk)
    requires forall name :: name in base.install.value.units && !IsRole(name) ==>
               name in base.units && name in d.units && d.units[name] == base.units[name]
    ensures FixturesLive(base, Play(d, Boot))
  {
  }

  lemma BootKeepsInv(base: Disk, d: Disk)
    requires Inv(base, d)
    ensures Inv(base, Play(d, Boot))
  {
    if Idle(base, d) || Pending(base, d) { BootKeepsFixtures(base, d); }
    BootKeepsFiles(base, d);
    hide Idle, Pending, Finished, Unprepared, FixturesLive, Subseq, Gated;
    BootKeepsGate(d);
  }

  lemma BootKeepsGate(d: Disk)
    ensures Gated(Play(d, Boot)) == Gated(d)
  {
    hide Subseq;
  }

  lemma BootKeepsFiles(base: Disk, d: Disk)
    ensures Idle(base, d) && FixturesLive(base, Play(d, Boot)) ==> Idle(base, Play(d, Boot))
    ensures Pending(base, d) && FixturesLive(base, Play(d, Boot)) ==> Pending(base, Play(d, Boot))
    ensures Finished(base, d) ==> Finished(base, Play(d, Boot))
    ensures Unprepared(base, d) ==> Unprepared(base, Play(d, Boot))
  {
    hide PlanFor, FixturesLive, Side, SideText, UnitsWithin;
  }

  // ---------------------------------------------------------------- main results

  lemma PlayKeepsInv(base: Disk, d: Disk, e: Event)
    requires Inv(base, d)
    ensures Inv(base, Play(d, e))
  {
    match e
    case RunTrial(n, c, b) => TrialKeepsInv(base, d, n, c, b);
    case RunRecover(n) => RecoverKeepsInv(base, d, n);
    case RunActivate(n, b) => RetryKeepsInv(base, d, n, b);
    case Boot => BootKeepsInv(base, d);
  }

  lemma {:induction false} RunKeepsInv(base: Disk, events: seq<Event>)
    requires Fresh(base)
    ensures Inv(base, Run(base, events))
    decreases |events|
  {
    if events != [] {
      RunKeepsInv(base, events[..|events| - 1]);
      PlayKeepsInv(base, Run(base, events[..|events| - 1]), events[|events| - 1]);
    }
  }

  /**
   Crash safety. After any commands, each cut at any step, and any reboots, the machine is in one
   of three states: the three file sets exactly as they were found and no recovery owed; a
   recovery owed, never refused by its own checks, and every file at a content the plan names;
   or the whole candidate in place, running and accepted.
   */
  lemma CrashSafety(base: Disk, events: seq<Event>)
    requires Fresh(base)
    ensures var d := Run(base, events);
            if RecoveryPending(d) then
              PlanFor(base, d.plan.value) && Recoverable(base, d, d.plan.value) && RecoverAllowed(d)
            else if d.plan.Some? && d.plan.value.accepted then
              PlanFor(base, d.plan.value) && FullyAccepted(base, d, d.plan.value) && RunsItsFiles(base, d)
            else
              Untouched(base, d)
  {
    RunKeepsInv(base, events);
    var d := Run(base, events);
    if RecoveryPending(d) { PendingIsRecoverable(base, d); }
  }

  lemma OwedIsPending(base: Disk, d: Disk)
    requires Inv(base, d)
    ensures RecoveryPending(d) <==> Pending(base, d)
  {
  }

  lemma RunSnoc(base: Disk, events: seq<Event>, e: Event)
    ensures Run(base, events + [e]) == Play(Run(base, events), e)
  {
    assert (events + [e])[..|events|] == events;
  }

  /** Any number of recoveries, cut anywhere, with reboots in between. */
  predicate Struggling(events: seq<Event>) {
    forall i :: 0 <= i < |events| ==> CutOff(events[i])
  }

  predicate CutOff(e: Event) {
    e.Boot? || (e.RunRecover? && e.n < 11)
  }

  lemma CutOffStaysPending(base: Disk, d: Disk, e: Event)
    requires Inv(base, d) && Pending(base, d) && CutOff(e)
    ensures Pending(base, Play(d, e))
  {
    if e.Boot? {
      BootKeepsInv(base, d);
      OwedIsPending(base, Play(d, e));
    } else {
      CutRecovery(base, d, e.n);
    }
  }

  lemma {:induction false} StrugglingStaysPending(base: Disk, before: seq<Event>, cut: seq<Event>)
    requires Fresh(base) && Pending(base, Run(base, before)) && Struggling(cut)
    ensures Pending(base, Run(base, before + cut))
    decreases |cut|
  {
    hide Pending, Play, Run, Fresh, CutOff;
    if cut == [] {
      assert before + cut == before;
    } else {
      var shorter, last := cut[..|cut| - 1], cut[|cut| - 1];
      StrugglingStaysPending(base, before, shorter);
      RunKeepsInv(base, before + shorter);
      CutOffStaysPending(base, Run(base, before + shorter), last);
      RunSnoc(base, before + shorter, last);
      assert before + cut == before + shorter + [last];
    }
  }

  lemma RecoverConverges(base: Disk, d: Disk, n: nat)
    requires Pending(base, d) && n >= 11
    ensures var r := Recover(d, n);
            && r.ok && Idle(base, r.disk) && r.disk.plan.value.phase == RolledBack
            && Passes(r.disk, base.install.value)
  {
    hide Do, Recover, Passes, Side, FixturesLive, Recoverable, Kept, PlanFor, Recovered;
    var p := d.plan.value;
    RecoverEnds(base, d, n);
    RecoveredIsIdle(base, d);
    RecoveredPasses(base, d, p);
    PlanOld(base, p);
  }

  lemma PlanOld(base: Disk, p: Plan)
    requires PlanFor(base, p)
    ensures p.oldState == base.install.value
  {
  }

  /** What passes the check of the running stack runs the files that are there. */
  lemma CheckedRuns(base: Disk, d: Disk)
    ensures Passes(d, base.install.value) ==> RunsItsFiles(base, d)
  {
  }

  /**
   Convergence. However the machine came to owe a recovery, and however many recoveries were cut
   short since, one recovery granted its eleven steps puts every file back exactly, ends with every
   unit running from its original file, and leaves a machine that further recoveries do not touch.
   */
  lemma Convergence(base: Disk, before: seq<Event>, cut: seq<Event>, n: nat)
    requires Fresh(base) && RecoveryPending(Run(base, before)) && Struggling(cut) && n >= 11
    ensures var r := Recover(Run(base, before + cut), n);
            && r.ok && r.disk == Run(base, before + cut + [RunRecover(n)])
            && Untouched(base, r.disk) && RunsItsFiles(base, r.disk)
            && r.disk.plan.Some? && r.disk.plan.value.phase == RolledBack && !RecoveryPending(r.disk)
            && forall m: nat :: Recover(r.disk, m).disk == r.disk
  {
    hide Run, Pending, Do, RecoverAllowed, Passes, Struggling, Fresh, Untouched, RunsItsFiles;
    RunKeepsInv(base, before);
    OwedIsPending(base, Run(base, before));
    StrugglingStaysPending(base, before, cut);
    RecoverConverges(base, Run(base, before + cut), n);
    CheckedRuns(base, Recover(Run(base, before + cut), n).disk);
    RunSnoc(base, before + cut, RunRecover(n));
  }

  /** The acceptance gate over whole runs. */
  lemma AcceptanceGate(base: Disk, events: seq<Event>)
    requires Fresh(base)
    ensures var d := Run(base, events);
            d.plan.Some? && d.plan.value.accepted ==>
              var p := d.plan.value;
              Subseq([Checked(p.newState), Injected, Checked(p.oldState), RollbackSaved,
                      Checked(p.newState), Restarted, Checked(p.newState), AcceptanceSaved], d.history)
  {
    RunKeepsInv(base, events);
    var d := Run(base, events);
    if d.plan.Some? {
      var p := d.plan.value;
      assert AcceptTrace(p) == [Checked(p.newState), Injected, Checked(p.oldState), RollbackSaved,
                                Checked(p.newState), Restarted, Checked(p.newState), AcceptanceSaved];
    }
  }

  lemma FinishedStep(base: Disk, d: Disk, e: Event)
    requires Finished(base, d)
    ensures var next := Play(d, e);
            next.units == d.units && next.install == d.install && next.acceptance == d.acceptance && next.plan == d.plan
  {
  }

  lemma AcceptedIsDone(base: Disk, d: Disk)
    requires Inv(base, d) && d.plan.Some? && d.plan.value.accepted
    ensures Finished(base, d)
  {
    hide PlanFor, Gated, Recoverable, FullyAccepted, Untouched, FixturesLive, Kept;
  }

  /** Acceptance is final: whatever commands and reboots follow, no file and no plan changes again. */
  lemma {:induction false} AcceptanceIsFinal(base: Disk, before: seq<Event>, after: seq<Event>)
    requires Fresh(base) && Run(base, before).plan.Some? && Run(base, before).plan.value.accepted
    ensures var d, end := Run(base, before), Run(base, before + after);
            end.units == d.units && end.install == d.install && end.acceptance == d.acceptance && end.plan == d.plan
    decreases |after|
  {
    hide Run, Fresh, Inv, Finished, Play;
    if after == [] {
      assert before + after == before;
    } else {
      var shorter, last := after[..|after| - 1], after[|after| - 1];
      AcceptanceIsFinal(base, before, shorter);
      RunKeepsInv(base, before + shorter);
      AcceptedIsDone(base, Run(base, before + shorter));
      FinishedStep(base, Run(base, before + shorter), last);
      RunSnoc(base, before + shorter, last);
      assert before + after == before + shorter + [last];
    }
  }

  /** The trial is the only command that can record the injected failure, and it runs once. */
  predicate TrialLost(d: Disk) {
    && d.workExists
    && (d.plan.Some? ==>
          !d.plan.value.trialFailureInjected && !d.plan.value.rollbackVerified && !d.plan.value.accepted)
  }

  lemma LostStep(base: Disk, d: Disk, e: Event)
    requires Inv(base, d) && TrialLost(d)
    ensures TrialLost(Play(d, e))
  {
    if e.RunRecover? && RecoveryPending(d) {
      OwedIsPending(base, d);
      if e.n >= 11 { RecoverEnds(base, d, e.n); } else { CutRecovery(base, d, e.n); }
    }
  }

  /**
   A trial that dies before the failure marker is durable can still be rolled back, but can never
   be accepted: no later command writes the marker.
   */
  lemma {:induction false} LostTrialIsNeverAccepted(base: Disk, before: seq<Event>, after: seq<Event>)
    requires Fresh(base) && TrialLost(Run(base, before))
    ensures TrialLost(Run(base, before + after))
    decreases |after|
  {
    hide TrialLost, Play, Run, Fresh;
    if after == [] {
      assert before + after == before;
    } else {
      var shorter, last := after[..|after| - 1], after[|after| - 1];
      LostTrialIsNeverAccepted(base, before, shorter);
      RunKeepsInv(base, before + shorter);
      LostStep(base, Run(base, before + shorter), last);
      RunSnoc(base, before + shorter, last);
      assert before + after == before + shorter + [last];
    }
  }
}

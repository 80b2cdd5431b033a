/** Which machines can still get to an accepted upgrade, and that some do. */
module UpgradeReach {
  import opened Options
  import opened Upgrade
  import opened UpgradeSafety
  import opened UpgradeRuns

  predicate HasAccepted(d: Disk) {
    d.plan.Some? && d.plan.value.accepted
  }

  // ---------------------------------------------------------------- the flags of a plan

  /**
   The flags are set in order: the injected failure while the checked candidate waits for its
   recovery, then the verified rollback, which stays.
   */
  predicate FlagsInOrder(d: Disk) {
    d.plan.Some? ==>
      var p := d.plan.value;
      || (p.rollbackVerified && p.phase != Prepared)
      || (!p.trialFailureInjected && !p.rollbackVerified && !p.accepted)
      || (p.trialFailureInjected && !p.accepted && p.recover && p.phase == CandidateVerified)
  }

  predicate NoSave(steps: seq<Step>) {
    forall s :: s in steps ==> !s.Save?
  }

  lemma {:induction false} NoSaveKeepsPlan(d: Disk, n: nat, steps: seq<Step>)
    requires NoSave(steps)
    ensures Do(d, n, steps).disk.plan == d.plan
    decreases |steps|
  {
    if steps != [] && n > 0 && !Refused(d, steps[0]) {
      assert steps[0] in steps;
      NoSaveKeepsPlan(Apply(d, steps[0]), n - 1, steps[1..]);
    }
  }

  lemma TailSavesLast(base: Disk, p: Plan)
    ensures |RecoverTail(base, p)| == 6 && NoSave(RecoverTail(base, p)[..5])
  {
    assert RecoverTail(base, p)[..5] ==
           [WriteInstall(base.install), WriteAcceptance(base.acceptance), DaemonReload, StartUnits, Check(p.oldState)];
  }

  lemma WritesSaveNothing(changes: seq<UnitChange>)
    ensures NoSave(Writes(changes, false)) && |Writes(changes, false)| == |changes|
  {
  }

  lemma RecoverSavesLast(base: Disk, d: Disk)
    requires Pending(base, d) && RecoverAllowed(d)
    ensures |RecoverSteps(d)| == 11 && NoSave(RecoverSteps(d)[..10])
  {
    var p := d.plan.value;
    PlanStates(base, p);
    RecoverStepsAre(base, d);
    TailSavesLast(base, p);
    WritesSaveNothing(p.units);
    StopSavesNothing();
    hide *;
    var writes, tail := Writes(p.units, false), RecoverTail(base, p);
    SavesNothingInRow(writes, tail[..5]);
    SavesNothingInRow([StopUnits], writes + tail[..5]);
    FirstTen(writes, tail);
  }

  lemma StopSavesNothing()
    ensures NoSave([StopUnits])
  {
  }

  lemma SavesNothingInRow(a: seq<Step>, b: seq<Step>)
    requires NoSave(a) && NoSave(b)
    ensures NoSave(a + b)
  {
  }

  lemma CutRecoveryKeepsPlan(base: Disk, d: Disk, n: nat)
    requires Pending(base, d) && n < 11
    ensures Recover(d, n).disk.plan == d.plan
  {
    PendingIsRecoverable(base, d);
    RecoverSavesLast(base, d);
    CutBeforeLast(d, n, RecoverSteps(d));
    NoSaveKeepsPlan(d, n, RecoverSteps(d)[..10]);
  }

  lemma RecoverKeepsOrder(base: Disk, d: Disk, n: nat)
    requires Inv(base, d) && FlagsInOrder(d)
    ensures FlagsInOrder(Recover(d, n).disk)
  {
    if RecoveryPending(d) {
      OwedIsPending(base, d);
      hide Inv;
      if n >= 11 {
        RecoverEnds(base, d, n);
      } else {
        CutRecoveryKeepsPlan(base, d, n);
      }
    }
  }

  lemma ActivateKeepsOrder(base: Disk, d: Disk, n: nat, backups: map<string, Digest>)
    requires Idle(base, d)
    ensures var next := Activate(d, n, backups).disk;
            next == d || (next.plan.Some? && SameCore(d.plan.value, next.plan.value) && Pending(base, next))
  {
    CutActivation(base, d, n, backups);
  }

  lemma TrialKeepsOrder(base: Disk, d: Disk, n: nat, c: Candidate, backups: map<string, Digest>)
    requires Inv(base, d) && FlagsInOrder(d)
    ensures FlagsInOrder(Trial(d, n, c, backups).disk)
  {
    hide Inv, Pending, Idle, FlagsInOrder, Prepare, PrepareAllowed, TrialRest, Trial, Unprepared;
    TrialIs(d, n, c, backups);
    if PrepareAllowed(d, c) {
      PreparationIsFirst(base, d, c);
      PrepareEnds(d, n, c);
      if n >= 4 {
        PreparedIsIdle(base, d, c);
        TrialRestInOrder(base, PreparedDisk(d, c), n - 4, backups);
      } else {
        NoPlanInOrder(Prepare(d, n, c).disk);
      }
    } else {
      RefusedPreparation(d, n, c);
    }
  }

  lemma NoPlanInOrder(d: Disk)
    requires d.plan.None?
    ensures FlagsInOrder(d)
  {
  }

  lemma TrialRestInOrder(base: Disk, d: Disk, n: nat, backups: map<string, Digest>)
    requires Idle(base, d) && !d.plan.value.trialFailureInjected && !d.plan.value.rollbackVerified
    ensures FlagsInOrder(TrialRest(d, n, backups).disk)
  {
    hide Do, Activate, PlanFor, Recoverable, Kept, FixturesLive, Side;
    var activated := Activate(d, n, backups);
    ActivateKeepsOrder(base, d, n, backups);
    if activated.ok {
      ActivatedInPlace(base, d, n, backups);
      SingleSave(activated.disk, activated.lives, activated.disk.plan.value.(trialFailureInjected := true));
    }
  }

  lemma RetryKeepsOrder(base: Disk, d: Disk, n: nat, backups: map<string, Digest>)
    requires Inv(base, d) && FlagsInOrder(d)
    ensures FlagsInOrder(Retry(d, n, backups).disk)
  {
    if d.plan.Some? && d.plan.value.rollbackVerified && d.plan.value.phase == RolledBack {
      assert Idle(base, d);
      hide Do, Activate, Accept, Pending, Idle, Side, Inv, InPlace, FlagsInOrder;
      var activated := Activate(d, n, backups);
      ActivateKeepsOrder(base, d, n, backups);
      if activated.ok {
        ActivatedInPlace(base, d, n, backups);
        AcceptKeepsOrder(base, activated.disk, activated.lives);
      } else if activated.disk != d {
        VerifiedInOrder(base, activated.disk);
      }
    }
  }

  lemma VerifiedInOrder(base: Disk, d: Disk)
    requires Pending(base, d) && d.plan.value.rollbackVerified
    ensures FlagsInOrder(d)
  {
    hide PlanFor, Recoverable, Kept, FixturesLive;
  }

  lemma AcceptKeepsOrder(base: Disk, d: Disk, n: nat)
    requires InPlace(base, d) && d.plan.value.rollbackVerified
    ensures FlagsInOrder(Accept(d, n).disk)
  {
    hide Do, Accept, PlanFor, Recoverable, Kept, FixturesLive, Side;
    if n >= 5 { AcceptEnds(base, d, n); } else { CutAcceptance(base, d, n); }
  }

  // ---------------------------------------------------------------- before the work directory exists

  /** As long as no work directory exists, the trial that was possible at the start still is. */
  predicate StillPossible(d: Disk, c: Candidate) {
    !d.workExists ==> d.plan.None? && PrepareAllowed(d, c)
  }

  lemma FirstStepMakesWork(d: Disk, n: nat, c: Candidate, backups: map<string, Digest>)
    requires d.plan.None? && !d.workExists
    ensures var next := Trial(d, n, c, backups).disk; next == d || next.workExists
  {
    hide Do, PrepareAllowed, TrialRest, Activate;
    TrialIs(d, n, c, backups);
    if PrepareAllowed(d, c) {
      if n == 0 { NothingDone(d, PrepareSteps(d, c)); } else { MadeWork(d, n, c, backups); }
    }
  }

  lemma NothingDone(d: Disk, steps: seq<Step>)
    requires steps != []
    ensures Do(d, 0, steps) == Proc(d, 0, false)
  {
  }

  lemma {:induction false} WorkStays(d: Disk, n: nat, steps: seq<Step>)
    requires d.workExists
    ensures Do(d, n, steps).disk.workExists
    decreases |steps|
  {
    if steps != [] && n > 0 && !Refused(d, steps[0]) { WorkStays(Apply(d, steps[0]), n - 1, steps[1..]); }
  }

  lemma MadeWork(d: Disk, n: nat, c: Candidate, backups: map<string, Digest>)
    requires PrepareAllowed(d, c) && n > 0
    ensures Trial(d, n, c, backups).disk.workExists
  {
    var steps := PrepareSteps(d, c);
    assert steps == [MakeWork] + steps[1..];
    DoCons(d, n, MakeWork, steps[1..]);
    WorkStays(Apply(d, MakeWork), n - 1, steps[1..]);
    var prepared := Prepare(d, n, c);
    assert prepared.disk.workExists;
    TrialIs(d, n, c, backups);
    hide PrepareSteps, PrepareAllowed, Do, Prepare;
    if prepared.ok {
      var activated := Activate(prepared.disk, prepared.lives, backups);
      if ActivateAllowed(prepared.disk) {
        WorkStays(prepared.disk, prepared.lives, ActivateSteps(prepared.disk.plan.value, backups));
      }
      if activated.ok && activated.disk.plan.Some? {
        WorkStays(activated.disk, activated.lives, [Save(activated.disk.plan.value.(trialFailureInjected := true))]);
      }
    }
  }

  lemma RecoverKeepsWork(d: Disk, n: nat)
    ensures Recover(d, n).disk.workExists == d.workExists || d.workExists || d.plan.Some?
    ensures d.workExists ==> Recover(d, n).disk.workExists
  {
    if RecoverAllowed(d) {
      if d.workExists { WorkStays(d, n, RecoverSteps(d)); }
    }
  }

  lemma RetryKeepsWork(d: Disk, n: nat, backups: map<string, Digest>)
    requires d.workExists
    ensures Retry(d, n, backups).disk.workExists
  {
    hide Do, SwitchFilesOk, Owned;
    var activated := Activate(d, n, backups);
    if ActivateAllowed(d) { WorkStays(d, n, ActivateSteps(d.plan.value, backups)); }
    if AcceptAllowed(activated.disk) && activated.disk.workExists {
      WorkStays(activated.disk, activated.lives, AcceptSteps(activated.disk.plan.value));
    }
  }

  lemma TrialKeepsWork(d: Disk, n: nat, c: Candidate, backups: map<string, Digest>)
    requires d.workExists
    ensures Trial(d, n, c, backups).disk == d
  {
    RefusedPreparation(d, n, c);
  }

  lemma BootStillPossible(d: Disk, c: Candidate)
    requires d.plan.None? && PrepareAllowed(d, c)
    ensures PrepareAllowed(Play(d, Boot), c)
  {
  }

  lemma PlayKeepsPossible(base: Disk, d: Disk, e: Event, c: Candidate)
    requires StillPossible(d, c)
    ensures StillPossible(Play(d, e), c)
  {
    hide PrepareAllowed, Do;
    if !d.workExists {
      match e
      case RunTrial(n, other, b) => FirstStepMakesWork(d, n, other, b);
      case RunRecover(n) =>
      case RunActivate(n, b) =>
      case Boot => BootStillPossible(d, c);
    } else {
      match e
      case RunTrial(n, other, b) => TrialKeepsWork(d, n, other, b);
      case RunRecover(n) => RecoverKeepsWork(d, n);
      case RunActivate(n, b) => RetryKeepsWork(d, n, b);
      case Boot =>
    }
  }

  lemma {:induction false} RunKeepsHope(base: Disk, events: seq<Event>, c: Candidate)
    requires Fresh(base) && PrepareAllowed(base, c)
    ensures Inv(base, Run(base, events)) && FlagsInOrder(Run(base, events)) && StillPossible(Run(base, events), c)
    decreases |events|
  {
    RunKeepsInv(base, events);
    if events != [] {
      var before, e := events[..|events| - 1], events[|events| - 1];
      RunKeepsHope(base, before, c);
      var d := Run(base, before);
      hide Inv, FlagsInOrder, StillPossible, PrepareAllowed, Play, Fresh;
      PlayKeepsPossible(base, d, e, c);
      PlayKeepsOrder(base, d, e);
    }
  }

  lemma PlayKeepsOrder(base: Disk, d: Disk, e: Event)
    requires Inv(base, d) && FlagsInOrder(d)
    ensures FlagsInOrder(Play(d, e))
  {
    hide Inv, FlagsInOrder, Trial, Recover, Retry;
    match e
    case RunTrial(n, other, b) => TrialKeepsOrder(base, d, n, other, b);
    case RunRecover(n) => RecoverKeepsOrder(base, d, n);
    case RunActivate(n, b) => RetryKeepsOrder(base, d, n, b);
    case Boot => BootKeepsOrder(d);
  }

  lemma BootKeepsOrder(d: Disk)
    requires FlagsInOrder(d)
    ensures FlagsInOrder(Play(d, Boot))
  {
  }

  // ---------------------------------------------------------------- getting to acceptance

  /** After a verified rollback, one command granted its steps accepts. */
  lemma RetryAccepts(base: Disk, d: Disk, backups: map<string, Digest>)
    requires Idle(base, d) && d.plan.value.rollbackVerified && d.plan.value.phase == RolledBack
    ensures HasAccepted(Retry(d, 18, backups).disk)
  {
    hide Do, PlanFor, Recoverable, Kept, FixturesLive, Side, Accept, Activate;
    ActivateEnds(base, d, 18, backups);
    ActivatedInPlace(base, d, 18, backups);
    var activated := Activate(d, 18, backups);
    AcceptEnds(base, activated.disk, activated.lives);
  }

  lemma RecoverVerifies(base: Disk, d: Disk)
    requires Pending(base, d) && FlagsInOrder(d) && !TrialLost(d)
    ensures var next := Recover(d, 11).disk;
            Idle(base, next) && next.plan.value.rollbackVerified && next.plan.value.phase == RolledBack
  {
    RecoverEnds(base, d, 11);
    RecoverConverges(base, d, 11);
    hide Do, Recover, PlanFor, Recoverable, Kept, FixturesLive, Idle;
  }

  /** A trial granted all its steps ends with the injected failure recorded and a recovery owed. */
  lemma TrialInjects(base: Disk, d: Disk, n: nat, c: Candidate, backups: map<string, Digest>)
    requires Unprepared(base, d) && PrepareAllowed(d, c) && n >= 18
    ensures var next := Trial(d, n, c, backups).disk;
            Pending(base, next) && next.plan.value.trialFailureInjected && next.plan.value.phase == CandidateVerified
  {
    hide Do, PlanFor, Recoverable, Kept, FixturesLive, Side, Activate, Prepare, PrepareAllowed;
    TrialIs(d, n, c, backups);
    PrepareEnds(d, n, c);
    PreparedIsIdle(base, d, c);
    var prepared := PreparedDisk(d, c);
    ActivateEnds(base, prepared, n - 4, backups);
    ActivatedInPlace(base, prepared, n - 4, backups);
    var activated := Activate(prepared, n - 4, backups);
    var p := activated.disk.plan.value;
    SingleSave(activated.disk, activated.lives, p.(trialFailureInjected := true));
    InjectedPending(base, activated.disk, p);
    InjectedSave(activated.disk, p);
  }

  /** A trial cut anywhere after its first step has left its directory, and no record of the failure. */
  lemma CutTrialIsLost(base: Disk, d: Disk, n: nat, c: Candidate, backups: map<string, Digest>)
    requires Unprepared(base, d) && PrepareAllowed(d, c) && 1 <= n < 18
    ensures TrialLost(Trial(d, n, c, backups).disk)
  {
    hide Do, PlanFor, Recoverable, Kept, FixturesLive, Side, Activate, Prepare, PrepareAllowed, TrialRest, Trial;
    TrialIs(d, n, c, backups);
    PrepareEnds(d, n, c);
    MadeWork(d, n, c, backups);
    if n >= 4 {
      PreparedIsIdle(base, d, c);
      CutInjection(base, PreparedDisk(d, c), n - 4, backups);
    }
  }

  lemma CutInjection(base: Disk, d: Disk, n: nat, backups: map<string, Digest>)
    requires Idle(base, d) && d.plan.value.backups.None? && n < 14
    requires !d.plan.value.trialFailureInjected && !d.plan.value.rollbackVerified
    ensures var next := TrialRest(d, n, backups).disk;
            next.plan.Some? && !next.plan.value.accepted
            && !next.plan.value.trialFailureInjected && !next.plan.value.rollbackVerified
  {
    hide Do, PlanFor, Recoverable, Kept, FixturesLive, Side, Activate;
    ActivateEnds(base, d, n, backups);
    CutActivation(base, d, n, backups);
    var activated := Activate(d, n, backups);
    if activated.ok {
      SingleSave(activated.disk, activated.lives, activated.disk.plan.value.(trialFailureInjected := true));
    }
  }

  /** What would lead to acceptance from here. */
  function WayToAcceptance(d: Disk, c: Candidate, backups: map<string, Digest>): seq<Event> {
    if HasAccepted(d) then []
    else if d.plan.None? then [RunTrial(18, c, backups), RunRecover(11), RunActivate(18, backups)]
    else if d.plan.value.recover then [RunRecover(11), RunActivate(18, backups)]
    else [RunActivate(18, backups)]
  }

  lemma RunOne(d: Disk, e: Event)
    ensures Run(d, [e]) == Play(d, e)
  {
    assert [e][..0] == [];
    assert Run(d, []) == d;
  }

  lemma {:induction false} RunConcat(d: Disk, a: seq<Event>, b: seq<Event>)
    ensures Run(d, a + b) == Run(Run(d, a), b)
    decreases |b|
  {
    if b == [] {
      assert a + b == a;
    } else {
      assert (a + b)[..|a + b| - 1] == a + b[..|b| - 1];
      RunConcat(d, a, b[..|b| - 1]);
    }
  }

  lemma RecoveredAccepts(base: Disk, d: Disk, backups: map<string, Digest>)
    requires Pending(base, d) && FlagsInOrder(d) && !TrialLost(d)
    ensures HasAccepted(Run(d, [RunRecover(11), RunActivate(18, backups)]))
  {
    RecoverVerifies(base, d);
    RetryAccepts(base, Recover(d, 11).disk, backups);
    hide *;
    RunOne(d, RunRecover(11));
    RunOne(Recover(d, 11).disk, RunActivate(18, backups));
    PlayIs(d, backups);
    PlayIs(Recover(d, 11).disk, backups);
    RunConcat(d, [RunRecover(11)], [RunActivate(18, backups)]);
    assert [RunRecover(11)] + [RunActivate(18, backups)] == [RunRecover(11), RunActivate(18, backups)];
  }

  lemma PlayIs(d: Disk, backups: map<string, Digest>)
    ensures Play(d, RunRecover(11)) == Recover(d, 11).disk
    ensures Play(d, RunActivate(18, backups)) == Retry(d, 18, backups).disk
  {
    hide Recover, Retry;
  }

  lemma InjectedInOrder(base: Disk, d: Disk)
    requires Pending(base, d) && d.plan.value.trialFailureInjected && d.plan.value.phase == CandidateVerified
    ensures FlagsInOrder(d) && !TrialLost(d)
  {
    hide PlanFor, Recoverable, Kept, FixturesLive;
  }

  lemma TrialPlays(d: Disk, c: Candidate, backups: map<string, Digest>)
    ensures Play(d, RunTrial(18, c, backups)) == Trial(d, 18, c, backups).disk
  {
    hide Trial;
  }

  lemma TrialAccepts(base: Disk, d: Disk, c: Candidate, backups: map<string, Digest>)
    requires Unprepared(base, d) && PrepareAllowed(d, c)
    ensures HasAccepted(Run(d, [RunTrial(18, c, backups), RunRecover(11), RunActivate(18, backups)]))
  {
    hide *;
    TrialInjects(base, d, 18, c, backups);
    var next := Trial(d, 18, c, backups).disk;
    InjectedInOrder(base, next);
    RecoveredAccepts(base, next, backups);
    TrialPlays(d, c, backups);
    RunOne(d, RunTrial(18, c, backups));
    RunConcat(d, [RunTrial(18, c, backups)], [RunRecover(11), RunActivate(18, backups)]);
    assert [RunTrial(18, c, backups)] + [RunRecover(11), RunActivate(18, backups)]
           == [RunTrial(18, c, backups), RunRecover(11), RunActivate(18, backups)];
  }

  lemma WayLeads(base: Disk, d: Disk, c: Candidate, backups: map<string, Digest>)
    requires Inv(base, d) && FlagsInOrder(d) && StillPossible(d, c) && !TrialLost(d)
    ensures HasAccepted(Run(d, WayToAcceptance(d, c, backups)))
  {
    if HasAccepted(d) {
      hide Inv;
      assert Run(d, []) == d;
    } else if d.plan.None? {
      assert Unprepared(base, d);
      TrialAccepts(base, d, c, backups);
    } else if d.plan.value.recover {
      assert Pending(base, d);
      RecoveredAccepts(base, d, backups);
    } else {
      assert Idle(base, d) && d.plan.value.rollbackVerified && d.plan.value.phase == RolledBack;
      RetryAccepts(base, d, backups);
      hide *;
      RunOne(d, RunActivate(18, backups));
      PlayIs(d, backups);
    }
  }

  // ---------------------------------------------------------------- main results

  lemma LostIsNotAccepted(d: Disk)
    requires TrialLost(d)
    ensures !HasAccepted(d)
  {
  }

  /**
   Where a trial is possible at all, the upgrade can still be accepted exactly as long as the trial
   was not lost: whatever happened before, some further commands lead to acceptance, or none do.
   */
  lemma AcceptanceReachable(base: Disk, before: seq<Event>, c: Candidate)
    requires Fresh(base) && PrepareAllowed(base, c)
    ensures (exists after: seq<Event> :: HasAccepted(Run(base, before + after))) <==> !TrialLost(Run(base, before))
  {
    var d := Run(base, before);
    RunKeepsHope(base, before, c);
    hide *;
    if TrialLost(d) {
      forall after: seq<Event>
        ensures !HasAccepted(Run(base, before + after))
      {
        LostTrialIsNeverAccepted(base, before, after);
        LostIsNotAccepted(Run(base, before + after));
      }
    } else {
      var way := WayToAcceptance(d, c, map[]);
      WayLeads(base, d, c, map[]);
      RunConcat(base, before, way);
      assert HasAccepted(Run(base, before + way));
    }
  }

  /** A first trial is lost exactly when it is cut after its first step and before the last of its eighteen. */
  lemma TrialsAreLost(base: Disk, n: nat, c: Candidate, backups: map<string, Digest>)
    requires Fresh(base) && PrepareAllowed(base, c)
    ensures TrialLost(Run(base, [RunTrial(n, c, backups)])) <==> 1 <= n < 18
  {
    RunOne(base, RunTrial(n, c, backups));
    RunKeepsInv(base, []);
    assert Run(base, []) == base;
    assert Unprepared(base, base);
    if n == 0 {
      FirstStepIsCut(base, c, backups);
    } else if n < 18 {
      CutTrialIsLost(base, base, n, c, backups);
    } else {
      TrialInjects(base, base, n, c, backups);
    }
    hide Trial, PrepareAllowed, Pending, Unprepared;
  }

  lemma FirstStepIsCut(d: Disk, c: Candidate, backups: map<string, Digest>)
    requires PrepareAllowed(d, c) && d.plan.None?
    ensures Trial(d, 0, c, backups).disk == d
  {
    TrialIs(d, 0, c, backups);
    PrepareEnds(d, 0, c);
    NothingDone(d, PrepareSteps(d, c));
    hide Do, PrepareAllowed, TrialRest;
  }

  /** A machine on which a trial is possible. */
  lemma SomeMachine() returns (base: Disk, c: Candidate)
    ensures Fresh(base) && PrepareAllowed(base, c)
  {
    var units := map[Facade := "a", Gateway := "b", Public := "c", Worker := "d"];
    var digests := map[Facade := Sha256("a"), Gateway := Sha256("b"), Public := Sha256("c"), Worker := Sha256("d")];
    var file := InstallFile(Install("old", "enabled", digests, map[], map[]), "indent=2");
    base := Disk(units, file, Retained(""), false, None, None, None, units, units, []);
    c := Candidate(file, "new", map[], map[Facade := "e", Gateway := "f", Public := "g", Worker := "h"]);
  }
}

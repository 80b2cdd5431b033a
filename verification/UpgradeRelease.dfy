/** Which release an upgrade installs: the candidate of its trial, field by field. */
module UpgradeRelease {
  import opened Options
  import opened Upgrade
  import opened UpgradeSafety
  import opened UpgradeRuns
  import opened UpgradeReach

  // ---------------------------------------------------------------- what a plan must name

  /** The earlier pins, and every file of the old bundle pinned under the old release. */
  ghost predicate Pinned(was: Install, pins: map<(string, string), Digest>) {
    && (forall key :: key in pins <==>
          key in was.fixtureDependencies || (key.0 == was.release && key.1 in was.bundleFiles))
    && (forall key :: key in pins ==>
          pins[key] == if key.0 == was.release && key.1 in was.bundleFiles then was.bundleFiles[key.1]
                       else was.fixtureDependencies[key])
  }

  /** The units of a state: the four of the candidate at the candidate's texts, the others as they were. */
  predicate UnitsOf(was: Install, after: map<UnitName, string>, units: map<UnitName, Digest>) {
    && units.Keys == was.units.Keys
    && (forall name :: name in units ==>
          if name.Fixture? then units[name] == was.units[name]
          else name in after && units[name] == Sha256(after[name]))
  }

  /** The state an upgrade to the candidate installs, in a given phase. */
  ghost predicate Describes(state: Install, was: Install, c: Candidate, phase: string) {
    && state.release == c.release && state.phase == phase && state.bundleFiles == c.bundleFiles
    && Pinned(was, state.fixtureDependencies) && UnitsOf(was, c.after, state.units)
  }

  predicate Switches(change: UnitChange, name: UnitName, base: Disk, c: Candidate) {
    name in base.units && name in c.after && change == UnitChange(name, base.units[name], c.after[name])
  }

  /** The plan leads from the machine as it was found to the candidate. */
  ghost predicate PlanNames(base: Disk, p: Plan, c: Candidate) {
    && p.oldState == base.install.value
    && Describes(p.newState, base.install.value, c, "upgrade-testing")
    && Describes(p.acceptedState, base.install.value, c, "enabled")
    && |p.units| == 4
    && Switches(p.units[0], Facade, base, c) && Switches(p.units[1], Gateway, base, c)
    && Switches(p.units[2], Public, base, c) && Switches(p.units[3], Worker, base, c)
  }

  // ---------------------------------------------------------------- preparation names its candidate

  lemma RolesAre()
    ensures |ROLES| == 4 && ROLES[0] == Facade && ROLES[1] == Gateway && ROLES[2] == Public && ROLES[3] == Worker
    ensures forall name: UnitName :: name in ROLES <==> !name.Fixture?
  {
    forall name: UnitName
      ensures name in ROLES <==> !name.Fixture?
    {
      match name
      case Facade => assert ROLES[0] == name;
      case Gateway => assert ROLES[1] == name;
      case Public => assert ROLES[2] == name;
      case Worker => assert ROLES[3] == name;
      case Fixture(_) =>
    }
  }

  lemma NewPins(was: Install, c: Candidate, digests: map<UnitName, Digest>)
    ensures Pinned(was, CandidateState(was, c, digests).fixtureDependencies)
  {
    var added := map name | name in was.bundleFiles :: (was.release, name) := was.bundleFiles[name];
    forall key: (string, string)
      ensures key in added <==> key.0 == was.release && key.1 in was.bundleFiles
      ensures key in added ==> added[key] == was.bundleFiles[key.1]
    {
      if key.0 == was.release && key.1 in was.bundleFiles { assert key == (was.release, key.1); }
    }
  }

  lemma NewUnits(d: Disk, c: Candidate)
    requires PrepareAllowed(d, c)
    ensures UnitsOf(d.install.value, c.after, NewPlan(d, c).newState.units)
  {
    RolesAre();
    var was := d.install.value;
    assert forall r :: r in ROLES ==> r in was.units;
    assert NewPlan(d, c).newState.units == was.units + RoleDigests(c.after);
    hide Passes, ROLES;
  }

  lemma NewChanges(d: Disk, c: Candidate)
    requires PrepareAllowed(d, c)
    ensures var changes := NewPlan(d, c).units;
            && |changes| == 4
            && Switches(changes[0], Facade, d, c) && Switches(changes[1], Gateway, d, c)
            && Switches(changes[2], Public, d, c) && Switches(changes[3], Worker, d, c)
  {
    RolesAre();
    hide Passes, ROLES;
  }

  lemma SameSwitches(base: Disk, d: Disk, c: Candidate)
    requires base.units == d.units
    ensures forall change, name :: Switches(change, name, d, c) == Switches(change, name, base, c)
  {
  }

  lemma NewPlanNames(base: Disk, d: Disk, c: Candidate)
    requires Untouched(base, d) && PrepareAllowed(d, c)
    ensures PlanNames(base, NewPlan(d, c), c)
  {
    hide Pinned, UnitsOf, Passes, Changes, RoleDigests, Switches;
    NewPins(d.install.value, c, RoleDigests(c.after));
    NewUnits(d, c);
    NewChanges(d, c);
    assert Describes(NewPlan(d, c).newState, base.install.value, c, "upgrade-testing");
    assert Describes(NewPlan(d, c).acceptedState, base.install.value, c, "enabled");
    SameSwitches(base, d, c);
  }

  // ---------------------------------------------------------------- every later save keeps it

  /** The plans lead to the same states, and database backups once recorded are still the recorded ones. */
  predicate Alike(p: Plan, q: Plan) {
    && p.oldState == q.oldState && p.newState == q.newState && p.acceptedState == q.acceptedState
    && p.units == q.units && (p.backups.Some? ==> q.backups == p.backups)
  }

  predicate SavesAlike(p: Plan, steps: seq<Step>) {
    forall i :: 0 <= i < |steps| && steps[i].Save? ==> Alike(p, steps[i].plan)
  }

  lemma {:induction false} DoKeepsPlan(d: Disk, n: nat, steps: seq<Step>, p: Plan)
    requires d.plan.Some? && Alike(p, d.plan.value) && SavesAlike(p, steps)
    ensures var next := Do(d, n, steps).disk; next.plan.Some? && Alike(p, next.plan.value)
    decreases |steps|
  {
    hide Apply, SavesAlike, Alike, Refused;
    if steps != [] && n > 0 && !Refused(d, steps[0]) {
      StepKeepsPlan(d, steps, p);
      DoKeepsPlan(Apply(d, steps[0]), n - 1, steps[1..], p);
    }
  }

  lemma StepKeepsPlan(d: Disk, steps: seq<Step>, p: Plan)
    requires d.plan.Some? && Alike(p, d.plan.value) && steps != [] && SavesAlike(p, steps)
    ensures Apply(d, steps[0]).plan.Some? && Alike(p, Apply(d, steps[0]).plan.value) && SavesAlike(p, steps[1..])
  {
    hide Alike;
  }

  lemma SavesAlikeInRow(p: Plan, a: seq<Step>, b: seq<Step>)
    requires SavesAlike(p, a) && SavesAlike(p, b)
    ensures SavesAlike(p, a + b)
  {
  }

  lemma ActivateSavesAlike(p: Plan, backups: map<string, Digest>)
    ensures SavesAlike(p, ActivateSteps(p, backups))
  {
    ActivateParts(p, backups);
    SavesAlikeInRow(p, Writes(p.units, true), ActivateTail(p, backups));
    SavesAlikeInRow(p, ActivateHead(p, backups), Writes(p.units, true) + ActivateTail(p, backups));
  }

  lemma ActivateKeepsPlan(d: Disk, n: nat, backups: map<string, Digest>)
    requires d.plan.Some?
    ensures var next := Activate(d, n, backups).disk; next.plan.Some? && Alike(d.plan.value, next.plan.value)
  {
    hide ActivateSteps, Do;
    if ActivateAllowed(d) {
      ActivateSavesAlike(d.plan.value, backups);
      DoKeepsPlan(d, n, ActivateSteps(d.plan.value, backups), d.plan.value);
    }
  }

  lemma RecoverKeepsPlan(d: Disk, n: nat)
    requires d.plan.Some?
    ensures var next := Recover(d, n).disk; next.plan.Some? && Alike(d.plan.value, next.plan.value)
  {
    hide Do, SwitchFilesOk;
    if RecoveryPending(d) && RecoverAllowed(d) {
      DoKeepsPlan(d, n, RecoverSteps(d), d.plan.value);
    }
  }

  lemma RetryKeepsPlan(d: Disk, n: nat, backups: map<string, Digest>)
    requires d.plan.Some?
    ensures var next := Retry(d, n, backups).disk; next.plan.Some? && Alike(d.plan.value, next.plan.value)
  {
    hide Do, Activate;
    ActivateKeepsPlan(d, n, backups);
    var activated := Activate(d, n, backups);
    if activated.disk.plan.Some? && AcceptAllowed(activated.disk) {
      DoKeepsPlan(activated.disk, activated.lives, AcceptSteps(activated.disk.plan.value), d.plan.value);
    }
  }

  lemma TrialRestKeepsPlan(d: Disk, n: nat, backups: map<string, Digest>)
    requires d.plan.Some?
    ensures var next := TrialRest(d, n, backups).disk; next.plan.Some? && Alike(d.plan.value, next.plan.value)
  {
    hide Do, Activate;
    ActivateKeepsPlan(d, n, backups);
    var activated := Activate(d, n, backups);
    var q := activated.disk.plan.value.(trialFailureInjected := true);
    DoKeepsPlan(activated.disk, activated.lives, [Save(q)], d.plan.value);
  }

  lemma PlannedWorks(base: Disk, d: Disk)
    requires Inv(base, d) && d.plan.Some?
    ensures d.workExists
  {
    hide PlanFor, Gated, Recoverable, FullyAccepted, Untouched, FixturesLive, Kept;
  }

  lemma PlayKeepsPlan(base: Disk, d: Disk, e: Event)
    requires Inv(base, d) && d.plan.Some?
    ensures var next := Play(d, e); next.plan.Some? && Alike(d.plan.value, next.plan.value)
  {
    hide Inv, Retry, Recover, Do, Activate;
    match e
    case RunTrial(n, c, b) =>
      PlannedWorks(base, d);
      TrialIs(d, n, c, b);
      RefusedPreparation(d, n, c);
    case RunRecover(n) => RecoverKeepsPlan(d, n);
    case RunActivate(n, b) => RetryKeepsPlan(d, n, b);
    case Boot =>
  }

  /** The first plan of a machine comes from the trial that prepares it. */
  lemma FirstPlan(base: Disk, d: Disk, e: Event)
    requires Inv(base, d) && d.plan.None? && Play(d, e).plan.Some?
    ensures e.RunTrial? && PlanNames(base, Play(d, e).plan.value, e.candidate)
  {
    hide Do, PlanNames, Activate, PlanFor, TrialRest, Prepare;
    if e.RunTrial? {
      TrialIs(d, e.n, e.candidate, e.backups);
      if PrepareAllowed(d, e.candidate) {
        PrepareEnds(d, e.n, e.candidate);
        PreparationIsFirst(base, d, e.candidate);
        NewPlanNames(base, d, e.candidate);
        if e.n >= 4 {
          TrialRestKeepsPlan(PreparedDisk(d, e.candidate), e.n - 4, e.backups);
          AlikeNames(base, NewPlan(d, e.candidate), Play(d, e).plan.value, e.candidate);
        }
      } else {
        RefusedPreparation(d, e.n, e.candidate);
      }
    }
  }

  lemma AlikeNames(base: Disk, p: Plan, q: Plan, c: Candidate)
    requires Alike(p, q) && PlanNames(base, p, c)
    ensures PlanNames(base, q, c)
  {
    hide Describes, Switches;
  }

  // ---------------------------------------------------------------- main results

  /**
   The plan on disk is a plan for the candidate of one of the trials, whatever commands were cut in
   whatever place: its release, its files with the old ones still pinned, and its four unit texts.
   */
  lemma {:induction false} PlanIsCandidates(base: Disk, events: seq<Event>) returns (i: nat)
    requires Fresh(base) && Run(base, events).plan.Some?
    ensures i < |events| && events[i].RunTrial?
    ensures PlanNames(base, Run(base, events).plan.value, events[i].candidate)
    decreases |events|
  {
    hide Play, PlanNames;
    assert events != [];
    var before, last := events[..|events| - 1], events[|events| - 1];
    var d := Run(base, before);
    RunKeepsInv(base, before);
    hide *;
    RunLast(base, events);
    if d.plan.Some? {
      i := PlanIsCandidates(base, before);
      PlayKeepsPlan(base, d, last);
      AlikeNames(base, d.plan.value, Run(base, events).plan.value, before[i].candidate);
    } else {
      i := |events| - 1;
      FirstPlan(base, d, last);
    }
  }

  lemma RunLast(base: Disk, events: seq<Event>)
    requires events != []
    ensures Run(base, events) == Play(Run(base, events[..|events| - 1]), events[|events| - 1])
  {
  }

  /** The first database backups that a plan records stay recorded, whatever is tried again later. */
  lemma {:induction false} BackupsStay(base: Disk, before: seq<Event>, after: seq<Event>)
    requires Fresh(base) && Run(base, before).plan.Some? && Run(base, before).plan.value.backups.Some?
    ensures Run(base, before + after).plan.Some?
    ensures Run(base, before + after).plan.value.backups == Run(base, before).plan.value.backups
    decreases |after|
  {
    hide Run, Fresh, Inv, Play;
    if after == [] {
      assert before + after == before;
    } else {
      var shorter, last := after[..|after| - 1], after[|after| - 1];
      BackupsStay(base, before, shorter);
      RunKeepsInv(base, before + shorter);
      PlayKeepsPlan(base, Run(base, before + shorter), last);
      RunSnoc(base, before + shorter, last);
      assert before + after == before + shorter + [last];
    }
  }

  /** The machine holds the candidate and nothing else of another release, file by file. */
  ghost predicate Holds(base: Disk, d: Disk, c: Candidate) {
    && Describes(d.install.value, base.install.value, c, "enabled") && d.install.layout == "indent=2"
    && d.acceptance == Evidence(c.release, |base.install.value.units|)
    && d.units.Keys == base.units.Keys
    && (forall name :: name in d.units ==>
          if name.Fixture? then d.units[name] == base.units[name]
          else name in c.after && d.units[name] == c.after[name])
  }

  lemma NamedSide(base: Disk, p: Plan, c: Candidate)
    requires PlanNames(base, p, c)
    ensures var units := Side(base, p, true);
            && units.Keys == base.units.Keys
            && forall name :: name in units ==>
                 if name.Fixture? then units[name] == base.units[name]
                 else name in c.after && units[name] == c.after[name]
  {
    hide Describes;
  }

  lemma NamedFiles(base: Disk, d: Disk, p: Plan, c: Candidate)
    requires PlanNames(base, p, c) && FullyAccepted(base, d, p)
    ensures Holds(base, d, c)
  {
    NamedSide(base, p, c);
    assert p.newState.units.Keys == base.install.value.units.Keys;
    assert |p.newState.units| == |p.newState.units.Keys| == |base.install.value.units.Keys|;
    hide Side, Pinned, Switches;
  }

  lemma SameNames(base: Disk, d: Disk, c: Candidate)
    requires Holds(base, d, c)
    ensures d.install.value.units.Keys == base.install.value.units.Keys
  {
    hide Pinned;
  }

  /**
   What acceptance installs. A machine that has accepted holds the candidate of one of its trials:
   install.json names its release, its files and its units with the old release's files still
   pinned, acceptance.json is the evidence for that release, the four units have the candidate's
   texts, every other unit is as it was found, and all of them run these texts.
   */
  lemma AcceptedCandidate(base: Disk, events: seq<Event>) returns (i: nat)
    requires Fresh(base)
    requires Run(base, events).plan.Some? && Run(base, events).plan.value.accepted
    ensures i < |events| && events[i].RunTrial?
    ensures Holds(base, Run(base, events), events[i].candidate)
    ensures var d := Run(base, events);
            forall name :: name in d.install.value.units ==>
              name in d.units && name in d.running && d.running[name] == d.units[name]
  {
    i := PlanIsCandidates(base, events);
    CrashSafety(base, events);
    var d := Run(base, events);
    hide Run, Holds, FullyAccepted, PlanNames, PlanFor, Recoverable, SwitchFilesOk;
    NamedFiles(base, d, d.plan.value, events[i].candidate);
    SameNames(base, d, events[i].candidate);
  }

  // ---------------------------------------------------------------- what the commands refuse

  /** Every unit that a state names has a file with the recorded digest, and runs such a file. */
  predicate InOrder(d: Disk, state: Install) {
    forall name :: name in state.units ==>
      && name in d.units && Sha256(d.units[name]) == state.units[name]
      && name in d.running && Sha256(d.running[name]) == state.units[name]
  }

  /**
   A trial touches a machine exactly when none was prepared before, install.json is the pinned one and
   enabled, every unit it names has the recorded file and runs it, and the four units are known.
   */
  lemma TrialActsExactly(d: Disk, n: nat, c: Candidate, backups: map<string, Digest>)
    requires n > 0
    ensures Trial(d, n, c, backups).disk != d
            <==> && !d.workExists && d.install == c.pinnedInstall && d.install.value.phase == "enabled"
                 && InOrder(d, d.install.value)
                 && forall name: UnitName :: !name.Fixture? ==>
                      name in d.install.value.units && name in d.units && name in c.after
  {
    RolesAre();
    AllowedMeans(d, c);
    hide Trial, Prepare, PrepareAllowed, InOrder, TrialRest, ROLES;
    if PrepareAllowed(d, c) {
      MadeWork(d, n, c, backups);
    } else {
      TrialIs(d, n, c, backups);
      RefusedPreparation(d, n, c);
    }
  }

  lemma AllowedMeans(d: Disk, c: Candidate)
    ensures PrepareAllowed(d, c)
            <==> && !d.workExists && d.install == c.pinnedInstall && d.install.value.phase == "enabled"
                 && InOrder(d, d.install.value)
                 && forall name: UnitName :: !name.Fixture? ==>
                      name in d.install.value.units && name in d.units && name in c.after
  {
    RolesAre();
    hide ROLES;
  }

  /** A file that neither the baseline nor the planned release wrote. */
  predicate Foreign(d: Disk, p: Plan) {
    || (exists i :: 0 <= i < |p.units| && (p.units[i].name !in d.units
          || (d.units[p.units[i].name] != p.units[i].before && d.units[p.units[i].name] != p.units[i].after)))
    || (d.install.value != p.oldState && d.install.value != p.newState && d.install.value != p.acceptedState)
    || (exists name :: name in p.oldState.units && (forall i :: 0 <= i < |p.units| ==> p.units[i].name != name)
          && (name !in d.units || Sha256(d.units[name]) != p.oldState.units[name]))
  }

  /** Nothing is stopped or overwritten where somebody else has changed a file, wherever the command is cut. */
  lemma ForeignFilesStay(d: Disk, n: nat, backups: map<string, Digest>)
    requires d.plan.Some? && Foreign(d, d.plan.value)
    ensures Recover(d, n).disk == d && Retry(d, n, backups).disk == d
  {
    hide Do;
    assert !SwitchFilesOk(d, d.plan.value);
  }

  /**
   A check is a check. Wherever a command has a check among its steps and gets past it, the files and
   the running units were in order for that state at that very point.
   */
  lemma {:induction false} PassedChecks(d: Disk, n: nat, steps: seq<Step>, i: nat)
    requires i < |steps| && steps[i].Check? && Do(d, n, steps).ok
    ensures InOrder(Do(d, i, steps).disk, steps[i].state)
    decreases |steps|
  {
    hide Apply;
    if i == 0 {
      assert Do(d, 0, steps).disk == d;
    } else {
      assert steps[1..][i - 1] == steps[i];
      PassedChecks(Apply(d, steps[0]), n - 1, steps[1..], i - 1);
    }
  }
}

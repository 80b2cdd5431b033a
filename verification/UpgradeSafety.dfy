/** What every crash point of the upgrade keeps, and what a completed command reaches. */
module UpgradeSafety {
  import opened Options
  import opened Upgrade

  // ---------------------------------------------------------------- invariants

  /** A machine the tool has not touched. */
  predicate Fresh(d: Disk) {
    && !d.workExists && d.plan.None?
    && d.history == []
    && d.loaded == d.units
    && (forall r :: r in ROLES ==> r in d.units)
  }

  /** Entry `i` of the plan switches `name` away from the file the baseline holds. */
  predicate Covers(base: Disk, p: Plan, i: nat, name: UnitName) {
    && i < |p.units|
    && p.units[i].name == name
    && name in base.units && p.units[i].before == base.units[name]
    && name in p.newState.units && p.newState.units[name] == Sha256(p.units[i].after)
  }

  predicate PlanFor(base: Disk, p: Plan) {
    && p.oldState == base.install.value
    && Owned(p.oldState, base.units)
    && |p.units| == 4
    && Covers(base, p, 0, Facade) && Covers(base, p, 1, Gateway)
    && Covers(base, p, 2, Public) && Covers(base, p, 3, Worker)
    && p.newState.units.Keys == p.oldState.units.Keys
    && (forall name :: name in p.oldState.units && !IsRole(name) ==> p.newState.units[name] == p.oldState.units[name])
    && p.acceptedState == p.newState.(phase := "enabled")
  }

  /** One unit file on one side of the switch; the units the plan does not name have one side. */
  function SideText(base: Disk, p: Plan, name: UnitName, forward: bool): string
    requires name in base.units
  {
    if IsRole(name) && |p.units| == 4 then TextOf(p.units[RoleIndex(name)], forward) else base.units[name]
  }

  function Side(base: Disk, p: Plan, forward: bool): map<UnitName, string>
  {
    map name | name in base.units :: SideText(base, p, name, forward)
  }

  function TextOf(change: UnitChange, forward: bool): string {
    if forward then change.after else change.before
  }

  function RoleIndex(name: UnitName): (i: nat)
    requires IsRole(name)
    ensures i < 4
  {
    match name case Facade => 0 case Gateway => 1 case Public => 2 case Worker => 3
  }

  predicate Kept(base: Disk, d: Disk) {
    && d.beforeInstall == Some(base.install)
    && d.beforeAcceptance == Some(base.acceptance)
  }

  /** The three files sets the upgrade rewrites are exactly the original ones. */
  predicate Untouched(base: Disk, d: Disk) {
    && d.units == base.units
    && d.install == base.install
    && d.acceptance == base.acceptance
  }

  predicate UnitsWithin(base: Disk, p: Plan, units: map<UnitName, string>)
  {
    && units.Keys == base.units.Keys
    && (forall name :: name in base.units ==>
          units[name] == SideText(base, p, name, false) || units[name] == SideText(base, p, name, true))
  }

  predicate InstallWithin(base: Disk, p: Plan, file: InstallFile) {
    file == base.install || file == Dumps(p.newState) || file == Dumps(p.acceptedState)
  }

  predicate AcceptanceWithin(base: Disk, p: Plan, file: AcceptanceFile) {
    file == base.acceptance || file == Evidenced(p)
  }

  /** Every file is at one of the contents the plan names. */
  predicate Recoverable(base: Disk, d: Disk, p: Plan)
  {
    UnitsWithin(base, p, d.units) && InstallWithin(base, p, d.install) && AcceptanceWithin(base, p, d.acceptance)
  }

  predicate FullyAccepted(base: Disk, d: Disk, p: Plan)
  {
    && d.units == Side(base, p, true)
    && d.install == Dumps(p.acceptedState)
    && d.acceptance == Evidenced(p)
  }

  /** The units this upgrade does not name keep running from their own files. */
  predicate FixturesLive(base: Disk, d: Disk) {
    forall name :: name in base.install.value.units && !IsRole(name) ==>
      && name in base.units
      && name in d.running && d.running[name] == base.units[name]
      && name in d.loaded && d.loaded[name] == base.units[name]
  }

  predicate Pending(base: Disk, d: Disk) {
    && d.plan.Some?
    && var p := d.plan.value;
    && PlanFor(base, p) && d.workExists && Kept(base, d) && FixturesLive(base, d)
    && p.recover && !p.accepted && (p.phase == Switching || p.phase == CandidateVerified)
    && Recoverable(base, d, p)
  }

  predicate Idle(base: Disk, d: Disk) {
    && d.plan.Some?
    && var p := d.plan.value;
    && PlanFor(base, p) && d.workExists && Kept(base, d) && FixturesLive(base, d)
    && !p.recover && !p.accepted && (p.phase == Prepared || p.phase == RolledBack)
    && Untouched(base, d)
  }

  predicate Finished(base: Disk, d: Disk) {
    && d.plan.Some?
    && var p := d.plan.value;
    && PlanFor(base, p) && d.workExists
    && p.accepted && !p.recover && p.phase == AcceptedPhase
    && FullyAccepted(base, d, p) && RunsItsFiles(base, d)
  }

  /** Every unit that install.json named, before and after, runs the definition in its file. */
  predicate RunsItsFiles(base: Disk, d: Disk) {
    forall name :: name in base.install.value.units ==>
      name in d.units && name in d.running && d.running[name] == d.units[name]
  }

  predicate Unprepared(base: Disk, d: Disk) {
    && d.plan.None?
    && Untouched(base, d)
    && d.loaded == base.units
    && d.history == []
  }

  /** What holds at every crash point of every run. */
  predicate Safe(base: Disk, d: Disk) {
    Unprepared(base, d) || Idle(base, d) || Pending(base, d) || Finished(base, d)
  }

  // ---------------------------------------------------------------- running a list of steps

  lemma {:induction false} DoConcat(d: Disk, n: nat, a: seq<Step>, b: seq<Step>)
    ensures Do(d, n, a + b) == var first := Do(d, n, a); if first.ok then Do(first.disk, first.lives, b) else first
    decreases |a|
  {
    if a == [] {
      assert a + b == b;
    } else {
      assert (a + b)[0] == a[0] && (a + b)[1..] == a[1..] + b;
      if n > 0 && !Refused(d, a[0]) {
        DoConcat(Apply(d, a[0]), n - 1, a[1..], b);
      }
    }
  }

  lemma DoCons(d: Disk, n: nat, s: Step, rest: seq<Step>)
    ensures Do(d, n, [s] + rest) ==
            if n == 0 || Refused(d, s) then Proc(d, n, false) else Do(Apply(d, s), n - 1, rest)
  {
    assert ([s] + rest)[1..] == rest;
  }

  /** Five steps in a row, at most the fourth of which can be refused. */
  lemma DoFive(d: Disk, n: nat, a: Step, b: Step, c: Step, e: Step, f: Step)
    requires !a.Check? && !b.Check? && !c.Check? && !f.Check?
    ensures var d4 := Apply(Apply(Apply(d, a), b), c);
            var r := Do(d, n, [a, b, c, e, f]);
            && (n >= 5 && !Refused(d4, e) ==> r == Proc(Apply(Apply(d4, e), f), n - 5, true))
            && (r.ok ==> n >= 5 && !Refused(d4, e))
  {
    DoThree(d, n, a, b, c);
    DoConcat(d, n, [a, b, c], [e, f]);
    assert [a, b, c] + [e, f] == [a, b, c, e, f];
    if n >= 3 {
      var d3 := Apply(Apply(Apply(d, a), b), c);
      DoCons(d3, n - 3, e, [f]);
      if n >= 4 && !Refused(d3, e) { DoCons(Apply(d3, e), n - 4, f, []); }
    }
  }

  lemma DoThree(d: Disk, n: nat, a: Step, b: Step, c: Step)
    requires !a.Check? && !b.Check? && !c.Check?
    ensures n >= 3 ==> Do(d, n, [a, b, c]) == Proc(Apply(Apply(Apply(d, a), b), c), n - 3, true)
    ensures n < 3 ==> !Do(d, n, [a, b, c]).ok
  {
    DoCons(d, n, a, [b, c]);
    if n >= 1 { DoCons(Apply(d, a), n - 1, b, [c]); }
    if n >= 2 { DoCons(Apply(Apply(d, a), b), n - 2, c, []); }
  }

  function SetUnits(units: map<UnitName, string>, changes: seq<UnitChange>, forward: bool): map<UnitName, string>
    decreases |changes|
  {
    if changes == [] then units
    else SetUnits(units[changes[0].name := TextOf(changes[0], forward)], changes[1..], forward)
  }

  lemma {:induction false} DoWrites(d: Disk, n: nat, changes: seq<UnitChange>, forward: bool)
    ensures n >= |changes| ==>
              Do(d, n, Writes(changes, forward))
              == Proc(d.(units := SetUnits(d.units, changes, forward)), n - |changes|, true)
    ensures n < |changes| ==> !Do(d, n, Writes(changes, forward)).ok
    decreases |changes|
  {
    if changes != [] {
      var first := WriteUnit(changes[0].name, TextOf(changes[0], forward));
      assert Writes(changes, forward) == [first] + Writes(changes[1..], forward);
      DoCons(d, n, first, Writes(changes[1..], forward));
      if n > 0 {
        DoWrites(Apply(d, first), n - 1, changes[1..], forward);
      }
    }
  }

  lemma {:induction false} SetUnitsAt(
      units: map<UnitName, string>, changes: seq<UnitChange>, forward: bool, name: UnitName, i: nat)
    requires i <= |changes|
    requires i < |changes| ==> changes[i].name == name
    requires forall j :: 0 <= j < |changes| && j != i ==> changes[j].name != name
    ensures i < |changes| ==>
              name in SetUnits(units, changes, forward)
              && SetUnits(units, changes, forward)[name] == TextOf(changes[i], forward)
    ensures i == |changes| ==> (name in SetUnits(units, changes, forward) <==> name in units)
    ensures i == |changes| && name in units ==> SetUnits(units, changes, forward)[name] == units[name]
    decreases |changes|
  {
    if changes != [] {
      var u := units[changes[0].name := TextOf(changes[0], forward)];
      if i == 0 {
        SetUnitsAt(u, changes[1..], forward, name, |changes| - 1);
      } else {
        SetUnitsAt(u, changes[1..], forward, name, i - 1);
      }
    }
  }

  lemma SetUnitsIsSide(base: Disk, p: Plan, units: map<UnitName, string>, forward: bool)
    requires PlanFor(base, p)
    requires units.Keys == base.units.Keys
    requires forall name :: name in units && !IsRole(name) ==> units[name] == base.units[name]
    ensures SetUnits(units, p.units, forward) == Side(base, p, forward)
  {
    forall name: UnitName
      ensures name in SetUnits(units, p.units, forward) <==> name in base.units
      ensures name in base.units ==> SetUnits(units, p.units, forward)[name] == SideText(base, p, name, forward)
    {
      SetUnitsName(base, p, units, forward, name);
    }
  }

  lemma SetUnitsName(base: Disk, p: Plan, units: map<UnitName, string>, forward: bool, name: UnitName)
    requires PlanFor(base, p)
    requires units.Keys == base.units.Keys
    requires name in units && !IsRole(name) ==> units[name] == base.units[name]
    ensures name in SetUnits(units, p.units, forward) <==> name in base.units
    ensures name in base.units ==> SetUnits(units, p.units, forward)[name] == SideText(base, p, name, forward)
  {
    if IsRole(name) { assert Covers(base, p, RoleIndex(name), name); }
    SetUnitsAt(units, p.units, forward, name, if IsRole(name) then RoleIndex(name) else 4);
  }

  // ---------------------------------------------------------------- a pending recovery stays pending

  predicate SameCore(p: Plan, q: Plan) {
    && p.oldState == q.oldState && p.newState == q.newState && p.acceptedState == q.acceptedState && p.units == q.units
    && p.trialFailureInjected == q.trialFailureInjected && p.rollbackVerified == q.rollbackVerified
  }

  predicate KeepsPending(base: Disk, p: Plan, s: Step)
  {
    match s
    case Save(q) => SameCore(p, q) && q.recover && !q.accepted && (q.phase == Switching || q.phase == CandidateVerified)
    case WriteUnit(name, text) =>
      && name in base.units && IsRole(name)
      && (text == SideText(base, p, name, false) || text == SideText(base, p, name, true))
    case WriteInstall(file) => InstallWithin(base, p, file)
    case WriteAcceptance(file) => AcceptanceWithin(base, p, file)
    case MakeWork => false
    case KeepInstall => false
    case KeepAcceptance => false
    case _ => true
  }

  lemma CoreDecides(base: Disk, d: Disk, p: Plan, q: Plan)
    requires SameCore(p, q)
    ensures PlanFor(base, p) <==> PlanFor(base, q)
    ensures Recoverable(base, d, p) <==> Recoverable(base, d, q)
  {
    assert forall name, forward: bool ::
             name in base.units ==> SideText(base, p, name, forward) == SideText(base, q, name, forward);
  }

  lemma SameSides(base: Disk, p: Plan, q: Plan, forward: bool)
    requires p.units == q.units
    ensures Side(base, p, forward) == Side(base, q, forward)
  {
    assert forall name :: name in base.units ==> SideText(base, p, name, forward) == SideText(base, q, name, forward);
  }

  lemma WriteStaysWithin(base: Disk, p: Plan, units: map<UnitName, string>, name: UnitName, text: string)
    requires UnitsWithin(base, p, units)
    requires name in base.units
    requires text == SideText(base, p, name, false) || text == SideText(base, p, name, true)
    ensures UnitsWithin(base, p, units[name := text])
  {
    var u := units[name := text];
    assert u.Keys == units.Keys + {name};
    forall m | m in base.units
      ensures u[m] == SideText(base, p, m, false) || u[m] == SideText(base, p, m, true)
    {
      if m != name { assert u[m] == units[m]; }
    }
  }

  lemma WriteKeepsRecoverable(base: Disk, d: Disk, p: Plan, s: Step)
    requires Recoverable(base, d, p)
    requires KeepsPending(base, p, s)
    ensures Recoverable(base, Apply(d, s), p)
  {
    if s.WriteUnit? {
      WriteStaysWithin(base, p, d.units, s.name, s.text);
    }
  }

  lemma StepKeepsPending(base: Disk, d: Disk, p: Plan, s: Step)
    requires Pending(base, d) && SameCore(p, d.plan.value)
    requires KeepsPending(base, p, s)
    ensures Pending(base, Apply(d, s)) && SameCore(p, Apply(d, s).plan.value)
  {
    var next := Apply(d, s);
    CoreDecides(base, d, p, d.plan.value);
    WriteKeepsRecoverable(base, d, p, s);
    CoreDecides(base, next, p, next.plan.value);
    FixturesStayLive(base, d, s);
  }

  lemma FixturesStayLive(base: Disk, d: Disk, s: Step)
    requires FixturesLive(base, d)
    requires forall name :: name in base.units && !IsRole(name) ==> name in d.units && d.units[name] == base.units[name]
    ensures FixturesLive(base, Apply(d, s))
  {
  }

  predicate AllKeep(base: Disk, p: Plan, steps: seq<Step>) {
    forall i :: 0 <= i < |steps| ==> KeepsPending(base, p, steps[i])
  }

  lemma AllKeepConcat(base: Disk, p: Plan, a: seq<Step>, b: seq<Step>)
    requires AllKeep(base, p, a) && AllKeep(base, p, b)
    ensures AllKeep(base, p, a + b)
  {
  }

  lemma WritesKeep(base: Disk, p: Plan, forward: bool)
    requires PlanFor(base, p)
    ensures AllKeep(base, p, Writes(p.units, forward))
  {
    forall i | 0 <= i < 4
      ensures KeepsPending(base, p, Writes(p.units, forward)[i])
    {
      assert Covers(base, p, i, p.units[i].name) && RoleIndex(p.units[i].name) == i;
    }
  }

  lemma {:induction false} DoKeepsPending(base: Disk, d: Disk, n: nat, p: Plan, steps: seq<Step>)
    requires Pending(base, d) && SameCore(p, d.plan.value)
    requires AllKeep(base, p, steps)
    ensures Pending(base, Do(d, n, steps).disk) && SameCore(p, Do(d, n, steps).disk.plan.value)
    decreases |steps|
  {
    hide Pending, SameCore, Refused, Apply, KeepsPending;
    if steps != [] && n > 0 && !Refused(d, steps[0]) {
      StepKeepsPending(base, d, p, steps[0]);
      DoKeepsPending(base, Apply(d, steps[0]), n - 1, p, steps[1..]);
    }
  }

  // ---------------------------------------------------------------- nothing the tool did is ever refused

  lemma RolesAreChanged(base: Disk, p: Plan, name: UnitName)
    requires PlanFor(base, p)
    ensures ChangedBy(p, name) <==> IsRole(name)
  {
    if IsRole(name) {
      assert p.units[RoleIndex(name)].name == name;
    }
  }

  lemma RoleUnitWithin(base: Disk, units: map<UnitName, string>, p: Plan, i: nat)
    requires PlanFor(base, p) && UnitsWithin(base, p, units) && i < |p.units|
    ensures IsRole(p.units[i].name) && p.units[i].name in units
    ensures units[p.units[i].name] == p.units[i].before || units[p.units[i].name] == p.units[i].after
  {
    hide Owned;
    assert i == RoleIndex(p.units[i].name);
  }

  lemma OtherUnitWithin(base: Disk, units: map<UnitName, string>, p: Plan, name: UnitName)
    requires PlanFor(base, p) && UnitsWithin(base, p, units) && name in p.oldState.units && !ChangedBy(p, name)
    ensures name in units && Sha256(units[name]) == p.oldState.units[name]
  {
    RolesAreChanged(base, p, name);
    hide ChangedBy, Covers;
  }

  lemma ReachIsNotForeign(base: Disk, d: Disk, p: Plan)
    requires PlanFor(base, p) && Recoverable(base, d, p)
    ensures SwitchFilesOk(d, p)
  {
    PlanStates(base, p);
    hide PlanFor, UnitsWithin, ChangedBy;
    forall i | 0 <= i < |p.units|
      ensures IsRole(p.units[i].name) && p.units[i].name in d.units
      ensures d.units[p.units[i].name] == p.units[i].before || d.units[p.units[i].name] == p.units[i].after
    {
      RoleUnitWithin(base, d.units, p, i);
    }
    forall name | name in p.oldState.units && !ChangedBy(p, name)
      ensures name in d.units && Sha256(d.units[name]) == p.oldState.units[name]
    {
      OtherUnitWithin(base, d.units, p, name);
    }
  }

  lemma PlanStates(base: Disk, p: Plan)
    requires PlanFor(base, p)
    ensures p.oldState == base.install.value && |p.units| == 4
  {
    hide Owned, Covers;
  }

  /** `check_switch_files` never refuses a pending recovery, at any crash point. */
  lemma PendingIsRecoverable(base: Disk, d: Disk)
    requires Pending(base, d)
    ensures RecoverAllowed(d)
  {
    ReachIsNotForeign(base, d, d.plan.value);
  }

  lemma BaseIsReachable(base: Disk, d: Disk, p: Plan)
    requires PlanFor(base, p) && Untouched(base, d)
    ensures Recoverable(base, d, p) && Side(base, p, false) == base.units
  {
    forall name | name in base.units
      ensures SideText(base, p, name, false) == base.units[name]
    {
      if IsRole(name) { assert Covers(base, p, RoleIndex(name), name); }
    }
  }

  /** Nor does it, or the ownership check, refuse a retry over the untouched baseline. */
  lemma IdleIsActivatable(base: Disk, d: Disk)
    requires Idle(base, d)
    ensures ActivateAllowed(d)
  {
    BaseIsReachable(base, d, d.plan.value);
    ReachIsNotForeign(base, d, d.plan.value);
  }

  // ---------------------------------------------------------------- where a completed command ends

  /** A save that raises none of the durable flags is not a milestone. */
  lemma QuietSave(d: Disk, q: Plan)
    requires d.plan.Some? && q.trialFailureInjected == d.plan.value.trialFailureInjected
    requires q.phase != RolledBack && !q.accepted
    ensures Apply(d, Save(q)) == d.(plan := Some(q))
  {
    assert MilestonesOf(d, q) == [];
    assert d.history + [] == d.history;
  }

  /** The four units started from `units`, everything else as it was. */
  function Relaunched(d: Disk, units: map<UnitName, string>): Disk {
    d.(units := units, loaded := units, running := Roles(units) + Stopped(d.running))
  }

  lemma SideOwned(base: Disk, p: Plan, forward: bool, name: UnitName)
    requires PlanFor(base, p) && name in p.oldState.units
    ensures name in base.units
    ensures Sha256(SideText(base, p, name, forward)) == StateOf(p, forward).units[name]
  {
    if IsRole(name) { assert Covers(base, p, RoleIndex(name), name); }
  }

  function StateOf(p: Plan, forward: bool): Install {
    if forward then p.newState else p.oldState
  }

  lemma RelaunchedName(base: Disk, d: Disk, p: Plan, forward: bool, name: UnitName)
    requires PlanFor(base, p) && FixturesLive(base, d)
    requires name in p.oldState.units
    ensures var end := Relaunched(d, Side(base, p, forward));
            && name in end.units && name in end.running && end.running[name] == end.units[name]
            && Sha256(end.units[name]) == StateOf(p, forward).units[name]
  {
    SideOwned(base, p, forward, name);
  }

  /** Once files and processes are in place, the check of the running stack cannot refuse them. */
  lemma RelaunchedPasses(base: Disk, d: Disk, p: Plan, forward: bool)
    requires PlanFor(base, p) && FixturesLive(base, d)
    ensures Passes(Relaunched(d, Side(base, p, forward)), StateOf(p, forward))
  {
    forall name | name in StateOf(p, forward).units
      ensures var end := Relaunched(d, Side(base, p, forward));
              && name in end.units && name in end.running && end.running[name] == end.units[name]
              && Sha256(end.units[name]) == StateOf(p, forward).units[name]
    {
      RelaunchedName(base, d, p, forward, name);
    }
  }

  function ActivatedPlan(p: Plan, backups: map<string, Digest>): Plan {
    BackedUp(Armed(p), backups).(phase := CandidateVerified)
  }

  function Activated(base: Disk, d: Disk, p: Plan, backups: map<string, Digest>): Disk {
    Relaunched(d, Side(base, p, true)).(
      install := Dumps(p.newState),
      plan := Some(ActivatedPlan(p, backups)),
      history := d.history + [Checked(p.newState)])
  }

  function ActivateHead(p: Plan, backups: map<string, Digest>): seq<Step> {
    [Save(Armed(p)), StopUnits]
    + (if p.backups.None? then [BackUpDatabases, Save(BackedUp(Armed(p), backups))] else [])
  }

  function ActivateTail(p: Plan, backups: map<string, Digest>): seq<Step> {
    [WriteInstall(Dumps(p.newState)), DaemonReload, StartUnits, Check(p.newState), Save(ActivatedPlan(p, backups))]
  }

  lemma ActivateHeadEnds(d: Disk, n: nat, p: Plan, backups: map<string, Digest>)
    requires d.plan == Some(p) && !p.accepted
    ensures var r := Do(d, n, ActivateHead(p, backups));
            && (n >= |ActivateHead(p, backups)| <==> r.ok)
            && (r.ok ==> r.lives == n - |ActivateHead(p, backups)|
                         && r.disk == d.(running := Stopped(d.running), plan := Some(BackedUp(Armed(p), backups))))
  {
    var p1 := Armed(p);
    var p2 := BackedUp(p1, backups);
    var d1 := d.(plan := Some(p1));
    var d2 := d1.(running := Stopped(d.running));
    var head := [Save(p1), StopUnits];
    QuietSave(d, p1);
    DoTwo(d, n, Save(p1), StopUnits);
    assert Apply(d1, StopUnits) == d2;
    if p.backups.None? {
      DoConcat(d, n, head, [BackUpDatabases, Save(p2)]);
      if n >= 2 {
        QuietSave(d2, p2);
        DoTwo(d2, n - 2, BackUpDatabases, Save(p2));
      }
    } else {
      assert ActivateHead(p, backups) == head;
    }
  }

  lemma DoTwo(d: Disk, n: nat, a: Step, b: Step)
    requires !a.Check? && !b.Check?
    ensures n >= 2 ==> Do(d, n, [a, b]) == Proc(Apply(Apply(d, a), b), n - 2, true)
    ensures n < 2 ==> !Do(d, n, [a, b]).ok
  {
    DoCons(d, n, a, [b]);
    if n >= 1 { DoCons(Apply(d, a), n - 1, b, []); }
  }

  lemma ActivateTailEnds(d: Disk, n: nat, p: Plan, backups: map<string, Digest>, end: Disk)
    requires d.plan.Some? && d.plan.value.trialFailureInjected == p.trialFailureInjected && !p.accepted
    requires end == d.(install := Dumps(p.newState), loaded := d.units, running := Roles(d.units) + d.running,
                       plan := Some(ActivatedPlan(p, backups)), history := d.history + [Checked(p.newState)])
    requires Passes(end, p.newState)
    ensures n >= 5 ==> Do(d, n, ActivateTail(p, backups)) == Proc(end, n - 5, true)
    ensures n < 5 ==> !Do(d, n, ActivateTail(p, backups)).ok
  {
    var t := ActivateTail(p, backups);
    var d3 := d.(install := Dumps(p.newState), loaded := d.units, running := Roles(d.units) + d.running);
    assert Apply(Apply(Apply(d, t[0]), t[1]), t[2]) == d3;
    var d4 := d3.(history := d.history + [Checked(p.newState)]);
    assert Apply(d3, t[3]) == d4;
    QuietSave(d4, ActivatedPlan(p, backups));
    DoFive(d, n, t[0], t[1], t[2], t[3], t[4]);
    assert t == [t[0], t[1], t[2], t[3], t[4]];
  }

  function ActivateLength(p: Plan): nat {
    if p.backups.None? then 13 else 11
  }

  lemma ActivatedPasses(base: Disk, d: Disk, p: Plan, backups: map<string, Digest>)
    requires PlanFor(base, p) && FixturesLive(base, d)
    ensures Passes(Activated(base, d, p, backups), p.newState)
  {
    RelaunchedPasses(base, d, p, true);
  }

  lemma ActivateParts(p: Plan, backups: map<string, Digest>)
    ensures ActivateSteps(p, backups)
            == ActivateHead(p, backups) + (Writes(p.units, true) + ActivateTail(p, backups))
    ensures |ActivateHead(p, backups)| == ActivateLength(p) - 9
  {
    hide Writes;
  }

  lemma ActivateRuns(base: Disk, d: Disk, n: nat, p: Plan, backups: map<string, Digest>)
    requires d.plan == Some(p) && !p.accepted
    requires SetUnits(d.units, p.units, true) == Side(base, p, true) && |p.units| == 4
    requires Passes(Activated(base, d, p, backups), p.newState)
    ensures var r := Do(d, n, ActivateSteps(p, backups));
            && (n >= ActivateLength(p) ==> r == Proc(Activated(base, d, p, backups), n - ActivateLength(p), true))
            && (n < ActivateLength(p) ==> !r.ok)
  {
    var head, writes, tail := ActivateHead(p, backups), Writes(p.units, true), ActivateTail(p, backups);
    hide Do, ActivateSteps, ActivateHead, ActivateTail, ActivateLength, Writes, SetUnits, Side, Passes, Apply;
    ActivateParts(p, backups);
    DoConcat(d, n, head, writes + tail);
    ActivateHeadEnds(d, n, p, backups);
    if n >= |head| {
      var d2 := d.(running := Stopped(d.running), plan := Some(BackedUp(Armed(p), backups)));
      WritesAndTail(d2, n - |head|, p.units, true, Side(base, p, true), tail);
      if n >= |head| + 4 {
        ActivateTailEnds(d2.(units := Side(base, p, true)), n - |head| - 4, p, backups, Activated(base, d, p, backups));
      }
    }
  }

  lemma WritesAndTail(
      d: Disk, n: nat, changes: seq<UnitChange>, forward: bool, units: map<UnitName, string>, tail: seq<Step>)
    requires SetUnits(d.units, changes, forward) == units
    ensures n >= |changes| ==> Do(d, n, Writes(changes, forward) + tail) == Do(d.(units := units), n - |changes|, tail)
    ensures n < |changes| ==> !Do(d, n, Writes(changes, forward) + tail).ok
  {
    DoConcat(d, n, Writes(changes, forward), tail);
    DoWrites(d, n, changes, forward);
  }

  /** Over the untouched baseline, activation completes exactly when it is not cut short. */
  lemma ActivateEnds(base: Disk, d: Disk, n: nat, backups: map<string, Digest>)
    requires Idle(base, d)
    ensures var p := d.plan.value;
            var r := Activate(d, n, backups);
            && (n >= ActivateLength(p) ==> r == Proc(Activated(base, d, p, backups), n - ActivateLength(p), true))
            && (n < ActivateLength(p) ==> !r.ok)
  {
    var p := d.plan.value;
    IdleIsActivatable(base, d);
    SetUnitsIsSide(base, p, d.units, true);
    ActivatedPasses(base, d, p, backups);
    ActivateRuns(base, d, n, p, backups);
  }

  // ---------------------------------------------------------------- recovery

  function Recovered(base: Disk, d: Disk, p: Plan): Disk {
    Relaunched(d, Side(base, p, false)).(
      install := base.install,
      acceptance := base.acceptance,
      plan := Some(Disarmed(p)),
      history := d.history + [Checked(p.oldState), RollbackSaved])
  }

  function RecoverTail(base: Disk, p: Plan): seq<Step> {
    [WriteInstall(base.install), WriteAcceptance(base.acceptance), DaemonReload, StartUnits, Check(p.oldState),
     Save(Disarmed(p))]
  }

  lemma RecoverTailEnds(base: Disk, d: Disk, n: nat, p: Plan, end: Disk)
    requires d.plan == Some(p) && !p.accepted
    requires end == d.(install := base.install, acceptance := base.acceptance, loaded := d.units,
                       running := Roles(d.units) + d.running,
                       plan := Some(Disarmed(p)), history := d.history + [Checked(p.oldState), RollbackSaved])
    requires Passes(end, p.oldState)
    ensures n >= 6 ==> Do(d, n, RecoverTail(base, p)) == Proc(end, n - 6, true)
    ensures n < 6 ==> !Do(d, n, RecoverTail(base, p)).ok
  {
    var t := RecoverTail(base, p);
    var d1 := d.(install := base.install);
    var d4 := d1.(acceptance := base.acceptance, loaded := d.units, running := Roles(d.units) + d.running);
    assert Apply(d, t[0]) == d1;
    assert Apply(Apply(Apply(d1, t[1]), t[2]), t[3]) == d4;
    var d5 := d4.(history := d.history + [Checked(p.oldState)]);
    assert Apply(d4, t[4]) == d5;
    RollbackSave(d5, p);
    DoSix(d, n, t[0], t[1], t[2], t[3], t[4], t[5]);
    assert t == [t[0], t[1], t[2], t[3], t[4], t[5]];
  }

  lemma DoSix(d: Disk, n: nat, z: Step, a: Step, b: Step, c: Step, e: Step, f: Step)
    requires !z.Check? && !a.Check? && !b.Check? && !c.Check? && !f.Check?
    ensures var d4 := Apply(Apply(Apply(Apply(d, z), a), b), c);
            var r := Do(d, n, [z, a, b, c, e, f]);
            && (n >= 6 && !Refused(d4, e) ==> r == Proc(Apply(Apply(d4, e), f), n - 6, true))
            && (r.ok ==> n >= 6 && !Refused(d4, e))
  {
    assert [z, a, b, c, e, f] == [z] + [a, b, c, e, f];
    DoCons(d, n, z, [a, b, c, e, f]);
    if n >= 1 { DoFive(Apply(d, z), n - 1, a, b, c, e, f); }
  }

  lemma RollbackSave(d: Disk, p: Plan)
    requires d.plan == Some(p) && !p.accepted
    ensures Apply(d, Save(Disarmed(p))) == d.(plan := Some(Disarmed(p)), history := d.history + [RollbackSaved])
  {
    assert MilestonesOf(d, Disarmed(p)) == [RollbackSaved];
  }

  lemma RecoveredPasses(base: Disk, d: Disk, p: Plan)
    requires PlanFor(base, p) && FixturesLive(base, d)
    ensures Passes(Recovered(base, d, p), p.oldState)
  {
    RelaunchedPasses(base, d, p, false);
  }

  lemma RecoverRuns(base: Disk, d: Disk, n: nat, p: Plan)
    requires d.plan == Some(p) && !p.accepted
    requires SetUnits(d.units, p.units, false) == Side(base, p, false) && |p.units| == 4
    requires Passes(Recovered(base, d, p), p.oldState)
    ensures var r := Do(d, n, [StopUnits] + (Writes(p.units, false) + RecoverTail(base, p)));
            && (n >= 11 ==> r == Proc(Recovered(base, d, p), n - 11, true))
            && (n < 11 ==> !r.ok)
  {
    var d1 := d.(running := Stopped(d.running));
    DoCons(d, n, StopUnits, Writes(p.units, false) + RecoverTail(base, p));
    assert Apply(d, StopUnits) == d1;
    if n >= 1 {
      WritesAndTail(d1, n - 1, p.units, false, Side(base, p, false), RecoverTail(base, p));
    }
    if n >= 5 {
      RecoverTailEnds(base, d1.(units := Side(base, p, false)), n - 5, p, Recovered(base, d, p));
    }
  }

  /**
   One recovery that is not cut short puts back the four unit files, install.json and
   acceptance.json exactly, with the old release running and checked, from every pending state;
   and a recovery that is granted its eleven steps always gets to the end.
   */
  lemma RecoverEnds(base: Disk, d: Disk, n: nat)
    requires Pending(base, d)
    ensures var r := Recover(d, n);
            && (n >= 11 ==> r == Proc(Recovered(base, d, d.plan.value), n - 11, true))
            && (n < 11 ==> !r.ok)
  {
    var p := d.plan.value;
    PendingIsRecoverable(base, d);
    SetUnitsIsSide(base, p, d.units, false);
    PlanStates(base, p);
    hide PlanFor, Recoverable, Recovered, RecoverTail, Writes, SwitchFilesOk, UnitsWithin, InstallWithin;
    hide AcceptanceWithin, Side;
    RecoveredPasses(base, d, p);
    RecoverRuns(base, d, n, p);
    RecoverIs(base, d, n);
  }

  lemma RecoverIs(base: Disk, d: Disk, n: nat)
    requires RecoverAllowed(d) && Kept(base, d) && |d.plan.value.units| == 4
    ensures Recover(d, n)
            == Do(d, n, [StopUnits] + (Writes(d.plan.value.units, false) + RecoverTail(base, d.plan.value)))
  {
    var p := d.plan.value;
    hide Do, Writes, SwitchFilesOk;
    assert RecoverSteps(d) == [StopUnits] + (Writes(p.units, false) + RecoverTail(base, p));
  }

  // ---------------------------------------------------------------- acceptance

  function AcceptedPlan(p: Plan): Plan {
    p.(accepted := true, recover := false, phase := AcceptedPhase)
  }

  function Accepted(d: Disk, p: Plan): Disk {
    d.(running := d.running + Roles(d.loaded),
       install := Dumps(p.acceptedState),
       acceptance := Evidenced(p),
       plan := Some(AcceptedPlan(p)),
       history := d.history + [Restarted, Checked(p.newState), AcceptanceSaved])
  }

  lemma RestartedName(base: Disk, d: Disk, p: Plan, name: UnitName)
    requires PlanFor(base, p) && FixturesLive(base, d)
    requires d.units == Side(base, p, true) && d.loaded == d.units
    requires name in p.newState.units
    ensures var end := Accepted(d, p);
            && name in end.units && name in end.running && end.running[name] == end.units[name]
            && Sha256(end.units[name]) == p.newState.units[name]
  {
    SideOwned(base, p, true, name);
  }

  lemma AcceptedPasses(base: Disk, d: Disk, p: Plan)
    requires PlanFor(base, p) && FixturesLive(base, d)
    requires d.units == Side(base, p, true) && d.loaded == d.units
    ensures Passes(Accepted(d, p), p.newState)
  {
    forall name | name in p.newState.units
      ensures var end := Accepted(d, p);
              && name in end.units && name in end.running && end.running[name] == end.units[name]
              && Sha256(end.units[name]) == p.newState.units[name]
    {
      RestartedName(base, d, p, name);
    }
  }

  lemma AcceptSave(d: Disk, p: Plan)
    requires d.plan == Some(p) && p.phase == CandidateVerified
    ensures Apply(d, Save(AcceptedPlan(p)))
            == d.(plan := Some(AcceptedPlan(p)), history := d.history + [AcceptanceSaved])
  {
    assert MilestonesOf(d, AcceptedPlan(p)) == [AcceptanceSaved];
  }

  lemma AcceptRuns(d: Disk, n: nat, p: Plan)
    requires d.plan == Some(p) && p.phase == CandidateVerified
    requires Passes(Accepted(d, p), p.newState)
    ensures n >= 5 ==> Do(d, n, AcceptSteps(p)) == Proc(Accepted(d, p), n - 5, true)
    ensures n < 5 ==> !Do(d, n, AcceptSteps(p)).ok
  {
    hide Passes;
    var t := AcceptSteps(p);
    var d1 := d.(running := d.running + Roles(d.loaded), history := d.history + [Restarted]);
    var d2 := d1.(history := d1.history + [Checked(p.newState)]);
    var d4 := d2.(install := Dumps(p.acceptedState), acceptance := Evidenced(p));
    assert Apply(d, t[0]) == d1;
    assert Apply(d1, t[1]) == d2;
    assert Apply(Apply(d2, t[2]), t[3]) == d4;
    AcceptSave(d4, p);
    assert t == [t[0], t[1], t[2], t[3], t[4]];
    RestartPasses(d, p);
    hide Do, Apply, Refused;
    DoFiveCheckedSecond(d, n, t[0], t[1], t[2], t[3], t[4]);
  }

  /** The check after the restart looks at files and units that the rest of the acceptance does not touch. */
  lemma RestartPasses(d: Disk, p: Plan)
    requires Passes(Accepted(d, p), p.newState)
    ensures !Refused(Apply(d, RestartUnits), Check(p.newState))
  {
    hide Owned;
  }

  lemma DoFiveCheckedSecond(d: Disk, n: nat, a: Step, b: Step, c: Step, e: Step, f: Step)
    requires !a.Check? && !c.Check? && !e.Check? && !f.Check?
    requires !Refused(Apply(d, a), b)
    ensures n >= 5
            ==> Do(d, n, [a, b, c, e, f]) == Proc(Apply(Apply(Apply(Apply(Apply(d, a), b), c), e), f), n - 5, true)
    ensures n < 5 ==> !Do(d, n, [a, b, c, e, f]).ok
  {
    assert [a, b, c, e, f] == [a] + ([b] + [c, e, f]);
    DoCons(d, n, a, [b] + [c, e, f]);
    if n >= 1 { DoCons(Apply(d, a), n - 1, b, [c, e, f]); }
    if n >= 2 { DoThree(Apply(Apply(d, a), b), n - 2, c, e, f); }
  }

  // ---------------------------------------------------------------- crash points

  lemma {:induction false} DoLives(d: Disk, n: nat, steps: seq<Step>)
    ensures Do(d, n, steps).ok ==> n >= |steps| && Do(d, n, steps).lives == n - |steps|
    decreases |steps|
  {
    if steps != [] && n > 0 && !Refused(d, steps[0]) {
      DoLives(Apply(d, steps[0]), n - 1, steps[1..]);
    }
  }

  /** A process cut before its last step has done no more than the steps before it. */
  lemma CutBeforeLast(d: Disk, n: nat, steps: seq<Step>)
    requires n < |steps|
    ensures Do(d, n, steps).disk == Do(d, n, steps[..|steps| - 1]).disk
  {
    var last := |steps| - 1;
    DoConcat(d, n, steps[..last], steps[last..]);
    assert steps == steps[..last] + steps[last..];
    DoLives(d, n, steps[..last]);
  }

  lemma {:induction false} HistoryGrows(d: Disk, n: nat, steps: seq<Step>)
    ensures d.history <= Do(d, n, steps).disk.history
    decreases |steps|
  {
    if steps != [] && n > 0 && !Refused(d, steps[0]) {
      HistoryGrows(Apply(d, steps[0]), n - 1, steps[1..]);
    }
  }
}

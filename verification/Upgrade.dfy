/**
 The pinned upgrade of the private Pay stack (qualification/discrete-pay/persistent-upgrade.py).

 Everything the tool does to the machine is a sequence of atomic steps: a file written to a
 temporary name and renamed, a systemctl call, a check of the running stack. The process may
 die, or a call may raise, between any two of them. A method therefore runs on a budget of
 `lives`, the number of steps the process is granted before it dies; quantifying over the
 budget is quantifying over every crash point.
 */
module Upgrade {

  import opened Options

  /** SHA-256 as a free constructor: equal digests exactly for equal texts. */
  datatype Digest = Sha256(text: string)

  /** The four units the upgrade rewrites, and the other installed units, which it must not touch. */
  datatype UnitName = Facade | Gateway | Public | Worker | Fixture(name: string)

  const ROLES: seq<UnitName> := [Facade, Gateway, Public, Worker]

  datatype Install = Install(
    release: string,
    phase: string,
    units: map<UnitName, Digest>,
    bundleFiles: map<string, Digest>,
    fixtureDependencies: map<(string, string), Digest>)  // (release, file) pairs

  /** install.json as text: the value it parses to, and how that value was laid out. */
  datatype InstallFile = InstallFile(value: Install, layout: string)

  function Dumps(value: Install): InstallFile {
    InstallFile(value, "indent=2")
  }

  datatype AcceptanceFile = Retained(text: string) | Evidence(release: string, unitsActive: nat)

  datatype Phase = Prepared | Switching | CandidateVerified | RolledBack | AcceptedPhase

  datatype UnitChange = UnitChange(name: UnitName, before: string, after: string)

  datatype Plan = Plan(
    oldState: Install,
    newState: Install,
    acceptedState: Install,
    units: seq<UnitChange>,
    phase: Phase,
    recover: bool,
    accepted: bool,
    backups: Option<map<string, Digest>>,
    trialFailureInjected: bool,
    rollbackVerified: bool)

  /** What `prepare` takes from the staged candidate bundle and from its own pins. */
  datatype Candidate = Candidate(
    pinnedInstall: InstallFile,
    release: string,
    bundleFiles: map<string, Digest>,
    after: map<UnitName, string>)

  /** Observable milestones, in the order they happened. */
  datatype Milestone =
    | Checked(state: Install)      // verify_running returned for this state
    | Injected                     // the trial's failure marker became durable
    | RollbackSaved                // a recovery ran to its last write
    | Restarted                    // the four services were restarted
    | AcceptanceSaved              // the plan became accepted

  /** One snapshot of the machine. */
  datatype Disk = Disk(
    units: map<UnitName, string>,          // unit files
    install: InstallFile,
    acceptance: AcceptanceFile,
    workExists: bool,
    beforeInstall: Option<InstallFile>,
    beforeAcceptance: Option<AcceptanceFile>,
    plan: Option<Plan>,
    loaded: map<UnitName, string>,         // unit definitions as of the last daemon-reload
    running: map<UnitName, string>,        // the definition each running unit was started from
    history: seq<Milestone>)

  datatype Step =
    | MakeWork
    | KeepInstall
    | KeepAcceptance
    | Save(plan: Plan)
    | StopUnits
    | BackUpDatabases
    | WriteUnit(name: UnitName, text: string)
    | WriteInstall(install: InstallFile)
    | WriteAcceptance(acceptance: AcceptanceFile)
    | DaemonReload
    | StartUnits
    | RestartUnits
    | Check(state: Install)

  predicate IsRole(name: UnitName) {
    !name.Fixture?
  }

  /** `validate_owned`: every unit file has the digest the state records. */
  predicate Owned(state: Install, units: map<UnitName, string>) {
    && (forall r :: r in ROLES ==> r in state.units)
    && (forall name :: name in state.units ==> name in units && Sha256(units[name]) == state.units[name])
  }

  /** What `verify_running` can find: files owned, every unit active from the recorded definition. */
  predicate Passes(d: Disk, state: Install) {
    && Owned(state, d.units)
    && (forall name :: name in state.units ==>
          name in d.running && Sha256(d.running[name]) == state.units[name])
  }

  function MilestonesOf(d: Disk, plan: Plan): seq<Milestone> {
    (if plan.trialFailureInjected && !(d.plan.Some? && d.plan.value.trialFailureInjected) then [Injected] else [])
    + (if plan.phase == RolledBack then [RollbackSaved] else [])
    + (if plan.accepted then [AcceptanceSaved] else [])
  }

  function Roles(units: map<UnitName, string>): map<UnitName, string> {
    map name | name in units && IsRole(name) :: units[name]
  }

  function Stopped(running: map<UnitName, string>): map<UnitName, string> {
    map name | name in running && !IsRole(name) :: running[name]
  }

  /** The effect of one completed step. */
  function Apply(d: Disk, s: Step): Disk {
    match s
    case MakeWork => d.(workExists := true)
    case KeepInstall => d.(beforeInstall := Some(d.install))
    case KeepAcceptance => d.(beforeAcceptance := Some(d.acceptance))
    case Save(plan) => d.(plan := Some(plan), history := d.history + MilestonesOf(d, plan))
    case StopUnits => d.(running := Stopped(d.running))
    case BackUpDatabases => d
    case WriteUnit(name, text) => d.(units := d.units[name := text])
    case WriteInstall(file) => d.(install := file)
    case WriteAcceptance(file) => d.(acceptance := file)
    case DaemonReload => d.(loaded := d.units)
    // Starting a unit that is already active changes nothing.
    case StartUnits => d.(running := Roles(d.loaded) + d.running)
    case RestartUnits => d.(running := d.running + Roles(d.loaded), history := d.history + [Restarted])
    case Check(state) => d.(history := d.history + [Checked(state)])
  }

  /** The only step the files themselves can refuse. Other failures end the budget. */
  predicate Refused(d: Disk, s: Step) {
    s.Check? && !Passes(d, s.state)
  }

  /** A process: the machine it leaves, the budget left, and whether it got to the end. */
  datatype Proc = Proc(disk: Disk, lives: nat, ok: bool)

  function Do(d: Disk, n: nat, steps: seq<Step>): Proc
    decreases |steps|
  {
    if steps == [] then Proc(d, n, true)
    else if n == 0 || Refused(d, steps[0]) then Proc(d, n, false)
    else Do(Apply(d, steps[0]), n - 1, steps[1..])
  }

  // ---------------------------------------------------------------- the operations as step lists

  function Writes(changes: seq<UnitChange>, forward: bool): seq<Step> {
    seq(|changes|, i requires 0 <= i < |changes| =>
      WriteUnit(changes[i].name, if forward then changes[i].after else changes[i].before))
  }

  /** `check_switch_files`: nothing was edited except by this upgrade. */
  predicate SwitchFilesOk(d: Disk, p: Plan) {
    && (forall i :: 0 <= i < |p.units| ==>
          && IsRole(p.units[i].name)
          && p.units[i].name in d.units
          && (d.units[p.units[i].name] == p.units[i].before || d.units[p.units[i].name] == p.units[i].after))
    && (d.install.value == p.oldState || d.install.value == p.newState || d.install.value == p.acceptedState)
    && (forall name :: name in p.oldState.units && !ChangedBy(p, name) ==>
          name in d.units && Sha256(d.units[name]) == p.oldState.units[name])
  }

  predicate ChangedBy(p: Plan, name: UnitName) {
    exists i :: 0 <= i < |p.units| && p.units[i].name == name
  }

  function Changes(units: map<UnitName, string>, after: map<UnitName, string>, names: seq<UnitName>): seq<UnitChange>
    requires forall r :: r in names ==> r in units && r in after
  {
    seq(|names|, i requires 0 <= i < |names| =>
      UnitChange(names[i], units[names[i]], after[names[i]]))
  }

  predicate PrepareAllowed(d: Disk, c: Candidate) {
    && !d.workExists
    && d.install == c.pinnedInstall
    && d.install.value.phase == "enabled"
    && Passes(d, d.install.value)
    && (forall r :: r in ROLES ==> r in d.units && r in c.after)
  }

  function RoleDigests(after: map<UnitName, string>): map<UnitName, Digest>
    requires forall r :: r in ROLES ==> r in after
  {
    map r | r in ROLES :: Sha256(after[r])
  }

  /** The state of the candidate: old files stay pinned as dependencies of the untouched units. */
  function CandidateState(base: Install, c: Candidate, digests: map<UnitName, Digest>): Install {
    base.(
      release := c.release,
      bundleFiles := c.bundleFiles,
      phase := "upgrade-testing",
      fixtureDependencies := base.fixtureDependencies +
        (map name | name in base.bundleFiles :: (base.release, name) := base.bundleFiles[name]),
      units := base.units + digests)
  }

  function NewPlan(d: Disk, c: Candidate): Plan
    requires PrepareAllowed(d, c)
  {
    var newState := CandidateState(d.install.value, c, RoleDigests(c.after));
    Plan(d.install.value, newState, newState.(phase := "enabled"), Changes(d.units, c.after, ROLES),
         Prepared, false, false, None, false, false)
  }

  function PrepareSteps(d: Disk, c: Candidate): seq<Step>
    requires PrepareAllowed(d, c)
  {
    [MakeWork, KeepInstall, KeepAcceptance, Save(NewPlan(d, c))]
  }

  function Prepare(d: Disk, n: nat, c: Candidate): Proc {
    if !PrepareAllowed(d, c) then Proc(d, n, false) else Do(d, n, PrepareSteps(d, c))
  }

  predicate ActivateAllowed(d: Disk) {
    && d.plan.Some?
    && var p := d.plan.value;
    && !p.accepted && !p.recover && (p.phase == Prepared || p.phase == RolledBack)
    && SwitchFilesOk(d, p)
    && Owned(p.oldState, d.units)
  }

  function Armed(p: Plan): Plan {
    p.(recover := true, phase := Switching)
  }

  function BackedUp(p: Plan, backups: map<string, Digest>): Plan {
    if p.backups.None? then p.(backups := Some(backups)) else p
  }

  function ActivateSteps(p: Plan, backups: map<string, Digest>): seq<Step> {
    var p1 := Armed(p);
    var p2 := BackedUp(p1, backups);
    [Save(p1), StopUnits]
    + (if p1.backups.None? then [BackUpDatabases, Save(p2)] else [])
    + Writes(p.units, true)
    + [WriteInstall(Dumps(p.newState)), DaemonReload, StartUnits, Check(p.newState),
       Save(p2.(phase := CandidateVerified))]
  }

  function Activate(d: Disk, n: nat, backups: map<string, Digest>): Proc {
    if !ActivateAllowed(d) then Proc(d, n, false) else Do(d, n, ActivateSteps(d.plan.value, backups))
  }

  /** A recovery has work to do: the plan asks for one and was never accepted. */
  predicate RecoveryPending(d: Disk) {
    d.plan.Some? && d.plan.value.recover && !d.plan.value.accepted
  }

  predicate RecoverAllowed(d: Disk) {
    && RecoveryPending(d)
    && SwitchFilesOk(d, d.plan.value)
    && d.beforeInstall.Some? && d.beforeAcceptance.Some?
  }

  function Disarmed(p: Plan): Plan {
    p.(rollbackVerified := p.rollbackVerified || (p.trialFailureInjected && p.phase == CandidateVerified),
       phase := RolledBack,
       recover := false)
  }

  function RecoverSteps(d: Disk): seq<Step>
    requires RecoverAllowed(d)
  {
    var p := d.plan.value;
    [StopUnits]
    + Writes(p.units, false)
    + [WriteInstall(d.beforeInstall.value), WriteAcceptance(d.beforeAcceptance.value),
       DaemonReload, StartUnits, Check(p.oldState), Save(Disarmed(p))]
  }

  function Recover(d: Disk, n: nat): Proc {
    if !RecoveryPending(d) then Proc(d, n, true)
    else if !RecoverAllowed(d) then Proc(d, n, false)
    else Do(d, n, RecoverSteps(d))
  }

  predicate AcceptAllowed(d: Disk) {
    && d.plan.Some?
    && d.plan.value.phase == CandidateVerified && d.plan.value.recover && d.plan.value.rollbackVerified
  }

  function Evidenced(p: Plan): AcceptanceFile {
    Evidence(p.newState.release, |p.newState.units|)
  }

  function AcceptSteps(p: Plan): seq<Step> {
    [RestartUnits, Check(p.newState), WriteInstall(Dumps(p.acceptedState)), WriteAcceptance(Evidenced(p)),
     Save(p.(accepted := true, recover := false, phase := AcceptedPhase))]
  }

  function Accept(d: Disk, n: nat): Proc {
    if !AcceptAllowed(d) then Proc(d, n, false) else Do(d, n, AcceptSteps(d.plan.value))
  }

  // ---------------------------------------------------------------- the three commands

  function Trial(d: Disk, n: nat, c: Candidate, backups: map<string, Digest>): Proc {
    var prepared := Prepare(d, n, c);
    if !prepared.ok then prepared else
    var activated := Activate(prepared.disk, prepared.lives, backups);
    if !activated.ok || activated.disk.plan.None? then activated.(ok := false) else
    Do(activated.disk, activated.lives, [Save(activated.disk.plan.value.(trialFailureInjected := true))])
  }

  function Retry(d: Disk, n: nat, backups: map<string, Digest>): Proc {
    if d.plan.None? || !d.plan.value.rollbackVerified || d.plan.value.phase != RolledBack then Proc(d, n, false) else
    var activated := Activate(d, n, backups);
    if !activated.ok then activated else Accept(activated.disk, activated.lives)
  }

  /** One event in the life of the machine. Every command is cut after `n` steps. */
  datatype Event =
    | RunTrial(n: nat, candidate: Candidate, backups: map<string, Digest>)
    | RunRecover(n: nat)
    | RunActivate(n: nat, backups: map<string, Digest>)
    | Boot

  function Play(d: Disk, e: Event): Disk {
    match e
    case RunTrial(n, c, b) => Trial(d, n, c, b).disk
    case RunRecover(n) => Recover(d, n).disk
    case RunActivate(n, b) => Retry(d, n, b).disk
    case Boot => d.(loaded := d.units, running := d.units)
  }

  function Run(d: Disk, events: seq<Event>): Disk
    decreases |events|
  {
    if events == [] then d else Play(Run(d, events[..|events| - 1]), events[|events| - 1])
  }
}

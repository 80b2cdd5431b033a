/**
 Transactional configuration (modules/host/scripts/apply-config.sh): what applying one component,
 and then a list of components, does to the files of the host, whatever fails on the way.
 */
module ApplyConfig {
  import opened Options

  /** A file's text and mode; `install -m` sets both, `cp -a` keeps both. */
  datatype File = File(text: string, mode: string)

  type Files = map<string, File>

  /** One line of the manifest, as `read` splits it. */
  datatype Row = Row(
    component: string, source: string, target: string, mode: string,
    validate: string, reload: string, verify: string)

  /** What the script works on: the host's files, the backup directory, and what each service last loaded. */
  datatype State = State(files: Files, backups: Files, loaded: map<string, Files>)

  /** The outcome of a copy: a broken one leaves its target in some state of its own. */
  datatype Attempt = Done | Broken(left: Option<File>)

  /** What a reload does to its service: load the files on disk, leave it as it was, or leave it stopped. */
  datatype Effect = Loads | Keeps | Stops

  /**
   The outcome of a reload. One that fails may have had its effect before it failed: Fail2Ban's stops
   the service, starts it on the files on disk, and then fails if there is no answer within ten seconds.
   */
  datatype Reloading = Succeeds | Fails(effect: Effect)

  /** How the commands that the script runs for one component will turn out, by target, directory or command. */
  datatype Fate = Fate(
    backup: string -> bool,
    directory: string -> bool,
    install: string -> Attempt,
    validate: string -> bool,
    reload: Reloading,
    verify: bool,
    restore: string -> Attempt,
    reloadAgain: Reloading)

  /**
   How a component ends. The three `Stopped` endings are commands outside any `if`, whose failure
   ends the script at once under `set -e`.
   */
  datatype End = Applied | Refused | RolledBack | BackupStopped | DirectoryStopped | RestoreStopped

  // ---------------------------------------------------------------- files

  function At(files: Files, target: string): Option<File> {
    if target in files then Some(files[target]) else None
  }

  function Put(files: Files, target: string, file: Option<File>): Files {
    match file
    case Some(f) => files[target := f]
    case None => files - {target}
  }

  /** The files after writing the targets of some rows, one by one. */
  function Written(files: Files, rows: seq<Row>, value: Row -> Option<File>): Files {
    if rows == [] then files
    else
      var last := rows[|rows| - 1];
      Put(Written(files, rows[..|rows| - 1], value), last.target, value(last))
  }

  /** `dirname` of a file's path. */
  function Dirname(path: string): string {
    if path == "" then "."
    else if path[|path| - 1] == '/' then WithoutSlashes(path)
    else Dirname(path[..|path| - 1])
  }

  function WithoutSlashes(path: string): string {
    if path == "" then "/" else if path[|path| - 1] == '/' then WithoutSlashes(path[..|path| - 1]) else path
  }

  /** A directory is there because something is in it, at any depth; the root and `.` always are. */
  predicate Stands(files: Files, directory: string) {
    directory == "/" || directory == "." || exists path :: path in files && directory + "/" <= path
  }

  /** What a component's rows install. */
  function NewFile(repo: map<string, string>): Row -> Option<File> {
    (row: Row) => if row.source in repo then Some(File(repo[row.source], row.mode)) else None
  }

  /** What rolling back writes: the backup of a target that existed, and nothing for the others. */
  function OldFile(existed: Files, backups: Files): Row -> Option<File> {
    (row: Row) => if row.target in existed then At(backups, row.target) else None
  }

  /** The backup directory after saving those targets that exist. */
  function Saved(files: Files, backups: Files, rows: seq<Row>): Files {
    if rows == [] then backups
    else
      var last := rows[|rows| - 1];
      var saved := Saved(files, backups, rows[..|rows| - 1]);
      if last.target in files then saved[last.target := files[last.target]] else saved
  }

  // ---------------------------------------------------------------- the manifest

  predicate Concerns(row: Row, requested: string) {
    row.component != "" && row.component[0] != '#' && row.component == requested
  }

  function RowsOf(manifest: seq<Row>, requested: string): seq<Row> {
    if manifest == [] then []
    else RowsOf(manifest[..|manifest| - 1], requested)
         + if Concerns(manifest[|manifest| - 1], requested) then [manifest[|manifest| - 1]] else []
  }

  /** The components asked for, in the order of their first rows. */
  function ComponentOrder(manifest: seq<Row>, requested: string): seq<string> {
    if manifest == [] then []
    else
      var order, row := ComponentOrder(manifest[..|manifest| - 1], requested), manifest[|manifest| - 1];
      if row.component == "" || row.component[0] == '#' then order
      else if requested != "all" && requested != row.component then order
      else if row.component in order then order
      else order + [row.component]
  }

  /** What has been collected from the rows of a component so far. */
  datatype Collected = Collected(targets: set<string>, reload: string, verify: string)

  /** Reading a component's rows; `None` where a row is refused. */
  function Scan(rows: seq<Row>, repo: map<string, string>): Option<Collected> {
    if rows == [] then Some(Collected({}, "", ""))
    else
      match Scan(rows[..|rows| - 1], repo)
      case None => None
      case Some(c) => Collect(c, rows[|rows| - 1], repo)
  }

  function Collect(c: Collected, row: Row, repo: map<string, string>): Option<Collected> {
    if row.target in c.targets then None
    else if c.reload != "" && row.reload != c.reload then None
    else if c.verify != "" && row.verify != c.verify then None
    else if row.source !in repo then None
    else Some(Collected(c.targets + {row.target},
                        if c.reload == "" then row.reload else c.reload,
                        if c.verify == "" then row.verify else c.verify))
  }

  predicate Accepted(rows: seq<Row>, repo: map<string, string>) {
    rows != [] && Scan(rows, repo).Some?
    && Scan(rows, repo).value.reload != "" && Scan(rows, repo).value.verify != ""
    && forall i :: 0 <= i < |rows| ==> rows[i].validate != ""
  }

  // ---------------------------------------------------------------- one component

  /** The first row, if any, whose target cannot be saved. */
  function BackupFailure(files: Files, rows: seq<Row>, fate: Fate, from: nat): (i: nat)
    requires from <= |rows|
    ensures from <= i <= |rows|
    ensures forall j :: from <= j < i ==> (rows[j].target in files ==> fate.backup(rows[j].target))
    ensures i < |rows| ==> rows[i].target in files && !fate.backup(rows[i].target)
    decreases |rows| - from
  {
    if from == |rows| || (rows[from].target in files && !fate.backup(rows[from].target)) then from
    else BackupFailure(files, rows, fate, from + 1)
  }

  /** `mkdir -p` of the directory of row `i`, once the rows before it are installed. */
  predicate Makes(files: Files, rows: seq<Row>, repo: map<string, string>, fate: Fate, i: nat)
    requires i < |rows|
  {
    Stands(Written(files, rows[..i], NewFile(repo)), Dirname(rows[i].target)) || fate.directory(Dirname(rows[i].target))
  }

  predicate Installs(files: Files, rows: seq<Row>, repo: map<string, string>, fate: Fate, i: nat)
    requires i < |rows|
  {
    Makes(files, rows, repo, fate, i) && fate.install(rows[i].target).Done?
  }

  /** The first row, if any, that is not installed. */
  function InstallFailure(files: Files, rows: seq<Row>, repo: map<string, string>, fate: Fate, from: nat): (i: nat)
    requires from <= |rows|
    ensures from <= i <= |rows|
    ensures forall j :: from <= j < i ==> Installs(files, rows, repo, fate, j)
    ensures i < |rows| ==> !Installs(files, rows, repo, fate, i)
    decreases |rows| - from
  {
    if from == |rows| || !Installs(files, rows, repo, fate, from) then from
    else InstallFailure(files, rows, repo, fate, from + 1)
  }

  /** The first row, if any, that is not restored. */
  function RestoreFailure(rows: seq<Row>, fate: Fate, from: nat): (i: nat)
    requires from <= |rows|
    ensures from <= i <= |rows|
    ensures forall j :: from <= j < i ==> fate.restore(rows[j].target).Done?
    ensures i < |rows| ==> fate.restore(rows[i].target).Broken?
    decreases |rows| - from
  {
    if from == |rows| || fate.restore(rows[from].target).Broken? then from
    else RestoreFailure(rows, fate, from + 1)
  }

  /** `rollback_component`, for targets that existed as in `existed`. */
  function RollBack(s: State, existed: Files, rows: seq<Row>, fate: Fate): (End, State) {
    var i := RestoreFailure(rows, fate, 0);
    var files := Written(s.files, rows[..i], OldFile(existed, s.backups));
    if i < |rows| then (RestoreStopped, s.(files := Put(files, rows[i].target, fate.restore(rows[i].target).left)))
    else (RolledBack, s.(files := files))
  }

  function EffectOf(reloading: Reloading): Effect {
    if reloading.Succeeds? then Loads else reloading.effect
  }

  /** What is loaded after an effect on one component's service; what is stopped has nothing loaded. */
  function Changed(loaded: map<string, Files>, component: string, files: Files, effect: Effect): map<string, Files> {
    match effect
    case Loads => loaded[component := files]
    case Keeps => loaded
    case Stops => loaded - {component}
  }

  function Reloaded(s: State, component: string, reloading: Reloading): State {
    s.(loaded := Changed(s.loaded, component, s.files, EffectOf(reloading)))
  }

  /** Rolling back and then loading the old files again, which is allowed to fail. */
  function RollBackAndReload(s: State, existed: Files, component: string, rows: seq<Row>, fate: Fate): (End, State) {
    var (end, undone) := RollBack(s, existed, rows, fate);
    if end == RolledBack then (end, Reloaded(undone, component, fate.reloadAgain)) else (end, undone)
  }

  predicate Validates(rows: seq<Row>, fate: Fate) {
    forall i :: 0 <= i < |rows| ==> fate.validate(rows[i].validate)
  }

  /** The reload and the verification succeed. */
  predicate Confirms(fate: Fate) {
    fate.reload.Succeeds? && fate.verify
  }

  /** Validating, reloading and verifying what has been installed over `existed`. */
  function CheckInstalled(s: State, existed: Files, component: string, rows: seq<Row>, fate: Fate): (End, State) {
    if !Validates(rows, fate) then RollBack(s, existed, rows, fate)
    else
      var running := Reloaded(s, component, fate.reload);
      if Confirms(fate) then (Applied, running) else RollBackAndReload(running, existed, component, rows, fate)
  }

  /** The part of a component's application that follows its backup. */
  function Install(s: State, component: string, rows: seq<Row>, repo: map<string, string>, fate: Fate): (End, State) {
    var i := InstallFailure(s.files, rows, repo, fate, 0);
    var installed := s.(files := Written(s.files, rows[..i], NewFile(repo)));
    if i == |rows| then CheckInstalled(installed, s.files, component, rows, fate)
    else if !Makes(s.files, rows, repo, fate, i) then (DirectoryStopped, installed)
    else
      var broken := installed.(files := Put(installed.files, rows[i].target, fate.install(rows[i].target).left));
      RollBack(broken, s.files, rows, fate)
  }

  /** `apply_component_group`. */
  function Group(s: State, component: string, rows: seq<Row>, repo: map<string, string>, fate: Fate): (End, State) {
    if !Accepted(rows, repo) then (Refused, s)
    else
      var b := BackupFailure(s.files, rows, fate, 0);
      var saved := s.(backups := Saved(s.files, s.backups, rows[..b]));
      if b < |rows| then (BackupStopped, saved) else Install(saved, component, rows, repo, fate)
  }

  /** The state right after a reload, if it changed what is loaded. */
  function ReloadStates(s: State, component: string, reloading: Reloading): seq<State> {
    if EffectOf(reloading) == Keeps then [] else [Reloaded(s, component, reloading)]
  }

  /** The states right after each reload of `CheckInstalled` that took effect, whether it succeeded or not, in order. */
  function CheckReloads(s: State, existed: Files, component: string, rows: seq<Row>, fate: Fate): seq<State> {
    if !Validates(rows, fate) then []
    else
      var (end, undone) := RollBack(Reloaded(s, component, fate.reload), existed, rows, fate);
      ReloadStates(s, component, fate.reload)
      + if !Confirms(fate) && end == RolledBack then ReloadStates(undone, component, fate.reloadAgain) else []
  }

  function InstallReloads(s: State, component: string, rows: seq<Row>, repo: map<string, string>, fate: Fate)
    : seq<State>
  {
    if InstallFailure(s.files, rows, repo, fate, 0) == |rows| then
      CheckReloads(s.(files := Written(s.files, rows, NewFile(repo))), s.files, component, rows, fate)
    else []
  }

  /** The states right after each reload of a component that took effect. */
  function Reloads(s: State, component: string, rows: seq<Row>, repo: map<string, string>, fate: Fate): seq<State> {
    if Accepted(rows, repo) && BackupFailure(s.files, rows, fate, 0) == |rows| then
      InstallReloads(s.(backups := Saved(s.files, s.backups, rows)), component, rows, repo, fate)
    else []
  }

  // ---------------------------------------------------------------- all components

  /** The components in order, up to the first that is not applied: how many were, how it ended, and the state. */
  function Apply(s: State, order: seq<string>, manifest: seq<Row>, repo: map<string, string>, fates: string -> Fate)
    : (nat, End, State)
    decreases |order|
  {
    if order == [] then (0, Applied, s)
    else
      var (end, next) := Group(s, order[0], RowsOf(manifest, order[0]), repo, fates(order[0]));
      if end != Applied then (0, end, next)
      else
        var (count, last, final) := Apply(next, order[1..], manifest, repo, fates);
        (count + 1, last, final)
  }

  // ---------------------------------------------------------------- what a component does to the files

  function Targets(rows: seq<Row>): set<string> {
    set i | 0 <= i < |rows| :: rows[i].target
  }

  predicate Distinct(rows: seq<Row>) {
    forall i, j :: 0 <= i < j < |rows| ==> rows[i].target != rows[j].target
  }

  lemma {:induction false} WrittenElsewhere(files: Files, rows: seq<Row>, value: Row -> Option<File>, target: string)
    requires target !in Targets(rows)
    ensures At(Written(files, rows, value), target) == At(files, target)
  {
    if rows != [] {
      var rest := rows[..|rows| - 1];
      assert rows[|rows| - 1].target in Targets(rows);
      assert Targets(rest) <= Targets(rows) by {
        forall i | 0 <= i < |rest|
          ensures rest[i].target in Targets(rows)
        {
          assert rows[i] == rest[i];
        }
      }
      WrittenElsewhere(files, rest, value, target);
    }
  }

  lemma {:induction false} WrittenAt(files: Files, rows: seq<Row>, value: Row -> Option<File>, i: nat)
    requires Distinct(rows) && i < |rows|
    ensures At(Written(files, rows, value), rows[i].target) == value(rows[i])
  {
    var rest := rows[..|rows| - 1];
    if i < |rest| { WrittenAt(files, rest, value, i); }
  }

  lemma SameFiles(a: Files, b: Files)
    requires forall t: string :: At(a, t) == At(b, t)
    ensures a == b
  {
    forall t: string
      ensures t in a <==> t in b
      ensures t in a ==> a[t] == b[t]
    {
      assert At(a, t) == At(b, t);
    }
  }

  lemma {:induction false} ScanDistinct(rows: seq<Row>, repo: map<string, string>)
    requires Scan(rows, repo).Some?
    ensures Distinct(rows) && Scan(rows, repo).value.targets == Targets(rows)
    ensures forall i :: 0 <= i < |rows| ==> rows[i].source in repo
  {
    if rows != [] {
      var rest, last := rows[..|rows| - 1], rows[|rows| - 1];
      ScanDistinct(rest, repo);
      assert Targets(rows) == Targets(rest) + {last.target} by {
        forall i | 0 <= i < |rows|
          ensures rows[i].target in Targets(rest) + {last.target}
        {
          if i < |rest| { assert rest[i] == rows[i]; }
        }
        forall i | 0 <= i < |rest|
          ensures rest[i].target in Targets(rows)
        {
          assert rows[i] == rest[i];
        }
      }
      forall i, j | 0 <= i < j < |rows|
        ensures rows[i].target != rows[j].target
      {
        if j == |rest| {
          assert rest[i].target in Targets(rest);
        } else {
          assert rest[i] == rows[i] && rest[j] == rows[j];
        }
      }
      forall i | 0 <= i < |rows|
        ensures rows[i].source in repo
      {
        if i < |rest| { assert rest[i] == rows[i]; }
      }
    }
  }

  lemma {:induction false} SavedAt(files: Files, backups: Files, rows: seq<Row>, i: nat)
    requires i < |rows| && rows[i].target in files
    ensures At(Saved(files, backups, rows), rows[i].target) == At(files, rows[i].target)
  {
    var rest := rows[..|rows| - 1];
    if i < |rest| { SavedAt(files, backups, rest, i); }
  }

  /** Files that differ from the original on the component's targets only. */
  ghost predicate Apart(files: Files, original: Files, rows: seq<Row>) {
    forall t: string :: t !in Targets(rows) ==> At(files, t) == At(original, t)
  }

  lemma WrittenApart(files: Files, original: Files, rows: seq<Row>, some: seq<Row>, value: Row -> Option<File>)
    requires Apart(files, original, rows) && some <= rows
    ensures Apart(Written(files, some, value), original, rows)
  {
    forall t: string | t !in Targets(rows)
      ensures At(Written(files, some, value), t) == At(original, t)
    {
      assert t !in Targets(some) by {
        forall i | 0 <= i < |some|
          ensures some[i].target in Targets(rows)
        {
          assert rows[i] == some[i];
        }
      }
      WrittenElsewhere(files, some, value, t);
    }
  }

  lemma PutApart(files: Files, original: Files, rows: seq<Row>, i: nat, file: Option<File>)
    requires Apart(files, original, rows) && i < |rows|
    ensures Apart(Put(files, rows[i].target, file), original, rows)
  {
    assert rows[i].target in Targets(rows);
  }

  /** Rolling back a component undoes everything that was done to its targets. */
  lemma RollBackRestores(s: State, original: Files, before: Files, rows: seq<Row>, fate: Fate)
    requires Distinct(rows) && Apart(s.files, original, rows)
    requires s.backups == Saved(original, before, rows)
    ensures var (end, undone) := RollBack(s, original, rows, fate);
            (end == RolledBack || end == RestoreStopped)
            && (end == RolledBack ==> undone.files == original)
            && Apart(undone.files, original, rows)
            && (end == RestoreStopped <==> exists i :: 0 <= i < |rows| && fate.restore(rows[i].target).Broken?)
            && undone.backups == s.backups && undone.loaded == s.loaded
  {
    var i := RestoreFailure(rows, fate, 0);
    var value := OldFile(original, s.backups);
    WrittenApart(s.files, original, rows, rows[..i], value);
    if i < |rows| {
      PutApart(Written(s.files, rows[..i], value), original, rows, i, fate.restore(rows[i].target).left);
    } else {
      assert rows[..i] == rows;
      forall t: string
        ensures At(Written(s.files, rows, value), t) == At(original, t)
      {
        if t in Targets(rows) {
          var j :| 0 <= j < |rows| && rows[j].target == t;
          WrittenAt(s.files, rows, value, j);
          if t in original { SavedAt(original, before, rows, j); }
        } else {
          WrittenElsewhere(s.files, rows, value, t);
        }
      }
      SameFiles(Written(s.files, rows, value), original);
    }
  }

  /** Every target of the rows holds its source. */
  predicate Holds(files: Files, rows: seq<Row>, repo: map<string, string>) {
    forall i :: 0 <= i < |rows| ==> At(files, rows[i].target) == NewFile(repo)(rows[i])
  }

  lemma InstallHolds(files: Files, rows: seq<Row>, repo: map<string, string>)
    requires Distinct(rows)
    ensures Holds(Written(files, rows, NewFile(repo)), rows, repo)
    ensures Apart(Written(files, rows, NewFile(repo)), files, rows)
  {
    forall i | 0 <= i < |rows|
      ensures At(Written(files, rows, NewFile(repo)), rows[i].target) == NewFile(repo)(rows[i])
    {
      WrittenAt(files, rows, NewFile(repo), i);
    }
    WrittenApart(files, files, rows, rows, NewFile(repo));
  }

  /** What a component promises: all of its files new and in use, or no file changed. */
  ghost predicate Atomic(
      s: State, component: string, rows: seq<Row>, repo: map<string, string>, end: End, after: State)
  {
    && Apart(after.files, s.files, rows)
    && (end == Applied ==> Holds(after.files, rows, repo) && after.loaded == s.loaded[component := after.files])
    && (end == Refused || end == BackupStopped || end == RolledBack ==> after.files == s.files)
    && (end == Refused ==> after == s)
  }

  lemma CheckIsAtomic(
      s: State, original: Files, before: Files, component: string, rows: seq<Row>, repo: map<string, string>,
      fate: Fate)
    requires Distinct(rows) && Holds(s.files, rows, repo) && Apart(s.files, original, rows)
    requires s.backups == Saved(original, before, rows)
    ensures var (end, after) := CheckInstalled(s, original, component, rows, fate);
            Atomic(s.(files := original), component, rows, repo, end, after)
            && (end == Applied <==> Validates(rows, fate) && Confirms(fate))
            && end != Refused && end != BackupStopped && end != DirectoryStopped
  {
    hide Written, Saved, RollBack, Holds, Apart;
    RollBackRestores(s, original, before, rows, fate);
    RollBackRestores(Reloaded(s, component, fate.reload), original, before, rows, fate);
  }

  predicate Saveable(files: Files, rows: seq<Row>, fate: Fate) {
    forall i :: 0 <= i < |rows| ==> rows[i].target in files ==> fate.backup(rows[i].target)
  }

  predicate Installable(files: Files, rows: seq<Row>, repo: map<string, string>, fate: Fate) {
    forall i :: 0 <= i < |rows| ==> Installs(files, rows, repo, fate, i)
  }

  /** When nothing goes wrong. */
  predicate Smooth(files: Files, rows: seq<Row>, repo: map<string, string>, fate: Fate) {
    Saveable(files, rows, fate) && Installable(files, rows, repo, fate) && Validates(rows, fate) && Confirms(fate)
  }

  lemma FailuresMean(files: Files, rows: seq<Row>, repo: map<string, string>, fate: Fate)
    ensures BackupFailure(files, rows, fate, 0) == |rows| <==> Saveable(files, rows, fate)
    ensures InstallFailure(files, rows, repo, fate, 0) == |rows| <==> Installable(files, rows, repo, fate)
  {
    hide Installs;
  }

  lemma InstallIsAtomic(
      s: State, before: Files, component: string, rows: seq<Row>, repo: map<string, string>, fate: Fate)
    requires Distinct(rows) && s.backups == Saved(s.files, before, rows)
    ensures var (end, after) := Install(s, component, rows, repo, fate);
            Atomic(s, component, rows, repo, end, after) && end != Refused
  {
    hide Written, Saved, RollBack, Holds, CheckInstalled, Distinct, Validates, Makes;
    var i := InstallFailure(s.files, rows, repo, fate, 0);
    var installed := s.(files := Written(s.files, rows[..i], NewFile(repo)));
    WrittenApart(s.files, s.files, rows, rows[..i], NewFile(repo));
    if i == |rows| {
      assert rows[..i] == rows;
      InstallHolds(s.files, rows, repo);
      CheckIsAtomic(installed, s.files, before, component, rows, repo, fate);
      assert installed.(files := s.files) == s;
    } else if Makes(s.files, rows, repo, fate, i) {
      var left := fate.install(rows[i].target).left;
      PutApart(installed.files, s.files, rows, i, left);
      RollBackRestores(installed.(files := Put(installed.files, rows[i].target, left)), s.files, before, rows, fate);
    }
  }

  // ---------------------------------------------------------------- how a component ends

  predicate RestoresWork(rows: seq<Row>, fate: Fate) {
    forall i :: 0 <= i < |rows| ==> fate.restore(rows[i].target).Done?
  }

  /** Making a directory fails after some rows have been installed, or before any has. */
  predicate DirectoryFails(files: Files, rows: seq<Row>, repo: map<string, string>, fate: Fate) {
    var i := InstallFailure(files, rows, repo, fate, 0);
    i < |rows| && !Makes(files, rows, repo, fate, i)
  }

  /** Installing, validating, reloading or verifying fails, in a branch that rolls back. */
  predicate StepFails(files: Files, rows: seq<Row>, repo: map<string, string>, fate: Fate) {
    var i := InstallFailure(files, rows, repo, fate, 0);
    if i < |rows| then Makes(files, rows, repo, fate, i) else !(Validates(rows, fate) && Confirms(fate))
  }

  lemma RollBackEnds(s: State, existed: Files, rows: seq<Row>, fate: Fate)
    ensures RollBack(s, existed, rows, fate).0 == if RestoresWork(rows, fate) then RolledBack else RestoreStopped
  {
    hide Written;
  }

  lemma CheckEnds(s: State, existed: Files, component: string, rows: seq<Row>, fate: Fate)
    ensures CheckInstalled(s, existed, component, rows, fate).0 ==
            if Validates(rows, fate) && Confirms(fate) then Applied
            else if RestoresWork(rows, fate) then RolledBack else RestoreStopped
  {
    hide RollBack, RestoresWork, Validates;
    RollBackEnds(s, existed, rows, fate);
    RollBackEnds(Reloaded(s, component, fate.reload), existed, rows, fate);
  }

  lemma InstallEnds(s: State, component: string, rows: seq<Row>, repo: map<string, string>, fate: Fate)
    ensures Install(s, component, rows, repo, fate).0 ==
            if DirectoryFails(s.files, rows, repo, fate) then DirectoryStopped
            else if !StepFails(s.files, rows, repo, fate) then Applied
            else if RestoresWork(rows, fate) then RolledBack else RestoreStopped
  {
    hide RollBack, CheckInstalled, RestoresWork, Validates, Makes, Installs, Written;
    var i := InstallFailure(s.files, rows, repo, fate, 0);
    var installed := s.(files := Written(s.files, rows[..i], NewFile(repo)));
    CheckEnds(installed, s.files, component, rows, fate);
    if i < |rows| && Makes(s.files, rows, repo, fate, i) {
      BrokenAt(s.files, rows, repo, fate, i);
      var broken := installed.(files := Put(installed.files, rows[i].target, fate.install(rows[i].target).left));
      RollBackEnds(broken, s.files, rows, fate);
    }
  }

  lemma BrokenAt(files: Files, rows: seq<Row>, repo: map<string, string>, fate: Fate, i: nat)
    requires i < |rows| && Makes(files, rows, repo, fate, i) && !Installs(files, rows, repo, fate, i)
    ensures fate.install(rows[i].target).Broken?
  {
    hide Makes;
  }

  /** Which ending a component comes to, in terms of what is known before it starts. */
  function EndOf(files: Files, rows: seq<Row>, repo: map<string, string>, fate: Fate): End {
    if !Accepted(rows, repo) then Refused
    else if !Saveable(files, rows, fate) then BackupStopped
    else if DirectoryFails(files, rows, repo, fate) then DirectoryStopped
    else if !StepFails(files, rows, repo, fate) then Applied
    else if RestoresWork(rows, fate) then RolledBack else RestoreStopped
  }

  lemma GroupEnds(s: State, component: string, rows: seq<Row>, repo: map<string, string>, fate: Fate)
    ensures Group(s, component, rows, repo, fate).0 == EndOf(s.files, rows, repo, fate)
  {
    hide Saved, Accepted, Install, DirectoryFails, StepFails, RestoresWork, BackupFailure, InstallFailure, Saveable;
    FailuresMean(s.files, rows, repo, fate);
    var b := BackupFailure(s.files, rows, fate, 0);
    InstallEnds(s.(backups := Saved(s.files, s.backups, rows[..b])), component, rows, repo, fate);
  }

  lemma SmoothMeans(files: Files, rows: seq<Row>, repo: map<string, string>, fate: Fate)
    ensures Smooth(files, rows, repo, fate)
            <==> Saveable(files, rows, fate) && !DirectoryFails(files, rows, repo, fate)
                 && !StepFails(files, rows, repo, fate)
  {
    FailuresMean(files, rows, repo, fate);
    hide Saveable, Installable, Validates, Makes;
  }

  /** What the endings leave, apart from which one it is. */
  lemma GroupIsAtomic(s: State, component: string, rows: seq<Row>, repo: map<string, string>, fate: Fate)
    ensures var (end, after) := Group(s, component, rows, repo, fate);
            Atomic(s, component, rows, repo, end, after)
  {
    if Accepted(rows, repo) {
      ScanDistinct(rows, repo);
      hide Saved, Install, Accepted, Scan, Distinct, Atomic, BackupFailure;
      var b := BackupFailure(s.files, rows, fate, 0);
      if b == |rows| {
        assert rows[..b] == rows;
        var saved := s.(backups := Saved(s.files, s.backups, rows));
        InstallIsAtomic(saved, s.backups, component, rows, repo, fate);
        SavedIsAtomic(s, saved.backups, component, rows, repo, fate);
      } else {
        UnsavedIsAtomic(s, component, rows, repo, Saved(s.files, s.backups, rows[..b]));
      }
    } else {
      UnsavedIsAtomic(s, component, rows, repo, s.backups);
    }
  }

  lemma SavedIsAtomic(
      s: State, backups: Files, component: string, rows: seq<Row>, repo: map<string, string>, fate: Fate)
    requires var (end, after) := Install(s.(backups := backups), component, rows, repo, fate);
             end != Refused && Atomic(s.(backups := backups), component, rows, repo, end, after)
    ensures var (end, after) := Install(s.(backups := backups), component, rows, repo, fate);
            Atomic(s, component, rows, repo, end, after)
  {
    hide Install, Holds, Apart;
  }

  lemma UnsavedIsAtomic(s: State, component: string, rows: seq<Row>, repo: map<string, string>, backups: Files)
    ensures Atomic(s, component, rows, repo, BackupStopped, s.(backups := backups))
    ensures Atomic(s, component, rows, repo, Refused, s)
  {
    hide Holds;
  }

  /**
   Component atomicity. A component is applied exactly when its rows are accepted and every step
   succeeds, and then every target equals its source. When installing, validating, reloading or
   verifying fails, every file is as it was, content or absence, provided that the rollback's own
   copies work; so it is when the rows are refused or a target cannot be saved. Whatever fails, no
   file outside the component's targets changes.
   */
  lemma ComponentIsAtomic(s: State, component: string, rows: seq<Row>, repo: map<string, string>, fate: Fate)
    ensures var (end, after) := Group(s, component, rows, repo, fate);
            && Atomic(s, component, rows, repo, end, after)
            && (end == Applied <==> Accepted(rows, repo) && Smooth(s.files, rows, repo, fate))
            && (Accepted(rows, repo) && Smooth(s.files, rows, repo, fate) ==> Holds(after.files, rows, repo))
            && (!Accepted(rows, repo) || !Saveable(s.files, rows, fate) ==> after.files == s.files)
            && (StepFails(s.files, rows, repo, fate) && !DirectoryFails(s.files, rows, repo, fate)
                && RestoresWork(rows, fate)
                ==> after.files == s.files)
  {
    GroupIsAtomic(s, component, rows, repo, fate);
    GroupEnds(s, component, rows, repo, fate);
    SmoothMeans(s.files, rows, repo, fate);
    hide Group, Accepted, Saveable, StepFails, DirectoryFails, RestoresWork, Smooth, Holds, Apart;
  }

  lemma DirectoryLeaves(s: State, component: string, rows: seq<Row>, repo: map<string, string>, fate: Fate)
    requires Accepted(rows, repo) && Saveable(s.files, rows, fate) && DirectoryFails(s.files, rows, repo, fate)
    ensures var i := InstallFailure(s.files, rows, repo, fate, 0);
            Group(s, component, rows, repo, fate).1.files == Written(s.files, rows[..i], NewFile(repo))
  {
    FailuresMean(s.files, rows, repo, fate);
    hide Written, Saved, Accepted, Makes, Saveable;
  }

  /**
   `mkdir -p` stands outside any `if`: when it fails, the script ends without rolling back. The
   component is then as it was exactly when the targets before that row already held their sources.
   */
  lemma UnguardedDirectory(s: State, component: string, rows: seq<Row>, repo: map<string, string>, fate: Fate)
    requires Accepted(rows, repo) && Saveable(s.files, rows, fate) && DirectoryFails(s.files, rows, repo, fate)
    ensures Group(s, component, rows, repo, fate).0 == DirectoryStopped
    ensures Group(s, component, rows, repo, fate).1.files == s.files
            <==> Holds(s.files, rows[..InstallFailure(s.files, rows, repo, fate, 0)], repo)
  {
    GroupEnds(s, component, rows, repo, fate);
    DirectoryLeaves(s, component, rows, repo, fate);
    ScanDistinct(rows, repo);
    hide Group, Accepted, Scan, Saveable, DirectoryFails;
    PrefixUnchanged(s.files, rows, InstallFailure(s.files, rows, repo, fate, 0), repo);
  }

  lemma PrefixUnchanged(files: Files, rows: seq<Row>, n: nat, repo: map<string, string>)
    requires Distinct(rows) && n <= |rows|
    ensures Written(files, rows[..n], NewFile(repo)) == files <==> Holds(files, rows[..n], repo)
  {
    var some := rows[..n];
    var written := Written(files, some, NewFile(repo));
    assert forall i :: 0 <= i < n ==> some[i] == rows[i];
    assert Distinct(some);
    InstallHolds(files, some, repo);
    if Holds(files, some, repo) {
      forall t: string
        ensures At(written, t) == At(files, t)
      {
        if t in Targets(some) {
          var i :| 0 <= i < |some| && some[i].target == t;
          assert At(written, some[i].target) == NewFile(repo)(some[i]);
        }
      }
      SameFiles(written, files);
    }
  }

  // ---------------------------------------------------------------- which components are always atomic

  /** The directory of row `j` may be missing when its turn comes. */
  predicate MayBeMissing(files: Files, rows: seq<Row>, repo: map<string, string>, j: nat)
    requires j < |rows|
  {
    !Stands(Written(files, rows[..j], NewFile(repo)), Dirname(rows[j].target))
  }

  /**
   However its commands turn out, as long as the rollback's own copies work, a component is applied
   or every file is as before. What its service runs on is another matter, see `StaleExactly`.
   */
  ghost predicate AlwaysAtomic(s: State, component: string, rows: seq<Row>, repo: map<string, string>) {
    forall fate :: RestoresWork(rows, fate) ==>
      Group(s, component, rows, repo, fate).0 == Applied || Group(s, component, rows, repo, fate).1.files == s.files
  }

  /** Before every row whose directory may be missing, all targets already hold their sources. */
  predicate NothingAtStake(files: Files, rows: seq<Row>, repo: map<string, string>) {
    forall j :: 0 <= j < |rows| ==> MayBeMissing(files, rows, repo, j) ==> Holds(files, rows[..j], repo)
  }

  /** Everything works but making one directory. */
  function Without(directory: string): Fate {
    Fate(t => true, d => d != directory, t => Done, c => true, Succeeds, true, t => Done, Succeeds)
  }

  lemma {:induction false} WrittenKeeps(files: Files, rows: seq<Row>, repo: map<string, string>, path: string)
    requires forall i :: 0 <= i < |rows| ==> rows[i].source in repo
    ensures path in files || path in Targets(rows) ==> path in Written(files, rows, NewFile(repo))
  {
    if rows != [] {
      var rest := rows[..|rows| - 1];
      assert forall i :: 0 <= i < |rest| ==> rest[i] == rows[i];
      WrittenKeeps(files, rest, repo, path);
      if path in Targets(rows) && path !in Targets(rest) {
        var i :| 0 <= i < |rows| && rows[i].target == path;
        assert i < |rest| ==> rest[i].target in Targets(rest);
      }
    }
  }

  lemma {:induction false} DirnameAbove(path: string)
    ensures Dirname(path) == "/" || Dirname(path) == "." || Dirname(path) + "/" <= path
  {
    if path != "" {
      if path[|path| - 1] == '/' {
        SlashesOff(path);
      } else {
        DirnameAbove(path[..|path| - 1]);
      }
    }
  }

  lemma {:induction false} SlashesOff(path: string)
    requires path != "" && path[|path| - 1] == '/'
    ensures WithoutSlashes(path) == "/" || WithoutSlashes(path) + "/" <= path
  {
    var rest := path[..|path| - 1];
    if rest == "" || rest[|rest| - 1] != '/' {
      assert rest != "" ==> WithoutSlashes(path) == rest;
      assert rest + "/" == path;
    } else {
      SlashesOff(rest);
    }
  }

  /** The first row that shares a directory with row `j` makes it stand. */
  lemma SharedDirectoryStands(files: Files, rows: seq<Row>, repo: map<string, string>, i: nat, j: nat)
    requires i < j < |rows| && Dirname(rows[i].target) == Dirname(rows[j].target)
    requires forall k :: 0 <= k < |rows| ==> rows[k].source in repo
    ensures !MayBeMissing(files, rows, repo, j)
  {
    var some := rows[..j];
    assert forall k :: 0 <= k < |some| ==> some[k] == rows[k];
    assert some[i].target in Targets(some);
    WrittenKeeps(files, some, repo, rows[i].target);
    DirnameAbove(rows[i].target);
    hide Dirname, Written;
  }

  /** If row `j` may miss its directory, it can be made the first failure, after every row before it was installed. */
  lemma FailsThere(files: Files, rows: seq<Row>, repo: map<string, string>, j: nat)
    requires j < |rows| && MayBeMissing(files, rows, repo, j)
    requires forall k :: 0 <= k < |rows| ==> rows[k].source in repo
    ensures var fate := Without(Dirname(rows[j].target));
            InstallFailure(files, rows, repo, fate, 0) == j && DirectoryFails(files, rows, repo, fate)
            && Saveable(files, rows, fate) && RestoresWork(rows, fate)
  {
    var fate := Without(Dirname(rows[j].target));
    forall k | 0 <= k < j
      ensures Installs(files, rows, repo, fate, k)
    {
      if Dirname(rows[k].target) == Dirname(rows[j].target) { SharedDirectoryStands(files, rows, repo, k, j); }
      hide Stands;
    }
    hide Stands;
    assert !Makes(files, rows, repo, fate, j) && !Installs(files, rows, repo, fate, j);
  }

  /**
   Exactly which components are, as long as the rollback's own copies work, always applied with every
   file or leave every file as before: those that are refused, and those where nothing has changed
   before a directory that may be missing.
   */
  lemma AlwaysAtomicExactly(s: State, component: string, rows: seq<Row>, repo: map<string, string>)
    ensures AlwaysAtomic(s, component, rows, repo) <==> !Accepted(rows, repo) || NothingAtStake(s.files, rows, repo)
  {
    hide Group, Accepted, MayBeMissing, Holds;
    if Accepted(rows, repo) {
      ScanSources(rows, repo);
      if AlwaysAtomic(s, component, rows, repo) {
        forall j | 0 <= j < |rows| && MayBeMissing(s.files, rows, repo, j)
          ensures Holds(s.files, rows[..j], repo)
        {
          var fate := Without(Dirname(rows[j].target));
          FailsThere(s.files, rows, repo, j);
          UnguardedDirectory(s, component, rows, repo, fate);
        }
      }
    }
    if !Accepted(rows, repo) || NothingAtStake(s.files, rows, repo) {
      forall fate | RestoresWork(rows, fate)
        ensures Group(s, component, rows, repo, fate).0 == Applied
                || Group(s, component, rows, repo, fate).1.files == s.files
      {
        AtomicByFate(s, component, rows, repo, fate);
      }
    }
  }

  lemma ScanSources(rows: seq<Row>, repo: map<string, string>)
    requires Accepted(rows, repo)
    ensures Distinct(rows) && forall k :: 0 <= k < |rows| ==> rows[k].source in repo
  {
    ScanDistinct(rows, repo);
  }

  lemma AtomicByFate(s: State, component: string, rows: seq<Row>, repo: map<string, string>, fate: Fate)
    requires RestoresWork(rows, fate)
    requires !Accepted(rows, repo) || NothingAtStake(s.files, rows, repo)
    ensures Group(s, component, rows, repo, fate).0 == Applied
            || Group(s, component, rows, repo, fate).1.files == s.files
  {
    ComponentIsAtomic(s, component, rows, repo, fate);
    GroupEnds(s, component, rows, repo, fate);
    if Accepted(rows, repo) && Saveable(s.files, rows, fate) && DirectoryFails(s.files, rows, repo, fate) {
      UnguardedDirectory(s, component, rows, repo, fate);
      MissingThere(s.files, rows, repo, fate);
    }
    hide Group, Accepted, Saveable, StepFails, DirectoryFails, RestoresWork, Smooth, Holds, Apart, MayBeMissing;
  }

  lemma MissingThere(files: Files, rows: seq<Row>, repo: map<string, string>, fate: Fate)
    requires DirectoryFails(files, rows, repo, fate)
    ensures MayBeMissing(files, rows, repo, InstallFailure(files, rows, repo, fate, 0))
  {
    hide Stands, Written;
  }

  /** Components of one file, and components all of whose files share a directory, are always atomic in that sense. */
  lemma OneDirectoryIsAtomic(s: State, component: string, rows: seq<Row>, repo: map<string, string>)
    requires forall i, j :: 0 <= i < j < |rows| ==> Dirname(rows[i].target) == Dirname(rows[j].target)
    ensures AlwaysAtomic(s, component, rows, repo)
  {
    AlwaysAtomicExactly(s, component, rows, repo);
    if Accepted(rows, repo) {
      ScanSources(rows, repo);
      hide AlwaysAtomic, Accepted, Dirname;
      forall j | 0 <= j < |rows| && MayBeMissing(s.files, rows, repo, j)
        ensures Holds(s.files, rows[..j], repo)
      {
        if j > 0 { SharedDirectoryStands(s.files, rows, repo, 0, j); }
      }
    }
  }

  /** A component whose validation fails, and whose rollback breaks the first file it copies. */
  function Wrecked(left: Option<File>): Fate {
    Fate(t => true, t => true, t => Done, c => false, Succeeds, true, t => Broken(left), Succeeds)
  }

  /** A wrecked component leaves its first file in the state the broken copy left it in, and its service alone. */
  lemma WreckedFile(s: State, component: string, rows: seq<Row>, repo: map<string, string>, left: Option<File>)
    requires Accepted(rows, repo)
    ensures var (end, after) := Group(s, component, rows, repo, Wrecked(left));
            end == RestoreStopped && At(after.files, rows[0].target) == left && Apart(after.files, s.files, rows)
            && after.loaded == s.loaded
  {
    var fate := Wrecked(left);
    assert Saveable(s.files, rows, fate) && Installable(s.files, rows, repo, fate) && !Validates(rows, fate);
    FailuresMean(s.files, rows, repo, fate);
    GroupIsAtomic(s, component, rows, repo, fate);
    assert rows[..0] == [] && rows[..|rows|] == rows;
    assert RestoreFailure(rows, fate, 0) == 0;
    hide Accepted, Saved, Apart;
  }

  /** Without working copies in the rollback, every accepted component can be left neither applied nor as before. */
  lemma NeedsWorkingCopies(s: State, component: string, rows: seq<Row>, repo: map<string, string>) returns (fate: Fate)
    requires Accepted(rows, repo)
    ensures var (end, after) := Group(s, component, rows, repo, fate); end != Applied && after.files != s.files
  {
    var left := if rows[0].target in s.files then None else Some(File("", ""));
    fate := Wrecked(left);
    WreckedFile(s, component, rows, repo, left);
    hide Group, Accepted;
  }

  /** Two files, the second in a directory of its own that cannot be made: the first one stays installed. */
  lemma HalfInstalled() returns (s: State, rows: seq<Row>, repo: map<string, string>, fate: Fate)
    ensures Accepted(rows, repo) && RestoresWork(rows, fate)
    ensures var (end, after) := Group(s, "site", rows, repo, fate);
            end == DirectoryStopped && after.files != s.files
  {
    s := State(map[], map[], map[]);
    repo := map["a" := "text"];
    rows := [Row("site", "a", "/etc/a", "0644", "true", "true", "true"),
             Row("site", "a", "/etc/b/c", "0644", "true", "true", "true")];
    fate := Without("/etc/b");
    TwoRows(rows, repo);
    assert Dirname("/etc/b/c") == "/etc/b" by {
      assert "/etc/b/c"[..7] == "/etc/b/" && "/etc/b/"[..6] == "/etc/b";
    }
    assert rows[..1] == [rows[0]];
    WrittenOne(s.files, rows[0], repo);
    var written := Written(s.files, rows[..1], NewFile(repo));
    assert written.Keys == {"/etc/a"};
    assert !("/etc/b" + "/" <= "/etc/a") by { assert ("/etc/b" + "/")[5] == 'b' && "/etc/a"[5] == 'a'; }
    FailsThere(s.files, rows, repo, 1);
    UnguardedDirectory(s, "site", rows, repo, fate);
    assert At(s.files, rows[..1][0].target) != NewFile(repo)(rows[..1][0]);
  }

  lemma WrittenOne(files: Files, row: Row, repo: map<string, string>)
    requires row.source in repo
    ensures Written(files, [row], NewFile(repo)) == files[row.target := File(repo[row.source], row.mode)]
  {
    assert [row][..0] == [];
    assert Written(files, [], NewFile(repo)) == files;
  }

  lemma TwoRows(rows: seq<Row>, repo: map<string, string>)
    requires |rows| == 2 && rows[0].target != rows[1].target && rows[0].source in repo && rows[1].source in repo
    requires rows[0].reload == rows[1].reload != "" && rows[0].verify == rows[1].verify != ""
    requires rows[0].validate != "" && rows[1].validate != ""
    ensures Accepted(rows, repo)
  {
    AcceptedMeans(rows, repo);
  }

  /** Once a command is given, every later row gives the same one. */
  predicate Uniform(rows: seq<Row>) {
    forall i, j :: 0 <= i < j < |rows| ==>
      && (rows[i].reload == "" || rows[i].reload == rows[j].reload)
      && (rows[i].verify == "" || rows[i].verify == rows[j].verify)
  }

  predicate Sourced(rows: seq<Row>, repo: map<string, string>) {
    forall i :: 0 <= i < |rows| ==> rows[i].source in repo
  }

  /** The commands of the last row; blank ones if there is no row. */
  function LastReload(rows: seq<Row>): string {
    if rows == [] then "" else rows[|rows| - 1].reload
  }

  function LastVerify(rows: seq<Row>): string {
    if rows == [] then "" else rows[|rows| - 1].verify
  }

  lemma {:induction false} ScanMeans(rows: seq<Row>, repo: map<string, string>)
    ensures Scan(rows, repo).Some? <==> Distinct(rows) && Sourced(rows, repo) && Uniform(rows)
    ensures Scan(rows, repo).Some? ==>
              Scan(rows, repo).value == Collected(Targets(rows), LastReload(rows), LastVerify(rows))
  {
    if rows != [] {
      var rest, last := rows[..|rows| - 1], rows[|rows| - 1];
      ScanMeans(rest, repo);
      ScanSplits(rows, repo);
      UniformSplits(rows);
      hide Distinct, Sourced, Uniform;
      if Scan(rows, repo).Some? { ScanDistinct(rows, repo); }
    }
  }

  lemma ScanSplits(rows: seq<Row>, repo: map<string, string>)
    requires rows != []
    ensures var rest, last := rows[..|rows| - 1], rows[|rows| - 1];
            (Distinct(rows) <==> Distinct(rest) && last.target !in Targets(rest))
            && (Sourced(rows, repo) <==> Sourced(rest, repo) && last.source in repo)
  {
    var rest, last := rows[..|rows| - 1], rows[|rows| - 1];
    assert rows == rest + [last];
    assert forall i :: 0 <= i < |rest| ==> rest[i] == rows[i];
  }

  lemma UniformSplits(rows: seq<Row>)
    requires rows != []
    ensures var rest, last := rows[..|rows| - 1], rows[|rows| - 1];
            Uniform(rows)
            <==> && Uniform(rest)
                 && (LastReload(rest) == "" || LastReload(rest) == last.reload)
                 && (LastVerify(rest) == "" || LastVerify(rest) == last.verify)
  {
    var rest, last := rows[..|rows| - 1], rows[|rows| - 1];
    assert forall i :: 0 <= i < |rest| ==> rest[i] == rows[i];
    if rest != [] {
      var before := rest[|rest| - 1];
      if Uniform(rest) && (before.reload == "" || before.reload == last.reload)
         && (before.verify == "" || before.verify == last.verify)
      {
        forall i, j | 0 <= i < j < |rows|
          ensures rows[i].reload == "" || rows[i].reload == rows[j].reload
          ensures rows[i].verify == "" || rows[i].verify == rows[j].verify
        {
          if j < |rest| { assert rows[i] == rest[i] && rows[j] == rest[j]; } else { assert rows[i] == rest[i]; }
        }
      }
    }
  }

  /**
   Rows are accepted exactly when there are some, their targets differ, their sources exist, every
   row has a validation command, and the reload and verification commands agree: blank ones may
   precede, and from the first that is given all are the same.
   */
  lemma AcceptedMeans(rows: seq<Row>, repo: map<string, string>)
    ensures Accepted(rows, repo)
            <==> && rows != []
                 && (forall i, j :: 0 <= i < j < |rows| ==> rows[i].target != rows[j].target)
                 && (forall i :: 0 <= i < |rows| ==> rows[i].source in repo && rows[i].validate != "")
                 && rows[|rows| - 1].reload != "" && rows[|rows| - 1].verify != ""
                 && Uniform(rows)
  {
    ScanMeans(rows, repo);
    hide Scan, Uniform;
  }

  /**
   What applying a component installs: every target has its source's text and its own mode, no other
   file is touched, and the service has loaded just these files.
   */
  lemma AppliedFiles(s: State, component: string, rows: seq<Row>, repo: map<string, string>, fate: Fate)
    requires Group(s, component, rows, repo, fate).0 == Applied
    ensures var after := Group(s, component, rows, repo, fate).1;
            && (forall i :: 0 <= i < |rows| ==>
                  && rows[i].source in repo && rows[i].target in after.files
                  && after.files[rows[i].target] == File(repo[rows[i].source], rows[i].mode))
            && (forall t: string :: (forall i :: 0 <= i < |rows| ==> rows[i].target != t) ==>
                  (t in after.files <==> t in s.files) && (t in s.files ==> after.files[t] == s.files[t]))
            && after.loaded == s.loaded[component := after.files]
  {
    ComponentIsAtomic(s, component, rows, repo, fate);
    ScanSources(rows, repo);
    var after := Group(s, component, rows, repo, fate).1;
    hide Group, Accepted, Smooth, StepFails, DirectoryFails, Saveable, RestoresWork;
    forall i | 0 <= i < |rows|
      ensures rows[i].target in after.files
              && after.files[rows[i].target] == File(repo[rows[i].source], rows[i].mode)
    {
      assert At(after.files, rows[i].target) == NewFile(repo)(rows[i]);
    }
    forall t: string | forall i :: 0 <= i < |rows| ==> rows[i].target != t
      ensures (t in after.files <==> t in s.files) && (t in s.files ==> after.files[t] == s.files[t])
    {
      assert At(after.files, t) == At(s.files, t);
    }
  }

  /**
   When a component is applied: only if every target that exists can be saved, every file installed,
   every validation passes, and the reload and the verification succeed; and then always, if its rows
   are accepted and every directory can be made.
   */
  lemma AppliedMeans(s: State, component: string, rows: seq<Row>, repo: map<string, string>, fate: Fate)
    ensures var works := && fate.reload == Succeeds && fate.verify
                         && forall i :: 0 <= i < |rows| ==>
                              && (rows[i].target in s.files ==> fate.backup(rows[i].target))
                              && fate.install(rows[i].target) == Done && fate.validate(rows[i].validate);
            && (Group(s, component, rows, repo, fate).0 == Applied ==> Accepted(rows, repo) && works)
            && (Accepted(rows, repo) && works
                && (forall i :: 0 <= i < |rows| ==> fate.directory(Dirname(rows[i].target)))
                ==> Group(s, component, rows, repo, fate).0 == Applied)
  {
    ComponentIsAtomic(s, component, rows, repo, fate);
    hide Group, Accepted, Atomic, StepFails, DirectoryFails, RestoresWork, Holds, Stands, Dirname, Written;
    if Smooth(s.files, rows, repo, fate) {
      forall i | 0 <= i < |rows|
        ensures fate.install(rows[i].target) == Done
      {
        assert Installs(s.files, rows, repo, fate, i);
      }
    }
  }

  // ---------------------------------------------------------------- directories

  lemma {:induction false} DirnameOf(directory: string, name: string)
    requires name != "" && '/' !in name
    ensures Dirname(directory + "/" + name) == WithoutSlashes(directory)
    decreases |name|
  {
    var path, front := directory + "/" + name, name[..|name| - 1];
    assert path[|path| - 1] == name[|name| - 1] && name[|name| - 1] in name;
    assert path[..|path| - 1] == directory + "/" + front;
    if front == "" {
      assert directory + "/" + front == directory + "/";
      assert (directory + "/")[..|directory|] == directory;
    } else {
      DirnameOf(directory, front);
    }
  }

  lemma {:induction false} DirnameOfName(name: string)
    requires '/' !in name
    ensures Dirname(name) == "."
  {
    if name != "" {
      assert name[|name| - 1] in name;
      DirnameOfName(name[..|name| - 1]);
    }
  }

  /** The directory of a file is what stands before the slash in front of its name; the root, if nothing does. */
  lemma DirnameExactly(directory: string, name: string)
    requires name != "" && '/' !in name && (directory != "" ==> directory[|directory| - 1] != '/')
    ensures Dirname(directory + "/" + name) == if directory == "" then "/" else directory
    ensures Dirname(name) == "."
  {
    DirnameOf(directory, name);
    DirnameOfName(name);
    if directory != "" { WholePath(directory); }
  }

  lemma WholePath(directory: string)
    requires directory != "" && directory[|directory| - 1] != '/'
    ensures WithoutSlashes(directory) == directory
  {
  }

  // ---------------------------------------------------------------- what the service runs on

  /** The component gets as far as its first reload. */
  predicate IsReloaded(files: Files, rows: seq<Row>, repo: map<string, string>, fate: Fate) {
    Accepted(rows, repo) && Saveable(files, rows, fate) && Installable(files, rows, repo, fate) && Validates(rows, fate)
  }

  /** The second reload happens, with the old files on disk. */
  predicate IsReloadedAgain(files: Files, rows: seq<Row>, repo: map<string, string>, fate: Fate) {
    IsReloaded(files, rows, repo, fate) && !Confirms(fate) && RestoresWork(rows, fate)
  }

  /**
   What the service runs afterwards, however the commands turn out: what the newest reload that took
   effect gave it, whether or not that reload succeeded. The first reload gives it the new files, the
   second one the old files, and either may leave it stopped.
   */
  lemma ServiceAfter(s: State, component: string, rows: seq<Row>, repo: map<string, string>, fate: Fate)
    ensures var after, newer := Group(s, component, rows, repo, fate).1, Written(s.files, rows, NewFile(repo));
            var first, second := EffectOf(fate.reload), EffectOf(fate.reloadAgain);
            after.loaded ==
            if IsReloadedAgain(s.files, rows, repo, fate) && second != Keeps
            then Changed(s.loaded, component, s.files, second)
            else if IsReloaded(s.files, rows, repo, fate) then Changed(s.loaded, component, newer, first)
            else s.loaded
  {
    GroupIsAtomic(s, component, rows, repo, fate);
    FailuresMean(s.files, rows, repo, fate);
    if Accepted(rows, repo) && BackupFailure(s.files, rows, fate, 0) == |rows| {
      assert rows[..|rows|] == rows;
      ScanDistinct(rows, repo);
      hide Written, Saved, Accepted, Installable, Validates, Saveable, Holds, Install, RestoresWork, Distinct, Scan;
      InstallServes(s.(backups := Saved(s.files, s.backups, rows)), s.backups, component, rows, repo, fate);
    }
  }

  lemma InstallServes(
      s: State, before: Files, component: string, rows: seq<Row>, repo: map<string, string>, fate: Fate)
    requires Distinct(rows) && s.backups == Saved(s.files, before, rows)
    ensures var after, newer := Install(s, component, rows, repo, fate).1, Written(s.files, rows, NewFile(repo));
            after.loaded ==
            if InstallFailure(s.files, rows, repo, fate, 0) < |rows| then s.loaded
            else Served(s.loaded, component, newer, s.files, rows, fate)
  {
    hide Written, Saved, RollBack, Distinct, Validates, RestoresWork, Makes, Holds, Installs, Served;
    var i := InstallFailure(s.files, rows, repo, fate, 0);
    var files := Written(s.files, rows[..i], NewFile(repo));
    WrittenApart(s.files, s.files, rows, rows[..i], NewFile(repo));
    if i == |rows| {
      assert rows[..i] == rows;
      CheckServes(s.(files := files), s.files, before, component, rows, fate);
    } else if Makes(s.files, rows, repo, fate, i) {
      BrokenAt(s.files, rows, repo, fate, i);
      var left := fate.install(rows[i].target).left;
      PutApart(files, s.files, rows, i, left);
      RollBackLoads(s.(files := Put(files, rows[i].target, left)), s.files, before, component, rows, fate);
    }
  }

  /** What is loaded once the new files are installed and checked. */
  function Served(
      loaded: map<string, Files>, component: string, newer: Files, older: Files, rows: seq<Row>, fate: Fate)
    : map<string, Files>
  {
    var first, second := EffectOf(fate.reload), EffectOf(fate.reloadAgain);
    var again := Validates(rows, fate) && !Confirms(fate) && RestoresWork(rows, fate);
    if again && second != Keeps then Changed(loaded, component, older, second)
    else if Validates(rows, fate) then Changed(loaded, component, newer, first)
    else loaded
  }

  lemma CheckServes(s: State, existed: Files, before: Files, component: string, rows: seq<Row>, fate: Fate)
    requires Distinct(rows) && Apart(s.files, existed, rows) && s.backups == Saved(existed, before, rows)
    ensures CheckInstalled(s, existed, component, rows, fate).1.loaded
            == Served(s.loaded, component, s.files, existed, rows, fate)
  {
    var running := Reloaded(s, component, fate.reload);
    RollBackLoads(s, existed, before, component, rows, fate);
    RollBackLoads(running, existed, before, component, rows, fate);
    Overtaken(s.loaded, component, s.files, existed, EffectOf(fate.reload), EffectOf(fate.reloadAgain));
    hide RollBack, RollBackAndReload, Saved, Distinct, Validates, Apart, RestoresWork, Changed, EffectOf;
  }

  /** Of two changes to what one component has loaded, the later counts. */
  lemma Overtaken(
      loaded: map<string, Files>, component: string, newer: Files, older: Files, first: Effect, second: Effect)
    ensures Changed(Changed(loaded, component, newer, first), component, older, second)
            == if second == Keeps then Changed(loaded, component, newer, first)
               else Changed(loaded, component, older, second)
  {
  }

  lemma RollBackLoads(s: State, existed: Files, before: Files, component: string, rows: seq<Row>, fate: Fate)
    requires Distinct(rows) && Apart(s.files, existed, rows) && s.backups == Saved(existed, before, rows)
    ensures var (end, undone) := RollBack(s, existed, rows, fate);
            undone.loaded == s.loaded && end != Applied && (end == RolledBack ==> undone.files == existed)
    ensures var (end, after) := RollBackAndReload(s, existed, component, rows, fate);
            (end == RolledBack <==> RestoresWork(rows, fate)) && end != Applied
            && after.loaded ==
               if end != RolledBack then s.loaded
               else Reloaded(s.(files := existed), component, fate.reloadAgain).loaded
  {
    RollBackRestores(s, existed, before, rows, fate);
    RollBackEnds(s, existed, rows, fate);
    hide RollBack, RestoresWork;
  }

  /** What runs agrees with the files on disk, as far as the component's targets go. */
  predicate InStep(loaded: map<string, Files>, component: string, files: Files, rows: seq<Row>) {
    component in loaded
    && forall i :: 0 <= i < |rows| ==> At(loaded[component], rows[i].target) == At(files, rows[i].target)
  }

  /**
   Exactly when a service is left on files that its component did not keep. Take a component with
   something new, whose service is stopped or in step with the disk. Afterwards the component is not
   applied although its service runs on the new files exactly when the first reload loaded them,
   that reload or the verification failed, and no second reload loaded the old files or stopped the
   service. If the rollback's own copies work, the service is then on files no longer on disk, and
   this is the only way to be out of step.
   */
  lemma StaleExactly(s: State, component: string, rows: seq<Row>, repo: map<string, string>, fate: Fate)
    requires Accepted(rows, repo) && !Holds(s.files, rows, repo)
    requires component in s.loaded ==> InStep(s.loaded, component, s.files, rows)
    ensures var (end, after) := Group(s, component, rows, repo, fate);
            var stale := IsReloaded(s.files, rows, repo, fate) && EffectOf(fate.reload) == Loads && !Confirms(fate)
                         && !(RestoresWork(rows, fate) && EffectOf(fate.reloadAgain) != Keeps);
            && (end != Applied && component in after.loaded && Holds(after.loaded[component], rows, repo) <==> stale)
            && (end == RolledBack ==>
                  after.files == s.files
                  && (component in after.loaded && !InStep(after.loaded, component, after.files, rows) <==> stale))
  {
    hide Group, Accepted, Written, Saveable, Installable, Validates, RestoresWork, StepFails, DirectoryFails, Holds;
    hide InStep, Smooth, Confirms, Distinct;
    var (end, after) := Group(s, component, rows, repo, fate);
    var newer := Written(s.files, rows, NewFile(repo));
    GroupEnds(s, component, rows, repo, fate);
    ComponentIsAtomic(s, component, rows, repo, fate);
    ServiceAfter(s, component, rows, repo, fate);
    ScanSources(rows, repo);
    InstallHolds(s.files, rows, repo);
    ReloadedEnds(s.files, rows, repo, fate);
    InStepHolds(s.loaded, component, s.files, rows, repo);
    InStepHolds(after.loaded, component, s.files, rows, repo);
  }

  /** How a component that gets as far as its first reload ends. */
  lemma ReloadedEnds(files: Files, rows: seq<Row>, repo: map<string, string>, fate: Fate)
    ensures IsReloaded(files, rows, repo, fate) ==>
              EndOf(files, rows, repo, fate) ==
              if Confirms(fate) then Applied else if RestoresWork(rows, fate) then RolledBack else RestoreStopped
    ensures EndOf(files, rows, repo, fate) == Applied ==> IsReloaded(files, rows, repo, fate) && Confirms(fate)
    ensures EndOf(files, rows, repo, fate) == RolledBack ==> RestoresWork(rows, fate)
  {
    FailuresMean(files, rows, repo, fate);
    SmoothMeans(files, rows, repo, fate);
    hide Accepted, Saveable, Installable, Validates, RestoresWork, Makes;
  }

  /** In step with files that lack something new, a service does not run on the new files. */
  lemma InStepHolds(
      loaded: map<string, Files>, component: string, files: Files, rows: seq<Row>, repo: map<string, string>)
    requires !Holds(files, rows, repo)
    ensures InStep(loaded, component, files, rows) ==> component in loaded && !Holds(loaded[component], rows, repo)
    ensures component in loaded && loaded[component] == files ==> InStep(loaded, component, files, rows)
  {
  }

  /** Everything works but the verification and the reload after the rollback. */
  function Unverified(): Fate {
    Fate(t => true, d => true, t => Done, c => true, Succeeds, false, t => Done, Fails(Keeps))
  }

  /** Everything works but the reload, which fails after having had its effect, and the one after the rollback. */
  function Unanswered(effect: Effect): Fate {
    Fate(t => true, d => true, t => Done, c => true, Fails(effect), true, t => Done, Fails(Keeps))
  }

  /**
   A component whose files are new to the host can always be left like that, rolled back on disk
   while its service goes on with files that are no longer there: when the verification fails, and
   also when the reload starts the service on the new files and then fails. It can be left with its
   service stopped as well.
   */
  lemma StaleService(s: State, component: string, rows: seq<Row>, repo: map<string, string>, fate: Fate)
    requires Accepted(rows, repo)
    requires fate == Unverified() || fate == Unanswered(Loads) || fate == Unanswered(Stops)
    ensures var (end, after) := Group(s, component, rows, repo, fate);
            end == RolledBack && after.files == s.files
            && (fate == Unanswered(Stops) ==> component !in after.loaded)
            && (fate != Unanswered(Stops) ==>
                  component in after.loaded && after.loaded[component] == Written(s.files, rows, NewFile(repo))
                  && (after.loaded[component] == after.files <==> Holds(s.files, rows, repo)))
  {
    OnlyServiceFails(s.files, rows, repo, fate);
    GroupEnds(s, component, rows, repo, fate);
    ReloadedEnds(s.files, rows, repo, fate);
    GroupIsAtomic(s, component, rows, repo, fate);
    ServiceAfter(s, component, rows, repo, fate);
    ScanDistinct(rows, repo);
    PrefixUnchanged(s.files, rows, |rows|, repo);
    assert rows[..|rows|] == rows;
    hide Group, Accepted, Written, IsReloaded, RestoresWork, EndOf, Holds, Scan, Distinct, Apart;
  }

  lemma OnlyServiceFails(files: Files, rows: seq<Row>, repo: map<string, string>, fate: Fate)
    requires Accepted(rows, repo)
    requires fate == Unverified() || fate == Unanswered(Loads) || fate == Unanswered(Stops)
    ensures IsReloaded(files, rows, repo, fate) && RestoresWork(rows, fate) && !Confirms(fate)
    ensures EffectOf(fate.reload) == if fate == Unanswered(Stops) then Stops else Loads
    ensures EffectOf(fate.reloadAgain) == Keeps
  {
    hide Accepted, Stands, Dirname, Written;
  }

  /** Some reload leaves the service stopped. */
  predicate MayStop(fate: Fate) {
    EffectOf(fate.reload) == Stops || EffectOf(fate.reloadAgain) == Stops
  }

  /** What one reload of a component may have changed. */
  predicate LoadsOne(
      r: State, loaded: map<string, Files>, component: string, newer: Files, older: Files, mayStop: bool)
  {
    || (r.loaded == loaded[component := r.files] && (r.files == newer || r.files == older))
    || (mayStop && r.loaded == loaded - {component})
  }

  /** What the reloads of a component may have changed, and that the last one is in effect. */
  predicate LoadsEither(
      reloads: seq<State>, loaded: map<string, Files>, component: string, newer: Files, older: Files, mayStop: bool,
      after: map<string, Files>)
  {
    (forall r :: r in reloads ==> LoadsOne(r, loaded, component, newer, older, mayStop))
    && after == if reloads == [] then loaded else reloads[|reloads| - 1].loaded
  }

  lemma CheckReloadsLoad(s: State, existed: Files, before: Files, component: string, rows: seq<Row>, fate: Fate)
    requires Distinct(rows) && Apart(s.files, existed, rows) && s.backups == Saved(existed, before, rows)
    ensures var (end, after) := CheckInstalled(s, existed, component, rows, fate);
            var reloads := CheckReloads(s, existed, component, rows, fate);
            LoadsEither(reloads, s.loaded, component, s.files, existed, MayStop(fate), after.loaded)
            && (end == Applied ==> reloads == [after])
  {
    ReloadLoads(s.loaded, s, component, fate.reload, s.files, existed, MayStop(fate));
    CheckServes(s, existed, before, component, rows, fate);
    CheckEnds(s, existed, component, rows, fate);
    var running := Reloaded(s, component, fate.reload);
    var (end, undone) := RollBack(running, existed, rows, fate);
    RollBackEnds(running, existed, rows, fate);
    RollBackLoads(running, existed, before, component, rows, fate);
    Overtaken(s.loaded, component, s.files, existed, EffectOf(fate.reload), EffectOf(fate.reloadAgain));
    var first := ReloadStates(s, component, fate.reload);
    var again := !Confirms(fate) && end == RolledBack;
    var second := if again then ReloadStates(undone, component, fate.reloadAgain) else [];
    if second != [] { ReloadLoads(s.loaded, undone, component, fate.reloadAgain, s.files, existed, MayStop(fate)); }
    if Validates(rows, fate) && Confirms(fate) { ConfirmedReload(s, existed, component, rows, fate); }
    hide RollBack, CheckInstalled, Saved, Distinct, Validates, Apart, RestoresWork, Changed, LoadsOne, LoadsEither;
    hide MayStop;
    hide Confirms, EffectOf;
    LoadsBoth(first, second, s.loaded, component, s.files, existed, MayStop(fate));
    LoadsNothing(s.loaded, component, s.files, existed, MayStop(fate));
  }

  lemma ConfirmedReload(s: State, existed: Files, component: string, rows: seq<Row>, fate: Fate)
    requires Validates(rows, fate) && Confirms(fate)
    ensures CheckInstalled(s, existed, component, rows, fate) == (Applied, Reloaded(s, component, fate.reload))
    ensures CheckReloads(s, existed, component, rows, fate) == [Reloaded(s, component, fate.reload)]
  {
    hide RollBack, Validates;
  }

  lemma ReloadLoads(
      loaded: map<string, Files>, s: State, component: string, reloading: Reloading, newer: Files, older: Files,
      mayStop: bool)
    requires s.files == newer || s.files == older
    requires EffectOf(reloading) != Keeps ==>
               Changed(s.loaded, component, s.files, EffectOf(reloading))
               == Changed(loaded, component, s.files, EffectOf(reloading))
    requires EffectOf(reloading) == Stops ==> mayStop
    ensures EffectOf(reloading) != Keeps ==>
      LoadsOne(Reloaded(s, component, reloading), loaded, component, newer, older, mayStop)
    ensures EffectOf(reloading) == Keeps ==> Reloaded(s, component, reloading) == s
  {
  }

  lemma LoadsBoth(
      first: seq<State>, second: seq<State>, loaded: map<string, Files>, component: string, newer: Files, older: Files,
      mayStop: bool)
    requires forall r :: r in first ==> LoadsOne(r, loaded, component, newer, older, mayStop)
    requires forall r :: r in second ==> LoadsOne(r, loaded, component, newer, older, mayStop)
    ensures LoadsEither(first + second, loaded, component, newer, older, mayStop,
              if second != [] then second[|second| - 1].loaded
              else if first != [] then first[|first| - 1].loaded
              else loaded)
  {
    hide LoadsOne;
  }

  lemma LoadsNothing(loaded: map<string, Files>, component: string, newer: Files, older: Files, mayStop: bool)
    ensures LoadsEither([], loaded, component, newer, older, mayStop, loaded)
  {
  }

  lemma InstallReloadsLoad(
      s: State, before: Files, component: string, rows: seq<Row>, repo: map<string, string>, fate: Fate)
    requires Distinct(rows) && s.backups == Saved(s.files, before, rows)
    ensures var (end, after) := Install(s, component, rows, repo, fate);
            var reloads := InstallReloads(s, component, rows, repo, fate);
            var newer := Written(s.files, rows, NewFile(repo));
            LoadsEither(reloads, s.loaded, component, newer, s.files, MayStop(fate), after.loaded)
            && (end == Applied ==> reloads == [after])
  {
    assert Apart(s.files, s.files, rows);
    LoadsNothing(s.loaded, component, Written(s.files, rows, NewFile(repo)), s.files, MayStop(fate));
    hide Written, Saved, RollBack, CheckInstalled, CheckReloads, Distinct, Apart, Makes, Installs, LoadsEither, MayStop;
    var i := InstallFailure(s.files, rows, repo, fate, 0);
    var files := Written(s.files, rows[..i], NewFile(repo));
    WrittenApart(s.files, s.files, rows, rows[..i], NewFile(repo));
    if i == |rows| {
      assert rows[..i] == rows;
      CheckReloadsLoad(s.(files := files), s.files, before, component, rows, fate);
    } else if Makes(s.files, rows, repo, fate, i) {
      var left := fate.install(rows[i].target).left;
      PutApart(files, s.files, rows, i, left);
      RollBackLoads(s.(files := Put(files, rows[i].target, left)), s.files, before, component, rows, fate);
    }
  }

  /**
   A component's reloads, failing ones included, give its service the new files, the original ones,
   or a stop; the last one that took effect is in effect at the end.
   */
  lemma ReloadsLoad(s: State, component: string, rows: seq<Row>, repo: map<string, string>, fate: Fate)
    ensures var (end, after) := Group(s, component, rows, repo, fate);
            var reloads := Reloads(s, component, rows, repo, fate);
            var newer := Written(s.files, rows, NewFile(repo));
            LoadsEither(reloads, s.loaded, component, newer, s.files, MayStop(fate), after.loaded)
            && (reloads != [] ==> Accepted(rows, repo))
            && (end == Applied ==> reloads == [after])
  {
    if Accepted(rows, repo) {
      ScanDistinct(rows, repo);
      hide Written, Saved, Install, InstallReloads, Accepted, Scan, Distinct, LoadsEither, MayStop;
      if BackupFailure(s.files, rows, fate, 0) == |rows| {
        assert rows[..|rows|] == rows;
        InstallReloadsLoad(s.(backups := Saved(s.files, s.backups, rows)), s.backups, component, rows, repo, fate);
      }
    }
  }
}

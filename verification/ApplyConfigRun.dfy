/** Applying several components in order, and the script itself, over a mutable host. */
module ApplyConfigRun {
  import opened Options
  import opened ApplyConfig

  // ---------------------------------------------------------------- the order

  /** The order names every component asked for once, and no other, in the order of their first rows. */
  lemma OrderMeans(manifest: seq<Row>, requested: string, component: string)
    ensures component in ComponentOrder(manifest, requested)
            <==> (requested == "all" || requested == component) && RowsOf(manifest, component) != []
    ensures var order := ComponentOrder(manifest, requested);
            forall i, j :: 0 <= i < j < |order| ==> FirstRow(manifest, order[i]) < FirstRow(manifest, order[j])
  {
    OrderHolds(manifest, requested, component);
    NamedInOrder(manifest, requested);
  }

  lemma {:induction false} OrderHolds(manifest: seq<Row>, requested: string, component: string)
    ensures component in ComponentOrder(manifest, requested)
            <==> (requested == "all" || requested == component) && RowsOf(manifest, component) != []
  {
    if manifest != [] {
      OrderHolds(manifest[..|manifest| - 1], requested, component);
    }
  }

  lemma {:induction false} RowsOfConcat(a: seq<Row>, b: seq<Row>, requested: string)
    ensures RowsOf(a + b, requested) == RowsOf(a, requested) + RowsOf(b, requested)
    decreases |b|
  {
    hide Concerns;
    if b == [] {
      assert a + b == a;
    } else {
      assert (a + b)[..|a + b| - 1] == a + b[..|b| - 1];
      RowsOfConcat(a, b[..|b| - 1], requested);
    }
  }

  /** The rows of a component are those that name it, in the order of the manifest; blank and comment rows name none. */
  lemma RowsOfSplits(before: seq<Row>, row: Row, after: seq<Row>, requested: string)
    ensures RowsOf([], requested) == []
    ensures RowsOf(before + [row] + after, requested)
            == RowsOf(before, requested)
               + (if row.component == requested && requested != "" && requested[0] != '#' then [row] else [])
               + RowsOf(after, requested)
  {
    RowsOfConcat(before + [row], after, requested);
    RowsOfConcat(before, [row], requested);
    assert [row][..0] == [];
  }

  /** Where a component is first named. */
  function FirstRow(manifest: seq<Row>, component: string): nat {
    if manifest == [] || manifest[0].component == component then 0 else 1 + FirstRow(manifest[1..], component)
  }

  lemma {:induction false} FirstRowSnoc(manifest: seq<Row>, row: Row, component: string)
    ensures FirstRow(manifest, component) <= |manifest|
    ensures FirstRow(manifest + [row], component)
            == if FirstRow(manifest, component) < |manifest| then FirstRow(manifest, component)
               else if row.component == component then |manifest| else |manifest| + 1
  {
    if manifest == [] {
      assert [] + [row] == [row] && [row][1..] == [];
    } else {
      assert (manifest + [row])[1..] == manifest[1..] + [row];
      FirstRowSnoc(manifest[1..], row, component);
    }
  }

  predicate Asked(component: string, requested: string) {
    component != "" && component[0] != '#' && (requested == "all" || requested == component)
  }

  predicate InOrder(order: seq<string>, manifest: seq<Row>) {
    && (forall i :: 0 <= i < |order| ==> FirstRow(manifest, order[i]) < |manifest|)
    && (forall i, j :: 0 <= i < j < |order| ==> FirstRow(manifest, order[i]) < FirstRow(manifest, order[j]))
  }

  lemma OrderStays(order: seq<string>, before: seq<Row>, row: Row)
    requires InOrder(order, before)
    ensures InOrder(order, before + [row])
    ensures FirstRow(before, row.component) == |before| ==> InOrder(order + [row.component], before + [row])
  {
    hide FirstRow;
    forall i | 0 <= i < |order|
      ensures FirstRow(before + [row], order[i]) == FirstRow(before, order[i]) < |before|
    {
      FirstRowSnoc(before, row, order[i]);
    }
    FirstRowSnoc(before, row, row.component);
    if FirstRow(before, row.component) == |before| { LastInOrder(order, row.component, before + [row]); }
  }

  lemma LastInOrder(order: seq<string>, last: string, manifest: seq<Row>)
    requires manifest != [] && InOrder(order, manifest) && FirstRow(manifest, last) == |manifest| - 1
    requires forall i :: 0 <= i < |order| ==> FirstRow(manifest, order[i]) < |manifest| - 1
    ensures InOrder(order + [last], manifest)
  {
    hide FirstRow;
  }

  lemma {:induction false} NamedInOrder(manifest: seq<Row>, requested: string)
    ensures InOrder(ComponentOrder(manifest, requested), manifest)
  {
    if manifest != [] {
      var before, row := manifest[..|manifest| - 1], manifest[|manifest| - 1];
      assert manifest == before + [row];
      NamedInOrder(before, requested);
      var order := ComponentOrder(before, requested);
      OrderStays(order, before, row);
      if Asked(row.component, requested) && row.component !in order {
        FirstIsNamed(before, requested, row.component);
      }
      hide InOrder, FirstRow;
    }
  }

  /** A component that is asked for and named somewhere is in the order. */
  lemma {:induction false} FirstIsNamed(manifest: seq<Row>, requested: string, component: string)
    requires Asked(component, requested)
    ensures component !in ComponentOrder(manifest, requested) ==> FirstRow(manifest, component) == |manifest|
  {
    if manifest != [] {
      var before, row := manifest[..|manifest| - 1], manifest[|manifest| - 1];
      assert manifest == before + [row];
      FirstIsNamed(before, requested, component);
      FirstRowSnoc(before, row, component);
      hide FirstRow;
    }
  }

  /** All targets of some components. */
  function AllTargets(manifest: seq<Row>, components: seq<string>): set<string> {
    if components == [] then {}
    else Targets(RowsOf(manifest, components[0])) + AllTargets(manifest, components[1..])
  }

  /** The components a run of `count` successes has reached: those applied, and the one it ended with. */
  function Reached(order: seq<string>, count: nat): seq<string> {
    if count < |order| then order[..count + 1] else order
  }

  // ---------------------------------------------------------------- the run

  /** Components after the one that failed are untouched, and so is every file of no component. */
  lemma {:induction false} LaterUntouched(
      s: State, order: seq<string>, manifest: seq<Row>, repo: map<string, string>, fates: string -> Fate,
      target: string)
    requires target !in AllTargets(manifest, Reached(order, Apply(s, order, manifest, repo, fates).0))
    ensures At(Apply(s, order, manifest, repo, fates).2.files, target) == At(s.files, target)
    decreases |order|
  {
    hide Group;
    if order != [] {
      var rows := RowsOf(manifest, order[0]);
      var (end, next) := Group(s, order[0], rows, repo, fates(order[0]));
      GroupIsAtomic(s, order[0], rows, repo, fates(order[0]));
      var reached := Reached(order, Apply(s, order, manifest, repo, fates).0);
      assert reached[0] == order[0];
      if end == Applied {
        var count := Apply(next, order[1..], manifest, repo, fates).0;
        assert reached[1..] == Reached(order[1..], count);
        LaterUntouched(next, order[1..], manifest, repo, fates, target);
      }
    }
  }

  lemma ReachedTail(order: seq<string>, count: nat, j: nat)
    requires j <= count < |order|
    ensures j < |Reached(order, count + 1)| && j <= |Reached(order[1..], count)|
    ensures Reached(order, count + 1)[j + 1..] == Reached(order[1..], count)[j..]
    ensures Reached(order[1..], count)[0..] == Reached(order[1..], count)
  {
    var reached, rest := Reached(order, count + 1), Reached(order[1..], count);
    assert reached == [order[0]] + rest;
  }

  /** Components applied before the failure keep their new files, unless a later component wrote the same target. */
  lemma {:induction false} EarlierKept(
      s: State, order: seq<string>, manifest: seq<Row>, repo: map<string, string>, fates: string -> Fate,
      j: nat, i: nat)
    requires j < Apply(s, order, manifest, repo, fates).0 <= |order|
    requires i < |RowsOf(manifest, order[j])|
    requires RowsOf(manifest, order[j])[i].target
             !in AllTargets(manifest, Reached(order, Apply(s, order, manifest, repo, fates).0)[j + 1..])
    ensures var row := RowsOf(manifest, order[j])[i];
            At(Apply(s, order, manifest, repo, fates).2.files, row.target) == NewFile(repo)(row)
    decreases |order|
  {
    hide Group, RowsOf, NewFile, Reached, AllTargets;
    var rows := RowsOf(manifest, order[0]);
    var (end, next) := Group(s, order[0], rows, repo, fates(order[0]));
    GroupIsAtomic(s, order[0], rows, repo, fates(order[0]));
    var (count, last, after) := Apply(next, order[1..], manifest, repo, fates);
    ReachedTail(order, count, j);
    if j == 0 {
      LaterUntouched(next, order[1..], manifest, repo, fates, rows[i].target);
    } else {
      assert order[1..][j - 1] == order[j];
      EarlierKept(next, order[1..], manifest, repo, fates, j - 1, i);
    }
  }

  /**
   A run that ends in a refusal, an unsaved backup or a rollback has the files that the components
   applied before it left: the failed component is as if it had never been started.
   */
  lemma {:induction false} FailureLeavesPrefix(
      s: State, order: seq<string>, manifest: seq<Row>, repo: map<string, string>, fates: string -> Fate)
    requires var end := Apply(s, order, manifest, repo, fates).1;
             end == Refused || end == BackupStopped || end == RolledBack
    ensures var (count, end, after) := Apply(s, order, manifest, repo, fates);
            count < |order|
            && Apply(s, order[..count], manifest, repo, fates).0 == count
            && Apply(s, order[..count], manifest, repo, fates).1 == Applied
            && after.files == Apply(s, order[..count], manifest, repo, fates).2.files
    decreases |order|
  {
    hide Group;
    var rows := RowsOf(manifest, order[0]);
    var (end, next) := Group(s, order[0], rows, repo, fates(order[0]));
    GroupIsAtomic(s, order[0], rows, repo, fates(order[0]));
    var count := Apply(s, order, manifest, repo, fates).0;
    if end == Applied {
      FailureLeavesPrefix(next, order[1..], manifest, repo, fates);
      assert order[..count][1..] == order[1..][..count - 1];
      assert order[..count][0] == order[0];
    }
  }

  // ---------------------------------------------------------------- the script

  class Host {
    var files: Files
    var backups: Files
    var loaded: map<string, Files>
    var appliedCount: nat

    /** The states right after each reload that took effect, so far. */
    ghost var reloads: seq<State>

    function Now(): State
      reads this
    {
      State(files, backups, loaded)
    }

    /** Back every target that existed, remove every other. */
    method RollbackComponent(rows: seq<Row>, targetExisted: seq<bool>, fate: Fate, ghost existed: Files)
      returns (end: End)
      requires |targetExisted| == |rows|
      requires forall i :: 0 <= i < |rows| ==> targetExisted[i] == (rows[i].target in existed)
      requires forall i :: 0 <= i < |rows| && targetExisted[i] ==> rows[i].target in backups
      modifies this`files
      ensures (end, Now()) == RollBack(old(Now()), existed, rows, fate)
    {
      hide Written;
      ghost var value := OldFile(existed, backups);
      WrittenNone(files, rows, value);
      for i := 0 to |rows|
        invariant files == Written(old(files), rows[..i], value)
        invariant forall j :: 0 <= j < i ==> fate.restore(rows[j].target).Done?
      {
        WrittenNext(old(files), rows, i, value);
        match fate.restore(rows[i].target)
        case Broken(left) =>
          files := Put(files, rows[i].target, left);
          assert RestoreFailure(rows, fate, 0) == i;
          return RestoreStopped;
        case Done =>
          if targetExisted[i] {
            files := files[rows[i].target := backups[rows[i].target]];
          } else {
            files := files - {rows[i].target};
          }
      }
      assert rows[..|rows|] == rows;
      assert RestoreFailure(rows, fate, 0) == |rows|;
      end := RolledBack;
    }

    /** Read the rows of a component, up to the first that is refused. */
    method ReadRows(rows: seq<Row>, repo: map<string, string>)
      returns (ok: bool, expectedReload: string, expectedVerify: string)
      ensures ok == Accepted(rows, repo)
      ensures ok ==> expectedReload == Scan(rows, repo).value.reload && expectedVerify == Scan(rows, repo).value.verify
    {
      var targetSeen: set<string> := {};
      expectedReload, expectedVerify := "", "";
      for i := 0 to |rows|
        invariant Scan(rows[..i], repo) == Some(Collected(targetSeen, expectedReload, expectedVerify))
      {
        var row := rows[i];
        assert rows[..i + 1][..i] == rows[..i];
        var bad := false;
        if row.target in targetSeen { bad := true; }
        targetSeen := targetSeen + {row.target};
        if expectedReload == "" { expectedReload := row.reload; } else if row.reload != expectedReload { bad := true; }
        if expectedVerify == "" { expectedVerify := row.verify; } else if row.verify != expectedVerify { bad := true; }
        if row.source !in repo { bad := true; }
        if bad {
          ScanPrefix(rows, i + 1, repo);
          return false, "", "";
        }
      }
      assert rows[..|rows|] == rows;
      if |rows| == 0 || expectedReload == "" || expectedVerify == "" { return false, "", ""; }
      for i := 0 to |rows|
        invariant forall j :: 0 <= j < i ==> rows[j].validate != ""
      {
        if rows[i].validate == "" { return false, "", ""; }
      }
      ok := true;
    }

    /** Save the targets that exist. */
    method BackUp(rows: seq<Row>, fate: Fate) returns (ok: bool, targetExisted: seq<bool>)
      modifies this`backups
      ensures var b := BackupFailure(files, rows, fate, 0);
              ok == (b == |rows|) && backups == Saved(files, old(backups), rows[..b])
      ensures ok ==> |targetExisted| == |rows|
                     && forall i :: 0 <= i < |rows| ==> targetExisted[i] == (rows[i].target in files)
    {
      targetExisted := [];
      for i := 0 to |rows|
        invariant backups == Saved(files, old(backups), rows[..i])
        invariant |targetExisted| == i && forall j :: 0 <= j < i ==> targetExisted[j] == (rows[j].target in files)
        invariant forall j :: 0 <= j < i ==> rows[j].target in files ==> fate.backup(rows[j].target)
      {
        assert rows[..i + 1][..i] == rows[..i];
        if rows[i].target in files {
          if !fate.backup(rows[i].target) {
            assert BackupFailure(files, rows, fate, 0) == i;
            return false, targetExisted;
          }
          targetExisted := targetExisted + [true];
          backups := backups[rows[i].target := files[rows[i].target]];
        } else {
          targetExisted := targetExisted + [false];
        }
      }
      assert BackupFailure(files, rows, fate, 0) == |rows|;
      ok := true;
    }

    /** Run each validation command once; the result is that of running all of them. */
    method ValidateAll(rows: seq<Row>, fate: Fate) returns (ok: bool)
      ensures ok == Validates(rows, fate)
    {
      var unique: seq<string> := [];
      for i := 0 to |rows|
        invariant forall j :: 0 <= j < i ==> rows[j].validate in unique
        invariant forall c :: c in unique ==> exists j :: 0 <= j < i && rows[j].validate == c
      {
        if rows[i].validate !in unique { unique := unique + [rows[i].validate]; }
      }
      for i := 0 to |unique|
        invariant forall j :: 0 <= j < i ==> fate.validate(unique[j])
      {
        if !fate.validate(unique[i]) {
          assert unique[i] in unique;
          return false;
        }
      }
      ok := true;
    }

    method ApplyComponentGroup(component: string, rows: seq<Row>, repo: map<string, string>, fate: Fate)
      returns (end: End)
      modifies this
      ensures (end, Now()) == Group(old(Now()), component, rows, repo, fate)
      ensures appliedCount == old(appliedCount) + if end == Applied then 1 else 0
      ensures reloads == old(reloads) + Reloads(old(Now()), component, rows, repo, fate)
    {
      var accepted, expectedReload, expectedVerify := ReadRows(rows, repo);
      if !accepted { return Refused; }
      ghost var existed := files;
      var saved, targetExisted := BackUp(rows, fate);
      if !saved { return BackupStopped; }
      assert rows[..|rows|] == rows;
      ScanDistinct(rows, repo);
      ExistingSaved(files, old(backups), rows);
      hide Accepted, Scan, Saved, Distinct, Install, InstallReloads;
      end := InstallAndCheck(component, rows, repo, fate, targetExisted);
      if end == Applied { appliedCount := appliedCount + 1; }
    }

    method InstallAndCheck(
        component: string, rows: seq<Row>, repo: map<string, string>, fate: Fate, targetExisted: seq<bool>)
      returns (end: End)
      requires forall i :: 0 <= i < |rows| ==> rows[i].source in repo
      requires |targetExisted| == |rows|
      requires forall i :: 0 <= i < |rows| ==> targetExisted[i] == (rows[i].target in files)
      requires forall i :: 0 <= i < |rows| && targetExisted[i] ==> rows[i].target in backups
      modifies this`files, this`loaded, this`reloads
      ensures reloads == old(reloads) + InstallReloads(old(Now()), component, rows, repo, fate)
      ensures (end, Now()) == Install(old(Now()), component, rows, repo, fate)
    {
      hide RollBack, CheckInstalled, CheckReloads, Written, Stands, Dirname;
      ghost var existed := files;
      WrittenNone(files, rows, NewFile(repo));
      for i := 0 to |rows|
        invariant files == Written(existed, rows[..i], NewFile(repo)) && loaded == old(loaded)
                  && reloads == old(reloads)
        invariant forall j :: 0 <= j < i ==> Installs(existed, rows, repo, fate, j)
      {
        WrittenNext(existed, rows, i, NewFile(repo));
        var directory := Dirname(rows[i].target);
        var made := Stands(files, directory) || fate.directory(directory);
        assert made == Makes(existed, rows, repo, fate, i);
        if !made {
          assert !Installs(existed, rows, repo, fate, i);
          assert InstallFailure(existed, rows, repo, fate, 0) == i;
          assert reloads == old(reloads) + [];
          return DirectoryStopped;
        }
        match fate.install(rows[i].target)
        case Broken(left) =>
          assert !Installs(existed, rows, repo, fate, i);
          assert InstallFailure(existed, rows, repo, fate, 0) == i;
          files := Put(files, rows[i].target, left);
          end := RollbackComponent(rows, targetExisted, fate, existed);
          assert reloads == old(reloads) + [];
          return;
        case Done =>
          files := files[rows[i].target := File(repo[rows[i].source], rows[i].mode)];
      }
      assert rows[..|rows|] == rows;
      assert InstallFailure(existed, rows, repo, fate, 0) == |rows|;
      end := Check(component, rows, fate, targetExisted, existed);
    }

    method Check(component: string, rows: seq<Row>, fate: Fate, targetExisted: seq<bool>, ghost existed: Files)
      returns (end: End)
      requires |targetExisted| == |rows|
      requires forall i :: 0 <= i < |rows| ==> targetExisted[i] == (rows[i].target in existed)
      requires forall i :: 0 <= i < |rows| && targetExisted[i] ==> rows[i].target in backups
      modifies this`files, this`loaded, this`reloads
      ensures reloads == old(reloads) + CheckReloads(old(Now()), existed, component, rows, fate)
      ensures (end, Now()) == CheckInstalled(old(Now()), existed, component, rows, fate)
    {
      hide RollBack, Validates;
      var valid := ValidateAll(rows, fate);
      if !valid {
        assert reloads == old(reloads) + [];
        end := RollbackComponent(rows, targetExisted, fate, existed);
        return;
      }
      var reloaded := Reload(component, fate.reload);
      ghost var first := ReloadStates(old(Now()), component, fate.reload);
      if reloaded && fate.verify {
        assert first + [] == first;
        return Applied;
      }
      end := RollbackComponent(rows, targetExisted, fate, existed);
      ghost var undone := Now();
      if end == RolledBack {
        var again := Reload(component, fate.reloadAgain);
        assert reloads == old(reloads) + (first + ReloadStates(undone, component, fate.reloadAgain));
      } else {
        assert first + [] == first;
      }
    }

    /** Run a reload command, which may have its effect and still fail. */
    method Reload(component: string, reloading: Reloading) returns (ok: bool)
      modifies this`loaded, this`reloads
      ensures ok == reloading.Succeeds? && Now() == Reloaded(old(Now()), component, reloading)
      ensures reloads == old(reloads) + ReloadStates(old(Now()), component, reloading)
    {
      ok := reloading.Succeeds?;
      match EffectOf(reloading)
      case Keeps =>
      case Loads =>
        loaded := loaded[component := files];
        reloads := reloads + [Now()];
      case Stops =>
        loaded := loaded - {component};
        reloads := reloads + [Now()];
    }

    method ReadOrder(manifest: seq<Row>, requested: string) returns (order: seq<string>)
      ensures order == ComponentOrder(manifest, requested)
    {
      order := [];
      for i := 0 to |manifest|
        invariant order == ComponentOrder(manifest[..i], requested)
      {
        assert manifest[..i + 1][..i] == manifest[..i];
        var component := manifest[i].component;
        if component == "" || component[0] == '#' { continue; }
        if requested != "all" && requested != component { continue; }
        if component !in order { order := order + [component]; }
      }
      assert manifest[..|manifest|] == manifest;
    }

    /** Apply the components in order, stopping at the first that is not applied. */
    method Run(manifest: seq<Row>, requested: string, repo: map<string, string>, fates: string -> Fate)
      returns (end: End)
      modifies this
      ensures var order := ComponentOrder(manifest, requested);
              if order == [] then end == Refused && Now() == old(Now())
              else (appliedCount - old(appliedCount), end, Now()) == Apply(old(Now()), order, manifest, repo, fates)
    {
      hide *;
      var order := ReadOrder(manifest, requested);
      if order == [] { return Refused; }
      end := Applied;
      for i := 0 to |order|
        invariant appliedCount == old(appliedCount) + i
        invariant Apply(old(Now()), order, manifest, repo, fates)
                  == var (count, last, after) := Apply(Now(), order[i..], manifest, repo, fates);
                     (i + count, last, after)
      {
        assert order[i..][0] == order[i] && order[i..][1..] == order[i + 1..];
        ApplyUnfolds(Now(), order[i..], manifest, repo, fates);
        end := ApplyComponentGroup(order[i], RowsOf(manifest, order[i]), repo, fates(order[i]));
        if end != Applied { return; }
      }
      assert order[|order|..] == [];
      ApplyUnfolds(Now(), order[|order|..], manifest, repo, fates);
      end := Applied;
    }
  }

  lemma ApplyUnfolds(s: State, order: seq<string>, manifest: seq<Row>, repo: map<string, string>, fates: string -> Fate)
    ensures order == [] ==> Apply(s, order, manifest, repo, fates) == (0, Applied, s)
    ensures order != [] ==>
              var (end, next) := Group(s, order[0], RowsOf(manifest, order[0]), repo, fates(order[0]));
              var (count, last, after) := Apply(next, order[1..], manifest, repo, fates);
              Apply(s, order, manifest, repo, fates)
              == if end == Applied then (count + 1, last, after) else (0, end, next)
  {
    hide Group;
  }

  lemma WrittenNone(files: Files, rows: seq<Row>, value: Row -> Option<File>)
    ensures Written(files, rows[..0], value) == files
  {
  }

  lemma WrittenNext(files: Files, rows: seq<Row>, i: nat, value: Row -> Option<File>)
    requires i < |rows|
    ensures Written(files, rows[..i + 1], value)
            == Put(Written(files, rows[..i], value), rows[i].target, value(rows[i]))
  {
    assert rows[..i + 1][..i] == rows[..i];
  }

  lemma {:induction false} ScanPrefix(rows: seq<Row>, n: nat, repo: map<string, string>)
    requires n <= |rows| && Scan(rows[..n], repo).None?
    ensures Scan(rows, repo).None?
    decreases |rows|
  {
    if n == |rows| {
      assert rows[..n] == rows;
    } else {
      assert rows[..|rows| - 1][..n] == rows[..n];
      ScanPrefix(rows[..|rows| - 1], n, repo);
    }
  }

  lemma ExistingSaved(files: Files, before: Files, rows: seq<Row>)
    ensures forall i :: 0 <= i < |rows| && rows[i].target in files ==> rows[i].target in Saved(files, before, rows)
  {
    forall i | 0 <= i < |rows| && rows[i].target in files
      ensures rows[i].target in Saved(files, before, rows)
    {
      SavedAt(files, before, rows, i);
    }
  }
}

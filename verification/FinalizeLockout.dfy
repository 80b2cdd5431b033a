/** Why a host must be prepared: exactly which hosts no finalisation can lock anyone out of. */
module FinalizeLockout {
  import opened Options
  import opened ApplyConfig
  import opened Finalize

  // ---------------------------------------------------------------- fates that lock out

  /** A component whose files are installed and valid, but whose first reload fails. */
  function FailingReload(): Fate {
    Fate(t => true, t => true, t => Done, c => true, Fails(Keeps), true, t => Done, Succeeds)
  }

  /** A component of which nothing fails. */
  function Succeeding(): Fate {
    Fate(t => true, t => true, t => Done, c => true, Succeeds, true, t => Done, Succeeds)
  }

  function Fortune(ssh: Fate, nftables: Fate): Fates {
    Fates(true, true, true, true, true, true, ssh, true, Done, true, Succeeds, nftables, Succeeding(), true, true,
      MarkerWritten)
  }

  /**
   A finalisation locks everyone out, in some state, without any reload stopping a service: sshd and
   the firewall have no port in common.
   */
  ghost predicate LocksOut(s: Server, setup: Setup, fates: Fates) {
    Steady(fates) && !AllAccessible(FinalizeHost(s, setup, fates).states, setup, true)
  }

  /** A fortune's failing and broken components stop no service. */
  lemma FortuneIsSteady(ssh: Fate, nftables: Fate)
    requires !MayStop(ssh) && !MayStop(nftables)
    ensures Steady(Fortune(ssh, nftables))
  {
    hide MayStop;
  }

  lemma NarrowLocksOut(s: Server, setup: Setup, fates: Fates, t: Server)
    requires fates.preflight && fates.unmark && fates.baseline && Steady(fates)
    requires t in Narrow(s.(marker := false), setup, fates).states && !Accessible(t, setup, true)
    ensures LocksOut(s, setup, fates)
  {
    hide Narrow, Accessible, Steady;
    assert t in FinalizeHost(s, setup, fates).states;
  }

  /** With a failing first reload, the service ends up on the files it found on disk. */
  lemma ReloadsOldFiles(s: Server, component: string, setup: Setup)
    requires Accepted(RowsOf(setup.manifest, component), setup.repo)
    ensures var step := ApplyStep(s, component, setup, FailingReload());
            !step.ok && step.states != []
            && Final(step, s).config.loaded == s.config.loaded[component := s.config.files]
  {
    var rows := RowsOf(setup.manifest, component);
    var fate := FailingReload();
    assert Saveable(s.config.files, rows, fate) && Validates(rows, fate) && RestoresWork(rows, fate);
    assert Installable(s.config.files, rows, setup.repo, fate);
    ReloadedEnds(s.config.files, rows, setup.repo, fate);
    GroupEnds(s.config, component, rows, setup.repo, fate);
    ServiceAfter(s.config, component, rows, setup.repo, fate);
    hide Group, Reloads, Accepted, Saveable, Installable, Validates, RestoresWork, EndOf, Written;
  }

  lemma SshReloadShutsOut(s: Server, setup: Setup)
    requires Accepted(RowsOf(setup.manifest, "ssh"), setup.repo)
    requires SshPorts(s.config.files, setup) * Allowed(s, setup) == {}
    ensures var step := ApplyStep(s, "ssh", setup, FailingReload());
            !step.ok && Final(step, s) in step.states && !Accessible(Final(step, s), setup, true)
  {
    ReloadsOldFiles(s, "ssh", setup);
    Names();
    hide ApplyStep, Accepted, SshPorts, FirewallPorts;
  }

  /**
   If the configuration without the temporary file opens no allowed port, some finalisation locks
   everyone out: its first `ssh` reload fails, and the rollback loads that configuration.
   */
  lemma LockedOutBySsh(s: Server, setup: Setup)
    requires Provided(setup) && TwoPorts(s, setup) && Accepted(RowsOf(setup.manifest, "ssh"), setup.repo)
    requires !RestOpens(s, setup)
    ensures LocksOut(s, setup, Fortune(FailingReload(), Succeeding()))
  {
    var fates := Fortune(FailingReload(), Succeeding());
    var unmarked := s.(marker := false);
    var removed := unmarked.(config := s.config.(files := s.config.files - {TEMP_SSH_CONFIG}));
    var step := ApplyStep(removed, "ssh", setup, FailingReload());
    var now := Final(step, removed);
    SshReloadShutsOut(removed, setup);
    FortuneIsSteady(FailingReload(), Succeeding());
    assert TwoPorts(unmarked, setup);
    hide Steady, MayStop, EffectOf;
    hide ApplyStep, Provided, Accepted, SshPorts, FirewallPorts, Accessible, Restore, SshVerified, LocksOut, TwoPorts;
    assert now in FinalizeSsh(unmarked, setup, fates).states;
    hide FinalizeSsh;
    assert now in Narrow(unmarked, setup, fates).states;
    NarrowLocksOut(s, setup, fates, now);
  }

  lemma AllSucceeds(s: Server, component: string, setup: Setup)
    requires Accepted(RowsOf(setup.manifest, component), setup.repo)
    ensures ApplyStep(s, component, setup, Succeeding()).ok
  {
    var rows := RowsOf(setup.manifest, component);
    ComponentIsAtomic(s.config, component, rows, setup.repo, Succeeding());
    assert Smooth(s.config.files, rows, setup.repo, Succeeding());
    hide Group, Reloads, Accepted;
  }

  lemma HeldSshPorts(files: Files, setup: Setup)
    requires Provided(setup) && Accepted(RowsOf(setup.manifest, "ssh"), setup.repo)
    requires TEMP_SSH_CONFIG !in files && Holds(files, RowsOf(setup.manifest, "ssh"), setup.repo)
    ensures SshPorts(files, setup) == {FINAL_SSH_PORT}
  {
    var rows := RowsOf(setup.manifest, "ssh");
    var i := NewContent(files, rows, setup.repo, SSH_CONFIG);
    assert At(files, rows[i].target) == NewFile(setup.repo)(rows[i]);
  }

  lemma SshIsVerified(s: Server, setup: Setup)
    requires Provided(setup) && Accepted(RowsOf(setup.manifest, "ssh"), setup.repo)
             && TEMP_SSH_CONFIG !in s.config.files
    ensures var step := ApplyStep(s, "ssh", setup, Succeeding());
            step.ok && SshVerified(Final(step, s), setup, true)
  {
    AllSucceeds(s, "ssh", setup);
    StepFinal(s, "ssh", setup, Succeeding());
    Names();
    var now := Final(ApplyStep(s, "ssh", setup, Succeeding()), s);
    assert At(now.config.files, TEMP_SSH_CONFIG) == At(s.config.files, TEMP_SSH_CONFIG);
    HeldSshPorts(now.config.files, setup);
    hide ApplyStep, Provided, Accepted, SshPorts, Holds, Apart;
  }

  /** Finalising SSH without any failure: the final port alone. */
  lemma SshSucceeds(s: Server, setup: Setup, fates: Fates)
    requires Provided(setup) && Accepted(RowsOf(setup.manifest, "ssh"), setup.repo)
    requires fates.save && fates.remove && fates.ssh == Succeeding() && fates.runtime
    ensures var walk := FinalizeSsh(s, setup, fates);
            walk.ok && Listening(Final(walk, s), setup) == {FINAL_SSH_PORT}
            && FirewallPorts(Final(walk, s).config.files, setup) == FirewallPorts(s.config.files, setup)
  {
    var removed := s.(config := s.config.(files := s.config.files - {TEMP_SSH_CONFIG}));
    SshIsVerified(removed, setup);
    StepFinal(removed, "ssh", setup, Succeeding());
    hide ApplyStep, Provided, Accepted, SshPorts, FirewallPorts, Holds, Apart, Restore, SshVerified, Listening;
    assert FinalizeSsh(s, setup, fates).ok;
    SshSucceeded(s, setup, fates);
    SshCompleteMeans(Final(FinalizeSsh(s, setup, fates), s), setup);
  }

  lemma SshCompleteMeans(s: Server, setup: Setup)
    requires SshComplete(s, setup)
    ensures Listening(s, setup) == {FINAL_SSH_PORT}
  {
  }

  lemma FirewallReloadShutsOut(s: Server, setup: Setup)
    requires Accepted(RowsOf(setup.manifest, "nftables"), setup.repo)
    requires Listening(s, setup) == {FINAL_SSH_PORT} && FINAL_SSH_PORT !in FirewallPorts(s.config.files, setup)
    ensures var step := ApplyStep(s, "nftables", setup, FailingReload());
            !step.ok && Final(step, s) in step.states && !Accessible(Final(step, s), setup, true)
  {
    ReloadsOldFiles(s, "nftables", setup);
    Names();
    hide ApplyStep, Accepted, SshPorts, FirewallPorts;
  }

  /**
   If the firewall file on disk does not allow the final port, some finalisation locks everyone out:
   sshd has moved to the final port when the first `nftables` reload fails, and the rollback loads
   that file.
   */
  lemma LockedOutByFirewall(s: Server, setup: Setup)
    requires Provided(setup) && TwoPorts(s, setup)
    requires Accepted(RowsOf(setup.manifest, "ssh"), setup.repo)
             && Accepted(RowsOf(setup.manifest, "nftables"), setup.repo)
    requires FINAL_SSH_PORT !in FirewallPorts(s.config.files, setup)
    ensures LocksOut(s, setup, Fortune(Succeeding(), FailingReload()))
  {
    var fates := Fortune(Succeeding(), FailingReload());
    var unmarked := s.(marker := false);
    SshSucceeds(unmarked, setup, fates);
    var mid := Final(FinalizeSsh(unmarked, setup, fates), unmarked);
    FirewallReloadShutsOut(mid, setup);
    FortuneIsSteady(Succeeding(), FailingReload());
    hide Steady, MayStop, EffectOf;
    var now := Final(ApplyStep(mid, "nftables", setup, FailingReload()), mid);
    assert TwoPorts(unmarked, setup);
    hide ApplyStep, FinalizeSsh, Provided, Accepted, Accessible, Listening, FirewallPorts, TwoPorts, LocksOut;
    assert now in FinalizeRest(mid, setup, fates).states;
    hide FinalizeRest;
    assert now in Narrow(unmarked, setup, fates).states;
    NarrowLocksOut(s, setup, fates, now);
  }

  lemma OneSshRow(setup: Setup)
    requires Provided(setup) && Accepted(RowsOf(setup.manifest, "ssh"), setup.repo)
    ensures var rows := RowsOf(setup.manifest, "ssh"); |rows| == 1 && rows[0].target == SSH_CONFIG && Distinct(rows)
  {
    var rows := RowsOf(setup.manifest, "ssh");
    ScanDistinct(rows, setup.repo);
    assert forall i :: 0 <= i < |rows| ==> rows[i].target in Targets(rows) && rows[i].target == SSH_CONFIG;
  }

  /**
   What remains of a wrecked `ssh` component: no temporary file, its one file as left, sshd and
   firewall as they were.
   */
  lemma WreckedStep(s: Server, setup: Setup, left: Option<File>)
    requires Provided(setup) && Accepted(RowsOf(setup.manifest, "ssh"), setup.repo)
             && TEMP_SSH_CONFIG !in s.config.files
    ensures var step := ApplyStep(s, "ssh", setup, Wrecked(left));
            var now := Final(step, s);
            !step.ok && step.states != [] && now.config.loaded == s.config.loaded
            && TEMP_SSH_CONFIG !in now.config.files && At(now.config.files, SSH_CONFIG) == left
  {
    var rows := RowsOf(setup.manifest, "ssh");
    OneSshRow(setup);
    WreckedFile(s.config, "ssh", rows, setup.repo, left);
    Names();
    assert TEMP_SSH_CONFIG !in Targets(rows);
    var after := Group(s.config, "ssh", rows, setup.repo, Wrecked(left)).1;
    assert At(after.files, TEMP_SSH_CONFIG) == At(s.config.files, TEMP_SSH_CONFIG);
    hide Group, Reloads, Accepted;
  }

  /** Some state of the `ssh` configuration next to which the temporary one opens no allowed port. */
  lemma Counterpart(temporary: string, allowed: set<int>, setup: Setup) returns (left: Option<File>)
    requires !TemporaryOpens(temporary, allowed, setup)
    ensures forall files: Files ::
              (TEMP_SSH_CONFIG in files && files[TEMP_SSH_CONFIG].text == temporary && At(files, SSH_CONFIG) == left)
              ==> SshPorts(files, setup) * allowed == {}
  {
    Names();
    if setup.portsIn(temporary) != {} {
      left := None;
    } else {
      var text :| setup.portsIn(text) != {} && setup.portsIn(text) * allowed == {};
      left := Some(File(text, "0644"));
    }
  }

  lemma TemporaryShutsOut(s: Server, temporary: File, left: Option<File>, setup: Setup, fates: Fates)
    returns (now: Server)
    requires fates.reinstall == Done && fates.valid && fates.reload == Succeeds
             && At(s.config.files, SSH_CONFIG) == left
    requires forall files: Files ::
               (TEMP_SSH_CONFIG in files && files[TEMP_SSH_CONFIG].text == temporary.text
                && At(files, SSH_CONFIG) == left)
               ==> SshPorts(files, setup) * Allowed(s, setup) == {}
    ensures now in Restore(s, temporary, fates) && !Accessible(now, setup, true)
  {
    now := Restore(s, temporary, fates)[1];
    Names();
    hide SshPorts, FirewallPorts;
    assert At(now.config.files, SSH_CONFIG) == left;
  }

  /**
   If the temporary file opens no allowed port, some finalisation locks everyone out: the rollback of
   the `ssh` component breaks its file, and the temporary configuration is loaded next to that.
   */
  lemma LockedOutByTemporary(s: Server, setup: Setup) returns (fates: Fates)
    requires Provided(setup) && TwoPorts(s, setup) && Accepted(RowsOf(setup.manifest, "ssh"), setup.repo)
    requires TEMP_SSH_CONFIG in s.config.files
    requires !TemporaryOpens(s.config.files[TEMP_SSH_CONFIG].text, Allowed(s, setup), setup)
    ensures LocksOut(s, setup, fates)
  {
    var temporary := s.config.files[TEMP_SSH_CONFIG];
    var left := Counterpart(temporary.text, Allowed(s, setup), setup);
    fates := Fortune(Wrecked(left), Succeeding());
    var unmarked := s.(marker := false);
    var removed := unmarked.(config := s.config.(files := s.config.files - {TEMP_SSH_CONFIG}));
    WreckedStep(removed, setup, left);
    var mid := Final(ApplyStep(removed, "ssh", setup, Wrecked(left)), removed);
    var now := TemporaryShutsOut(mid, temporary, left, setup, fates);
    FortuneIsSteady(Wrecked(left), Succeeding());
    hide Steady, MayStop, EffectOf;
    assert TwoPorts(unmarked, setup);
    hide ApplyStep, Provided, Accepted, Accessible, SshVerified, TwoPorts, Restore, LocksOut, SshPorts, FirewallPorts;
    hide TemporaryOpens;
    assert now in FinalizeSsh(unmarked, setup, fates).states;
    hide FinalizeSsh;
    assert now in Narrow(unmarked, setup, fates).states;
    NarrowLocksOut(s, setup, fates, now);
  }

  // ---------------------------------------------------------------- exactly

  /** In every state of every finalisation, sshd and the firewall have a port in common, as long as both run. */
  ghost predicate NeverLockedOut(s: Server, setup: Setup) {
    forall fates :: AllAccessible(FinalizeHost(s, setup, fates).states, setup, Steady(fates))
  }

  lemma MustBeReachable(s: Server, setup: Setup)
    requires NeverLockedOut(s, setup)
    ensures Reachable(s, setup)
  {
    var fates := Fortune(Succeeding(), Succeeding());
    var unmarked := s.(marker := false);
    assert Steady(fates) && AllAccessible(FinalizeHost(s, setup, fates).states, setup, Steady(fates));
    hide Narrow, Reachable;
    assert FinalizeHost(s, setup, fates).states[0] == unmarked;
    assert unmarked in FinalizeHost(s, setup, fates).states;
    MarkerIsNoPort(s, setup, false);
  }

  /**
   Exactly the prepared hosts are never locked out. With the repository's components, no way of
   failing makes a finalisation lock everyone out while sshd and the firewall run if and only if the
   host is reachable and, when its firewall lets both ports in, three things hold of the files on
   disk: the configuration without the temporary file opens an allowed port, so does the temporary
   file next to any other, and the firewall file allows the final port.
   */
  lemma NoLockoutExactly(s: Server, setup: Setup)
    requires Provided(setup)
    requires Accepted(RowsOf(setup.manifest, "ssh"), setup.repo)
             && Accepted(RowsOf(setup.manifest, "nftables"), setup.repo)
    ensures NeverLockedOut(s, setup) <==> Reachable(s, setup) && (TwoPorts(s, setup) ==> DiskOpens(s, setup))
  {
    hide Provided, Accepted, TwoPorts, RestOpens, TemporaryOpens, Reachable, AllAccessible, FinalizeHost, FirewallPorts;
    hide Steady;
    if Prepared(s, setup) {
      forall fates
        ensures AllAccessible(FinalizeHost(s, setup, fates).states, setup, Steady(fates))
      {
        NoLockout(s, setup, fates);
      }
    }
    if NeverLockedOut(s, setup) {
      MustBeReachable(s, setup);
      if TwoPorts(s, setup) {
        if !RestOpens(s, setup) { LockedOutBySsh(s, setup); }
        if FINAL_SSH_PORT !in FirewallPorts(s.config.files, setup) { LockedOutByFirewall(s, setup); }
        if TEMP_SSH_CONFIG in s.config.files
           && !TemporaryOpens(s.config.files[TEMP_SSH_CONFIG].text, Allowed(s, setup), setup)
        {
          var fates := LockedOutByTemporary(s, setup);
        }
      }
    }
  }

  // ---------------------------------------------------------------- hosts of each kind

  const SSH_ROW := Row("ssh", "ssh.conf", SSH_CONFIG, "0644", "sshd -t", "reload", "sshd -T")
  const FIREWALL_ROW := Row("nftables", "nft.conf", FIREWALL_CONFIG, "0644", "check", "apply", "list")
  const BANS_ROW := Row("fail2ban", "jail.conf", "/etc/fail2ban/jail.local", "0644", "test", "restart", "ping")

  /** A repository whose texts name what they open. */
  function Sample(): Setup {
    Setup([SSH_ROW, FIREWALL_ROW, BANS_ROW],
          map["ssh.conf" := "final", "nft.conf" := "final", "jail.conf" := "jail"],
          text => if text == "final" then {FINAL_SSH_PORT}
                  else if text == "both" then {BOOTSTRAP_SSH_PORT, FINAL_SSH_PORT}
                  else if text == "another" then {2222} else {},
          text => if text == "final" then {FINAL_SSH_PORT}
                  else if text == "both" then {BOOTSTRAP_SSH_PORT, FINAL_SSH_PORT} else {})
  }

  /** A host during the bootstrap: what its files say, with sshd and the firewall running on both ports. */
  function SampleHost(temporary: string, older: Option<string>, rules: string): Server {
    var files := map[TEMP_SSH_CONFIG := File(temporary, "0644"), FIREWALL_CONFIG := File(rules, "0644")];
    var both := map[TEMP_SSH_CONFIG := File("both", "0644"), FIREWALL_CONFIG := File("both", "0644")];
    Server(State(Put(files, SSH_CONFIG, if older.Some? then Some(File(older.value, "0644")) else None),
                 map[], map["ssh" := both, "nftables" := both]), false)
  }

  lemma SampleRows()
    ensures RowsOf(Sample().manifest, "ssh") == [SSH_ROW]
    ensures RowsOf(Sample().manifest, "nftables") == [FIREWALL_ROW]
    ensures RowsOf(Sample().manifest, "fail2ban") == [BANS_ROW]
  {
    Names();
    assert "ssh"[0] == 's' && "nftables"[0] == 'n' && "fail2ban"[0] == 'f';
    hide RowsOf;
    RowsOfThree(SSH_ROW, FIREWALL_ROW, BANS_ROW, "ssh");
    RowsOfThree(SSH_ROW, FIREWALL_ROW, BANS_ROW, "nftables");
    RowsOfThree(SSH_ROW, FIREWALL_ROW, BANS_ROW, "fail2ban");
  }

  function IfConcerned(row: Row, component: string): seq<Row> {
    if Concerns(row, component) then [row] else []
  }

  lemma RowsOfThree(a: Row, b: Row, c: Row, component: string)
    ensures RowsOf([a, b, c], component)
            == IfConcerned(a, component) + IfConcerned(b, component) + IfConcerned(c, component)
  {
    hide Concerns;
    assert [a, b, c][..2] == [a, b] && [a, b][..1] == [a] && [a][..0] == [];
    assert RowsOf([a], component) == [] + IfConcerned(a, component);
  }

  lemma OneRowAccepted(row: Row, repo: map<string, string>)
    requires row.source in repo && row.reload != "" && row.verify != "" && row.validate != ""
    ensures Accepted([row], repo)
  {
    AcceptedMeans([row], repo);
  }

  lemma OneTarget(row: Row)
    ensures Targets([row]) == {row.target}
  {
    assert [row][0] == row;
  }

  lemma SampleIsProvided()
    ensures Provided(Sample())
    ensures Accepted(RowsOf(Sample().manifest, "ssh"), Sample().repo)
            && Accepted(RowsOf(Sample().manifest, "nftables"), Sample().repo)
  {
    SampleRows();
    Names();
    hide RowsOf;
    OneTarget(SSH_ROW);
    OneTarget(FIREWALL_ROW);
    OneTarget(BANS_ROW);
    assert |"/etc/fail2ban/jail.local"| != |TEMP_SSH_CONFIG| && |"/etc/fail2ban/jail.local"| != |SSH_CONFIG|
           && |"/etc/fail2ban/jail.local"| != |FIREWALL_CONFIG|;
    assert |"ssh.conf"| == 8 && "nft.conf"[0] == 'n' && "ssh.conf"[0] == 's' && |"jail.conf"| == 9;
    assert Sample().repo["ssh.conf"] == "final" && Sample().repo["nft.conf"] == "final";
    OneRowAccepted(SSH_ROW, Sample().repo);
    OneRowAccepted(FIREWALL_ROW, Sample().repo);
  }

  lemma SamplePorts(temporary: string, older: Option<string>, rules: string)
    ensures var s := SampleHost(temporary, older, rules);
            && Reachable(s, Sample()) && TwoPorts(s, Sample())
            && Allowed(s, Sample()) == {BOOTSTRAP_SSH_PORT, FINAL_SSH_PORT}
            && FirewallPorts(s.config.files, Sample()) == Sample().allowedIn(rules)
            && TEMP_SSH_CONFIG in s.config.files && s.config.files[TEMP_SSH_CONFIG].text == temporary
            && SshPorts(s.config.files - {TEMP_SSH_CONFIG}, Sample()) ==
               (if older.None? || Sample().portsIn(older.value) == {} then {BOOTSTRAP_SSH_PORT}
                else Sample().portsIn(older.value))
  {
    Names();
    var s := SampleHost(temporary, older, rules);
    assert Listening(s, Sample()) == {BOOTSTRAP_SSH_PORT, FINAL_SSH_PORT};
    assert BOOTSTRAP_SSH_PORT in Listening(s, Sample()) * Allowed(s, Sample());
  }

  /**
   Two hosts that are never locked out, whose temporary file opens both ports or the final one, and
   three that some finalisation locks out: with an older `ssh` file that opens another port only, with
   a firewall file that does not allow the final port, and with a temporary file edited since it was
   loaded.
   */
  lemma HostsOfEachKind()
    ensures NeverLockedOut(SampleHost("both", None, "both"), Sample())
    ensures !NeverLockedOut(SampleHost("both", Some("another"), "both"), Sample())
    ensures !NeverLockedOut(SampleHost("both", None, "other"), Sample())
    ensures !NeverLockedOut(SampleHost("another", None, "both"), Sample())
    ensures NeverLockedOut(SampleHost("final", None, "both"), Sample())
  {
    SampleIsProvided();
    SampleIsOpen("both");
    SampleIsOpen("final");
    SampleOlder();
    SampleRules();
    SampleTemporary();
    hide *;
    NoLockoutExactly(SampleHost("both", None, "both"), Sample());
    NoLockoutExactly(SampleHost("final", None, "both"), Sample());
    NoLockoutExactly(SampleHost("both", Some("another"), "both"), Sample());
    NoLockoutExactly(SampleHost("both", None, "other"), Sample());
    NoLockoutExactly(SampleHost("another", None, "both"), Sample());
  }

  lemma SampleIsOpen(temporary: string)
    requires temporary == "both" || temporary == "final"
    ensures var s := SampleHost(temporary, None, "both"); Reachable(s, Sample()) && DiskOpens(s, Sample())
  {
    SamplePorts(temporary, None, "both");
    var allowed := {BOOTSTRAP_SSH_PORT, FINAL_SSH_PORT};
    assert FINAL_SSH_PORT in Sample().portsIn(temporary) * allowed;
    assert BOOTSTRAP_SSH_PORT in {BOOTSTRAP_SSH_PORT} * allowed;
    hide Listening, Allowed, Reachable, SshPorts, FirewallPorts;
  }

  lemma SampleOlder()
    ensures var s := SampleHost("both", Some("another"), "both"); TwoPorts(s, Sample()) && !DiskOpens(s, Sample())
  {
    SamplePorts("both", Some("another"), "both");
    assert Sample().portsIn("another") == {2222};
    hide Listening, Allowed, Reachable, SshPorts, FirewallPorts;
  }

  lemma SampleRules()
    ensures var s := SampleHost("both", None, "other"); TwoPorts(s, Sample()) && !DiskOpens(s, Sample())
  {
    SamplePorts("both", None, "other");
    assert Sample().allowedIn("other") == {};
    hide Listening, Allowed, Reachable, SshPorts, FirewallPorts;
  }

  lemma SampleTemporary()
    ensures var s := SampleHost("another", None, "both"); TwoPorts(s, Sample()) && !DiskOpens(s, Sample())
  {
    SamplePorts("another", None, "both");
    assert Sample().portsIn("another") == {2222};
    hide Listening, Allowed, Reachable, SshPorts, FirewallPorts;
  }
}

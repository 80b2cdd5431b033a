/**
 Finalising the bootstrap (modules/host/bootstrap/debian-ipv4.sh): sshd leaves its temporary
 second port before the firewall closes it, and a marker records a completed finalisation.
 */
module Finalize {
  import opened Options
  import opened ApplyConfig

  const TEMP_SSH_CONFIG := "/etc/ssh/sshd_config.d/00-discrete-bootstrap.conf"
  const SSH_CONFIG := "/etc/ssh/sshd_config.d/00-discrete.conf"
  const FIREWALL_CONFIG := "/etc/nftables.conf"
  const BOOTSTRAP_SSH_PORT := 22
  const FINAL_SSH_PORT := 22822

  /** The repository's manifest and files, and how sshd and nft read a configuration text. */
  datatype Setup = Setup(
    manifest: seq<Row>,
    repo: map<string, string>,
    portsIn: string -> set<int>,
    allowedIn: string -> set<int>)

  /** The host: its configuration and services, and whether the finalised marker exists. */
  datatype Server = Server(config: State, marker: bool)

  /** How the commands of one finalisation will turn out; each `bool` is one command or group of checks. */
  datatype Fates = Fates(
    preflight: bool, unmark: bool, baseline: bool, confirmed: bool,
    save: bool, remove: bool, ssh: Fate, runtime: bool,
    reinstall: Attempt, valid: bool, reload: Reloading,
    nftables: Fate, fail2ban: Fate, ufw: bool, verify: bool, mark: Marking)

  /** Writing the marker: not even created, created by a command that then fails, or complete. */
  datatype Marking = NotCreated | LeftBehind | MarkerWritten

  // ---------------------------------------------------------------- ports

  function PortsOf(files: Files, name: string, setup: Setup): set<int> {
    if name in files then setup.portsIn(files[name].text) else {}
  }

  /** The ports that sshd listens on with these files; without a `Port` line, the bootstrap port. */
  function SshPorts(files: Files, setup: Setup): set<int> {
    var ports := PortsOf(files, TEMP_SSH_CONFIG, setup) + PortsOf(files, SSH_CONFIG, setup);
    if ports == {} then {BOOTSTRAP_SSH_PORT} else ports
  }

  function FirewallPorts(files: Files, setup: Setup): set<int> {
    if FIREWALL_CONFIG in files then setup.allowedIn(files[FIREWALL_CONFIG].text) else {}
  }

  /** What a service that runs has loaded. */
  function LoadedBy(server: Server, component: string): Option<Files> {
    if component in server.config.loaded then Some(server.config.loaded[component]) else None
  }

  /** The ports sshd listens on, and those the active firewall lets in. */
  function Listening(server: Server, setup: Setup): set<int> {
    match LoadedBy(server, "ssh")
    case Some(files) => SshPorts(files, setup)
    case None => {}
  }

  function Allowed(server: Server, setup: Setup): set<int> {
    match LoadedBy(server, "nftables")
    case Some(files) => FirewallPorts(files, setup)
    case None => {}
  }

  /** Someone can still log in from outside. */
  predicate Reachable(server: Server, setup: Setup) {
    Listening(server, setup) * Allowed(server, setup) != {}
  }

  /** sshd or the firewall is not running. */
  predicate Down(server: Server) {
    LoadedBy(server, "ssh").None? || LoadedBy(server, "nftables").None?
  }

  /** No reload leaves sshd or the firewall stopped. */
  predicate Steady(fates: Fates) {
    !MayStop(fates.ssh) && !MayStop(fates.nftables) && EffectOf(fates.reload) != Stops
  }

  /** The host is reachable, or a reload has stopped sshd or the firewall, which a steady run never does. */
  predicate Accessible(server: Server, setup: Setup, steady: bool) {
    Reachable(server, setup) || (!steady && Down(server))
  }

  // ---------------------------------------------------------------- the run

  /** Whether a step succeeded, and the states it went through, the last one being the present. */
  datatype Walk = Walk(ok: bool, states: seq<Server>)

  function Final(walk: Walk, start: Server): Server {
    if walk.states == [] then start else walk.states[|walk.states| - 1]
  }

  function Marked(states: seq<State>, marker: bool): seq<Server> {
    seq(|states|, i requires 0 <= i < |states| => Server(states[i], marker))
  }

  /** `apply-config.sh` for one component. */
  function ApplyStep(s: Server, component: string, setup: Setup, fate: Fate): Walk {
    var rows := RowsOf(setup.manifest, component);
    var (end, after) := Group(s.config, component, rows, setup.repo, fate);
    Walk(end == Applied, Marked(Reloads(s.config, component, rows, setup.repo, fate) + [after], s.marker))
  }

  /** `verify_final_ssh_runtime`; `rest` is its other checks. */
  predicate SshVerified(s: Server, setup: Setup, rest: bool) {
    SshPorts(s.config.files, setup) == {FINAL_SSH_PORT}
    && FINAL_SSH_PORT in Listening(s, setup) && BOOTSTRAP_SSH_PORT !in Listening(s, setup) && rest
  }

  /** Put the temporary configuration back and load it; every command here ends the script if it fails. */
  function Restore(s: Server, backup: File, fates: Fates): seq<Server> {
    match fates.reinstall
    case Broken(left) => [s.(config := s.config.(files := Put(s.config.files, TEMP_SSH_CONFIG, left)))]
    case Done =>
      var files := s.config.files[TEMP_SSH_CONFIG := File(backup.text, "0644")];
      var restored := s.config.(files := files);
      Marked([restored] + if fates.valid then ReloadStates(restored, "ssh", fates.reload) else [], s.marker)
  }

  /** `finalize_ssh`. */
  function FinalizeSsh(s: Server, setup: Setup, fates: Fates): Walk {
    var temporary := At(s.config.files, TEMP_SSH_CONFIG);
    if temporary.Some? && !(fates.save && fates.remove) then Walk(false, [])
    else
      var removed := s.(config := s.config.(files := s.config.files - {TEMP_SSH_CONFIG}));
      var applied := ApplyStep(removed, "ssh", setup, fates.ssh);
      var now := Final(applied, removed);
      if applied.ok && SshVerified(now, setup, fates.runtime) then Walk(true, [removed] + applied.states)
      else Walk(false, [removed] + applied.states
                       + if temporary.Some? then Restore(now, temporary.value, fates) else [])
  }

  /** One step after another, the second only if the first succeeded. */
  function Then(first: Walk, second: Walk): Walk {
    if first.ok then Walk(second.ok, first.states + second.states) else first
  }

  /** The firewall and Fail2Ban configuration, after sshd's. */
  function FinalizeRest(s: Server, setup: Setup, fates: Fates): Walk {
    var firewall := ApplyStep(s, "nftables", setup, fates.nftables);
    var bans := ApplyStep(Final(firewall, s), "fail2ban", setup, fates.fail2ban);
    Then(firewall, bans)
  }

  /** The check that the temporary firewall lets both ports in. */
  predicate TwoPorts(s: Server, setup: Setup) {
    {BOOTSTRAP_SSH_PORT, FINAL_SSH_PORT} <= Allowed(s, setup)
  }

  /** Everything from the firewall check up to the marker. */
  function Narrow(s: Server, setup: Setup, fates: Fates): Walk {
    if !(TwoPorts(s, setup) && fates.confirmed) then Walk(false, [])
    else
      var ssh := FinalizeSsh(s, setup, fates);
      Then(ssh, FinalizeRest(Final(ssh, s), setup, fates))
  }

  /** `finalize`: removing an earlier marker, narrowing, verifying, and setting the marker. */
  function FinalizeHost(s: Server, setup: Setup, fates: Fates): Walk {
    if !(fates.preflight && fates.unmark) then Walk(false, [])
    else
      var unmarked := s.(marker := false);
      if !fates.baseline then Walk(false, [unmarked])
      else
        var narrow := Narrow(unmarked, setup, fates);
        var now := Final(narrow, unmarked);
        if narrow.ok && fates.ufw && fates.verify && fates.mark != NotCreated
        then Walk(fates.mark == MarkerWritten, [unmarked] + narrow.states + [now.(marker := true)])
        else Walk(false, [unmarked] + narrow.states)
  }

  // ---------------------------------------------------------------- what is taken as given

  /**
   What the repository provides: the `ssh` component writes the final configuration, which opens
   the final port alone; the `nftables` component writes the firewall, which allows that port; and
   `fail2ban` touches none of these files.
   */
  ghost predicate Provided(setup: Setup) {
    && Targets(RowsOf(setup.manifest, "ssh")) == {SSH_CONFIG}
    && Targets(RowsOf(setup.manifest, "nftables")) == {FIREWALL_CONFIG}
    && Targets(RowsOf(setup.manifest, "fail2ban")) !! {TEMP_SSH_CONFIG, SSH_CONFIG, FIREWALL_CONFIG}
    && (forall i :: 0 <= i < |RowsOf(setup.manifest, "ssh")| ==>
          NewFile(setup.repo)(RowsOf(setup.manifest, "ssh")[i]).Some? ==>
          setup.portsIn(NewFile(setup.repo)(RowsOf(setup.manifest, "ssh")[i]).value.text) == {FINAL_SSH_PORT})
    && (forall i :: 0 <= i < |RowsOf(setup.manifest, "nftables")| ==>
          NewFile(setup.repo)(RowsOf(setup.manifest, "nftables")[i]).Some? ==>
          FINAL_SSH_PORT in setup.allowedIn(NewFile(setup.repo)(RowsOf(setup.manifest, "nftables")[i]).value.text))
  }

  /**
   A temporary configuration keeps the way in open next to any other configuration: it opens an
   allowed port itself, or it opens none and nothing else can open only ports that are not allowed.
   */
  ghost predicate TemporaryOpens(temporary: string, allowed: set<int>, setup: Setup) {
    || setup.portsIn(temporary) * allowed != {}
    || (setup.portsIn(temporary) == {}
        && forall text :: setup.portsIn(text) != {} ==> setup.portsIn(text) * allowed != {})
  }

  /** The configuration on disk opens an allowed port without the temporary file. */
  predicate RestOpens(s: Server, setup: Setup) {
    SshPorts(s.config.files - {TEMP_SSH_CONFIG}, setup) * Allowed(s, setup) != {}
  }

  /** What the files on disk must open for a finalisation that gets past the firewall check. */
  ghost predicate DiskOpens(s: Server, setup: Setup) {
    && RestOpens(s, setup)
    && (TEMP_SSH_CONFIG in s.config.files
        ==> TemporaryOpens(s.config.files[TEMP_SSH_CONFIG].text, Allowed(s, setup), setup))
    && FINAL_SSH_PORT in FirewallPorts(s.config.files, setup)
  }

  /** A host that can be reached and, if its firewall lets both ports in, stays so whatever is loaded from its disk. */
  ghost predicate Prepared(s: Server, setup: Setup) {
    Reachable(s, setup) && (TwoPorts(s, setup) ==> DiskOpens(s, setup))
  }

  // ---------------------------------------------------------------- one component

  /** A state of applying a component: its service runs as before, on the new files, on the old ones, or not at all. */
  predicate StepState(t: Server, s: Server, component: string, setup: Setup, fate: Fate) {
    var rows := RowsOf(setup.manifest, component);
    && t.marker == s.marker
    && (|| t.config.loaded == s.config.loaded
        || (Accepted(rows, setup.repo)
            && t.config.loaded == s.config.loaded[component := Written(s.config.files, rows, NewFile(setup.repo))])
        || t.config.loaded == s.config.loaded[component := s.config.files]
        || (MayStop(fate) && t.config.loaded == s.config.loaded - {component}))
  }

  lemma StepStates(s: Server, component: string, setup: Setup, fate: Fate)
    ensures forall t :: t in ApplyStep(s, component, setup, fate).states ==> StepState(t, s, component, setup, fate)
  {
    var rows := RowsOf(setup.manifest, component);
    var (end, after) := Group(s.config, component, rows, setup.repo, fate);
    var reloads := Reloads(s.config, component, rows, setup.repo, fate);
    ReloadsLoad(s.config, component, rows, setup.repo, fate);
    hide Group, Reloads, Accepted, Written, MayStop;
    var states := ApplyStep(s, component, setup, fate).states;
    forall t | t in states
      ensures StepState(t, s, component, setup, fate)
    {
      var i :| 0 <= i < |states| && states[i] == t;
      if i < |reloads| {
        assert reloads[i] in reloads;
      } else if reloads != [] {
        assert reloads[|reloads| - 1] in reloads;
      }
    }
  }

  /** The present after a component, and what it did to the files. */
  lemma StepFinal(s: Server, component: string, setup: Setup, fate: Fate)
    ensures var step := ApplyStep(s, component, setup, fate);
            var rows := RowsOf(setup.manifest, component);
            var now := Final(step, s);
            step.states != [] && now in step.states
            && Apart(now.config.files, s.config.files, rows)
            && (step.ok ==> Accepted(rows, setup.repo) && Holds(now.config.files, rows, setup.repo)
                            && now.config.loaded == s.config.loaded[component := now.config.files])
  {
    ComponentIsAtomic(s.config, component, RowsOf(setup.manifest, component), setup.repo, fate);
    hide Group, Reloads, Accepted, Smooth, Holds, Apart;
  }

  /** A file that a component writes holds its source once written. */
  lemma NewContent(files: Files, rows: seq<Row>, repo: map<string, string>, name: string) returns (i: nat)
    requires Accepted(rows, repo) && name in Targets(rows)
    ensures i < |rows| && rows[i].target == name && NewFile(repo)(rows[i]).Some?
    ensures At(Written(files, rows, NewFile(repo)), name) == NewFile(repo)(rows[i])
  {
    i :| 0 <= i < |rows| && rows[i].target == name;
    ScanDistinct(rows, repo);
    WrittenAt(files, rows, NewFile(repo), i);
  }

  lemma FinalSshPorts(files: Files, setup: Setup)
    requires Provided(setup) && TEMP_SSH_CONFIG !in files && Accepted(RowsOf(setup.manifest, "ssh"), setup.repo)
    ensures SshPorts(Written(files, RowsOf(setup.manifest, "ssh"), NewFile(setup.repo)), setup) == {FINAL_SSH_PORT}
  {
    var rows := RowsOf(setup.manifest, "ssh");
    var i := NewContent(files, rows, setup.repo, SSH_CONFIG);
    Names();
    WrittenElsewhere(files, rows, NewFile(setup.repo), TEMP_SSH_CONFIG);
  }

  lemma FinalFirewallPorts(files: Files, setup: Setup)
    requires Provided(setup) && Accepted(RowsOf(setup.manifest, "nftables"), setup.repo)
    ensures var rows := RowsOf(setup.manifest, "nftables");
            FINAL_SSH_PORT in FirewallPorts(Written(files, rows, NewFile(setup.repo)), setup)
  {
    var i := NewContent(files, RowsOf(setup.manifest, "nftables"), setup.repo, FIREWALL_CONFIG);
  }

  lemma Names()
    ensures TEMP_SSH_CONFIG != SSH_CONFIG && TEMP_SSH_CONFIG != FIREWALL_CONFIG && SSH_CONFIG != FIREWALL_CONFIG
    ensures "ssh" != "nftables" && "ssh" != "fail2ban" && "nftables" != "fail2ban"
  {
    assert |FIREWALL_CONFIG| < |SSH_CONFIG| < |TEMP_SSH_CONFIG|;
    assert |"ssh"| != |"nftables"| && |"ssh"| != |"fail2ban"| && "nftables"[0] != "fail2ban"[0];
  }

  // ---------------------------------------------------------------- no lockout

  /** The host is accessible, and the firewall still lets both ports in. */
  predicate Open(s: Server, setup: Setup, steady: bool) {
    Accessible(s, setup, steady) && TwoPorts(s, setup)
  }

  /** sshd listens on the final port, which the firewall lets in. */
  predicate Settled(s: Server, setup: Setup) {
    FINAL_SSH_PORT in Listening(s, setup) && FINAL_SSH_PORT in Allowed(s, setup)
  }

  /** Settled, unless a reload has stopped sshd or the firewall. */
  predicate Settling(s: Server, setup: Setup, steady: bool) {
    Settled(s, setup) || (!steady && Down(s))
  }

  predicate AllAccessible(states: seq<Server>, setup: Setup, steady: bool) {
    forall t :: t in states ==> Accessible(t, setup, steady)
  }

  lemma OpenMeans(s: Server, setup: Setup, steady: bool)
    requires Open(s, setup, steady)
    ensures Accessible(s, setup, steady)
  {
  }

  lemma SettlingIsAccessible(s: Server, setup: Setup, steady: bool)
    requires Settling(s, setup, steady)
    ensures Accessible(s, setup, steady)
  {
    if Settled(s, setup) { assert FINAL_SSH_PORT in Listening(s, setup) * Allowed(s, setup); }
  }

  /** Applying the `ssh` component, with the temporary configuration removed, keeps one of the two ports open. */
  lemma SshStepOpen(s: Server, setup: Setup, fate: Fate, steady: bool, t: Server)
    requires Provided(setup) && Reachable(s, setup) && TwoPorts(s, setup) && TEMP_SSH_CONFIG !in s.config.files
    requires steady ==> !MayStop(fate)
    requires SshPorts(s.config.files, setup) * Allowed(s, setup) != {}
    requires t in ApplyStep(s, "ssh", setup, fate).states
    ensures Open(t, setup, steady)
  {
    StepStates(s, "ssh", setup, fate);
    Names();
    hide ApplyStep, SshPorts, FirewallPorts, Written, Accepted, MayStop;
    if Accepted(RowsOf(setup.manifest, "ssh"), setup.repo) {
      FinalSshPorts(s.config.files, setup);
    }
    assert FINAL_SSH_PORT in {FINAL_SSH_PORT} * Allowed(s, setup);
  }

  /** The `nftables` component, old rules or new, keeps the final port allowed. */
  lemma FirewallStepSettling(s: Server, setup: Setup, fate: Fate, steady: bool, t: Server)
    requires Provided(setup) && Settled(s, setup) && FINAL_SSH_PORT in FirewallPorts(s.config.files, setup)
    requires steady ==> !MayStop(fate)
    requires t in ApplyStep(s, "nftables", setup, fate).states
    ensures Settling(t, setup, steady)
  {
    StepStates(s, "nftables", setup, fate);
    Names();
    hide ApplyStep, SshPorts, FirewallPorts, Written, Accepted, MayStop;
    if Accepted(RowsOf(setup.manifest, "nftables"), setup.repo) {
      FinalFirewallPorts(s.config.files, setup);
    }
  }

  lemma BansStepSettling(s: Server, setup: Setup, fate: Fate, steady: bool, t: Server)
    requires Settling(s, setup, steady)
    requires t in ApplyStep(s, "fail2ban", setup, fate).states
    ensures Settling(t, setup, steady)
  {
    StepStates(s, "fail2ban", setup, fate);
    Names();
    hide ApplyStep, SshPorts, FirewallPorts, Written, Accepted, MayStop;
  }

  lemma Member<T>(ports: set<T>) returns (port: T)
    requires ports != {}
    ensures port in ports
  {
    port :| port in ports;
  }

  /** sshd with the temporary configuration back, whatever its other configuration has become. */
  lemma TemporaryPorts(files: Files, temporary: string, allowed: set<int>, setup: Setup)
    requires TEMP_SSH_CONFIG in files && files[TEMP_SSH_CONFIG].text == temporary
    requires TemporaryOpens(temporary, allowed, setup) && BOOTSTRAP_SSH_PORT in allowed
    ensures SshPorts(files, setup) * allowed != {}
  {
    var own, other := setup.portsIn(temporary), PortsOf(files, SSH_CONFIG, setup);
    if own * allowed != {} {
      var port := Member(own * allowed);
      assert port in SshPorts(files, setup) * allowed;
    } else if other != {} {
      assert SshPorts(files, setup) == other;
    } else {
      assert BOOTSTRAP_SSH_PORT in SshPorts(files, setup) * allowed;
    }
  }

  /** Putting the temporary configuration back keeps the way in open. */
  lemma RestoreOpen(s: Server, backup: File, setup: Setup, fates: Fates, steady: bool, t: Server)
    requires Open(s, setup, steady) && TemporaryOpens(backup.text, Allowed(s, setup), setup)
    requires steady ==> EffectOf(fates.reload) != Stops
    requires t in Restore(s, backup, fates)
    ensures Open(t, setup, steady)
  {
    Names();
    hide FirewallPorts, SshPorts, TemporaryOpens;
    if t.config.loaded != s.config.loaded && EffectOf(fates.reload) == Loads {
      TemporaryPorts(t.config.loaded["ssh"], backup.text, Allowed(s, setup), setup);
    }
  }

  lemma FirewallFileKept(s: Server, setup: Setup, fate: Fate)
    requires Provided(setup)
    ensures FirewallPorts(Final(ApplyStep(s, "ssh", setup, fate), s).config.files, setup)
            == FirewallPorts(s.config.files, setup)
  {
    StepFinal(s, "ssh", setup, fate);
    Names();
    hide ApplyStep;
    var now := Final(ApplyStep(s, "ssh", setup, fate), s);
    assert At(now.config.files, FIREWALL_CONFIG) == At(s.config.files, FIREWALL_CONFIG);
  }

  /** The configuration and the ports of sshd, finalised. */
  predicate SshComplete(s: Server, setup: Setup) {
    Holds(s.config.files, RowsOf(setup.manifest, "ssh"), setup.repo)
    && TEMP_SSH_CONFIG !in s.config.files && Listening(s, setup) == {FINAL_SSH_PORT}
  }

  /** Where a successful `finalize_ssh` ends. */
  lemma SshEnds(s: Server, setup: Setup, fates: Fates) returns (removed: Server, now: Server)
    requires FinalizeSsh(s, setup, fates).ok
    ensures removed == s.(config := s.config.(files := s.config.files - {TEMP_SSH_CONFIG}))
    ensures now == Final(ApplyStep(removed, "ssh", setup, fates.ssh), removed)
    ensures ApplyStep(removed, "ssh", setup, fates.ssh).ok && SshVerified(now, setup, fates.runtime)
    ensures FinalizeSsh(s, setup, fates).states != [] && Final(FinalizeSsh(s, setup, fates), s) == now
  {
    removed := s.(config := s.config.(files := s.config.files - {TEMP_SSH_CONFIG}));
    var applied := ApplyStep(removed, "ssh", setup, fates.ssh);
    now := Final(applied, removed);
    StepFinal(removed, "ssh", setup, fates.ssh);
    hide ApplyStep, SshVerified, Restore, Holds, Apart, Accepted;
  }

  lemma VerifiedListens(s: Server, setup: Setup, rest: bool)
    requires SshVerified(s, setup, rest) && LoadedBy(s, "ssh") == Some(s.config.files)
    ensures Listening(s, setup) == {FINAL_SSH_PORT}
  {
    hide SshPorts;
  }

  lemma SshStepLeaves(s: Server, setup: Setup, fate: Fate)
    requires Provided(setup)
    ensures var now := Final(ApplyStep(s, "ssh", setup, fate), s);
            At(now.config.files, TEMP_SSH_CONFIG) == At(s.config.files, TEMP_SSH_CONFIG)
  {
    StepFinal(s, "ssh", setup, fate);
    Names();
    hide ApplyStep;
  }

  /** When `finalize_ssh` succeeds, sshd is on the final port alone and the temporary file is gone. */
  lemma SshSucceeded(s: Server, setup: Setup, fates: Fates)
    requires Provided(setup) && FinalizeSsh(s, setup, fates).ok
    ensures var walk := FinalizeSsh(s, setup, fates);
            walk.states != [] && SshComplete(Final(walk, s), setup)
            && FirewallPorts(Final(walk, s).config.files, setup) == FirewallPorts(s.config.files, setup)
  {
    hide *;
    var removed, now := SshEnds(s, setup, fates);
    RemovedFirewall(s.config.files, setup);
    FirewallFileKept(removed, setup, fates.ssh);
    StepCompletes(removed, setup, fates.ssh, fates.runtime);
  }

  lemma RemovedFirewall(files: Files, setup: Setup)
    ensures FirewallPorts(files - {TEMP_SSH_CONFIG}, setup) == FirewallPorts(files, setup)
  {
    Names();
  }

  lemma StepCompletes(s: Server, setup: Setup, fate: Fate, rest: bool)
    requires Provided(setup) && TEMP_SSH_CONFIG !in s.config.files && ApplyStep(s, "ssh", setup, fate).ok
    requires SshVerified(Final(ApplyStep(s, "ssh", setup, fate), s), setup, rest)
    ensures SshComplete(Final(ApplyStep(s, "ssh", setup, fate), s), setup)
  {
    var now := Final(ApplyStep(s, "ssh", setup, fate), s);
    StepFinal(s, "ssh", setup, fate);
    SshStepLeaves(s, setup, fate);
    hide ApplyStep, Provided, SshPorts, Accepted, Holds, Apart, SshVerified, Listening, Final;
    VerifiedListens(now, setup, rest);
  }

  /** What a prepared host keeps when the temporary file is removed but still in use. */
  lemma RemovedOpen(s: Server, setup: Setup, steady: bool)
    requires Prepared(s, setup) && TwoPorts(s, setup)
    ensures var removed := s.(config := s.config.(files := s.config.files - {TEMP_SSH_CONFIG}));
            && Reachable(removed, setup) && TwoPorts(removed, setup) && Open(removed, setup, steady)
            && SshPorts(removed.config.files, setup) * Allowed(removed, setup) != {}
            && Allowed(removed, setup) == Allowed(s, setup)
    ensures TEMP_SSH_CONFIG in s.config.files ==>
              TemporaryOpens(s.config.files[TEMP_SSH_CONFIG].text, Allowed(s, setup), setup)
  {
    hide SshPorts, FirewallPorts, TemporaryOpens;
  }

  /** `finalize_ssh` keeps the host accessible and both ports allowed, in every state. */
  lemma SshFinalized(s: Server, setup: Setup, fates: Fates, steady: bool)
    requires Provided(setup) && Prepared(s, setup) && TwoPorts(s, setup)
    requires steady ==> Steady(fates)
    ensures forall t :: t in FinalizeSsh(s, setup, fates).states ==> Open(t, setup, steady)
  {
    var temporary := At(s.config.files, TEMP_SSH_CONFIG);
    var removed := s.(config := s.config.(files := s.config.files - {TEMP_SSH_CONFIG}));
    var applied := ApplyStep(removed, "ssh", setup, fates.ssh);
    var now := Final(applied, removed);
    RemovedOpen(s, setup, steady);
    hide ApplyStep, Provided, SshPorts, Restore, Open, Allowed, TemporaryOpens, TwoPorts, Reachable, SshVerified;
    hide MayStop, EffectOf, Prepared;
    SshAllowed(removed, setup, fates.ssh, now);
    forall t | t in applied.states
      ensures Open(t, setup, steady)
    {
      SshStepOpen(removed, setup, fates.ssh, steady, t);
    }
    if temporary.Some? {
      forall t | t in Restore(now, temporary.value, fates)
        ensures Open(t, setup, steady)
      {
        RestoreOpen(now, temporary.value, setup, fates, steady, t);
      }
    }
  }

  /** Applying the `ssh` component does not touch the active firewall. */
  lemma SshAllowed(s: Server, setup: Setup, fate: Fate, now: Server)
    requires now == Final(ApplyStep(s, "ssh", setup, fate), s)
    ensures now in ApplyStep(s, "ssh", setup, fate).states && Allowed(now, setup) == Allowed(s, setup)
  {
    Names();
    StepFinal(s, "ssh", setup, fate);
    StepStates(s, "ssh", setup, fate);
    hide ApplyStep, FirewallPorts, Written, Accepted;
  }

  /** The rest of the walk: the final port stays open as long as sshd and the firewall run. */
  lemma RestSettled(s: Server, setup: Setup, fates: Fates, steady: bool)
    requires Provided(setup) && Settled(s, setup) && FINAL_SSH_PORT in FirewallPorts(s.config.files, setup)
    requires steady ==> Steady(fates)
    ensures forall t :: t in FinalizeRest(s, setup, fates).states ==> Settling(t, setup, steady)
  {
    var firewall := ApplyStep(s, "nftables", setup, fates.nftables);
    var now := Final(firewall, s);
    var bans := ApplyStep(now, "fail2ban", setup, fates.fail2ban);
    StepFinal(s, "nftables", setup, fates.nftables);
    StepStates(s, "nftables", setup, fates.nftables);
    StepStates(now, "fail2ban", setup, fates.fail2ban);
    hide ApplyStep, Provided, FirewallPorts, Settling, Apart, Holds, Accepted, Written, MayStop, EffectOf;
    forall t | t in firewall.states
      ensures Settling(t, setup, steady)
    {
      FirewallStepSettling(s, setup, fates.nftables, steady, t);
    }
    forall t | t in bans.states
      ensures Settling(t, setup, steady)
    {
      BansStepSettling(now, setup, fates.fail2ban, steady, t);
    }
  }

  /** What a component leaves alone: the files of other components, and what other services loaded. */
  lemma StepLeavesOthers(s: Server, component: string, other: string, setup: Setup, fate: Fate)
    requires other != component
    requires Targets(RowsOf(setup.manifest, other)) !! Targets(RowsOf(setup.manifest, component))
    requires Holds(s.config.files, RowsOf(setup.manifest, other), setup.repo)
    ensures var now := Final(ApplyStep(s, component, setup, fate), s);
            Holds(now.config.files, RowsOf(setup.manifest, other), setup.repo)
    ensures LoadedBy(Final(ApplyStep(s, component, setup, fate), s), other) == LoadedBy(s, other)
  {
    StepFinal(s, component, setup, fate);
    StepStates(s, component, setup, fate);
    hide ApplyStep, Accepted, Written;
    var now := Final(ApplyStep(s, component, setup, fate), s);
    var rows := RowsOf(setup.manifest, other);
    forall i | 0 <= i < |rows|
      ensures At(now.config.files, rows[i].target) == NewFile(setup.repo)(rows[i])
    {
      assert rows[i].target in Targets(rows);
    }
  }

  /** Everything installed, and sshd on the final port alone. */
  predicate Complete(s: Server, setup: Setup) {
    && SshComplete(s, setup)
    && Holds(s.config.files, RowsOf(setup.manifest, "nftables"), setup.repo)
    && Holds(s.config.files, RowsOf(setup.manifest, "fail2ban"), setup.repo)
    && FINAL_SSH_PORT in Allowed(s, setup)
  }

  lemma StepKeepsSsh(s: Server, component: string, setup: Setup, fate: Fate)
    requires component != "ssh" && TEMP_SSH_CONFIG !in Targets(RowsOf(setup.manifest, component))
    requires Targets(RowsOf(setup.manifest, "ssh")) !! Targets(RowsOf(setup.manifest, component))
    requires SshComplete(s, setup)
    ensures SshComplete(Final(ApplyStep(s, component, setup, fate), s), setup)
  {
    StepLeavesOthers(s, component, "ssh", setup, fate);
    StepFinal(s, component, setup, fate);
    hide ApplyStep, Holds, SshPorts, Accepted;
    var now := Final(ApplyStep(s, component, setup, fate), s);
    assert At(now.config.files, TEMP_SSH_CONFIG) == At(s.config.files, TEMP_SSH_CONFIG);
  }

  lemma HeldFirewallPorts(files: Files, setup: Setup)
    requires Provided(setup) && Accepted(RowsOf(setup.manifest, "nftables"), setup.repo)
    requires Holds(files, RowsOf(setup.manifest, "nftables"), setup.repo)
    ensures FINAL_SSH_PORT in FirewallPorts(files, setup)
  {
    var rows := RowsOf(setup.manifest, "nftables");
    var i := NewContent(files, rows, setup.repo, FIREWALL_CONFIG);
    assert At(files, rows[i].target) == NewFile(setup.repo)(rows[i]);
  }

  lemma FirewallInForce(s: Server, setup: Setup, fate: Fate)
    requires Provided(setup) && ApplyStep(s, "nftables", setup, fate).ok
    ensures FINAL_SSH_PORT in Allowed(Final(ApplyStep(s, "nftables", setup, fate), s), setup)
  {
    StepFinal(s, "nftables", setup, fate);
    var now := Final(ApplyStep(s, "nftables", setup, fate), s);
    HeldFirewallPorts(now.config.files, setup);
    hide ApplyStep, Provided, Accepted, Holds, FirewallPorts;
  }

  lemma RestCompletes(s: Server, setup: Setup, fates: Fates)
    requires Provided(setup) && SshComplete(s, setup) && FinalizeRest(s, setup, fates).ok
    ensures FinalizeRest(s, setup, fates).states != []
    ensures Complete(Final(FinalizeRest(s, setup, fates), s), setup)
  {
    Names();
    DisjointBans(setup);
    var now := Final(ApplyStep(s, "nftables", setup, fates.nftables), s);
    var last := Final(ApplyStep(now, "fail2ban", setup, fates.fail2ban), now);
    RestLast(s, setup, fates);
    FirewallInForce(s, setup, fates.nftables);
    hide FinalizeRest, Holds, Provided, Accepted, Apart, SshComplete, Listening;
    StepFinal(s, "nftables", setup, fates.nftables);
    StepFinal(now, "fail2ban", setup, fates.fail2ban);
    StepKeepsSsh(s, "nftables", setup, fates.nftables);
    StepKeepsSsh(now, "fail2ban", setup, fates.fail2ban);
    StepLeavesOthers(now, "fail2ban", "nftables", setup, fates.fail2ban);
    hide ApplyStep, FirewallPorts;
  }

  lemma RestLast(s: Server, setup: Setup, fates: Fates)
    requires FinalizeRest(s, setup, fates).ok
    ensures var now := Final(ApplyStep(s, "nftables", setup, fates.nftables), s);
            var last := Final(ApplyStep(now, "fail2ban", setup, fates.fail2ban), now);
            FinalizeRest(s, setup, fates).states != [] && last == Final(FinalizeRest(s, setup, fates), s)
            && last in FinalizeRest(s, setup, fates).states
            && ApplyStep(s, "nftables", setup, fates.nftables).ok
            && ApplyStep(now, "fail2ban", setup, fates.fail2ban).ok
  {
    var now := Final(ApplyStep(s, "nftables", setup, fates.nftables), s);
    StepFinal(now, "fail2ban", setup, fates.fail2ban);
    hide ApplyStep;
    var states := FinalizeRest(s, setup, fates).states;
    assert states[|states| - 1] in states;
  }

  lemma DisjointBans(setup: Setup)
    requires Provided(setup)
    ensures Targets(RowsOf(setup.manifest, "ssh")) !! Targets(RowsOf(setup.manifest, "fail2ban"))
    ensures Targets(RowsOf(setup.manifest, "nftables")) !! Targets(RowsOf(setup.manifest, "fail2ban"))
    ensures Targets(RowsOf(setup.manifest, "ssh")) !! Targets(RowsOf(setup.manifest, "nftables"))
    ensures TEMP_SSH_CONFIG !in Targets(RowsOf(setup.manifest, "nftables"))
    ensures TEMP_SSH_CONFIG !in Targets(RowsOf(setup.manifest, "fail2ban"))
  {
    Names();
  }

  // ---------------------------------------------------------------- main results

  lemma NarrowAccessible(s: Server, setup: Setup, fates: Fates, steady: bool)
    requires Provided(setup) && Prepared(s, setup)
    requires steady ==> Steady(fates)
    ensures forall t :: t in Narrow(s, setup, fates).states ==> Accessible(t, setup, steady)
  {
    if TwoPorts(s, setup) && fates.confirmed {
      var ssh := FinalizeSsh(s, setup, fates);
      SshFinalized(s, setup, fates, steady);
      hide FinalizeSsh, FinalizeRest, Provided, Prepared, Open, Settled, SshComplete, Accessible, Steady;
      forall t | t in ssh.states
        ensures Accessible(t, setup, steady)
      {
        OpenMeans(t, setup, steady);
      }
      if ssh.ok {
        var now := Final(ssh, s);
        SshSucceeded(s, setup, fates);
        assert now in ssh.states;
        RestAccessible(now, setup, fates, steady);
      }
    }
  }

  lemma RestAccessible(s: Server, setup: Setup, fates: Fates, steady: bool)
    requires Provided(setup) && SshComplete(s, setup) && Open(s, setup, steady)
    requires FINAL_SSH_PORT in FirewallPorts(s.config.files, setup)
    requires steady ==> Steady(fates)
    ensures forall t :: t in FinalizeRest(s, setup, fates).states ==> Accessible(t, setup, steady)
  {
    CompleteIsSettled(s, setup, steady);
    hide *;
    RestSettled(s, setup, fates, steady);
    forall t | t in FinalizeRest(s, setup, fates).states
      ensures Accessible(t, setup, steady)
    {
      SettlingIsAccessible(t, setup, steady);
    }
  }

  lemma CompleteIsSettled(s: Server, setup: Setup, steady: bool)
    requires SshComplete(s, setup) && Open(s, setup, steady)
    ensures Settled(s, setup)
  {
    hide SshPorts, FirewallPorts, Holds;
    assert FINAL_SSH_PORT in {FINAL_SSH_PORT};
  }

  /**
   No lockout. On a prepared host, sshd's ports and the firewall's meet in every state of a
   finalisation in which both are running, through every failure and rollback. So the host is
   reachable throughout, unless a reload leaves sshd or the firewall stopped.
   */
  lemma NoLockout(s: Server, setup: Setup, fates: Fates)
    requires Provided(setup) && Prepared(s, setup)
    ensures AllAccessible(FinalizeHost(s, setup, fates).states, setup, Steady(fates))
  {
    var unmarked := s.(marker := false);
    var narrow := Narrow(unmarked, setup, fates);
    var now := Final(narrow, unmarked);
    MarkerIsNoPort(s, setup, false);
    NarrowAccessible(unmarked, setup, fates, Steady(fates));
    MarkerIsNoPort(now, setup, true);
    hide Narrow, Provided, Prepared, Reachable, Down, Steady;
    assert narrow.states != [] ==> now in narrow.states;
    forall t | t in FinalizeHost(s, setup, fates).states
      ensures Accessible(t, setup, Steady(fates))
    {
      assert t in [unmarked] || t in narrow.states || t in [now.(marker := true)];
    }
  }

  lemma MarkerIsNoPort(s: Server, setup: Setup, marker: bool)
    ensures Reachable(s.(marker := marker), setup) == Reachable(s, setup)
    ensures Down(s.(marker := marker)) == Down(s)
    ensures Complete(s.(marker := marker), setup) == Complete(s, setup)
    ensures Prepared(s.(marker := marker), setup) == Prepared(s, setup)
  {
  }

  // ---------------------------------------------------------------- the marker

  lemma RestKeepsMarker(s: Server, setup: Setup, fates: Fates)
    ensures forall t :: t in FinalizeRest(s, setup, fates).states ==> t.marker == s.marker
  {
    var now := Final(ApplyStep(s, "nftables", setup, fates.nftables), s);
    StepFinal(s, "nftables", setup, fates.nftables);
    StepStates(s, "nftables", setup, fates.nftables);
    StepStates(now, "fail2ban", setup, fates.fail2ban);
    hide ApplyStep, Apart, Holds, Accepted, Written;
  }

  lemma SshKeepsMarker(s: Server, setup: Setup, fates: Fates)
    ensures forall t :: t in FinalizeSsh(s, setup, fates).states ==> t.marker == s.marker
  {
    var removed := s.(config := s.config.(files := s.config.files - {TEMP_SSH_CONFIG}));
    StepFinal(removed, "ssh", setup, fates.ssh);
    StepStates(removed, "ssh", setup, fates.ssh);
    hide ApplyStep, Apart, Holds, Accepted, Written, SshVerified;
  }

  lemma NarrowKeepsMarker(s: Server, setup: Setup, fates: Fates)
    ensures forall t :: t in Narrow(s, setup, fates).states ==> t.marker == s.marker
    ensures Narrow(s, setup, fates).ok ==> Narrow(s, setup, fates).states != []
  {
    var ssh := FinalizeSsh(s, setup, fates);
    var now := Final(ssh, s);
    SshKeepsMarker(s, setup, fates);
    RestKeepsMarker(now, setup, fates);
    if FinalizeRest(now, setup, fates).ok { RestLast(now, setup, fates); }
    hide FinalizeSsh, FinalizeRest, TwoPorts;
    assert ssh.states != [] ==> now in ssh.states;
  }

  lemma NarrowCompletes(s: Server, setup: Setup, fates: Fates)
    requires Provided(setup) && Narrow(s, setup, fates).ok
    ensures Complete(Final(Narrow(s, setup, fates), s), setup)
  {
    SshSucceeded(s, setup, fates);
    var now := Final(FinalizeSsh(s, setup, fates), s);
    RestCompletes(now, setup, fates);
    hide FinalizeSsh, FinalizeRest, TwoPorts, SshComplete, Complete, Provided;
  }

  /** The states of a finalisation before the marker. */
  function Unmarked(s: Server, setup: Setup, fates: Fates): seq<Server> {
    var unmarked := s.(marker := false);
    [unmarked] + Narrow(unmarked, setup, fates).states
  }

  lemma UnmarkedStates(s: Server, setup: Setup, fates: Fates, i: nat)
    requires i < |Unmarked(s, setup, fates)|
    ensures !Unmarked(s, setup, fates)[i].marker
  {
    var unmarked := s.(marker := false);
    NarrowKeepsMarker(unmarked, setup, fates);
    hide Narrow;
    var states := Narrow(unmarked, setup, fates).states;
    if i > 0 { assert Unmarked(s, setup, fates)[i] == states[i - 1] && states[i - 1] in states; }
  }

  /** A finalisation is a prefix of its unmarked states, or all of them and then the last one marked. */
  lemma FinalizeShape(s: Server, setup: Setup, fates: Fates)
    ensures var walk, before := FinalizeHost(s, setup, fates), Unmarked(s, setup, fates);
            && |before| > 0
            && (|walk.states| <= |before| ==> walk.states == before[..|walk.states|] && !walk.ok)
            && (|walk.states| > |before| ==>
                  walk.states == before + [before[|before| - 1].(marker := true)]
                  && Narrow(s.(marker := false), setup, fates).ok && fates.ufw && fates.verify
                  && before[|before| - 1] == Final(Narrow(s.(marker := false), setup, fates), s.(marker := false)))
  {
    var unmarked := s.(marker := false);
    NarrowKeepsMarker(unmarked, setup, fates);
    hide Narrow;
    var before := Unmarked(s, setup, fates);
    assert before[..|before|] == before && before[..1] == [unmarked] && before[..0] == [];
  }

  /**
   The marker stands only in the last state of a run, right after the complete verification of that
   very configuration, on any host whatever; and a run that succeeds leaves it. With the
   repository's own components, that configuration is final: all three components installed, the
   temporary configuration gone, and sshd on the final port alone.
   */
  lemma MarkerMeansVerified(s: Server, setup: Setup, fates: Fates, i: nat)
    requires i < |FinalizeHost(s, setup, fates).states|
    ensures var walk := FinalizeHost(s, setup, fates);
            walk.states[i].marker ==>
              && fates.ufw && fates.verify && i == |walk.states| - 1 && i > 0
              && walk.states[i] == walk.states[i - 1].(marker := true) && !walk.states[i - 1].marker
              && (Provided(setup) ==> Complete(walk.states[i], setup))
    ensures FinalizeHost(s, setup, fates).ok ==> Final(FinalizeHost(s, setup, fates), s).marker
  {
    var walk, before := FinalizeHost(s, setup, fates), Unmarked(s, setup, fates);
    FinalizeShape(s, setup, fates);
    hide FinalizeHost, Unmarked, Narrow, Provided, Complete;
    if i < |before| {
      UnmarkedStates(s, setup, fates, i);
    } else if Provided(setup) {
      NarrowCompletes(s.(marker := false), setup, fates);
      MarkerIsNoPort(before[|before| - 1], setup, true);
    }
    UnmarkedStates(s, setup, fates, |before| - 1);
  }
}

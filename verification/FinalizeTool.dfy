/** The bootstrap script's `finalize`, step by step on a host, recording the states it goes through. */
module FinalizeTool {
  import opened Options
  import opened ApplyConfig
  import opened ApplyConfigRun
  import opened Finalize

  lemma StepStops(s: Server, component: string, setup: Setup, fate: Fate)
    ensures ApplyStep(s, component, setup, fate).states != []
  {
    hide Group, Reloads;
  }

  class Bootstrap {
    const host: Host
    var marker: bool

    /** The states after each step that changed something, so far. */
    ghost var history: seq<Server>

    constructor (host: Host, marker: bool)
      ensures this.host == host && this.marker == marker && history == []
    {
      this.host := host;
      this.marker := marker;
      history := [];
    }

    function Now(): Server
      reads this, host
    {
      Server(host.Now(), marker)
    }

    /** Record the present. */
    ghost method Record()
      modifies this`history
      ensures history == old(history) + [Now()]
    {
      history := history + [Now()];
    }

    method ApplyComponent(component: string, setup: Setup, fate: Fate) returns (ok: bool)
      modifies this`history, host
      ensures var walk := ApplyStep(old(Now()), component, setup, fate);
              ok == walk.ok && history == old(history) + walk.states && Now() == Final(walk, old(Now()))
    {
      hide Group, Reloads;
      var rows := RowsOf(setup.manifest, component);
      ghost var reloads := Reloads(host.Now(), component, rows, setup.repo, fate);
      var end := host.ApplyComponentGroup(component, rows, setup.repo, fate);
      ghost var states := Marked(reloads + [host.Now()], marker);
      assert states[|states| - 1] == Now();
      history := history + states;
      ok := end == Applied;
    }

    method FinalizeSsh(setup: Setup, fates: Fates) returns (ok: bool)
      modifies this`history, host
      ensures var walk := Finalize.FinalizeSsh(old(Now()), setup, fates);
              ok == walk.ok && history == old(history) + walk.states && Now() == Final(walk, old(Now()))
    {
      hide ApplyStep, SshVerified, Restore;
      var temporary := At(host.files, TEMP_SSH_CONFIG);
      if temporary.Some? && !(fates.save && fates.remove) { return false; }
      host.files := host.files - {TEMP_SSH_CONFIG};
      Record();
      ghost var removed := Now();
      ghost var recorded := history;
      var applied := ApplyComponent("ssh", setup, fates.ssh);
      ghost var step := ApplyStep(removed, "ssh", setup, fates.ssh);
      StepStops(removed, "ssh", setup, fates.ssh);
      ghost var now := Now();
      assert history == old(history) + ([removed] + step.states);
      if applied && SshVerified(Now(), setup, fates.runtime) { return true; }
      ok := false;
      if temporary.Some? {
        RestoreTemporary(temporary.value, fates);
        assert history == old(history) + (([removed] + step.states) + Restore(now, temporary.value, fates));
      } else {
        assert [removed] + step.states + [] == [removed] + step.states;
      }
    }

    method RestoreTemporary(backup: File, fates: Fates)
      modifies this`history, host
      ensures var states := Restore(old(Now()), backup, fates);
              states != [] && history == old(history) + states && Now() == states[|states| - 1]
    {
      match fates.reinstall
      case Broken(left) =>
        host.files := Put(host.files, TEMP_SSH_CONFIG, left);
        Record();
      case Done =>
        host.files := host.files[TEMP_SSH_CONFIG := File(backup.text, "0644")];
        Record();
        ghost var restored := Now();
        if !fates.valid { return; }
        var reloaded := host.Reload("ssh", fates.reload);
        if EffectOf(fates.reload) != Keeps { Record(); }
    }

    method FinalizeAll(setup: Setup, fates: Fates) returns (ok: bool)
      modifies this, host
      ensures var walk := FinalizeHost(old(Now()), setup, fates);
              ok == walk.ok && history == old(history) + walk.states && Now() == Final(walk, old(Now()))
    {
      hide Narrow;
      if !fates.preflight || !fates.unmark { return false; }
      marker := false;
      Record();
      ghost var unmarked := Now();
      if !fates.baseline { return false; }
      ok := NarrowAccess(setup, fates);
      ghost var narrow := Narrow(unmarked, setup, fates);
      assert history == old(history) + ([unmarked] + narrow.states);
      if !ok || !fates.ufw || !fates.verify || fates.mark == NotCreated { return false; }
      marker := true;
      Record();
      ok := fates.mark == MarkerWritten;
      assert history == old(history) + (([unmarked] + narrow.states) + [Now()]);
    }

    method NarrowAccess(setup: Setup, fates: Fates) returns (ok: bool)
      modifies this`history, host
      ensures var walk := Narrow(old(Now()), setup, fates);
              ok == walk.ok && history == old(history) + walk.states && Now() == Final(walk, old(Now()))
    {
      hide Finalize.FinalizeSsh, ApplyStep, TwoPorts, Provided, Holds, Apart, Accepted;
      ghost var start := Now();
      if !TwoPorts(Now(), setup) || !fates.confirmed { return false; }
      ok := FinalizeSsh(setup, fates);
      if !ok { return; }
      ghost var ssh := Finalize.FinalizeSsh(start, setup, fates);
      ghost var safe := Now();
      ok := ApplyComponent("nftables", setup, fates.nftables);
      StepStops(safe, "nftables", setup, fates.nftables);
      ghost var firewall := ApplyStep(safe, "nftables", setup, fates.nftables);
      assert history == old(history) + (ssh.states + firewall.states);
      if !ok { return; }
      ghost var now := Now();
      ok := ApplyComponent("fail2ban", setup, fates.fail2ban);
      StepStops(now, "fail2ban", setup, fates.fail2ban);
      ghost var bans := ApplyStep(now, "fail2ban", setup, fates.fail2ban);
      assert history == old(history) + (ssh.states + (firewall.states + bans.states));
    }
  }
}

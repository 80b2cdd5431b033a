/** What a finalisation needs in order to succeed, and what one that fails has left alone or put back. */
module FinalizeOutcome {
  import opened Options
  import opened ApplyConfig
  import opened Finalize

  /**
   Nothing is touched, apart from an earlier marker, unless every check before has passed and the
   active firewall lets both the bootstrap port and the final port in.
   */
  lemma NothingBeforeTheChecks(s: Server, setup: Setup, fates: Fates)
    requires !(fates.preflight && fates.unmark && fates.baseline && fates.confirmed && {22, 22822} <= Allowed(s, setup))
    ensures var walk := FinalizeHost(s, setup, fates);
            !walk.ok && forall t :: t in walk.states ==> t == s.(marker := false)
  {
    hide FinalizeSsh, FinalizeRest, FirewallPorts;
    assert Allowed(s.(marker := false), setup) == Allowed(s, setup);
  }

  /**
   A finalisation succeeds only if every one of its commands and checks did; it then ends with sshd on
   port 22822 alone, that port open, the temporary configuration gone, and the marker set.
   */
  lemma SucceedsOnlyIf(s: Server, setup: Setup, fates: Fates)
    requires Provided(setup) && FinalizeHost(s, setup, fates).ok
    ensures fates.preflight && fates.unmark && fates.baseline && fates.confirmed && fates.runtime
    ensures {22, 22822} <= Allowed(s, setup)
    ensures "/etc/ssh/sshd_config.d/00-discrete-bootstrap.conf" in s.config.files ==> fates.save && fates.remove
    ensures fates.ufw && fates.verify && fates.mark == MarkerWritten
    ensures var end := Final(FinalizeHost(s, setup, fates), s);
            && Listening(end, setup) == {22822} && 22822 in Allowed(end, setup) && end.marker
            && "/etc/ssh/sshd_config.d/00-discrete-bootstrap.conf" !in end.config.files
  {
    hide *;
    var unmarked := s.(marker := false);
    NeedsTheChecks(s, setup, fates);
    SameAllowed(s, setup);
    SshNeeds(unmarked, setup, fates);
    EndsComplete(s, setup, fates);
    CompleteMeans(Final(FinalizeHost(s, setup, fates), s), setup);
    Path();
  }

  lemma Path()
    ensures TEMP_SSH_CONFIG == "/etc/ssh/sshd_config.d/00-discrete-bootstrap.conf"
  {
  }

  lemma SameAllowed(s: Server, setup: Setup)
    ensures Allowed(s.(marker := false), setup) == Allowed(s, setup)
    ensures TwoPorts(s, setup) <==> {22, 22822} <= Allowed(s, setup)
    ensures TwoPorts(s.(marker := false), setup) <==> TwoPorts(s, setup)
  {
    hide FirewallPorts;
  }

  lemma EndsComplete(s: Server, setup: Setup, fates: Fates)
    requires Provided(setup) && FinalizeHost(s, setup, fates).ok
    ensures var end := Final(FinalizeHost(s, setup, fates), s); Complete(end, setup) && end.marker
  {
    var unmarked := s.(marker := false);
    NeedsTheChecks(s, setup, fates);
    FinalizeShape(s, setup, fates);
    hide FinalizeHost, Narrow, FinalizeSsh, Provided, Complete, Unmarked, TwoPorts;
    NarrowCompletes(unmarked, setup, fates);
    MarkerIsNoPort(Final(Narrow(unmarked, setup, fates), unmarked), setup, true);
  }

  lemma NeedsTheChecks(s: Server, setup: Setup, fates: Fates)
    requires FinalizeHost(s, setup, fates).ok
    ensures var unmarked := s.(marker := false);
            && fates.preflight && fates.unmark && fates.baseline && fates.confirmed
            && fates.ufw && fates.verify && fates.mark == MarkerWritten
            && TwoPorts(unmarked, setup) && Narrow(unmarked, setup, fates).ok && FinalizeSsh(unmarked, setup, fates).ok
    ensures |FinalizeHost(s, setup, fates).states| > |Unmarked(s, setup, fates)|
  {
    hide FinalizeSsh, FinalizeRest, Allowed;
  }

  lemma SshNeeds(s: Server, setup: Setup, fates: Fates)
    requires FinalizeSsh(s, setup, fates).ok
    ensures fates.runtime && (TEMP_SSH_CONFIG in s.config.files ==> fates.save && fates.remove)
  {
    hide ApplyStep, Restore, SshPorts;
  }

  lemma CompleteMeans(s: Server, setup: Setup)
    requires Complete(s, setup)
    ensures Listening(s, setup) == {22822} && 22822 in Allowed(s, setup)
    ensures "/etc/ssh/sshd_config.d/00-discrete-bootstrap.conf" !in s.config.files
  {
    hide Holds, SshPorts, FirewallPorts;
  }

  /** The firewall and Fail2Ban keep what they have loaded as long as sshd has not been finalised. */
  predicate Untouched(t: Server, s: Server) {
    LoadedBy(t, "nftables") == LoadedBy(s, "nftables") && LoadedBy(t, "fail2ban") == LoadedBy(s, "fail2ban")
  }

  lemma SshTouchesSshOnly(s: Server, setup: Setup, fates: Fates, t: Server)
    requires t in FinalizeSsh(s, setup, fates).states
    ensures Untouched(t, s)
  {
    var removed := s.(config := s.config.(files := s.config.files - {TEMP_SSH_CONFIG}));
    var applied := ApplyStep(removed, "ssh", setup, fates.ssh);
    var now := Final(applied, removed);
    Names();
    StepStates(removed, "ssh", setup, fates.ssh);
    StepFinal(removed, "ssh", setup, fates.ssh);
    hide ApplyStep, Accepted, Written, SshVerified, MayStop, Apart, Holds;
    if t !in applied.states && t != removed {
      RestoreTouchesSshOnly(now, setup, fates, t, At(s.config.files, TEMP_SSH_CONFIG).value);
    }
  }

  lemma RestoreTouchesSshOnly(s: Server, setup: Setup, fates: Fates, t: Server, backup: File)
    requires t in Restore(s, backup, fates)
    ensures Untouched(t, s)
  {
    Names();
  }

  /** The firewall waits for sshd: unless `finalize_ssh` succeeds, neither the firewall nor Fail2Ban is reloaded. */
  lemma FirewallWaitsForSsh(s: Server, setup: Setup, fates: Fates, t: Server)
    requires !FinalizeSsh(s.(marker := false), setup, fates).ok
    requires t in FinalizeHost(s, setup, fates).states
    ensures Untouched(t, s)
  {
    var unmarked := s.(marker := false);
    if t != unmarked {
      assert t in FinalizeSsh(unmarked, setup, fates).states by { hide FinalizeSsh, FinalizeRest, TwoPorts; }
      SshTouchesSshOnly(unmarked, setup, fates, t);
    }
    hide FinalizeHost, FinalizeSsh;
  }

  /**
   If finalising SSH fails and the commands that put things back work, the temporary configuration is
   on disk again with its text, and sshd has loaded it.
   */
  lemma TemporaryIsBack(s: Server, setup: Setup, fates: Fates)
    requires TEMP_SSH_CONFIG in s.config.files && fates.save && fates.remove
    requires !FinalizeSsh(s, setup, fates).ok && fates.reinstall == Done && fates.valid && fates.reload == Succeeds
    ensures var end := Final(FinalizeSsh(s, setup, fates), s);
            && TEMP_SSH_CONFIG in end.config.files
            && end.config.files[TEMP_SSH_CONFIG] == File(s.config.files[TEMP_SSH_CONFIG].text, "0644")
            && LoadedBy(end, "ssh") == Some(end.config.files)
  {
    hide ApplyStep, SshVerified;
  }
}

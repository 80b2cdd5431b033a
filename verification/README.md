# Operations of the Discrete infrastructure: model and proofs

This project models the parts of the repository that are protocols, exact algorithms or checkers,
and proves what they are for. Each module follows one source file or component; a module with
`Tool`, `Process` or `Run` in its name holds the step-by-step program, as a class or a method with
loops, proved equal to the functions that the theorems are about.

- **Upgrade** (`Upgrade`, `UpgradeSafety`, `UpgradeRuns`, `UpgradeReach`, `UpgradeRelease`,
  `UpgradeTool`): the crash-safe upgrade of the private Pay stack. A command is a list of atomic steps
  run on a budget of `lives`; the process dies when the budget is used up, so quantifying over the
  budget is quantifying over crash points. Theorems are about every list of commands, each cut
  anywhere, with reboots in between.
- **Monitor** (`Monitor*`): the incident monitor. Hysteresis, the bounded queue that is saved before
  anything is sent, back-off, restart from the stored text, and delivery over whole lives.
- **Statistics** (`Counting`, `Statistics`, `SignFlip`, `Permutation`, `Bootstrap`): the exact tests
  and the exhaustive bootstrap, over the reals and for vectors of any length: what each number counts,
  and what that guarantees.
- **Configuration and access** (`ApplyConfig`, `ApplyConfigRun`, `Finalize`, `FinalizeLockout`,
  `FinalizeOutcome`, `FinalizeTool`, `Firewall`, `FirewallListing`): multi-file configuration with
  rollback, the order in which SSH and the firewall are narrowed, exactly what the firewall and SSH
  checker accepts, and what its verdict means.
- **Printers, parsers and fast forms** (`Text`, `Dictionaries`, `EnvText`, `Manifest`,
  `RegistryPrefix`): environment files, SHA-256 manifests, prefix digests from one running hash.
- **Pause and restore** (`Sequence`, `SequenceGates`, `SequenceTool`): the supervised test sequence.

Everything that comes from outside (clocks, commands, other processes, what a crash leaves behind)
is an input of the functions, so each theorem holds for all of it.

What the proofs found where a property does not hold as first thought, each with its exact condition:

- `apply-config.sh` makes a target's directory outside any `if`. When that fails in the middle of an
  installation the script ends without rolling back (`ApplyConfig.HalfInstalled`). As long as the
  rollback's own copies work, a component is always applied or leaves every file as before if and only
  if nothing changes before a directory that may be missing (`ApplyConfig.AlwaysAtomicExactly`), as for
  every component of the present manifest (`ApplyConfig.OneDirectoryIsAtomic`). Without working copies
  no accepted component is (`ApplyConfig.NeedsWorkingCopies`).
- A rollback restores files, not always the running service. The newest reload that took effect
  decides, even if it failed (`ApplyConfig.ServiceAfter`): a service is left on files that were removed
  exactly when a reload loaded them, that reload or the verification then failed, and the second reload
  did nothing (`ApplyConfig.StaleExactly`, `ApplyConfig.StaleService`).
- `finalize` checks the active firewall rules but not the file that a rollback would load, nor what
  SSH configuration remains without the temporary file. Exactly the hosts with three properties of
  their files cannot be locked out while sshd and the firewall run
  (`FinalizeLockout.NoLockoutExactly`, `FinalizeLockout.HostsOfEachKind`).
- A trial that dies before its injected failure is recorded can never lead to an accepted upgrade on
  that machine; from every other state acceptance can be reached (`UpgradeReach.AcceptanceReachable`).
- A start of the monitor after its clock was set back fails exactly when its next attempt or a queued
  notification lies too far ahead (`MonitorRuns.RestartExactly`).
- With 32 queued notifications the monitor stops (`MonitorWedge.SomeRunIsWedged`), and it goes on
  exactly when something else is observed (`MonitorWedge.WedgeEndsExactly`).
- A manifest of no file, or with a line break in a name, does not parse back
  (`Manifest.RoundTripExactly`).

## Model

| member | source | states |
|---|---|---|
| UpgradeRuns.CrashSafety | qualification/discrete-pay/persistent-upgrade.py:189-295 | after any commands cut at any step and any reboots, the files are the untouched baseline, or a recovery is owed that its own checks never refuse with every file at a content the plan names, or the candidate is completely in place, running and accepted; which candidate the plan names is `PlanIsCandidates` |
| UpgradeRelease.AcceptedCandidate | qualification/discrete-pay/persistent-upgrade.py:145-272 | after any such run, a machine that has accepted holds the candidate of one of its trials: install.json has its release, files and unit digests with every old bundle file pinned under the old release, acceptance.json is the evidence for that release, the four units have its texts, every other unit is as it was found, and all of them run |
| UpgradeRelease.PlanIsCandidates | qualification/discrete-pay/persistent-upgrade.py:145-186 | in every state with a plan, pending ones included, the plan leads from the machine as it was found to the candidate of one of the trials, field by field |
| UpgradeRelease.TrialActsExactly | qualification/discrete-pay/persistent-upgrade.py:145-158 | a trial touches a machine exactly when none was prepared before, install.json is the pinned one and enabled, every unit it names has the recorded file and runs it, and the four units are known |
| UpgradeRelease.ForeignFilesStay | qualification/discrete-pay/persistent-upgrade.py:189-199 | where a unit or install.json is neither the baseline's nor the planned one, recovery and activation change nothing |
| UpgradeRelease.PassedChecks | qualification/discrete-pay/persistent-upgrade.py:117-142 | a command that gets past one of its checks had the files and running units in order for that state at that point |
| UpgradeRelease.BackupsStay | qualification/discrete-pay/persistent-upgrade.py:202-226 | the first database backups a plan records stay recorded under all later commands |
| UpgradeRuns.Convergence | qualification/discrete-pay/persistent-upgrade.py:236-251 | however many recoveries were cut short, one granted its eleven steps restores units, install.json and acceptance.json exactly, ends with every unit running its original file, and makes further recoveries no-ops |
| UpgradeRuns.AcceptanceGate | qualification/discrete-pay/persistent-upgrade.py:248-295 | an accepted plan has in its history, in this order: checked candidate, injected failure, checked old release, completed rollback, checked candidate, restart, check, acceptance |
| UpgradeRuns.AcceptanceIsFinal | qualification/discrete-pay/persistent-upgrade.py:220-272 | once a machine has accepted, no later commands and reboots, cut anywhere, change a file or the plan |
| UpgradeRuns.LostTrialIsNeverAccepted | qualification/discrete-pay/persistent-upgrade.py:145-186 | a machine whose only trial died before the injected failure was recorded stays so under every later command and reboot |
| UpgradeReach.AcceptanceReachable | qualification/discrete-pay/persistent-upgrade.py:145-295 | where a trial is possible at all, some further commands lead to acceptance if and only if the trial was not lost, whatever happened before |
| UpgradeReach.TrialsAreLost | qualification/discrete-pay/persistent-upgrade.py:145-186 | a first trial is lost exactly when it is cut after the first and before the last of its eighteen steps |
| UpgradeRuns.CutActivation | qualification/discrete-pay/persistent-upgrade.py:220-233 | an activation cut at any step leaves the baseline, or a pending recovery with the same plan |
| UpgradeRuns.CutRecovery | qualification/discrete-pay/persistent-upgrade.py:236-251 | a recovery cut at any step leaves a pending recovery with the same plan and a longer history |
| UpgradeRuns.CutAcceptance | qualification/discrete-pay/persistent-upgrade.py:254-272 | an acceptance cut at any step leaves a pending recovery |
| UpgradeSafety.PendingIsRecoverable | qualification/discrete-pay/persistent-upgrade.py:189-199 | `check_switch_files` never refuses a pending recovery, whatever file was half way |
| UpgradeSafety.ActivateEnds | qualification/discrete-pay/persistent-upgrade.py:220-233 | over the untouched baseline an activation completes exactly when it is not cut, and then has installed, started and checked the candidate |
| UpgradeSafety.RecoverEnds | qualification/discrete-pay/persistent-upgrade.py:236-251 | from every pending state a recovery completes exactly when it is not cut, with the disk it then leaves |
| UpgradeTool.Machine.CheckSwitchFiles | qualification/discrete-pay/persistent-upgrade.py:189-199 | the loops over changed and unchanged units decide the predicate that the theorems use |
| UpgradeTool.Machine.Prepare | qualification/discrete-pay/persistent-upgrade.py:145-186 | the step-by-step preparation is the specified one for every budget; `UpgradeRelease.PlanIsCandidates` says what plan it saves |
| UpgradeTool.Machine.Activate | qualification/discrete-pay/persistent-upgrade.py:220-233 | the step-by-step activation is the specified one for every budget |
| UpgradeTool.Machine.Recover | qualification/discrete-pay/persistent-upgrade.py:236-251 | the step-by-step recovery is the specified one for every budget |
| UpgradeTool.Machine.Accept | qualification/discrete-pay/persistent-upgrade.py:254-272 | the step-by-step acceptance is the specified one for every budget |
| UpgradeTool.Machine.TrialCommand | qualification/discrete-pay/persistent-upgrade.py:282-287 | the `trial` command is preparation, activation and the recorded injected failure |
| UpgradeTool.Machine.ActivateCommand | qualification/discrete-pay/persistent-upgrade.py:289-293 | the `activate` command demands a verified rollback, then activates and accepts |
| MonitorRuns.HysteresisIsHistory | monitoring/discrete-pay/policy.mjs:81-96 | after any run, cut and restarted anywhere, the confirmed key is that of the latest position agreeing with the two before it (one if empty), and the durable notifications are those this definition gives |
| MonitorRuns.NotificationsAlternate | monitoring/discrete-pay/policy.mjs:84-94 | successive durable notifications differ and the first ever is an alert |
| MonitorRuns.RestartClosure | monitoring/discrete-pay/policy.mjs:16-35 | whatever was cut, the stored state validates at any later time, parses back to itself, fits the 16384-byte bound, and a start succeeds |
| MonitorRuns.RestartExactly | monitoring/discrete-pay/policy.mjs:16-35 | after any run that stored a state, a start at any time, earlier ones included, succeeds exactly when the next attempt is at most six minutes ahead of it and every queued notification at most five seconds |
| MonitorRuns.AtLeastOnceInOrder | monitoring/discrete-pay/policy.mjs:98-114 | under a strictly increasing clock, what was accepted (adjacent repeats removed) is a prefix of the durable order, nothing unsaved is sent, and every durable notification is accepted or still queued |
| MonitorHistory.ObserveFollowsHistory | monitoring/discrete-pay/policy.mjs:81-96 | one `observe` takes the history's candidate, capped run length, confirmed key and initial flag to those of the longer history |
| MonitorIssues.ObservationValid | monitoring/discrete-pay/policy.mjs:61-77 | `issues` reports known keys, each once, at most one per component and one for the worker |
| MonitorReports.IssuesMean | monitoring/discrete-pay/policy.mjs:61-79 | `issues` raises exactly for a snapshot or sample that is malformed, inconsistent, too old or from the future, and otherwise reports an inactive worker and the issue of each sample, and nothing else |
| MonitorReports.IssuesExactly | monitoring/discrete-pay/policy.mjs:61-79 | the worker is reported inactive exactly if it is, a component stale exactly if its sample is missing or over three minutes old, and a failure code exactly if a sample at most that old has failed with it |
| MonitorReports.FailureIsConfirmed | monitoring/discrete-pay/policy.mjs:81-114 | over all runs: three stored ticks in a row that observe a recent failing sample confirm a key that names the failure, and the latest durable alert names it too |
| MonitorReports.RecoveryIsConfirmed | monitoring/discrete-pay/policy.mjs:81-114 | over all runs: two stored ticks in a row that observe a healthy snapshot confirm the recovery |
| MonitorReports.RetrySchedule | monitoring/discrete-pay/policy.mjs:104-113 | after the k-th refused delivery in a row the next attempt is due 20, 40, 80, 160 and from the fifth on 300 seconds later, with the same notification first |
| MonitorReports.AcknowledgedResets | monitoring/discrete-pay/policy.mjs:104-108 | an acknowledged delivery takes the head off the queue and starts that schedule afresh |
| MonitorReports.ContactsExactly | monitoring/discrete-pay/policy.mjs:98-106 | a tick that gets past its first save contacts the receiver, with the head of the queue, exactly when there is one and its time has come; a new alert carries the tick's time and issues |
| MonitorIssues.KeyRoundTrip | monitoring/discrete-pay/policy.mjs:82-91 | the joined key splits back into the sorted issues |
| MonitorIssues.KeyIsCanonical | monitoring/discrete-pay/policy.mjs:82 | the key does not depend on the order in which issues were found |
| MonitorRestart.StateRoundTrip | monitoring/discrete-pay/monitor.mjs:25-29 | a state that fits is read back from its JSON value unchanged |
| MonitorRestart.ValidatesExactly | monitoring/discrete-pay/policy.mjs:16-35 | a stored state validates exactly within the stated bounds of counters, texts and queue |
| MonitorRestart.ValidatedIsState | monitoring/discrete-pay/policy.mjs:16-35 | whatever validates is the JSON value of a state within these bounds: no other field and none of another type |
| MonitorRestart.StateLength | monitoring/discrete-pay/monitor.mjs:13-29 | the JSON text of every state that fits has at most 16384 characters |
| Text.DecimalReads | monitoring/discrete-pay/policy.mjs:90-90 | a time printed into an id reads back as that time and has no leading zero |
| MonitorDrain.FiveCarryTwo | monitoring/discrete-pay/policy.mjs:81-96 | any five consecutive observations notify at most twice, from any state |
| MonitorDrain.Drains | monitoring/discrete-pay/policy.mjs:98-114 | with retries due and an accepting receiver, a queue of at most 31 never overflows and is empty after five ticks for every started group of three entries, whatever is observed |
| MonitorWedge.ThrowsExactly | monitoring/discrete-pay/policy.mjs:81-114 | after any run, a tick throws exactly if its observation is to be reported and 32 more reports were made along the history than were delivered for good |
| MonitorWedge.SomeRunIsWedged | monitoring/discrete-pay/policy.mjs:87-90 | a run from the empty state, with a strictly increasing clock and refused sends, ends with 32 stored entries and a 33rd about to be reported |
| MonitorWedge.WedgeEndsExactly | monitoring/discrete-pay/policy.mjs:87-103 | from there, what is stored changes along a run, restarts included, exactly if a live tick observes another key and reaches its save; until then nothing is sent |
| MonitorProcess.Process.FindIssues | monitoring/discrete-pay/policy.mjs:61-77 | the loop over components reports what the specification reports, or throws with it |
| MonitorProcess.Process.ObserveNow | monitoring/discrete-pay/policy.mjs:81-96 | the mutating hysteresis step is the specified one, and a throw leaves only the counters advanced |
| MonitorProcess.Process.RunTick | monitoring/discrete-pay/policy.mjs:98-114 | a tick, cut before or after each save and send, is the specified transition of memory, disk and receiver |
| MonitorProcess.Process.StartUp | monitoring/discrete-pay/monitor.mjs:59-63 | starting takes up exactly the stored state if it validates, and stops otherwise |
| MonitorJournal.FromJournal | monitoring/discrete-pay/policy.mjs:37-59 | for each component the sample is the first among the latest admissible cycles of the invocation, and absent only if there is none |
| MonitorJournal.ObservedExactly | monitoring/discrete-pay/policy.mjs:37-56 | a journal line counts exactly if it is a consistent worker cycle of the asked invocation about that component and at most five seconds ahead |
| MonitorJournal.JournalIsUnderstood | monitoring/discrete-pay/policy.mjs:46-77 | a snapshot built from the journal is never rejected by `issues` within its age limit |
| Counting.FewAreExtreme | docs/benchmarks/discrete-v0.9.5/reproduce/work/analysis/analyze_crossos_1g.py:59-66 | of any enumerated cases at most k have at most k cases scoring as high, up to a tolerance |
| SignFlip.SignFlipIsExact | docs/benchmarks/discrete-v0.9.5/reproduce/work/analysis/analyze_crossos_1g.py:59-66 | at most k of the 2^n sign-flipped copies of any vector get a p-value of at most k / 2^n |
| SignFlip.PValueIsDyadic | docs/benchmarks/discrete-v0.9.5/reproduce/work/analysis/analyze_crossos_1g.py:65-66 | for n >= 1 the p-value is a positive multiple of 2^(1-n), at most one |
| SignFlip.PValueCounts | docs/benchmarks/discrete-v0.9.5/reproduce/work/analysis/analyze_crossos_cold.py:55-63 | p times 2^n is the number of ways of adding or subtracting the differences that lead at least as far from zero as their sum, up to 1e-12 for each difference |
| SignFlip.SlackIsSmall | docs/benchmarks/discrete-v0.9.5/reproduce/work/analysis/analyze_crossos_1g.py:59-66 | p is at least the share of copies whose sum is as far from zero as the observed one, and exactly that share if and only if no copy falls short by at most 1e-12 for each difference |
| SignFlip.OneSidedIsLeast | docs/benchmarks/discrete-v0.9.5/reproduce/work/analysis/analyze_crossos_cold.py:55-63 | if every difference is positive, and above half the slack, p is the least possible, 2^(1-n) |
| SignFlip.FlippingReorders | docs/benchmarks/discrete-v0.9.5/reproduce/work/analysis/analyze_crossos_1g.py:61-64 | flipping every enumerated sign vector by a fixed one counts the same cases |
| SignFlip.SignsListed | docs/benchmarks/discrete-v0.9.5/reproduce/work/analysis/analyze_crossos_1g.py:63 | every sign vector is enumerated |
| SignFlip.ExactSignFlipLoop | docs/benchmarks/discrete-v0.9.5/reproduce/work/analysis/analyze_crossos_cold.py:55-63 | the counting loop returns the same p-value as the expression form, or the same error |
| Permutation.PermutationIsExact | docs/benchmarks/discrete-v0.9.5/reproduce/work/analysis/analyze_debian_thp_interleaved.py:69-81 | over all C(n, k) relabellings of the same pooled values, at most j get a p-value of at most j / C(n, k) |
| Permutation.GroupsExchange | docs/benchmarks/discrete-v0.9.5/reproduce/work/analysis/analyze_debian_thp_interleaved.py:69-81 | swapping the two groups, also of unequal size, leaves the p-value unchanged |
| Permutation.PValueCounts | docs/benchmarks/discrete-v0.9.5/reproduce/work/analysis/analyze_debian_thp_interleaved.py:69-81 | p times C(n, k) is the number of choices of the second group whose means lie at least as far apart as the observed ones, up to 1e-12 |
| Permutation.SlackIsSmall | docs/benchmarks/discrete-v0.9.5/reproduce/work/analysis/comparison_statistics.py:16-30 | p is at least the share of relabellings with means as far apart as the observed ones, and exactly that share if and only if none falls short by at most 1e-12 |
| Permutation.ScriptsAgree | docs/benchmarks/discrete-v0.9.5/reproduce/work/analysis/comparison_statistics.py:16-30 | the two scripts give the same p-value although they pool and relabel the groups differently |
| Permutation.RelabelledRank | docs/benchmarks/discrete-v0.9.5/reproduce/work/analysis/analyze_debian_thp_interleaved.py:74-81 | the p-value of a relabelling is the rank of its statistic among all relabellings |
| Permutation.CombinationsExactly | docs/benchmarks/discrete-v0.9.5/reproduce/work/analysis/comparison_statistics.py:22 | the enumeration lists exactly the ascending index lists of length k |
| Permutation.CombinationsDistinct | docs/benchmarks/discrete-v0.9.5/reproduce/work/analysis/comparison_statistics.py:22 | the enumeration lists no combination twice |
| Permutation.CombinationsCounted | docs/benchmarks/discrete-v0.9.5/reproduce/work/analysis/comparison_statistics.py:22-29 | the number of relabellings is the binomial coefficient |
| Permutation.ExactPermutationPValue | docs/benchmarks/discrete-v0.9.5/reproduce/work/analysis/analyze_debian_thp_interleaved.py:69-81 | the counting loop returns the specified share, or the error for an empty group |
| Permutation.ExactPermutationP | docs/benchmarks/discrete-v0.9.5/reproduce/work/analysis/comparison_statistics.py:16-30 | the counting loop returns the specified share, or the error for an empty group |
| Bootstrap.IntervalMirrors | docs/benchmarks/discrete-v0.9.5/reproduce/work/analysis/analyze_crossos_1g.py:69-74 | negating all differences maps the interval (low, high) to (-high, -low) |
| Bootstrap.IntervalInside | docs/benchmarks/discrete-v0.9.5/reproduce/work/analysis/analyze_crossos_cold.py:66-71 | low <= high, and both lie between any bounds of the differences |
| Bootstrap.IntervalCovers | docs/benchmarks/discrete-v0.9.5/reproduce/work/analysis/analyze_crossos_1g.py:69-74 | at most ceil(0.025 (n^n - 1)) resample means lie below the interval, and at most as many above it |
| Bootstrap.PercentileMirrors | docs/benchmarks/discrete-v0.9.5/reproduce/work/analysis/analyze_crossos_1g.py:48-56 | negating the data mirrors the percentile at every quantile |
| Bootstrap.PercentileMonotone | docs/benchmarks/discrete-v0.9.5/reproduce/work/analysis/analyze_crossos_cold.py:44-52 | a larger quantile never gives a smaller value, across interpolation intervals |
| Bootstrap.PercentileSplits | docs/benchmarks/discrete-v0.9.5/reproduce/work/analysis/analyze_crossos_1g.py:48-56 | enough of the data is at most the percentile, and enough at least it |
| Bootstrap.PercentileInterpolates | docs/benchmarks/discrete-v0.9.5/reproduce/work/analysis/analyze_crossos_1g.py:48-56 | the percentile stands a fraction f of the way from the i-th ordered value to the next, where (m - 1) q = i + f |
| Bootstrap.IntervalInterpolates | docs/benchmarks/discrete-v0.9.5/reproduce/work/analysis/analyze_crossos_1g.py:69-74 | the interval's ends stand at the places 0.025 (n^n - 1) and 0.975 (n^n - 1) among the ordered resample means, interpolated linearly |
| Bootstrap.MeansAreDraws | docs/benchmarks/discrete-v0.9.5/reproduce/work/analysis/analyze_crossos_cold.py:66-71 | the resample means are, in order, the sums of n draws with replacement divided by n |
| Bootstrap.IndexTuplesExactly | docs/benchmarks/discrete-v0.9.5/reproduce/work/analysis/analyze_crossos_1g.py:72 | the resamples are exactly the index lists of length n over n differences |
| ApplyConfig.ComponentIsAtomic | modules/host/scripts/apply-config.sh:53-205 | a component is applied exactly when its rows are accepted and every step succeeds, and then every target equals its source; if installing, validating, reloading or verifying fails and the rollback's copies work, or if the rows are refused or unsaved, every file is as it was; no other file ever changes |
| ApplyConfig.AppliedFiles | modules/host/scripts/apply-config.sh:168-205 | an applied component has every target with its source's text and its own mode, no other file touched, and its service on exactly these files |
| ApplyConfig.AppliedMeans | modules/host/scripts/apply-config.sh:140-205 | it is applied only if every backup, install, validation, reload and verification works, and then always if its rows are accepted and every directory can be made |
| ApplyConfig.AlwaysAtomicExactly | modules/host/scripts/apply-config.sh:168-201 | as long as the rollback's own copies work, a component is applied or leaves every file as before, however else its commands turn out, if and only if it is refused or nothing changes before a directory that may be missing |
| ApplyConfig.OneDirectoryIsAtomic | modules/host/scripts/apply-config.sh:168-201 | components of one file, or of files in one directory, are applied or leave every file as before, as long as the rollback's own copies work |
| ApplyConfig.NeedsWorkingCopies | modules/host/scripts/apply-config.sh:151-187 | without that condition no accepted component is: a failing validation and a broken copy in the rollback leave some file changed |
| ApplyConfig.RollBackRestores | modules/host/scripts/apply-config.sh:151-166 | from any contents of the targets, the rollback restores all files exactly, or stops at a failing copy having touched targets only |
| ApplyConfig.UnguardedDirectory | modules/host/scripts/apply-config.sh:168-179 | when making a directory fails, the script ends without a rollback, and the files are as before exactly if the targets of the rows before it already held their sources |
| ApplyConfig.HalfInstalled | modules/host/scripts/apply-config.sh:168-179 | a component of two files in two directories, the second of which cannot be made, that stays half installed |
| ApplyConfig.DirnameExactly | modules/host/scripts/apply-config.sh:169 | the directory of a file is what stands before the slash in front of its name |
| ApplyConfig.ServiceAfter | modules/host/scripts/apply-config.sh:168-201 | which files the service runs on afterwards, however the commands turn out: those of the newest reload that took effect, whether or not it succeeded, or none if that reload stopped it |
| ApplyConfig.StaleExactly | modules/host/scripts/apply-config.sh:189-201 | a component with something new is not applied although its service runs on the new files if and only if the first reload loaded them, that reload or the verification failed, and no second reload loaded the old files or stopped it; after a rollback this is the only way to be out of step with the disk |
| ApplyConfig.StaleService | modules/host/scripts/restart-fail2ban.sh:12-48 | it happens when the verification and the second reload fail, and when the reload starts the service on the new files and then fails, as Fail2Ban's can; a reload that fails after stopping the service leaves it stopped |
| ApplyConfig.ReloadsLoad | modules/host/scripts/apply-config.sh:189-201 | a component's reloads, failing ones included, give its service the new files, the original ones or a stop, and the last that took effect is in effect at the end |
| ApplyConfig.AcceptedMeans | modules/host/scripts/apply-config.sh:72-130 | rows are accepted exactly when there are some, targets differ, sources exist, every row has a validation, and the reload and verification commands agree from the first that is given on and the last ones are not blank |
| ApplyConfigRun.EarlierKept | modules/host/scripts/apply-config.sh:207-209 | components applied before a failure keep their new files, unless a later one wrote the same target |
| ApplyConfigRun.LaterUntouched | modules/host/scripts/apply-config.sh:207-209 | files of components after the failed one are untouched |
| ApplyConfigRun.FailureLeavesPrefix | modules/host/scripts/apply-config.sh:207-209 | a run ending in a refusal or rollback has the files left by the components applied before it |
| ApplyConfigRun.OrderMeans | modules/host/scripts/apply-config.sh:30-46 | the order names every component asked for that has rows, and no other, each once and in the order of their first rows |
| ApplyConfigRun.RowsOfSplits | modules/host/scripts/apply-config.sh:72-76 | the rows of a component are those that name it, in manifest order; blank and comment rows name none |
| ApplyConfigRun.Host.RollbackComponent | modules/host/scripts/apply-config.sh:151-166 | the indexed loop over targets is the specified rollback |
| ApplyConfigRun.Host.ApplyComponentGroup | modules/host/scripts/apply-config.sh:53-205 | the script's loops over rows, backups, installs and unique validations are the specified component, with the reloads that took effect in order |
| ApplyConfigRun.Host.Run | modules/host/scripts/apply-config.sh:30-46 | the script applies the components in order and stops at the first that is not applied |
| FinalizeLockout.NoLockoutExactly | modules/host/bootstrap/debian-ipv4.sh:515-642 | no way of failing makes a finalisation lock everyone out while sshd and the firewall run if and only if the host is reachable and, when its firewall lets both ports in, three things hold of the files on disk |
| FinalizeLockout.HostsOfEachKind | modules/host/bootstrap/debian-ipv4.sh:515-642 | two hosts that are never locked out, and one for each of the three conditions that is |
| Finalize.NoLockout | modules/host/bootstrap/debian-ipv4.sh:603-642 | on a host meeting those conditions, sshd's listening ports and the firewall's allowed ports meet in every state of a finalisation, through every failure and rollback, except while a reload has left one of the two stopped |
| FinalizeLockout.LockedOutBySsh | modules/host/bootstrap/debian-ipv4.sh:515-542 | if the SSH configuration without the temporary file opens no allowed port, a failing reload locks everyone out though both services run |
| FinalizeLockout.LockedOutByFirewall | modules/host/bootstrap/debian-ipv4.sh:616-632 | if the firewall file on disk does not allow the final port, a failing firewall reload locks everyone out though both services run; the script checks the active rules only |
| FinalizeLockout.LockedOutByTemporary | modules/host/bootstrap/debian-ipv4.sh:530-538 | if the temporary file opens no allowed port, restoring it after a broken rollback locks everyone out |
| Finalize.MarkerMeansVerified | modules/host/bootstrap/debian-ipv4.sh:606-642 | on any host, the marker stands only in the last state of a run, right after the complete verification of that same configuration, and a run that succeeds leaves it; with the repository's components that configuration is the final one |
| FinalizeOutcome.SucceedsOnlyIf | modules/host/bootstrap/debian-ipv4.sh:603-642 | a finalisation succeeds only if every command and check did, and then ends with sshd on 22822 alone, that port open, the temporary configuration gone and the marker set |
| FinalizeOutcome.NothingBeforeTheChecks | modules/host/bootstrap/debian-ipv4.sh:603-626 | nothing but an earlier marker is touched unless all checks have passed and the active firewall lets both ports in |
| FinalizeOutcome.FirewallWaitsForSsh | modules/host/bootstrap/debian-ipv4.sh:627-632 | unless `finalize_ssh` succeeds, neither the firewall nor Fail2Ban is reloaded |
| FinalizeOutcome.TemporaryIsBack | modules/host/bootstrap/debian-ipv4.sh:530-538 | if it fails and the commands that put things back work, the temporary configuration is on disk with its text and loaded |
| Finalize.SshFinalized | modules/host/bootstrap/debian-ipv4.sh:515-542 | `finalize_ssh` keeps both ports allowed in every state, and the host reachable unless a reload stops sshd |
| Finalize.SshSucceeded | modules/host/bootstrap/debian-ipv4.sh:499-528 | `finalize_ssh` succeeds only with sshd on the final port alone and the temporary file gone |
| Finalize.RestSettled | modules/host/bootstrap/debian-ipv4.sh:630-632 | applying the firewall and Fail2Ban, old rules or new, keeps the final port open as long as sshd and the firewall run |
| Finalize.RestoreOpen | modules/host/bootstrap/debian-ipv4.sh:530-538 | putting the temporary configuration back never closes the way in, unless its reload stops sshd |
| FinalizeTool.Bootstrap.FinalizeSsh | modules/host/bootstrap/debian-ipv4.sh:515-542 | the script goes through exactly the specified states |
| FinalizeTool.Bootstrap.FinalizeAll | modules/host/bootstrap/debian-ipv4.sh:603-642 | the whole finalisation goes through exactly the specified states |
| Firewall.OutsidePackets | profiles/discrete-pay/verify.py:32-68 | under any accepted rule list, a packet from outside in a valid state is admitted exactly if it is established, related, ICMP or TCP to 80, 443 or 22822 |
| Firewall.InvalidPackets | profiles/discrete-pay/verify.py:58-65 | a packet in an invalid state passes from outside exactly to a port whose rule precedes the invalid rule, and so only to the three ports |
| Firewall.LoopbackPackets | profiles/discrete-pay/verify.py:53-66 | loopback packets are always admitted |
| Firewall.DropIsLast | profiles/discrete-pay/verify.py:66-68 | in an accepted list the unconditional drop is the last rule and the only one |
| FirewallListing.AcceptedListings | profiles/discrete-pay/verify.py:32-68 | a listing is accepted exactly if it has the three chains with their policies and eight rules that spell, counters aside, the five controls in order and each public port once in any interleaving, the last ending in a bare drop |
| FirewallListing.CountingMeans | profiles/discrete-pay/verify.py:45 | counters may stand anywhere in a rule without changing what it spells |
| FirewallListing.RulesSplit | profiles/discrete-pay/verify.py:42 | the rules of a listing are its rule entries, in order |
| Firewall.ValidateFirewall | profiles/discrete-pay/verify.py:32-68 | the loop growing ports and controls accepts exactly the valid listings |
| Firewall.ValidateSsh | profiles/discrete-pay/verify.py:22-29 | the loop accepts exactly the listings with every key of a policy on one line only, with the policy's value |
| FirewallListing.AcceptedSsh | profiles/discrete-pay/verify.py:11-29 | with the profile's policy, exactly the output with each of twelve lines present and no other line about their keys |
| EnvText.EnvRoundTrip | services/discrete-pay/install.py:84-88 | reading the printed text gives back exactly the original map |
| EnvText.ChainedIsCharwise | services/discrete-pay/install.py:88 | the two chained replacements are one character-by-character escape |
| EnvText.OrderDoesNotMatter | services/discrete-pay/install.py:88 | the text does not depend on the dictionary's insertion order |
| EnvText.EnvTextExactly | services/discrete-pay/install.py:84-88 | a text is printed exactly for the expected fields with non-empty one-line values: a line for each key in ascending order, its value quoted and escaped |
| Text.BeforeMeans | services/discrete-pay/install.py:88 | ascending order is that of the first differing characters, a beginning before what it begins |
| Manifest.RoundTripExactly | docs/benchmarks/discrete-v0.9.5/reproduce/tools/package_public_evidence.py:233-235 | parsing a printed manifest gives its name-to-digest map exactly when there is a file and every name is one non-empty line |
| Manifest.ManifestIs | docs/benchmarks/discrete-v0.9.5/reproduce/tools/package_public_evidence.py:233-235 | a printed manifest has one line for each name in ascending order: digest, two spaces, name |
| Manifest.ParsesExactly | docs/benchmarks/discrete-v0.9.5/reproduce/tools/verify_public_evidence.py:28-37 | lines parse exactly if each is 64 hexadecimal digits, two spaces and a name, with different names, and then to these digests |
| Manifest.BundleVerifies | docs/benchmarks/discrete-v0.9.5/reproduce/tools/package_public_evidence.py:310-340 | for a non-empty set of original files, each name one non-empty line, the packed bundle verifies exactly when both manifests cover the same names and none is a metadata path |
| Manifest.MetadataPaths | docs/benchmarks/discrete-v0.9.5/reproduce/tools/verify_public_evidence.py:16-21 | the paths of the two manifests and of the description |
| Manifest.TamperingFound | docs/benchmarks/discrete-v0.9.5/reproduce/tools/verify_public_evidence.py:92-106 | for a non-empty payload, each name one non-empty line, an archive with the bundle's public manifest verifies exactly when its other manifest names the payload, it has the payload's names, and every content is the payload's or a collision with it: a file added or dropped is always refused |
| Manifest.OnlyThePayloadVerifies | docs/benchmarks/discrete-v0.9.5/reproduce/tools/verify_public_evidence.py:92-106 | for a non-empty payload, each name one non-empty line and no collision among the contents at hand, only the payload itself verifies |
| Manifest.ReadManifest | docs/benchmarks/discrete-v0.9.5/reproduce/tools/verify_public_evidence.py:28-37 | the parsing loop returns the specified map or error |
| Manifest.VerifyBundle | docs/benchmarks/discrete-v0.9.5/reproduce/tools/verify_public_evidence.py:88-106 | the checks and the loop over the payload decide the specified verdict |
| RegistryPrefix.RegistryPrefixes | qualification/discrete-pay/registry-prefix.mjs:4-11 | the i-th digest is that of the full serialisation of the first i entries though each entry is hashed once, and an entry out of place ends the stream there |
| RegistryPrefix.SerializedIs | qualification/discrete-pay/registry-prefix.mjs:1-10 | what is hashed is the list of numbered addresses in brackets, with commas between, in one more pair of brackets |
| Sequence.PausedWhileHeld | qualification/discrete-pay/combined-sequence.py:91-144 | in every crash state of every history, a target the run stopped has its durable paused marker, set only after two positive prerequisite answers |
| SequenceGates.PrerequisiteMeans | qualification/discrete-pay/combined-sequence.py:42-57 | the prerequisite holds exactly after a clean stop, or for a unit that is gone with the audited evidence, any evidence given being exact; it is waited for only while the unit is busy |
| SequenceGates.RunPausesExactly | qualification/discrete-pay/combined-sequence.py:91-116 | a run pauses the stack, and can stop the target, exactly when it is root with its pins, no marker and no child exist, the prerequisite was answered yes while waiting and once more, the GUI is at rest, the installation valid and the target active |
| SequenceGates.PausesRecord | qualification/discrete-pay/combined-sequence.py:115-120 | every paused marker of a run records the digests of the paused installation and of the evidence |
| SequenceGates.PassedOnlyIf | qualification/discrete-pay/combined-sequence.py:116-144 | a run records that it passed only if every command and check of the test succeeded |
| Sequence.RestoreBringsBack | qualification/discrete-pay/combined-sequence.py:80-89 | whatever happened before, one uninterrupted restore on the recorded installation starts a target held down and completes the marker |
| SequenceGates.RestoreActsExactly | qualification/discrete-pay/combined-sequence.py:80-89 | a restore starts the target exactly when the stack is paused, the installer known, the installation the recorded one and verified, and its own commands work; without these checks it does nothing |
| Sequence.CompletedIsFinal | qualification/discrete-pay/combined-sequence.py:80-93 | after a completed restore no later run or restore changes anything |
| Sequence.RunRestores | qualification/discrete-pay/combined-sequence.py:91-144 | an uninterrupted run whose restore commands work never leaves the target down, whatever fails inside it |
| SequenceTool.Supervisor.Restore | qualification/discrete-pay/combined-sequence.py:80-89 | the command takes exactly the specified steps |
| SequenceTool.Supervisor.Run | qualification/discrete-pay/combined-sequence.py:91-144 | the command, with the restore of its `finally`, takes exactly the specified steps |

## Left out

- Upgrade: the text rewriting of unit files, fingerprints, probes and SQLite backups are inputs or single steps; a raised exception ends the command like a crash.
- Monitor: the collector's SSH transport, the Telegram request and its response bounds are the fate of a send; a refused configuration file is not modelled.
- MonitorRestart.StateLength: counts characters; the stored text is ASCII.
- MonitorRuns.AtLeastOnceInOrder: needs a clock that strictly increases from tick to tick, because the notification id is the time.
- MonitorJournal: JSON parsing of a line is given as its result.
- SignFlip, Permutation, Bootstrap: float rounding, and the seeded random bootstraps; means are exact over the reals.
- Bootstrap.PercentileMonotone: quantiles lie in [0, 1] and the data is not empty, as in every caller.
- ApplyConfig: interrupts, a failed copy into the backup directory other than as the end of the script, two names for one file, target paths that end in a slash, and validation or reload commands that write targets themselves; a directory is known to stand by the files in it, and one that is empty is an input; a manifest line is given as its seven fields.
- ApplyConfig.ServiceAfter: a reload that succeeds is taken to have loaded the files on disk, all of them at once.
- FinalizeLockout.NoLockoutExactly: a reload that leaves sshd or the firewall stopped is not counted as a lockout: the repository's are a signal after `sshd -t`, and a transaction. It also takes as given that sshd without a `Port` line listens on 22, and that the repository's components write the files and open the ports they are meant to; package installation and the removal of ufw are steps that may fail.
- Firewall: `==` and `in` are both read as membership, as the checker treats them; the listing is given parsed, and `accept` and `drop` are the only verdicts given a meaning.
- EnvText: the field names of the four roles are a parameter; a reader's treatment of unquoted values and comments is not needed for what is printed. The rest of install.py (endpoint checks, unit templates, file ownership) has no property beyond one branch.
- Manifest: file contents are texts and UTF-8 is the identity; the hash is a parameter that gives 64 hexadecimal digits, and collisions of it are named where they matter. The sanitising of evidence, the archive format and the remaining checks of the verifier are not modelled.
- RegistryPrefix: the JSON form of a string and the hash are parameters.
- Sequence: a failing `save` counts as a crash; the other units are covered by the target that starts them.
- Platform detection, package installation, runbooks, unit templates, native wallet and GUI qualification scripts, CSV reading and report printing.

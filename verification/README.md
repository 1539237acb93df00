# MACO orchestrator: verified core

This project models the parts of the MACO agent orchestrator where state, faults and
interleavings meet, and proves what they guarantee for every input, every run and every
reachable state. `dafny verify dfyconfig.toml` checks all of it. Automatic induction
is switched off on every lemma, so each inductive proof is written out.

## What is modelled

**Stopping a process (`IncarnationToken`, `ProcessTable`, `StopProtocol`).** The kernel is a table
of incarnations that only moves forward: spawn on a free PID, exit, reap. The stopper is a program
counter that makes one system call per step, with the existence and identity probes as separate
steps, so exits and PID reuse can fall between any two of them. Two facts about the kernel are part
of the model: an incarnation holds its PID from spawn to reap, and no two incarnations share a PID,
boot id and start tick.

**The process registry (`AgentRegistry`, `RegistryMachine`).** The registry is a class over its
record list. Around it, any number of concurrent clients launch, register, list, stop and unregister
while the kernel moves and the machine restarts. A commit may be applied, lost, or applied without
the client learning of it. Whether launchers wait for their child's registration is a parameter.

**The artifact writer (`ArtifactPaths`, `ArtifactWriter`, `ArtifactHistory`, `ArtifactResume`,
`ArtifactLives`, `ArtifactCompletion`, `ArtifactRun`).** A class with a manifest, a byte total, scratch reservations and
poisoned appends over a tree of files, directories and leftover temporaries. Every operation takes the
fault it runs into, so a sequence of operations covers every way the file system can fail under it.
The finalization marker is modelled by its size, record by record. A digest stands for the
bytes it was computed from. `ArtifactRun` holds the class and its loops; the other modules hold the
specification and what is proved about whole histories and crashed reopenings. `ArtifactLives` is
about the whole life of a run: processes that go on writing after they hand out a binding, crash,
and are followed by others that reopen what they left from any valid binding and recovery plan.
`ArtifactCompletion` says which unfinished runs any further operations can still finalize.

**Retention (`Retention`, `RetentionLaws`).** The prune loop with its four ceilings, every refusal
gate, dry-run and apply modes and 64-bit counters. Each item is observed twice, at inventory and
again before it is touched; the second observation is an arbitrary function of the item.

**Claims (`Claims`, `ClaimCoordinator`, `ClaimRuns`, `ClaimSnapshots`, `SyncCoordinators`).** Path
normalisation, claim collapsing, the coordinator that hands out exclusive claims and cuts narrower
scopes out of them for subordinate workers, and its saving and loading.

**The agent run (`DiffPaths`, `DiffSpelling`, `DiffPrinter`, `DiffReading`, `AgentRun`).** The
unified-diff path scan; diffs as lists of git lines, header lines, rename and copy headers, hunks and
other lines, each path bare or behind any leading component and quoted or not; which of these lists a
text is; and the fail-stop execution of a proposal in which what a process does may depend on
everything attempted before it. As `git apply` does, a diff drops the leading component of its names
up to its first plain header pair with a bare new name, and takes them as written from there on.

**Portability (`Portability`).** The case-fold collision scan, for an arbitrary folding function.

`Wrappers`, `Text`, `Sequences` and `Ordering` are shared helpers.

## Main results

- A signal through a bound pidfd never reaches a running process other than the recorded one, in any
  interleaving, and success is only reported once that process has stopped (`StopProtocol.StopIsSafe`).
- A registered process that is running keeps its record over every run of every mix of clients
  (`RegistryMachine.RunningStaysRegistered`).
- No two agents may ever write overlapping paths, after any run of the coordinator
  (`ClaimRuns.ClaimsExcludeAlways`), and the same holds of whatever snapshot loads
  (`ClaimSnapshots.LoadedClaimsExclude`).
- The writer's accounting holds through every history of faults and every life of a run
  (`ArtifactWriter.AccountingHolds`, `ArtifactLives.LifeAccounted`), and a log that is only appended
  to splits back into exactly the accepted lines across all its processes (`ArtifactLives.LogSplitsBack`).
- Pruning is idempotent, conserves every byte, and a dry run predicts an apply
  (`RetentionLaws.PruneIsIdempotent`, `PruneConserves`, `DryRunPredicts`).
- From any state, some operations finalize a run exactly when nothing is poisoned, what it has touched
  fits with its report and its directories into one tree within the limits, and the shortest marker of
  such a run fits (`ArtifactCompletion.CompletesIff`).
- What the scan finds of any printed diff is known exactly (`DiffPrinter.DiffRoundTrip`), and so is when
  it finds every path the diff names (`DiffPrinter.AllFoundIff`), also of a text (`DiffReading.TextFoundIff`),
  which tells its items apart (`DiffReading.TextTellsItems`).
- The collision scan is silent exactly when folding is injective (`Portability.SilentIff`); a run is
  fail-stop (`AgentRun.Run`).

## Where a promise needs a condition

- *Raw-PID signals.* Without pidfds a signal can reach another running process
  (`StopProtocol.RawPidMisfires`); each one hits the recorded process exactly when that has not been
  reaped by then (`StopProtocol.RawSignalHitsIff`). With pidfds none can.
- *Registration without a waiting launcher* can displace another running process's record: a run
  ends that way for any two processes that use one PID in turn
  (`RegistryMachine.LateRegistrationDisplaces`). On every run, a registration does not exactly when no
  tracked process but the one its record names runs under the registered PID
  (`RegistryMachine.RegistrationsRetainIff`).
- *Late write failures.* A write that fails after replacing the file and before manifesting it leaves
  other bytes than recorded (`ArtifactHistory.LateFailureBreaks`). Contents match the manifest
  throughout a run exactly when no write fails like that (`ArtifactHistory.IntactThroughoutIff`);
  finalizing and resuming then refuse (`ArtifactHistory.BrokenRunIsRefused`).
- *Private evidence.* Evidence manifested after the binding was taken is in no manifest once the
  process has crashed. Every successful reopening manifests it again, with the disposition its binding
  or plan declares (`ArtifactLives.LateFilesReturn`), so a plan that calls it publishable makes it so
  (`ArtifactLives.LateEvidenceCanBePublished`). A file stays private through every later reopening
  exactly when each of them declares it private (`ArtifactLives.PrivateThroughoutIff`), and then no
  finalization is publishable (`ArtifactLives.PrivateEvidenceIsFinal`). Bindings taken after the
  evidence declare it by themselves (`ArtifactLives.BoundEvidenceIsFinal`).
- *Crashes inside an atomic write* leave a staged temporary that the audit of a reopened tree
  refuses. Reopening after a crash succeeds exactly when no temporary is left
  (`ArtifactResume.ReopenAfterCrashIff`).
- *Dry runs.* The prediction fails exactly for a finalized run that loses its validation while its
  lock is waited for (`RetentionLaws.DryRunPredicts`, `LostValidationMispredicts`).
- *Idempotence* is about unchanged survivors: a run refused because it was being written to can be
  reclaimed once it settles (`RetentionLaws.SettledRunIsReclaimedLater`). `SettledIsReclaimedIff` says
  exactly which settled survivors the next apply reclaims.
- *Paths of a diff.* The scan reads git lines it can split at ` b/` and header pairs outside hunks,
  and takes an `a/` or `b/` off the front. All named paths are found exactly when every path named
  anywhere else is read somewhere (`DiffPrinter.AllFoundIff`), which a diff in git's own style meets
  (`GitDiffRoundTrip`). It fails for a rename header that the git line does not repeat
  (`RenameIsOverlooked`), for plain diffs after their first hunk (`SecondFileIsOverlooked`), and for
  quoted names and other leading components (`UnusualHeaderIsMisread`, `UnsplitGitLineIsSkipped`). A
  header pair with a bare name makes the patch keep the leading components of all that follows, which
  the scan still drops (`BareNameShiftsTheRest`).
- *Text of a diff.* It tells all its items but the two names of a git line without ` b/`
  (`DiffReading.TextTellsItems`), which can be split in two ways (`DiffReading.UnsplitLineIsAmbiguous`).
- *Deep trees.* The writer limits files and depth, the audit also the number of directories. From 130
  files of full depth on, an accepted run can be neither resumed nor finalized
  (`ArtifactCompletion.DeepRunIsStuck`).
- *Many files.* The marker lists every file and is limited to 512 KiB. The writer accepts any tree of up
  to 4096 files, but from 3121 of them on the run can never be finalized
  (`ArtifactCompletion.ManyFilesAreStuck`). A run can be finalized without changing a record exactly when
  the marker with all of them fits (`ArtifactCompletion.CompletesKeepingIff`).
- *Saved claims.* A worker with an active scope may still claim paths of its own, and the state that
  leaves does not load again. Saving and loading round-trips exactly when no such worker holds a
  claim (`ClaimSnapshots.RoundTripIff`, `WorkerMayClaim`).

## Model

| member | source | states |
|---|---|---|
| `IncarnationToken.DecimalRoundTrip` | src/agent_lifecycle.rs:1205-1223 | a printed number is digits and parses back to itself |
| `IncarnationToken.PrintedIsSupported` | src/agent_lifecycle.rs:1205-1238 | every PID, canonical boot id and u64 tick count prints to an accepted token |
| `IncarnationToken.SupportedIsPrinted` | src/agent_lifecycle.rs:1205-1238 | every accepted token is the print of exactly one such triple |
| `IncarnationToken.PrintInjective` | src/agent_lifecycle.rs:1320-1324 | equal tokens come from equal triples |
| `ProcessTable.StepEvolves` | src/agent_lifecycle.rs:1257-1270 | spawn, exit and reap keep the table well formed and lives only move forward |
| `ProcessTable.HolderPrints` | src/agent_lifecycle.rs:1282-1325 | of the holders of a PID only the recorded incarnation prints its token, and any other holder means it is reaped |
| `ProcessTable.VerdictSound` | src/agent_lifecycle.rs:1175-1203 | Live, Gone and Reused each say what is true of the recorded incarnation, whatever happened between the probes |
| `StopProtocol.VerdictKeepsAim` | src/agent_lifecycle.rs:1439-1503 | a sound verdict moves the program on without its target becoming another running process |
| `StopProtocol.AdvanceKeepsInv` | src/agent_lifecycle.rs:1392-1521 | every step of binding, polling and signalling keeps the invariant on the target |
| `StopProtocol.KernelKeepsInv` | src/agent_lifecycle.rs:1392-1407 | exits, reaping and reuse around the stopper keep the invariant |
| `StopProtocol.DeliverySafe` | src/agent_lifecycle.rs:1410-1436 | a delivery through a bound pidfd reaches the recorded incarnation or one that is not running |
| `StopProtocol.SignalsEscalate` | src/agent_lifecycle.rs:1439-1503 | what has been delivered at each point is nothing, a TERM, or a TERM and then a KILL |
| `StopProtocol.StopIsSafe` | src/agent_lifecycle.rs:1392-1521 | in every interleaving bound signals miss other running processes, done means stopped, and the outcome tells what was sent |
| `StopProtocol.RawPidMisfires` | src/agent_lifecycle.rs:1410-1436 | for any recorded process and any later holder of its PID there is a run in which a raw-PID TERM hits the latter while it runs |
| `StopProtocol.RawDeliveryIff` | src/agent_lifecycle.rs:1410-1436 | a raw-PID delivery reaches the recorded incarnation iff that has not been reaped |
| `StopProtocol.RawSignalHitsIff` | src/agent_lifecycle.rs:1392-1521 | the same for every raw-PID signal of every interleaving |
| `AgentRegistry.Validate` | src/agent_lifecycle.rs:733-757 | the validation loop accepts exactly valid registry states |
| `AgentRegistry.RegisterKeepsOthers` | src/agent_lifecycle.rs:779-826 | registering keeps exactly the records of other PIDs, adds the new one, and stays valid and sorted |
| `AgentRegistry.PruneKeepsLive` | src/agent_lifecycle.rs:913-946 | a listing pass succeeds iff no verdict is uncertain and keeps exactly the live records |
| `AgentRegistry.PruneValid` | src/agent_lifecycle.rs:913-946 | pruning keeps the registry valid |
| `AgentRegistry.RemoveValid` | src/agent_lifecycle.rs:1070-1077 | removing an identity keeps the registry valid |
| `AgentRegistry.StopRemovesStopped` | src/agent_lifecycle.rs:1030-1068 | a stop batch removes exactly the records it stopped and whose removal was committed |
| `AgentRegistry.ReportAccountsForAll` | src/agent_lifecycle.rs:1030-1068 | every record of a batch is reported once, as stopped or failed |
| `AgentRegistry.Registry.Register` | src/agent_lifecycle.rs:779-826 | the new record list is the specified one, and validity is kept |
| `AgentRegistry.Registry.List` | src/agent_lifecycle.rs:913-946 | returns the matching live records; a malformed run id or a failed pass leaves the list as it was |
| `AgentRegistry.Registry.RemoveIdentity` | src/agent_lifecycle.rs:1070-1099 | removes exactly one identity when the commit is applied |
| `AgentRegistry.Registry.StopRecords` | src/agent_lifecycle.rs:1020-1068 | the stop loop's report and remaining list are the specified ones |
| `AgentRegistry.Registry.Stop` | src/agent_lifecycle.rs:948-1018 | a malformed or ambiguous request changes nothing; otherwise the matches are stopped |
| `RegistryMachine.ProbeSound` | src/agent_lifecycle.rs:1175-1203 | a verdict other than Live is only given for a record whose process has stopped |
| `RegistryMachine.RegisterRetains` | src/agent_lifecycle.rs:779-826 | registering a child that still holds its PID displaces no running process |
| `RegistryMachine.PruneRetains` | src/agent_lifecycle.rs:913-946 | listing drops no running process |
| `RegistryMachine.RemoveRetains` | src/agent_lifecycle.rs:1070-1077 | removal after a stop drops no running process |
| `RegistryMachine.NextKeeps` | src/agent_lifecycle.rs:779-1131 | every event of every client, the kernel or a restart keeps the system invariant |
| `RegistryMachine.RunningStaysRegistered` | src/agent_lifecycle.rs:779-1099 | over every run a registered, running, never unregistered process has its record in the file |
| `RegistryMachine.RegistrationRun` | src/agent_lifecycle.rs:779-826 | any live process can be launched, identified and registered by a run of the machine |
| `RegistryMachine.ExclusiveStopHitsOne` | src/agent_lifecycle.rs:948-1018 | all running processes an exclusive stop's bound signals reached are one incarnation that matches the request |
| `RegistryMachine.AmbiguousStopIsInert` | src/agent_lifecycle.rs:1121-1131 | while probing nothing is sent or written, and the stop gives up exactly when a second match may be live |
| `RegistryMachine.RegisterRetainsIff` | src/agent_lifecycle.rs:779-826 | whether launchers wait or not, registration keeps every tracked running process listed iff none but the one the record names runs under that PID |
| `RegistryMachine.RegistrationsRetainIff` | src/agent_lifecycle.rs:779-826 | the same at every registration of every run, also when a launcher read the identity of a process that had replaced its child |
| `RegistryMachine.LateRegistrationDisplaces` | src/agent_lifecycle.rs:779-826 | without waiting launchers a run ends with a tracked running process unlisted, for any two processes that use one PID in turn |
| `ArtifactPaths.ValidatePath` | src/artifacts.rs:3454-3502 | accepts exactly relative, unreserved, UTF-8 paths within both limits, and returns their names |
| `ArtifactPaths.ValidateLoop` | src/artifacts.rs:3454-3502 | the component loop computes that function |
| `ArtifactPaths.ValidIsCanonical` | src/artifacts.rs:3454-3502 | a normalised path validates to itself exactly when it is valid |
| `ArtifactWriter.WriteAccounted` | src/artifacts.rs:1119-1207 | a write keeps totals, limits and scratch separation under any fault |
| `ArtifactWriter.WriteOutcome` | src/artifacts.rs:1119-1207 | a write ends unchanged but for directories it made, with a temporary, replaced but unmanifested, or written with its bytes exchanged in the total |
| `ArtifactWriter.ReconcileCompletes` | src/artifacts.rs:1422-1532 | recovery of any torn prefix ends with the whole append on disk and in the manifest |
| `ArtifactWriter.ReconcileFails` | src/artifacts.rs:1422-1532 | a failed recovery leaves the old bytes and a prefix of the append |
| `ArtifactWriter.ReconcileOutcome` | src/artifacts.rs:1422-1532 | both of these from any torn file, without naming how much was torn off |
| `ArtifactWriter.RecoveredEqualsSucceeded` | src/artifacts.rs:1235-1414 | a recovered append leaves the same writer and disk as a successful one |
| `ArtifactWriter.AppendOutcome` | src/artifacts.rs:1235-1414 | an append ends unchanged but for directories it made, with an empty new file, poisoned with a prefix, or appended |
| `ArtifactWriter.AppendAccounted` | src/artifacts.rs:1235-1414 | an append keeps the accounting under any fault |
| `ArtifactWriter.ScratchAccounted` | src/artifacts.rs:978-1029 | reserving a scratch keeps its limit and keeps artifacts out of it |
| `ArtifactWriter.DiscardAccounted` | src/artifacts.rs:1077-1098 | discarding a scratch keeps the accounting |
| `ArtifactWriter.AccountingHolds` | src/artifacts.rs:978-1532 | after every sequence of operations and faults the total is the sum of the manifest, all limits hold, and no artifact lies under a scratch |
| `ArtifactHistory.ApplyKeepsIntactIff` | src/artifacts.rs:1119-1207 | an operation keeps recorded contents on disk iff it is not a write that fails between replacing and manifesting |
| `ArtifactHistory.IntactThroughoutIff` | src/artifacts.rs:1119-1414 | the same over whole runs |
| `ArtifactHistory.LateFailureBreaks` | src/artifacts.rs:1119-1207 | two writes to any path, the second failing late with other bytes, leave other contents than recorded |
| `ArtifactHistory.BrokenRunIsRefused` | src/artifacts.rs:1544-1593 | a run without its recorded contents on disk is neither resumed nor finalized |
| `ArtifactHistory.AppendHoldsLines` | src/artifacts.rs:1224-1414 | a JSON-line append adds its line to manifest and file together or not at all |
| `ArtifactHistory.AcceptedIff` | src/artifacts.rs:1235-1414 | a line is accepted iff its append passes every check and arrives whole or is recovered; Ok means accepted, refused means unchanged |
| `ArtifactHistory.JsonLinesSplitBack` | src/artifacts.rs:1224-1414 | from any state that holds lines, JSON-line appends leave a file that splits into those lines and then exactly the accepted ones, through any faults |
| `ArtifactHistory.PoisonIsFinal` | src/artifacts.rs:1549-1554 | once a path is poisoned no later state finalizes or yields a binding |
| `ArtifactHistory.DispositionStays` | src/artifacts.rs:1119-1207 | a manifested file stays manifested with its first disposition |
| `ArtifactResume.ValidateBinding` | src/artifacts.rs:3648-3684 | the validation loop accepts exactly well-formed bindings |
| `ArtifactResume.LiveBindingIsValid` | src/artifacts.rs:750-767 | every binding a live writer produces passes validation |
| `ArtifactResume.RecoveryAccountingAgrees` | src/artifacts.rs:859-879 | the inconsistent-accounting check of a reopening never fires |
| `ArtifactResume.RecoverShape` | src/artifacts.rs:859-876 | after any number of successful recovery writes exactly those files are added to manifest, disk and total |
| `ArtifactResume.ReopenAfterCrashIff` | src/artifacts.rs:776-884 | after a crash behind any number of recovery writes, with any of their directories made, the same reopening succeeds with the same result, iff no temporary is left |
| `ArtifactResume.ReopenReproduces` | src/artifacts.rs:750-884 | reopening a live writer's own binding gives that writer back |
| `ArtifactResume.ReopenAccounted` | src/artifacts.rs:776-884 | a reopened writer's accounting is in order |
| `ArtifactLives.LifeAccounted` | src/artifacts.rs:750-884 | accounting holds after any operations of any process of any life |
| `ArtifactLives.CrashedReopeningExtends` | src/artifacts.rs:859-876 | a reopening that crashes after any of its recovery writes only adds files |
| `ArtifactLives.ReopenedAsDeclared` | src/artifacts.rs:828-876 | a successful reopening manifests every file of the tree, with exactly the disposition its binding or plan declares |
| `ArtifactLives.LateFilesReturn` | src/artifacts.rs:776-884 | files manifested before or after the binding was taken are manifested again by the next process, as declared |
| `ArtifactLives.PrivateThroughoutIff` | src/artifacts.rs:828-876 | a manifested file is private after every later reopening iff each of them declares it private |
| `ArtifactLives.PrivateEvidenceIsFinal` | src/artifacts.rs:1587-1593 | once private evidence is manifested in any process, no later finalization is publishable as long as every reopening since declares it private |
| `ArtifactLives.BoundEvidenceIsFinal` | src/artifacts.rs:750-884 | no declaration is needed when every process resumes from a binding of the one before it, the first taken after the evidence |
| `ArtifactLives.LateEvidenceCanBePublished` | src/artifacts.rs:828-876 | at any path, private evidence written after the binding is publishable after a reopening whose plan says so, and finalized so iff the marker fits |
| `ArtifactLives.LogReturns` | src/artifacts.rs:776-884 | a log left unpoisoned holds the same lines in the process that reopens it |
| `ArtifactLives.LogSplitsBack` | src/artifacts.rs:1224-1414 | over a whole life a log that is only appended to and never left poisoned splits into every line accepted by any of its processes, in order |
| `ArtifactHistory.OneFileEntries` | src/artifacts/part2.rs:258-267 | a lone file makes one audited entry for each component of its path |
| `ArtifactCompletion.SoundAfter` | src/artifacts.rs:978-1532 | every operation under any fault keeps the run directory a proper tree and never frees a path it touched or a directory it made |
| `ArtifactCompletion.ReopenedSound` | src/artifacts.rs:776-884 | reopening a proper directory tree gives such a run again |
| `ArtifactCompletion.SmallerMarker` | src/artifacts.rs:1594-1618 | a manifest that lies below another record by record, and is publishable if that is, has a marker that fits if that does |
| `ArtifactCompletion.CompleteWith` | src/artifacts.rs:1544-1636 | a run that meets all of the condition below but the marker's can be finalized with any manifest of its paths that enlarges no record, keeps the dispositions and has a marker that fits |
| `ArtifactCompletion.CompletesIff` | src/artifacts.rs:1544-1636 | some operations lead to a finalization iff nothing is poisoned, the touched paths with the report and the directories form a tree within the file limit and the audit's entry budget, and the marker of that tree with every file emptied fits |
| `ArtifactCompletion.CompletesKeepingIff` | src/artifacts.rs:1544-1636 | some do so with every record unchanged iff the marker with those records fits |
| `ArtifactCompletion.TreeCanBeWritten` | src/artifacts.rs:1119-1207 | any tree of valid paths within the file limit is accepted from the start |
| `ArtifactCompletion.DeepRunIsStuck` | src/artifacts/part2.rs:258-267 | from 130 files of full depth in their own directories on, an accepted run is never at a boundary and never finalized, whatever follows |
| `ArtifactCompletion.ManyFilesAreStuck` | src/artifacts.rs:1594-1618 | any tree of 3121 to 4096 files is accepted and never finalized, whatever follows, because no marker of it fits |
| `ArtifactCompletion.FlatTree` | src/artifacts.rs:3454-3502 | there is such a tree of every size up to the file limit, without directories |
| `ArtifactRun.ArtifactRunWriter.Reserve` | src/artifacts.rs:681-748 | a reserved run starts empty and accounted |
| `ArtifactRun.ArtifactRunWriter.WriteBytes` | src/artifacts.rs:1119-1207 | the method's state and result are the specified ones, and accounting is kept |
| `ArtifactRun.ArtifactRunWriter.AppendBytes` | src/artifacts.rs:1235-1414 | the same for appends, torn or not |
| `ArtifactRun.ArtifactRunWriter.ReconcileFailedAppend` | src/artifacts.rs:1422-1532 | from any torn file it leaves the whole append on disk and in the manifest, or reports failure with the old bytes and a prefix |
| `ArtifactRun.ArtifactRunWriter.CreateScratchDir` | src/artifacts.rs:978-1029 | reserves exactly one scratch or changes nothing |
| `ArtifactRun.ArtifactRunWriter.DiscardTrackedScratch` | src/artifacts.rs:1077-1098 | forgets exactly the discarded scratch |
| `ArtifactRun.ArtifactRunWriter.DiscardInvocationScratches` | src/artifacts.rs:1052-1075 | succeeds iff the run is a supervisor's and every invocation scratch can be removed; then none is left and their number is returned; others are never touched |
| `ArtifactRun.ArtifactRunWriter.ResumeBinding` | src/artifacts.rs:750-767 | yields a valid binding of the whole manifest exactly at a boundary, which includes the audit's entry budget |
| `ArtifactRun.ArtifactRunWriter.FinalizeRun` | src/artifacts.rs:1544-1636 | finalizes only an exact, unpoisoned directory within the audit's budget with its final report and a marker within its limit, and publishably only without private evidence |
| `ArtifactRun.PlanFor` | src/artifacts.rs:828-834 | recovery paths are all validated or the whole plan is refused |
| `ArtifactRun.Reopen` | src/artifacts.rs:776-884 | from raw recovery files: succeeds iff the run is the bound one, unfinalized, all paths validate and the specified reopening succeeds, and gives its accounted writer |
| `Retention.ScanTotals` | src/artifacts.rs:1956-1975 | the three scans fail exactly when a total does not fit, else give the sums |
| `Retention.PruneLoop` | src/artifacts.rs:1989-2412 | the loop's entries are the pointwise outcomes and its counters their totals; it stops exactly when an item stops it |
| `Retention.Prune` | src/artifacts.rs:1956-2446 | fails in exactly the listed cases and otherwise reports unbounded totals |
| `RetentionLaws.PruneArtifacts` | src/artifacts.rs:1929-2452 | prunes the listing newest first, with an entry for every listed run |
| `RetentionLaws.CeilingsSelectSuffix` | src/artifacts.rs:1991-2013 | count, age and byte ceilings together select a suffix of the newest-first order |
| `RetentionLaws.NoOlderItemOutlives` | src/artifacts.rs:1991-2025 | no finalized run leaves Keep while an older item is Keep |
| `RetentionLaws.RetainedWithinCeilings` | src/artifacts.rs:2415-2446 | after an apply, what is kept by choice is within the count and byte ceilings |
| `RetentionLaws.PruneConserves` | src/artifacts.rs:2415-2446 | one entry per item, and scanned counts and bytes are exactly kept, refused, reclaimed and announced |
| `RetentionLaws.DeletesIff` | src/artifacts.rs:2028-2410 | an apply reclaims an item exactly when it is selected, every safety condition holds on both looks and removal works |
| `RetentionLaws.DryRunCompletes` | src/artifacts.rs:1941-1953 | a dry run completes whenever the apply would |
| `RetentionLaws.DryRunPredicts` | src/artifacts.rs:2265-2419 | a dry run announces every entry of the apply, the number refused and the number kept, each iff no run loses validation in between |
| `RetentionLaws.DryRunTotals` | src/artifacts.rs:2415-2446 | the byte totals of dry run and apply differ by exactly the bytes announced and then refused, which are none when no run loses validation |
| `RetentionLaws.LostValidationMispredicts` | src/artifacts.rs:2324-2403 | any single run that loses validation is announced as a deletion and then refused |
| `RetentionLaws.ValidationCanBeLost` | src/artifacts.rs:2324-2403 | such a run exists for every id and inventory |
| `RetentionLaws.ApplyStopsIff` | src/artifacts.rs:2281-2403 | after a completed dry run the apply stops iff an announced deletion cannot be carried out |
| `RetentionLaws.SecondApplyDeletesNothing` | src/artifacts.rs:1986-2412 | every survivor of an apply survives the next |
| `RetentionLaws.RelistedInOrder` | src/artifacts.rs:2511-2528 | however survivors are listed again, sorting restores their order |
| `RetentionLaws.PruneIsIdempotent` | src/artifacts.rs:1929-2528 | a second apply over unchanged survivors completes and deletes nothing |
| `RetentionLaws.SettledRunIsReclaimedLater` | src/artifacts.rs:2228-2264 | a run refused as changing can be reclaimed by the next apply |
| `RetentionLaws.SettledIsReclaimedIff` | src/artifacts.rs:2028-2410 | a survivor that settled into what its second look saw is reclaimed next time iff it is now a selected finalized run, or idled in a state the policy reclaims |
| `RetentionLaws.ChangedRunIsReclaimedIff` | src/artifacts.rs:2228-2264 | a run refused as changing is reclaimed next time iff its last activity is past the grace period |
| `RetentionLaws.LostRunIsReclaimedIff` | src/artifacts.rs:2324-2345 | a finalized run refused for losing its finalization is relisted as unfinalized and reclaimed next time iff it idled and a marker that is left may be overruled |
| `Claims.NormalizeLoop` | src/sync.rs:497-527 | the component loop computes the normalisation |
| `Claims.ResolveIff` | src/sync.rs:497-527 | a path resolves iff it is relative and never climbs above the root, and ends at its depth |
| `Claims.ResolveJoins` | src/sync.rs:497-527 | resolving a prefix first does not change where the whole path leads |
| `Claims.Collapse` | src/agent.rs:772-782 | the collapsing loop yields exactly the paths no other path covers |
| `Claims.CollapsedMeaning` | src/agent.rs:772-782 | the result is an antichain from the input that covers the same paths |
| `Claims.RetainDropsNothing` | src/agent.rs:778 | in sorted order the retain step never removes anything |
| `Claims.NormalizeClaims` | src/agent.rs:761-770 | the whole claim is normalised, ordered and collapsed as specified |
| `Claims.ClaimMeaning` | src/sync.rs:480-495 | a claim is accepted iff it names paths that all normalise, and covers exactly what was asked for |
| `Claims.CanonicalIff` | src/sync.rs:480-495 | exactly the canonical lists are left as they are |
| `ClaimCoordinator.ValidAgentIsNormal` | src/sync.rs:462-478 | an agent id normalises to itself iff it is valid |
| `ClaimCoordinator.CoveringChildIsAlone` | src/sync.rs:366-386 | a scope that covers a path is the only one that touches it |
| `ClaimCoordinator.HolderIsAlone` | src/sync.rs:542-585 | a path lies under at most one claim |
| `ClaimRuns.ClaimKeeps` | src/sync.rs:264-285 | claiming keeps all claims exclusive |
| `ClaimRuns.SubordinateKeeps` | src/sync.rs:217-258 | cutting a scope keeps it inside a live parent and apart from every other scope |
| `ClaimRuns.ReleaseKeeps` | src/sync.rs:287-302 | releasing never leaves a scope without its parent |
| `ClaimRuns.ReleaseAgentKeeps` | src/sync.rs:304-344 | the same for releasing all of an agent's claims |
| `ClaimRuns.WritersExclude` | src/sync.rs:366-386 | agents that may write overlapping paths are the same agent |
| `ClaimRuns.ClaimsExcludeAlways` | src/sync.rs:217-386 | the same after any run of claims, scopes and releases |
| `ClaimRuns.OwnerMayWriteIff` | src/sync.rs:346-386 | an agent may write a path iff it owns it and no scope lies strictly inside it |
| `ClaimRuns.ClaimGrantsWriting` | src/sync.rs:264-285 | a granted claim lets its agent write everything it covers |
| `ClaimRuns.ScopeGrantsWriting` | src/sync.rs:217-258 | a granted scope lets its worker write everything it covers |
| `ClaimRuns.ReleasedPathsAreFree` | src/sync.rs:287-302 | nobody may write what a released claim covered |
| `ClaimRuns.ReleasedScopeReturns` | src/sync.rs:287-302 | a released scope falls back to its parent's agent |
| `ClaimRuns.ReservationIsSpent` | src/sync.rs:231-238 | a granted reservation is never granted again, whatever is released |
| `ClaimRuns.TokensAreFresh` | src/sync.rs:217-285 | a granted token, of a claim or a scope, is below every later one of either kind |
| `ClaimRuns.ClaimsPersist` | src/sync.rs:264-344 | a claimed path stays claimed until its own token or agent is released |
| `ClaimSnapshots.LoadedClaimsExclude` | src/sync.rs:129-215 | any snapshot that loads gives exclusive claims, whoever wrote it |
| `ClaimSnapshots.RoundTripIff` | src/sync.rs:129-215 | a saved coordinator loads back unchanged iff no worker with an active scope holds a claim, and otherwise does not load |
| `ClaimSnapshots.ClaimingWorkerBlocksLoading` | src/sync.rs:264-285 | when such a worker claims, the saved state does not load |
| `ClaimSnapshots.WorkerMayClaim` | src/sync.rs:264-285 | three operations from an empty coordinator reach such a state |
| `SyncCoordinators.SyncCoordinator.ClaimPathsFor` | src/sync.rs:264-285 | the new state and result are the specified ones, refused claims using up their token |
| `SyncCoordinators.SyncCoordinator.ClaimSubordinatePaths` | src/sync.rs:217-258 | the new state and result are the specified ones |
| `SyncCoordinators.SyncCoordinator.Release` | src/sync.rs:287-302 | the new state and released claim are the specified ones |
| `SyncCoordinators.SyncCoordinator.ReleaseByAgent` | src/sync.rs:304-344 | drops exactly that agent's claims and scopes and returns them in token order, or drops nothing |
| `SyncCoordinators.SyncCoordinator.MayWrite` | src/sync.rs:366-386 | a yes is a no for every other agent on every overlapping path |
| `SyncCoordinators.SyncCoordinator.ToSnapshot` | src/sync.rs:393-415 | lists every claim and scope once, and says when it will load back to the same state |
| `SyncCoordinators.InsertClaim` | src/sync.rs:555-581 | the conflict search refuses exactly requests that meet a claimed path; otherwise the insertion loop adds every path |
| `SyncCoordinators.GroupClaims` | src/sync.rs:595-610 | the grouping loop gives each token exactly its claim |
| `SyncCoordinators.FromSnapshot` | src/sync.rs:129-215 | the loading loops accept exactly the specified snapshots and give a valid coordinator |
| `DiffPaths.ScanLines` | src/agent.rs:893-929 | the scanning loop finds exactly the specified paths, or the first bad one |
| `DiffPaths.ParseUnifiedDiffPaths` | src/agent.rs:893-929 | returns the named paths in order without repeats, or an error for a bad path or none |
| `DiffPaths.HunkBodyIsInert` | src/agent.rs:906-923 | inside a hunk no line but a new file section adds a path |
| `DiffPaths.ValidatePatch` | src/agent.rs:864-891 | accepts exactly diffs that parse, name the declared path and stay inside the claims |
| `DiffPaths.CollapsedClaimsAcceptTheSame` | src/agent.rs:772-891 | collapsing claims never changes which patches are accepted |
| `DiffSpelling.ReadRightIff` | src/agent.rs:955-965 | a spelled path is read as what it means iff it is unquoted and bare, behind `a/` or `b/` where the patch drops that, or behind another component where it does not |
| `DiffSpelling.SpelledReads` | src/agent.rs:955-965 | what every spelling of a path is read as |
| `DiffSpelling.GitNamesRead` | src/agent.rs:931-944 | both names of a git line are read iff the new one is unquoted behind `b/`, and otherwise neither |
| `DiffSpelling.HeaderReads` | src/agent.rs:946-965 | a header line is read as its spelled path, and /dev/null as none |
| `DiffPrinter.ScanItem` | src/agent.rs:893-929 | each printed item contributes exactly its reads and opens or closes a hunk |
| `DiffPrinter.DiffRoundTrip` | src/agent.rs:893-969 | scanning a printed diff finds exactly what its items let it read |
| `DiffPrinter.OverlookedIff` | src/agent.rs:893-969 | an item's paths are all read right iff it is a clear git line, a clear header pair outside a hunk, or names none |
| `DiffPrinter.AllFoundIff` | src/agent.rs:893-929 | all named paths are found iff every one overlooked where it is named is read somewhere else |
| `DiffPrinter.GitDiffRoundTrip` | src/agent.rs:893-969 | of a diff whose lines all repeat clear git lines exactly the named paths are found, renames and copies included |
| `DiffPrinter.PrintedPatchAcceptedIff` | src/agent.rs:864-891 | a printed patch is accepted iff what it lets the scan read includes the declared path and is claimed |
| `DiffPrinter.RenameIsOverlooked` | src/agent.rs:864-929 | for any two paths, a rename that only its header names is accepted under a claim on the old name; one the git line repeats is found |
| `DiffPrinter.SecondFileIsOverlooked` | src/agent.rs:864-929 | for any two paths, a plain diff of both with a hunk between is accepted under a claim on the first |
| `DiffPrinter.UnusualHeaderIsMisread` | src/agent.rs:946-965 | a header pair with any other spelling names one path and is read as another |
| `DiffPrinter.UnsplitGitLineIsSkipped` | src/agent.rs:931-944 | a git line whose new name is not plainly behind `b/` names two paths and is read as none |
| `DiffPrinter.BareNameShiftsTheRest` | src/agent.rs:864-969 | for any name and path, a plain header pair of the bare name lets git's own line for the path name it behind `a/` and `b/`, while a claim on the name and the path is enough |
| `DiffReading.SpellTells` | src/agent.rs:955-965 | a spelling is told by its text |
| `DiffReading.ItemTells` | src/agent.rs:893-944 | the lines that start with an item's tell that item, where hunks are as long as their ranges say |
| `DiffReading.TextTellsItems` | src/agent.rs:893-944 | two readings of one text are the same item by item, but for git lines that do not split |
| `DiffReading.OneReading` | src/agent.rs:893-944 | a text whose git lines split has one reading |
| `DiffReading.TextFoundIff` | src/agent.rs:893-969 | all paths a text names are found iff every one overlooked in any of its readings is read somewhere else |
| `DiffReading.UnsplitLineIsAmbiguous` | src/agent.rs:931-944 | a git line without ` b/` with two readings that name different paths |
| `AgentRun.FailureCarriesError` | src/agent.rs:784-862 | a report has an error exactly when it is a failure |
| `AgentRun.ApplyPatch` | src/agent.rs:784-862 | a patch reaches its process exactly when its paths are allowed |
| `AgentRun.RunCommand` | src/agent.rs:1033-1149 | a command reaches its process exactly when its working directory is allowed |
| `AgentRun.RunStage` | src/agent.rs:444-460 | a stage's loop stops after its first failure |
| `AgentRun.RunStages` | src/agent.rs:444-545 | patches, changing commands, provider checks and caller checks run as one fail-stop plan |
| `AgentRun.Run` | src/agent.rs:430-595 | attempts are a prefix of the plan with only the last possibly failing; success iff all of it passed, nothing was blocked and nothing left the claims |
| `AgentRun.LaunchedPatchesAreClaimed` | src/agent.rs:784-862 | the scan of a patch that was launched finds only claimed paths |
| `AgentRun.LaunchedDiffsAreClaimedIff` | src/agent.rs:784-929 | all the scan reads of a launched printed patch is claimed, and all it names iff what the scan overlooks in it is |
| `AgentRun.LaunchedTextIsClaimedIff` | src/agent.rs:784-929 | all that the text of a launched patch names is claimed iff what the scan overlooks in any reading of it is |
| `AgentRun.FailureIsLast` | src/agent.rs:444-545 | a failed attempt is the last one and carries an error |
| `Portability.AddComponents` | scripts/check_repository_portability.py:98-104 | the inner loop enters every component and prefix of a path |
| `Portability.Fill` | scripts/check_repository_portability.py:95-104 | the dictionaries hold exactly the nodes, prefixes and files of the paths |
| `Portability.ComponentCollisions` | scripts/check_repository_portability.py:86-144 | the scan reports exactly the collisions there are, and none iff folding is safe |
| `Portability.SilentIff` | scripts/check_repository_portability.py:86-144 | no collision iff folding is injective on all path prefixes and no folded file is another's directory |

## Left out

- AgentRegistry.Validate: the registry's version, its repository and the role, parent, argv and executor fields of a record are not modelled, so their checks are not either.
- AgentRegistry.Registry.Register: takes a record with an identity already read; the checks of launch metadata, repository and argv are left out with those fields.
- ArtifactResume.ValidateBinding: the producer, evidence, run id, revision and digest form of a binding are not modelled.
- ArtifactRun.ArtifactRunWriter.FinalizeRun: the marker is modelled by its size and by what it says of files and publication; all of it but the records and two flags is a length, `head`. Writing it is not modelled, and of the audit behind it only the larger entry count is.
- ArtifactRun.Reopen: repository, run id, directory, lock and writer evidence are one flag, `sameRun`.
- Cryptography: digests stand for the bytes they cover, and HMAC authentication of markers, state files and resume bindings is not modelled.
- File identities, directory fsync, hard links and lock files appear only as the fault or observation they cause.
- A character of a file name or a file stands for one byte; UTF-8 decoding is not modelled beyond names that are not UTF-8.
- Launch authority, inspection and reserved executors of the registry: case splits over role policies defined elsewhere.
- Wall-clock bounds of the polling loops: a deadline may pass at any poll.
- The retention inventory walk: an item's size, activity and first unsafe entry are inputs, and I/O errors of the second look are one failure each.
- Report fields of a prune that echo the policy, and the wording of messages throughout.
- The conflicting path and its owner in a refused claim, and the order of claims in a snapshot.
- ClaimSnapshots.Load: every refusal of a snapshot is one failure, without its cause.
- Names in a diff with escapes inside quotes, white space at their ends or a second side in them, and time stamps behind header names.
- Whether a patch applies: its lines name paths also where `git apply` refuses it, and binary patches are other lines.
- Collecting and previewing the merge after a run: the paths it reports outside the claims are an input of `Run`.
- The per-path checks of the portability scan (length, characters, device names), the order of its violations and repeats among them.
- `src/checkpoint_wire.rs`, build identity, containment probes and the UI: field copying and thin wrappers that would only add easy members.

# NASty: verified models of the engine's protocols and of its recovery tooling

NASty is a NAS appliance.  Its Rust engine runs backups, deploys container apps and
configures the Caddy web server; a Python tool stages recovery archives.  This project models
the parts of that code whose correctness is about whole runs or unbounded inputs, and proves
properties of the models in Dafny 4.11.

`dafny verify dfyconfig.toml` checks the whole project.

## How it is organised

| files | subject |
|---|---|
| `JobRegistry`, `JobProtocol` | backup jobs: the registry's operations, and the interleaving of request handlers, workers and monitors |
| `ComposeTransaction`, `ComposeTransactionLimits`, `ComposeInstall` | compose deployments: the write-ahead marker under crashes and power loss, what its guarantees rest on, and the clean-up of a failed install |
| `CronWeekday`, `Cron`, `Scheduler` | crontab expressions (crontab, INPUT FILES section, POSIX.1-2017) and the polling scheduler |
| `ProfileStore` | backup profiles in memory and in their state file |
| `RegistryCredentials`, `RegistryMarkers` | registry credentials, the app manifests that refer to them, and the pending deployments that will |
| `AppdataRelocation` | moving application data while Apps may be disabled and the engine may crash |
| `Cidr` | address containment and network specifications |
| `ComposeDuration`, `PullPolicy` | Compose durations, pull policies and the image pull plan |
| `CaddyRoutes` | Caddy routes: building, listing, reconciling |
| `RecoveryTree`, `TarHeader`, `RecoveryTar`, `RecoverySession`, `TarEncoding`, `TarRoundTrip` | the restricted tar extractor, the tree traversal, the staging session, and the round trip through the ustar format |
| `Base`, `Text`, `Arith` | shared types, string functions and arithmetic facts |

Concurrent and crash-prone code is a state machine: a `Step` is one critical section or one
system call, `Run` is any finite sequence of enabled steps, and results quantify over every
run and every position in it.  Code that updates objects or arrays in place is a class or a
method with loops.  Everything the environment decides (system calls that fail, Docker, HTTP
replies, clocks, identifiers, the `cron` crate's column reader, IP address text, UTF-8
validity) is a parameter or a step's argument, so the results hold for every behaviour of it.

## Findings

Some properties one would expect do not hold of the code.  Each entry names the lemma with a
failing run or input and the lemma with the exact condition.  The last two are conditions the
code meets.

- A finished compose rollback restores the snapshot, although unlink errors are ignored.
  Fails: `SurvivorIsCommitted`. Exact condition: `ComposeTransaction.RollbackRestoresIff`;
  `ComposeInstall` states it for a failed install.
- A pending deployment can be rolled back, although its credentials may be deleted meanwhile.
  Fails: `DeletionBlocksRollback`. Exact condition: `RollbackPassesIff`.
- Losing power during a rollback leaves the committed deployment, although the directory sync
  after the marker's rename may have failed. Fails: `UnsyncedMarkerLosesApp`, `RollbackLoses`.
  Exact condition: `RollbackIsSafeIff`.
- A removed new app stays removed on a file system without ordered directory updates. Fails:
  `FreshInstallNeedsOrder`. Exact condition: `RemovalOrderIff`.
- `/appdata` points at complete data. Fails: `EnableLinksPartial` and, at boot,
  `BootLinksPartial`, after `CopyLeavesPartial`. Exact condition: `LinkStaysCompleteIff`.
- An unreadable profile file is never overwritten. Fails: `Replaces`. Exact condition:
  `KeptIffNotAboutToReplace`, `LateEditIsLostIff`.
- An accepted shim address differs from the gateway. Fails: `RespelledGatewayIsAccepted`.
  Exact condition: `CanonicalShimRefusedIff` for canonical texts.
- Reconciliation leaves exactly the desired Caddy routes ahead of the static ones. Fails:
  `BareRouteStays`. Exact condition: `ReplacementIsExactIff`.
- Saving the profiles is atomic under power loss. Fails: `UnsyncedRenameTears` without the
  sync before the rename. Exact condition: `AtomicIffSynced`.
- One job in flight per profile. Fails: a finished job marked Running again, in
  `RunningKeepsOneActiveIff`. Exact condition: `RunningKeepsOneActiveIff`; the protocol
  keeps it (`OneJobInFlight`).

## Model

| member | source | states |
|---|---|---|
| JobRegistry.JobRegistry.CollectGarbage | engine/nasty-backup/src/jobs.rs:318-332 | the sweep keeps every job in flight unchanged and drops exactly the terminal jobs past retention |
| JobRegistry.JobRegistry.Start | engine/nasty-backup/src/jobs.rs:193-215 | a job is admitted exactly when its profile has none in flight; a refusal names one that is |
| JobRegistry.JobRegistry.MarkRunning | engine/nasty-backup/src/jobs.rs:221-228 | the named job runs from the given time with its request and outcome unchanged; all other jobs are unchanged, and an unknown id changes nothing |
| JobRegistry.JobRegistry.MarkProgress | engine/nasty-backup/src/jobs.rs:232-237 | only the named job changes, and its fraction ends up between 0 and 1 |
| JobRegistry.JobRegistry.MarkSucceeded | engine/nasty-backup/src/jobs.rs:240-248 | the named job is terminal with its finish time and result and its request unchanged; all other jobs are unchanged |
| JobRegistry.JobRegistry.MarkFailed | engine/nasty-backup/src/jobs.rs:254-262 | the named job is terminal with its finish time and error and its request unchanged; all other jobs are unchanged |
| JobRegistry.JobRegistry.RecoverAbandoned | engine/nasty-backup/src/jobs.rs:264-288 | repairs exactly a job still in flight, afterwards it is not; the marker is dropped exactly when it names that job's profile |
| JobRegistry.CollectKeepsBusy | engine/nasty-backup/src/jobs.rs:193-215 | sweeping before admission never changes which profiles are busy |
| JobRegistry.RunningKeepsOneActiveIff | engine/nasty-backup/src/jobs.rs:217-228 | the unconditional Running mark keeps one job per profile exactly when the job is in flight or its profile idle |
| JobProtocol.StepKeepsInv | engine/nasty-backup/src/jobs.rs:335-370 | every step of handlers, workers, monitors and the sweep keeps the protocol invariant |
| JobProtocol.RunKeepsInv | engine/nasty-backup/src/jobs.rs:335-370 | the invariant holds at every position of every interleaving |
| JobProtocol.OneJobInFlight | engine/nasty-backup/src/jobs.rs:193-288 | in every interleaving two jobs in flight belong to different profiles |
| JobProtocol.MarkerNamesJobInFlight | engine/nasty-backup/src/lib.rs:1586-1638 | whenever the shared marker names a profile, the backup job that set it is in flight for that profile |
| JobProtocol.RepairFindsOwnMarker | engine/nasty-backup/src/jobs.rs:264-288 | a repair that sees its profile in the marker is looking at its own job's marker |
| JobProtocol.RepairSparesOtherMarkers | engine/nasty-backup/src/jobs.rs:264-288 | a repair clears its own job's marker and leaves a marker set by any other job |
| JobProtocol.WatchedJobIsSettled | engine/nasty-backup/src/jobs.rs:335-370 | once the monitor is over the job is swept, or Succeeded with a result and no error, or Failed with an error and no result |
| JobProtocol.MonitorCanSettle | engine/nasty-backup/src/jobs.rs:348-370 | however the worker ended, at most two enabled monitor steps settle its job |
| JobProtocol.StepRespectsJob | engine/nasty-backup/src/jobs.rs:217-288 | no step changes a terminal job, drops a job in flight, or moves a job backwards |
| JobProtocol.SweptStaysSwept | engine/nasty-backup/src/jobs.rs:318-332 | a swept job never reappears |
| JobProtocol.TerminalIsFinal | engine/nasty-backup/src/jobs.rs:217-332 | over any stretch of a run a terminal job is identical or swept, and a job vanishes only after being terminal |
| ComposeTransaction.StepKeepsInv | engine/nasty-apps/src/lib.rs:3501-3725 | every step, on each kind of file system, keeps the relation between marker, files, durable files and committed deployment |
| ComposeTransaction.RunKeepsInv | engine/nasty-apps/src/lib.rs:3501-3824 | that relation holds throughout every run with crashes anywhere |
| ComposeTransaction.MarkerHoldsCommitted | engine/nasty-apps/src/lib.rs:3501-3824 | a present marker holds exactly the last committed compose, env, meta and ids; without a marker the files are that deployment |
| ComposeTransaction.CrashIsAtomic | engine/nasty-apps/src/lib.rs:3592-3628 | losing power leaves the committed deployment, or the previous one while an unlink is not yet synced |
| ComposeTransaction.DurableIsCommitted | engine/nasty-apps/src/lib.rs:3592-3628 | with no unlink outstanding, what power loss would leave recovers to the committed deployment |
| ComposeTransaction.FinishIsDurable | engine/nasty-apps/src/lib.rs:3592-3628 | after finish returns, the commit survives any further steps and crashes up to the next commit |
| ComposeTransaction.RollbackRestoresIff | engine/nasty-apps/src/lib.rs:3630-3725 | a rollback that runs to its end restores the committed deployment exactly when no ignored unlink failure left a file that counts: the compose file of a new app, env or meta of an old one; the marker is gone and the outcome durable either way |
| ComposeTransactionLimits.RollbackIsSafeIff | engine/nasty-apps/src/lib.rs:3547-3725 | on every kind of file system and from every state in which a rollback can start: losing power anywhere in it leaves the committed deployment exactly when the marker is on disk or the app is new |
| ComposeTransactionLimits.RollbackLoses | engine/nasty-apps/src/lib.rs:3547-3725 | from every other such state there is a rollback and a power loss that does not |
| ComposeTransactionLimits.UnsyncedMarkerLosesApp | engine/nasty-apps/src/lib.rs:3547-3725 | for every app: a begin whose directory sync failed, a rollback and a power loss can leave a torn file and no marker |
| ComposeTransactionLimits.FreshInstallNeedsOrder | engine/nasty-apps/src/lib.rs:6030-6217 | without ordered directory updates a failed new app can come back after a power loss |
| ComposeTransactionLimits.SurvivorIsCommitted | engine/nasty-apps/src/lib.rs:3655-3725 | for every new app, a rollback whose compose unlink fails ends by committing the failed deployment |
| ComposeTransactionLimits.RemovalOrderIff | engine/nasty-apps/src/lib.rs:3680-3690 | a crash during directory removal is recoverable at every point exactly when the marker is unlinked after every tracked file |
| ComposeInstall.Host.RemoveProjectDir | engine/nasty-apps/src/lib.rs:6043-6111 | removing the project directory takes all its files with it, or changes nothing |
| ComposeInstall.Host.Begin | engine/nasty-apps/src/lib.rs:3501-3569 | begin succeeds exactly without a fault in its six calls, and then the marker is there |
| ComposeInstall.Host.SetIds | engine/nasty-apps/src/lib.rs:3884-3913 | a failed sync still leaves the new ids in the sidecar |
| ComposeInstall.Host.RemoveRuntime | engine/nasty-apps/src/lib.rs:3727-3765 | success means no labelled container or network is left; a fault matters only if there is something to remove |
| ComposeInstall.Host.Finish | engine/nasty-apps/src/lib.rs:3592-3628 | the marker stays exactly when the first sync or the unlink fails |
| ComposeInstall.Host.Rollback | engine/nasty-apps/src/lib.rs:3630-3725 | a successful rollback removes all files of a new app unless the compose unlink failed, and touches the runtime only when asked to |
| ComposeInstall.Host.DropStage | engine/nasty-apps/src/lib.rs:6043-6111 | the staged directory is gone exactly when its removal did not fail |
| ComposeInstall.Host.Undo | engine/nasty-apps/src/lib.rs:6113-6201 | what the rollback path of a failed install leaves, by outcome |
| ComposeInstall.Host.ComposeInstall | engine/nasty-apps/src/lib.rs:6030-6217 | after a failure before finish with successful clean-up, directory, sidecar, containers and networks are absent again on both paths, exactly unless the ignored compose unlink failed; success installs exactly the request |
| CronWeekday.MarkSpan | engine/nasty-backup/src/scheduler.rs:142-156 | the day array gains exactly the days of a range with a step, 7 being Sunday |
| CronWeekday.MarkPart | engine/nasty-backup/src/scheduler.rs:134-157 | a list element is refused exactly when it does not parse, else adds exactly its days |
| CronWeekday.SelectDays | engine/nasty-backup/src/scheduler.rs:133-157 | a list is accepted exactly when all elements are valid, and selects the union of their days |
| CronWeekday.NormalizePosixWeekday | engine/nasty-backup/src/scheduler.rs:110-168 | a numeric field becomes a plain list naming exactly the selected days, one higher; names pass through, mixtures are refused |
| CronWeekday.ParsePrinted | engine/nasty-backup/src/scheduler.rs:124-153 | an element of the reference grammar, printed, parses back to its bounds and step |
| CronWeekday.PrintedSelects | engine/nasty-backup/src/scheduler.rs:134-157 | a printed element selects exactly the days the grammar gives it |
| CronWeekday.TranslateItems | engine/nasty-backup/src/scheduler.rs:110-168 | for every list of days, ranges and steps the translation succeeds and names exactly those days under Sunday = 1 |
| Cron.NextAfterIsLeast | engine/nasty-backup/src/scheduler.rs:57-64 | next_after of several schedules is the least later instant matched by any of them |
| Cron.OneScheduleRule | engine/nasty-backup/src/scheduler.rs:88-107 | with a star in either day field one schedule matches exactly when both day fields do |
| Cron.TwoScheduleRule | engine/nasty-backup/src/scheduler.rs:88-107 | with neither day field a star the two schedules match exactly on month day or weekday |
| Cron.ReadSchedules | engine/nasty-backup/src/scheduler.rs:93-107 | the columns are accepted exactly when the crate reads each by itself, and then implement the POSIX day rule |
| Cron.ParseCron | engine/nasty-backup/src/scheduler.rs:73-108 | accepts exactly five fields without a question mark, with a valid weekday field and readable columns, each refusal having its reason; what it accepts implements the POSIX rule |
| Cron.NextAfterIsPosix | engine/nasty-backup/src/scheduler.rs:57-108 | next_after of a parsed expression is the least later instant satisfying the POSIX rule, or none exists |
| Scheduler.NextAfterAgrees | engine/nasty-backup/src/scheduler.rs:57-64 | for every expression the parsed schedules, or nothing when it does not parse, give the next instant of the POSIX rule |
| Scheduler.SchedulerTick.SeedProfiles | engine/nasty-backup/src/scheduler.rs:211-219 | every active profile of a list without repeated ids is observed from the start time with its schedule; every other id is left alone |
| Scheduler.SchedulerTick.Evaluate | engine/nasty-backup/src/scheduler.rs:224-273 | one pass: state and due list are the fold over the profiles after pruning |
| Scheduler.SchedulerTick.MarkAttempted | engine/nasty-backup/src/scheduler.rs:275-277 | the attempted profile's cursor is at the given time; every other cursor and all observations are unchanged |
| Scheduler.SchedulerTick.RunPass | engine/nasty-backup/src/scheduler.rs:303-336 | evaluating and then marking the accepted profiles one by one is one step of the runs below |
| Scheduler.SeededAt | engine/nasty-backup/src/scheduler.rs:211-219 | after seeding, an active profile is observed with its cursor at the start time |
| Scheduler.DueIdsExact | engine/nasty-backup/src/scheduler.rs:224-273 | an id is due exactly when one of its profiles is |
| Scheduler.KeysAreActiveProfiles | engine/nasty-backup/src/scheduler.rs:211-287 | after every tick both maps have exactly the active profiles as keys, and no visit of a known schedule falls back to the start time |
| Scheduler.PassOnObserved | engine/nasty-backup/src/scheduler.rs:178-273 | an observed profile is due exactly when its window holds an occurrence; its cursor moves exactly on admission |
| Scheduler.DueIffPosixInstant | engine/nasty-backup/src/scheduler.rs:57-273 | an observed profile is due exactly when its expression is in the grammar and an instant of the POSIX rule lies in its window |
| Scheduler.AdmissionsConsumeDisjointWindows | engine/nasty-backup/src/scheduler.rs:178-336 | two admissions in a run consume non-empty disjoint windows after the observation, in order |
| Scheduler.NothingBeforeObservation | engine/nasty-backup/src/scheduler.rs:178-336 | no occurrence at or before the observation time is ever consumed |
| Scheduler.NothingBeforeStart | engine/nasty-backup/src/scheduler.rs:178-336 | a profile present at boot is only ever run for occurrences after the engine's start |
| Scheduler.RefusedStaysDue | engine/nasty-backup/src/scheduler.rs:303-336 | an occurrence stays due at every later tick until an admission is accepted |
| Scheduler.ObservationStartsNow | engine/nasty-backup/src/scheduler.rs:224-273 | a new, re-enabled or rescheduled profile starts at the pass's clock and is not due in that pass |
| ProfileStore.Store.constructor | engine/nasty-backup/src/lib.rs:1878-1903 | loading gives the decoded list, or an empty list and a recorded error |
| ProfileStore.Store.Save | engine/nasty-backup/src/lib.rs:2018-2084 | commits exactly when the old file decodes, no stale temporary is left and no call up to the rename fails; otherwise the file is untouched |
| ProfileStore.Store.PersistChecked | engine/nasty-backup/src/lib.rs:1167-1184 | memory and file change together or not at all, and never after a load error |
| ProfileStore.Store.CreateProfile | engine/nasty-backup/src/lib.rs:1252-1290 | appends the profile in memory and file, or changes neither; refuses exactly a taken id or name; keeps distinctness if it was there |
| ProfileStore.Store.DeleteProfile | engine/nasty-backup/src/lib.rs:1336-1358 | removes exactly that profile and its certificate, or changes nothing; refuses exactly an unknown id; keeps distinctness if it was there |
| ProfileStore.WithoutContents | engine/nasty-backup/src/lib.rs:1336-1358 | deletion keeps all other profiles and their distinctness |
| ProfileStoreCrash.MemoryEqualsFile | engine/nasty-backup/src/lib.rs:1945-1977 | between operations of any run with crashes, memory equals the decoded file |
| ProfileStoreCrash.CrashMidSave | engine/nasty-backup/src/lib.rs:2018-2084 | whatever the disk wrote back, a crash during a save finds the file from before it or exactly the list that save had synced |
| ProfileStoreCrash.UnsyncedRenameTears | engine/nasty-backup/src/lib.rs:2046-2057 | from every state with written but unsynced data, a rename and a crash can leave any contents at all |
| ProfileStoreCrash.AtomicIffSynced | engine/nasty-backup/src/lib.rs:2046-2057 | a rename leaves the old or the new list after every crash exactly when the temporary file was synced first |
| ProfileStoreCrash.RenameWasChecked | engine/nasty-backup/src/lib.rs:1167-1184 | every rename was preceded by a successful health check of the same operation |
| ProfileStoreCrash.CorruptFileIsKept | engine/nasty-backup/src/lib.rs:1891-1903 | a corrupt file on disk survives every operation, crash and restart until somebody edits it |
| ProfileStoreCrash.LoadErrorKeepsFile | engine/nasty-backup/src/lib.rs:1167-1184 | after a failed load no operation of that process changes the file |
| ProfileStoreCrash.Replaces | engine/nasty-backup/src/lib.rs:2018-2084 | from every save past its check with its way open, some continuation renames over the file whatever it now holds |
| ProfileStoreCrash.KeptIffNotAboutToReplace | engine/nasty-backup/src/lib.rs:2018-2084 | every continuation keeps an undecodable file exactly when no save is past its check with its way to the rename open |
| ProfileStoreCrash.LateEditIsLostIff | engine/nasty-backup/src/lib.rs:2018-2084 | an outside edit that does not decode is kept under the same condition on the moment of the edit |
| RegistryCredentials.ValidateIds | engine/nasty-apps/src/lib.rs:3388-3408 | accepts exactly lists of distinct existing ids |
| RegistryCredentials.CreatedIsProper | engine/nasty-apps/src/lib.rs:3274-3314 | creation keeps ids unique and labels unique per registry ignoring case |
| RegistryCredentials.UpdatedIsProper | engine/nasty-apps/src/lib.rs:3316-3365 | so does an update, which keeps the set of ids |
| RegistryCredentials.DeletedExists | engine/nasty-apps/src/lib.rs:3367-3386 | deletion removes exactly that id |
| RegistryCredentials.DeletedIsProper | engine/nasty-apps/src/lib.rs:3367-3386 | deletion keeps the store proper and adds nothing |
| RegistryCredentials.RunKeepsInv | engine/nasty-apps/src/lib.rs:3274-3463 | the lock protocol's invariant holds in every interleaving with crashes |
| RegistryCredentials.ManifestIdsExist | engine/nasty-apps/src/lib.rs:358-390 | in every interleaving every credential id in an app manifest exists in the store |
| RegistryCredentials.LabelsStayUnique | engine/nasty-apps/src/lib.rs:3274-3365 | in every interleaving no two credentials of a registry share a label ignoring case, nor an id |
| RegistryMarkers.RunKeepsNoRevival | engine/nasty-apps/src/lib.rs:3274-3386 | in every interleaving no store about to be saved brings back an id that a pending marker names and the store lacks |
| RegistryMarkers.RollbackPassesIff | engine/nasty-apps/src/lib.rs:3630-3680 | in every interleaving, while a deployment's marker is pending, a task holding the lock can take rollback past validating its ids exactly when the manifest repeated none and none has been deleted since the marker was written |
| RegistryMarkers.DeletionBlocksRollback | engine/nasty-apps/src/lib.rs:358-390 | for every credential and app, a cut-off redeployment without the credential lets it be deleted, and the rollback can no longer pass |
| AppdataRelocation.RunKeepsInv | engine/nasty-apps/src/lib.rs:8370-8581 | the relocation invariant holds in every run with enabling, disabling, boot set-up and crashes |
| AppdataRelocation.EnabledWhileRunning | engine/nasty-apps/src/lib.rs:4411-4452 | while a relocation runs Apps stays enabled |
| AppdataRelocation.PartialIffUnfinished | engine/nasty-apps/src/lib.rs:8440-8470 | in every run a path holds a partial copy exactly when a copy to it was started and since neither finished nor removed |
| AppdataRelocation.LinkStaysCompleteIff | engine/nasty-apps/src/lib.rs:8311-8363 | a run keeps the link on complete data throughout exactly when neither enabling nor a boot without a recorded path links a path that was not made whole before, by creation or by a finished copy |
| AppdataRelocation.CompleteIffMadeWhole | engine/nasty-apps/src/lib.rs:8311-8581 | in every run a path is complete exactly when it was so at the start, was created empty, or was the target of a finished copy |
| AppdataRelocation.WholeIffNotUnfinished | engine/nasty-apps/src/lib.rs:8311-8341 | a path being linked was not made whole exactly when its last copy is unfinished, or was deleted after the boot set-up had seen it |
| AppdataRelocation.CompleteDataStays | engine/nasty-apps/src/lib.rs:8370-8581 | complete data, old or new, is never removed or overwritten |
| AppdataRelocation.StoppedAppsAreRevived | engine/nasty-apps/src/lib.rs:8370-8581 | when running is cleared every stopped app has had a start attempt, or a step of that job's restart loop met a configuration it could not read |
| AppdataRelocation.CopyLeavesPartial | engine/nasty-apps/src/lib.rs:8370-8581 | from every running installation a relocation can leave a partial copy at the target, by a crash or, without one, by a failed copy whose removal fails too |
| AppdataRelocation.EnableLinksPartial | engine/nasty-apps/src/lib.rs:4335-4372 | from there disabling and enabling Apps links that partial copy, with or without a crash |
| AppdataRelocation.BootLinksPartial | engine/nasty-apps/src/lib.rs:7347-7376 | so does a boot without a recorded path, in a run where no enabling makes a link |
| Cidr.MaskIsBlock | engine/nasty-apps/src/lib.rs:538-548 | two addresses have equal masks exactly when one is in the other's network |
| Cidr.ContainsIpIsMembership | engine/nasty-apps/src/lib.rs:551-558 | answers exactly when both texts parse, and then decides membership, for every family and prefix |
| Cidr.LongerPrefixWithin | engine/nasty-apps/src/lib.rs:561-568 | a network with the longer prefix is a subset exactly when its address is a member |
| Cidr.ShorterPrefixEscapes | engine/nasty-apps/src/lib.rs:561-568 | a network with a shorter prefix is never a subset |
| Cidr.ContainsNetIsSubset | engine/nasty-apps/src/lib.rs:561-568 | answers exactly when both texts parse, and then decides whether every address of the inner network is in the outer |
| Cidr.AcceptedSpecIsContained | engine/nasty-apps/src/lib.rs:587-694 | an accepted specification has its gateway, whole range and shim address inside its subnet |
| Cidr.CanonicalShimRefusedIff | engine/nasty-apps/src/lib.rs:606-634 | for canonical texts and a shim inside the subnet, the specification is refused for this reason exactly when shim and gateway are the same address |
| Cidr.RespelledGatewayIsAccepted | engine/nasty-apps/src/lib.rs:606-634 | every accepted specification with a shim is still accepted when its gateway is the shim's address with a blank after it, and then both are the same address |
| ComposeDuration.Multiply | engine/nasty-apps/src/lib.rs:2460-2472 | the checked 128-bit arithmetic of a segment fails exactly when the value exceeds the type, never in an intermediate product |
| ComposeDuration.ParseSegments | engine/nasty-apps/src/lib.rs:2416-2477 | the loop terminates and returns the sum of the segments exactly when all are valid and the sum is within the limit |
| ComposeDuration.ParseComposeDuration | engine/nasty-apps/src/lib.rs:2397-2489 | returns exactly the duration the text denotes, always in the 64-bit range |
| ComposeDuration.TextDenotesSum | engine/nasty-apps/src/lib.rs:2397-2489 | the text of any list of segments, signed or not, denotes their sum, and is refused exactly out of range or for an unknown unit |
| ComposeDuration.DurationAdds | engine/nasty-apps/src/lib.rs:2397-2489 | concatenating two unsigned texts adds their durations, and is refused exactly on overflow |
| ComposeDuration.SegmentIsClose | engine/nasty-apps/src/lib.rs:2448-2472 | a segment is its exact value rounded down, or less than 2 ns below it when it has more than 18 fraction digits |
| ComposeDuration.NegativeNeedsSign | engine/nasty-apps/src/lib.rs:2411-2489 | only a text with a minus sign denotes a negative duration |
| ComposeDuration.EveryDurationIsReached | engine/nasty-apps/src/lib.rs:2397-2489 | for every number of nanoseconds, the decimal text with unit ns, signed or not, denotes it exactly within the limit of its sign, the least 64-bit value included |
| PullPolicy.AtMostIsTotalOrder | engine/nasty-apps/src/lib.rs:2366-2385 | policies are totally ordered by how eagerly they pull |
| PullPolicy.MergeIsJoin | engine/nasty-apps/src/lib.rs:2374-2385 | merging is the least upper bound: associative, commutative, idempotent, and one of its arguments |
| PullPolicy.DueFollowsOrder | engine/nasty-apps/src/lib.rs:2505-2520 | a merged policy is due exactly when one of its parts is |
| PullPolicy.SkipIsNeverOrBuild | engine/nasty-apps/src/lib.rs:2491-2503 | the textual filter for unpullable services agrees with the parsed policy |
| PullPolicy.StrongestIsUnique | engine/nasty-apps/src/lib.rs:2582-2599 | the merged policy of an image does not depend on order or repetition of services |
| PullPolicy.CollectPolicies | engine/nasty-apps/src/lib.rs:2582-2599 | the table holds for every image the strongest policy a counted service asks for |
| PullPolicy.CollectImages | engine/nasty-apps/src/lib.rs:2565-2581 | the images are exactly those of the listed services |
| PullPolicy.ParseInventory | engine/nasty-apps/src/lib.rs:2522-2602 | refused exactly when a counted policy does not parse; otherwise the table is exactly the strongest pullable policies |
| PullPolicy.ImagePlan | engine/nasty-apps/src/lib.rs:3933-3964 | the plan pulls exactly the images some active service needs, and the policy lookup never fails |
| PullPolicy.StaticLookupFailsIff | engine/nasty-apps/src/lib.rs:2565-2601 | in a static inventory the same lookup fails exactly for images whose services all say never or build |
| CaddyJson.BuiltPort | engine/nasty-apps/src/caddy.rs:838-859 | the port read from a built route is the route's |
| CaddyJson.BuiltHost | engine/nasty-apps/src/caddy.rs:824-834 | the host read from a built route is its subdomain, if any |
| CaddyJson.ListedBuilt | engine/nasty-apps/src/caddy.rs:291-315 | listing a built route recovers name, port and subdomain |
| CaddyRoutes.Caddy.ListAppRoutes | engine/nasty-apps/src/caddy.rs:291-315 | a listing is the engine's readable routes in order, and succeeds when both calls are answered |
| CaddyRoutes.Caddy.RemoveAppRoute | engine/nasty-apps/src/caddy.rs:414-436 | success means the route is gone, also when it was not there; a lost reply may have removed it |
| CaddyRoutes.Caddy.SetAppRoute | engine/nasty-apps/src/caddy.rs:362-409 | a failed lookup changes nothing; static routes never change; success puts the route in front and, when all calls are answered, replaces the old one |
| CaddyRoutes.Caddy.RemoveStale | engine/nasty-apps/src/caddy.rs:443-455 | whatever the replies, static routes are untouched; if all are answered every listed unwanted route has been deleted by id |
| CaddyRoutes.Caddy.ReplaceAppRoutes | engine/nasty-apps/src/caddy.rs:443-461 | whatever the replies, static routes keep their order; if all are answered the list is the replacement |
| CaddyRoutes.ReplacedIs | engine/nasty-apps/src/caddy.rs:443-461 | the replacement is the desired routes in front, then the static routes and unwanted malformed engine routes in their old order |
| CaddyRoutes.ReplacementIsExactIff | engine/nasty-apps/src/caddy.rs:443-461 | it is exactly the desired routes ahead of the static ones if and only if no unwanted engine route is malformed |
| CaddyRoutes.BareRouteStays | engine/nasty-apps/src/caddy.rs:295-315 | an engine route without handlers outlives a replacement that does not want it |
| CaddyRoutes.ReplacementListsDesired | engine/nasty-apps/src/caddy.rs:291-461 | listing after such a replacement gives the desired routes back, last one first |
| RecoveryTree.AncestorIsDirectory | nixos/scripts/recovery-inspect.py:449-463 | in a prefix-closed tree every proper ancestor is a directory, so no file lies above another entry |
| RecoveryTree.Walk | nixos/scripts/recovery-inspect.py:108-182 | in any order of entries the traversal succeeds exactly when depth, entries, file sizes and bytes fit; it then has counted every entry and byte and copied the tree |
| RecoveryTree.Visit | nixos/scripts/recovery-inspect.py:121-178 | one entry is accepted exactly when it and all below it fit the remaining budget |
| RecoveryTree.VisitFile | nixos/scripts/recovery-inspect.py:141-176 | a file costs one entry and its size, refused exactly past a limit |
| TarHeader.ParsedIsSound | nixos/scripts/recovery-inspect.py:409-438 | an accepted header has proper parts, bounded depth and size, and a path unless it is the root directory |
| RecoveryTar.Stream.Exact | nixos/scripts/recovery-inspect.py:374-381 | whatever sizes the reads return, exactly the next n bytes are taken, or the archive is shorter |
| RecoveryTar.Stream.Content | nixos/scripts/recovery-inspect.py:466-473 | the chunked copy writes exactly the next size bytes |
| RecoveryTar.Stream.Drain | nixos/scripts/recovery-inspect.py:403-408 | accepts exactly at most 64 KiB of zeros up to the end |
| RecoveryTar.ExtractTar | nixos/scripts/recovery-inspect.py:391-487 | the loop over short reads gives exactly the meaning of the archive, same refusals included |
| RecoveryTar.ReadEntry | nixos/scripts/recovery-inspect.py:409-484 | one entry consumes exactly its header, content and padding |
| RecoveryTar.StepKeeps | nixos/scripts/recovery-inspect.py:439-484 | every accepted entry keeps the tree prefix-closed, within limits, with created paths and bytes counted exactly |
| RecoveryTar.ExtractKeeps | nixos/scripts/recovery-inspect.py:391-487 | so does every accepted archive |
| RecoveryTar.AcceptedTreeWalks | nixos/scripts/recovery-inspect.py:108-182 | every accepted archive's tree is prefix-closed with only directories above entries, fits the traversal's limits, and is counted there with the identical budget |
| RecoverySession.Session.Retrieve | nixos/scripts/recovery-inspect.py:537-577 | a dump is recorded as staged exactly when its archive is accepted and its producer succeeded |
| RecoverySession.Session.Stage | nixos/scripts/recovery-inspect.py:204-232 | a source tree is recorded as staged exactly when it fits the limits, and is then copied whole |
| RecoverySession.Session.Inspect | nixos/scripts/recovery-inspect.py:275-331 | inspecting a staged session hits no limit and reports the recorded counts; an incomplete one is refused |
| TarEncoding.NumberReads | nixos/scripts/recovery-inspect.py:384-388 | an octal field padded with blanks reads as the number written |
| TarEncoding.ChecksumReads | nixos/scripts/recovery-inspect.py:409-410 | a written header's checksum field is its checksum |
| TarEncoding.HeaderReads | nixos/scripts/recovery-inspect.py:409-438 | reading a written ustar header gives the entry's name, path, kind and size, for every spelling and any ignored fields |
| TarRoundTrip.ExtractEntry | nixos/scripts/recovery-inspect.py:391-487 | a written entry at the front of a stream is admitted or refused by the state alone, and nothing more is consumed |
| TarRoundTrip.ExtractEncoded | nixos/scripts/recovery-inspect.py:391-487 | extracting a written list is admitting its entries one by one, with the same refusal |
| TarRoundTrip.EncodedExtracts | nixos/scripts/recovery-inspect.py:391-487 | writing any list of valid entries as ustar and extracting it succeeds exactly when the list describes one tree within the limits (distinct names, no file above an entry, counts), and then rebuilds exactly that tree and its counts |
| TarRoundTrip.OneEntryExtracts | nixos/scripts/recovery-inspect.py:391-487 | every valid entry alone is an archive that extracts |

## Left out

- Docker, bollard, systemctl, bcachefs, rustic and Caddy's HTTP transport: each call is a step or argument that succeeds or fails.
- Serialisation: decoding an encoded value is taken to give it back; YAML and JSON text are not modelled.
- The `cron` crate, IP address text and UTF-8 decoding: parameters, with the assumptions stated where they are used.
- compose_remove and the startup edits of a manifest outside the deployment transaction: they take no part in the marker protocol.
- update_profile: the client supplies the fields such claims would be about.
- Free-space checks, file modes, ownership, devices, hard links and a source that changes during a traversal: the tree is a value, so the refusals for them are not modelled.
- Partial trees of refused archives: the evidence left on disk is arbitrary in `Retrieve`.
- Names that differ only in case or Unicode form: the staging file system compares bytes.
- The order of image and service names: the inventory's lists are sorted and deduplicated, and are sets here; replica names are not modelled.
- Floating-point statistics, resource limits, image metadata, TLS automation, DNS provider tables, route summaries, registry host parsing: each is one pass over its input that keeps no state and takes part in none of the protocols above.
- Path resolution against a live file system (symbolic links outside the /appdata link).
- The web interface, build scripts, metrics, SMART data and diagnostics.
- ComposeTransaction.RunKeepsInv: in power-loss modes, like the results that follow from it, about the runs that satisfy the two conditions of `Disciplined`; a rollback outside the first can lose the app (`RollbackIsSafeIff`), an install outside the second can return (`FreshInstallNeedsOrder`).
- ComposeTransaction.MarkerHoldsCommitted: about the same runs.

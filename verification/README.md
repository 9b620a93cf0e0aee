# Verification of the shard core

This project models the parts of the shard core whose correctness depends on order, interleaving or exact
arithmetic, and proves what they promise. Each module follows one component:

- `InstallProtocol` is the install, revive and teardown protocol as a transition system. API calls, the single
  installation worker and lifecycle calls share one status column and one stack of containers per app; a transition
  runs one party from one `await` to the next, and docker answers arbitrarily. `InstallSafety` proves what every
  schedule keeps, `InstallDrain` what fair schedules reach, `InstallAlone` the exact result of a whole task.
  `Reinstalls`, `Teardowns`, `Unfreezing` and `Creation` prove exactly when a reinstallation is carried out, when a
  teardown takes the containers with it, when it is given up, and when a finished installation's status is true;
  `Agreement` when the status column tells the truth about the containers under interleaving; `InstallGaps` holds what
  these share and two promises that are not kept. `InstallWorker` is the process itself, a class whose methods update the shared
  state turn by turn and are proved equal to the transition system.
- `Lifecycle` is the idle and pressure control loop, as a class and as a function of the rows; `LifecycleLaws` proves
  victim selection, progress and real-time bounds.
- `HumanEncoding` is the base 2^k codec with its tables and loops; `HumanEncodingLaws` proves the exact laws.
- `Database`, `Snapshot` and `Boot` are the tables, the snapshot, the import and the default identity; `TinyDates` and
  `TinyImport` the dates and the rows of a TinyDB file, `TinyTables` the tables they become. `TinyRows` says what the
  file's names and defaults mean on their own, and `TinyLaws` proves that a written database comes back.
- `StartApp` is the revive primitive run alone, and the throttle in front of it.
- `TraefikConfig`, `UsageReport` and `AuthCache` are the proxy configuration, the monthly reports and the app cache.

Where the code differs from what its documentation or a reader would expect, the model follows the code:

- The program's own README.md (line 67) says a shard id has 96 characters; the code gives 103 (`HumanEncodingLaws.ShardIdLength`).
- An accepted reinstallation may be dropped (`InstallGaps.ReinstallCanBeDropped`), exactly when something is in flight
  for the app (`Reinstalls.ReinstallGoesAheadExactlyWhen`).
- A teardown whose commands succeed may delete the row and leave containers (`Teardowns.TeardownCanLeaveContainers`),
  exactly when a pause or a request is in flight, the row is missing, or it has a status from which the teardown does
  not get to compose down (`Teardowns.ContainersGoExactlyWhen`).
- A request to uninstall overwrites PAUSED, so the teardown it queues never unfreezes the app; where docker refuses to
  stop it, the row goes and the containers stay (`InstallAlone.RequestHidesFrozenApp`).
- A reinstallation never stops or removes the old containers (`InstallAlone.ReinstallAlone`), so that it may end STOPPED
  with containers running, exactly when it found some running or frozen (`Creation.EndsTrueExactlyWhen`).
- A teardown whose unpause fails is given up, and not tried again without a new request (`Unfreezing.GivenUpForGood`);
  once it has the lock this can happen exactly when the row says PAUSED or RUNNING or a pause is past its check
  (`Unfreezing.NeverGivenUpExactlyWhen`).
- A restore that fails rolls the rows back but not the sequences it has already set
  (`Snapshot.FailureChangesNothingExactlyWhen`).
- Boot resumes uninstallations only; a row left in an install or reinstall status keeps it until an API call names
  the app (`InstallGaps.StrandedStatusStays`).
- A pause that overlaps a revive may leave a running app PAUSED (`Agreement.OverlapPartsThem`), and so may any two
  different kinds of lifecycle call (`Agreement.MixedWorkMayPart`); the next revive puts the row right
  (`Agreement.ReviveRepairs`).
- One app with unreadable metadata keeps every app from being demoted under memory pressure
  (`LifecycleLaws.UnreadableMetadataBlocksPressure`).
- An app that is PAUSED when pausing is turned off, or when it declares that it skips pausing, stays PAUSED however long
  it is idle, unless the disk is low or memory pressure stops it: the stop-only tier stops RUNNING apps only
  (`LifecycleLaws.PausedIsForgotten`).
- A JSON document that is null comes back from a snapshot as SQL NULL (`Database.AdaptsBackExactlyWhen`).

`dafny verify dfyconfig.toml` checks everything.

## Model

| member | source | states |
|---|---|---|
| `InstallSafety.InvKept` | shard_core/service/app_installation/worker.py:74-179 | every turn of every party keeps the whole invariant: fair op locks, a row behind every acting revive and running task, work behind every transitional status |
| `InstallSafety.BootInv` | shard_core/service/app_installation/__init__.py:111-127 | after the boot reconciliation the invariant holds exactly when the only transitional rows are uninstallations |
| `InstallSafety.EveryRunIsSafe` | shard_core/service/app_installation/worker.py:74-92 | the invariant holds in every state of every schedule after boot |
| `InstallSafety.TransitionalRowsHaveWork` | shard_core/service/app_installation/__init__.py:21-108 | in every schedule a queued status has its task queued, just picked up, or announced by a call between its write and its enqueue; a working status is the worker's current task or a resumed teardown |
| `InstallSafety.LockKept` | shard_core/service/app_tools.py:43-50 | the waiters of an op lock are exactly the parties that asked and have not released, each once, and whoever runs under it is first |
| `InstallSafety.OneInside` | shard_core/service/app_tools.py:47-50 | never two parties under the op lock of one app |
| `InstallSafety.PendingKept` | shard_core/service/app_installation/worker.py:74-92 | a pending task stays pending until the worker gets past its status check |
| `InstallSafety.QueuedStatusIsAnnounced` | shard_core/service/app_installation/__init__.py:77-108 | a queued status that appears was written by a call that is about to enqueue its task |
| `InstallSafety.BackedKept` | shard_core/service/app_installation/worker.py:98-179 | no turn leaves a transitional status without the work that will end it |
| `InstallSafety.NoReviveDuringTeardown` | shard_core/service/app_tools.py:110-164 | while a teardown holds the lock, or the row is gone, every revive is still before its status check |
| `InstallSafety.WaitingReviveTouchesNothing` | shard_core/service/app_tools.py:110-128 | a revive before its status check writes no row and touches no containers |
| `InstallSafety.RowsComeAndGo` | shard_core/service/app_installation/worker.py:126-156 | rows are deleted only by the last write of their own teardown and appear only by an install call |
| `InstallSafety.DownTearsDown` | shard_core/service/app_tools.py:218-233 | a successful compose down of a teardown leaves no containers and a row that only the worker still handles |
| `InstallSafety.NoResurrection` | shard_core/service/app_installation/worker.py:126-156 | in every schedule, once a teardown removed the containers, neither they nor a handled row come back until a row of that name is inserted |
| `InstallDrain.RunnerIsEnabled` | shard_core/service/app_installation/worker.py:74-92 | while work is left, some party that brings it closer to its end can move: no deadlock |
| `InstallDrain.RunnerAdvances` | shard_core/service/app_installation/worker.py:74-179 | each turn of that party picks up the next task or lowers the measure (worker turns left, then turns of the revives in front of it) |
| `InstallDrain.BystandersDoNotHinder` | shard_core/service/app_tools.py:110-215 | no other party raises the measure, takes the turn away, or gets a task in front of those queued |
| `InstallDrain.TaskIsPicked` | shard_core/service/app_installation/worker.py:74-92 | in every fair run, whatever is requested meanwhile, every task that is queued or announced is picked up |
| `InstallDrain.QueueDrains` | shard_core/service/app_installation/worker.py:74-92 | after the API calls stop, every weakly fair infinite run drains the queue, and from then on no row has a transitional status |
| `InstallDrain.DrainedIsSettled` | shard_core/data_model/app_meta.py:29-41 | with an empty queue, an idle worker and no API call, no row has any of the six transitional statuses |
| `InstallDrain.DeletesKept` | shard_core/service/app_installation/worker.py:126-156 | a teardown at work stays on its way until the row is gone, unless an unpause fails |
| `Unfreezing.GivenUpForGood` | shard_core/service/app_installation/worker.py:129-138 | after an unpause that fails, the row stays and no uninstallation of the app is ever under way, in every schedule without a new uninstallation request |
| `Unfreezing.NeverGivenUpExactlyWhen` | shard_core/service/app_tools.py:186-195 | once a teardown has the lock and its app has a row, no schedule gives it up exactly when the row says neither PAUSED nor RUNNING and no pause is past its check |
| `Unfreezing.UninstallCanBeGivenUp` | shard_core/service/app_tools.py:167-183 | a schedule from boot in which a pause past its check overwrites an accepted uninstallation, the unpause fails, and the app stays for good |
| `InstallDrain.DoomedAppsGo` | shard_core/service/app_installation/worker.py:126-156 | in every fair run, whatever else is requested meanwhile, an accepted uninstallation deletes its row, unless its unpause fails first, and the row stays away until the app is installed anew |
| `InstallDrain.ResumedUninstallsFinish` | shard_core/service/app_installation/__init__.py:111-127 | so does every uninstallation an earlier process left in either status, whatever other rows boot finds and whatever is requested after it |
| `InstallAlone.InstallAlone` | shard_core/service/app_installation/worker.py:98-123 | a whole installation with nothing else at work on the app: skipped exactly when its status is gone, else STOPPED exactly when download and creation succeed and ERROR otherwise, and nothing else changes |
| `InstallAlone.ReinstallAlone` | shard_core/service/app_installation/worker.py:159-179 | a reinstallation ends likewise; the points it passes include neither the stop nor the compose down of the old containers, because its own status makes both operations skip |
| `InstallAlone.TeardownAlone` | shard_core/service/app_installation/worker.py:126-156 | a whole teardown deletes the row unless it has to unfreeze and cannot, leaves no containers exactly when there was a row and stopping and removing succeeded, and unfreezes, at either point where it could, exactly an app it reads as PAUSED |
| `InstallAlone.RequestHidesFrozenApp` | shard_core/service/app_installation/__init__.py:77-90 | a request to uninstall a PAUSED app makes its teardown delete the row without ever unfreezing the app; the containers stay exactly when docker refuses to stop or remove them |
| `InstallAlone.RequestAlone` | shard_core/service/app_installation/__init__.py:21-108 | a request nobody disturbs writes its queued status and enqueues its task, unless the app is there for an installation or missing for anything else; then it changes nothing |
| `InstallAlone.PauseCallAlone` | shard_core/service/app_tools.py:167-183 | a pause nobody disturbs writes PAUSED exactly when the row says RUNNING and docker freezes the containers |
| `InstallAlone.StopCallAlone` | shard_core/service/app_tools.py:186-215 | a stop writes STOPPED exactly over RUNNING and UNINSTALLING, and only when docker stops the app |
| `InstallAlone.StopOfPausedAlone` | shard_core/service/app_tools.py:186-215 | a paused app has to be unfrozen first; if either command fails the row stays |
| `InstallWorker.Shard.ProcessTask` | shard_core/service/app_installation/worker.py:74-92 | the loop body runs one task to its end and leaves exactly the state of the laws above |
| `InstallGaps.ReinstallCanBeDropped` | shard_core/service/app_installation/worker.py:159-179 | a schedule from boot in which an accepted reinstallation is overwritten by a revive and dropped |
| `Reinstalls.SecuredKept` | shard_core/service/app_installation/worker.py:159-179 | with nothing in flight for the app, every event but a new uninstallation request keeps the reinstallation secured until the worker begins it |
| `Reinstalls.SecuredReinstallBegins` | shard_core/service/app_installation/worker.py:159-179 | in every fair run the worker does begin it, unless an uninstallation is requested first |
| `Reinstalls.ReinstallGoesAheadExactlyWhen` | shard_core/service/app_installation/__init__.py:93-108 | no schedule drops a requested reinstallation exactly when, at the request, no lifecycle call is past its check, no uninstallation is asked for or queued in front, and the worker is not at work on the app |
| `Reinstalls.DisturbedDrops` | shard_core/service/app_tools.py:110-215 | otherwise a schedule of what is already in flight drops it |
| `Reinstalls.LostForGood` | shard_core/service/app_installation/worker.py:159-161 | a reinstallation whose status was overwritten is never begun, in any schedule without a new request |
| `InstallGaps.StackFrozen` | shard_core/service/app_tools.py:110-164 | during a teardown nobody else creates or removes containers of the app |
| `Teardowns.ClearTearsDown` | shard_core/service/app_tools.py:198-233 | from its first write on, with such a row and no pause past its check or request in flight, a teardown removes the containers in every fair run, unless a new request or a failing command comes first |
| `Teardowns.ContainersGoExactlyWhen` | shard_core/service/app_tools.py:218-233 | no schedule in which its commands succeed leaves the containers exactly under that condition on the row and the calls in flight |
| `Teardowns.FailedCommandLeaves` | shard_core/service/app_installation/worker.py:143-153 | when unfreezing, stop or compose down fails, the containers are still there at every moment until the teardown ends, whatever happens meanwhile |
| `Teardowns.TeardownCanLeaveContainers` | shard_core/service/app_installation/__init__.py:93-108 | a schedule from boot in which a reinstallation request makes a teardown delete the row and leave the containers, though all its commands succeed |
| `InstallGaps.StrandedStatusStays` | shard_core/service/app_installation/__init__.py:111-127 | a row boot finds in an install or reinstall status keeps it in every schedule without an API call for that app |
| `Agreement.InStepKept` | shard_core/service/app_tools.py:110-215 | every turn keeps status and containers in step while different kinds of work on the app do not mix |
| `Agreement.AgreeUnlessMixed` | shard_core/service/app_tools.py:110-233 | over whole schedules without such mixing, through installations and teardowns, status and containers agree whenever nobody is at work on the app |
| `Agreement.MixedWritesPart` | shard_core/service/app_tools.py:167-215 | for any two lifecycle calls of different kinds with their writes due, one order of the writes leaves, when both are done, a status that is false of the containers |
| `Agreement.MixedWorkMayPart` | shard_core/service/app_tools.py:110-215 | so does, from any state, a schedule of two different kinds of calls at work, wherever docker can let both succeed; afterwards nobody is at work who was not at work beside them |
| `Agreement.MixedWithTaskMayPart` | shard_core/service/app_installation/worker.py:173-176 | so does a schedule of a revive or a pause at work beside an installation or a reinstallation that has its row |
| `Agreement.PauseOutlivesTeardown` | shard_core/service/app_tools.py:167-183 | a pause past its check beside a teardown may write PAUSED over the row of a later installation, which is false unless the containers are frozen |
| `Creation.EndsTrueExactlyWhen` | shard_core/service/app_installation/worker.py:98-179 | an installation or reinstallation left alone ends with a true status, whatever docker and the download answer, exactly when it found no running or frozen containers |
| `Creation.ReinstallCanEndFalse` | shard_core/service/app_installation/__init__.py:93-108 | a schedule from boot in which everything succeeds and the reinstallation of a running app ends STOPPED with the app running |
| `Agreement.OverlapPartsThem` | shard_core/service/app_tools.py:167-183 | a schedule from boot in which a pause and a revive overlap and a running app ends up PAUSED |
| `Agreement.ReviveRepairs` | shard_core/service/app_tools.py:110-164 | a revive of a row that says STOPPED, RUNNING, DOWN or PAUSED, with nobody else at work on the app, ends in every schedule of its turns with the row RUNNING and the containers running, whatever they were before |
| `Agreement.ReviveLeavesOthersAlone` | shard_core/service/app_tools.py:123-128 | a revive of a row with any other status, or of no row, changes nothing |
| `Agreement.OverlapIsRepaired` | shard_core/service/app_tools.py:130-139 | the schedule of the overlap goes on to a state in which the next revive has repaired the false PAUSED |
| `InstallWorker.Shard.ReconcileInterruptedUninstalls` | shard_core/service/app_installation/__init__.py:111-127 | queues exactly one uninstallation per row in an uninstall status and nothing else |
| `InstallWorker.Shard.WorkerTurn` | shard_core/service/app_installation/worker.py:74-179 | one turn of the worker, from one await to the next, does to the shared fields what the transition system says |
| `InstallWorker.Shard.TurnOfCall` | shard_core/service/app_tools.py:110-215 | so does one turn of a revive, a pause, a stop or an API call |
| `InstallWorker.Shard.RunSchedule` | shard_core/service/app_installation/worker.py:74-92 | any schedule ends in the state the transition system gives, with the invariant |
| `InstallWorker.Shard.Drain` | shard_core/service/app_installation/worker.py:74-92 | the loop terminates whatever docker and downloads answer, with settled statuses only |
| `InstallWorker.BootRunDrain` | shard_core/service/app_installation/__init__.py:111-127 | boot, any schedule, then silence: every status is settled |
| `Lifecycle.Controller.NoteAccess` | shard_core/service/app_lifecycle.py:29-44 | an access is remembered exactly when the app may be started |
| `Lifecycle.Controller.ControlAppTime` | shard_core/service/app_lifecycle.py:69-104 | one app of the snapshot: its new status, and whether an operation raised |
| `Lifecycle.Controller.IdleStage` | shard_core/service/app_lifecycle.py:47-66 | every listed app is controlled on the snapshot, and a raise anywhere is reported |
| `Lifecycle.Controller.DemoteLru` | shard_core/service/app_lifecycle.py:107-142 | the demotion chosen on the stale snapshot, applied to the rows as they are now |
| `Lifecycle.Controller.ControlApps` | shard_core/service/app_lifecycle.py:47-66 | one whole control cycle, including that a raise skips the pressure stage |
| `LifecycleLaws.OrDefaultIsDeclaredExactlyWhen` | shard_core/service/app_lifecycle.py:69-104 | `declared or default` is the declared value exactly when that is not zero (or the default is zero too) |
| `LifecycleLaws.ValidatedIdleTimes` | shard_core/data_model/app_meta.py:91-123 | for validated metadata both idle times are exactly declared-or-default, and a declared pause comes before a declared stop |
| `LifecycleLaws.VictimIsLeastRecentlyUsed` | shard_core/service/app_lifecycle.py:107-142 | a victim exists exactly when an app is eligible; it has the least last access among eligible RUNNING apps, else among eligible PAUSED ones |
| `LifecycleLaws.AtMostOneOperation` | shard_core/service/app_lifecycle.py:47-66 | although it decides on stale statuses, the pressure stage never acts on an app the idle stage acted on |
| `LifecycleLaws.PressureTouchesOneApp` | shard_core/service/app_lifecycle.py:107-142 | an app the pressure stage changes is the victim, not always-on, and not accessed within the grace window |
| `LifecycleLaws.UnreadableMetadataBlocksPressure` | shard_core/service/app_lifecycle.py:47-66 | one listed app without loadable metadata turns the pressure stage off for all |
| `LifecycleLaws.PressureMakesProgress` | shard_core/service/app_lifecycle.py:47-66 | under pressure 2·running + paused over demotable apps strictly falls in every cycle while positive, whatever apps are being installed |
| `LifecycleLaws.PressureStopsEverything` | shard_core/service/app_lifecycle.py:47-66 | after 2n cycles of sustained pressure none of the n demotable apps is RUNNING or PAUSED |
| `LifecycleLaws.PausedOnceIdle` | shard_core/service/app_lifecycle.py:69-104 | a cycle at or after a + t1 leaves the app PAUSED or STOPPED |
| `LifecycleLaws.StoppedByDeadline` | shard_core/service/app_lifecycle.py:69-104 | with cycles at most r apart the app is STOPPED by a + max(t1 + 2r, t2 + r), and stays so |
| `LifecycleLaws.NeverTooEarly` | shard_core/service/app_lifecycle.py:69-104 | absent pressure it is paused only from a + t1 and stopped only from a + t2 on, also when t1 >= t2 |
| `LifecycleLaws.RunsUntilIdle` | shard_core/service/app_lifecycle.py:69-104 | over whole runs absent pressure, it runs before a + t1 and is not stopped before a + t2 |
| `LifecycleLaws.LowDiskStops` | shard_core/service/app_lifecycle.py:69-76 | on a low disk a cycle stops every RUNNING, PAUSED or UNINSTALLING app with loadable metadata that docker can stop, always-on ones included, and changes no other status |
| `LifecycleLaws.InstallationsAreLeftAlone` | shard_core/service/app_lifecycle.py:57-66 | a cycle never changes an app that is queued for installation or being installed |
| `LifecycleLaws.AlwaysOnStarts` | shard_core/service/app_lifecycle.py:78-83 | with enough disk a cycle starts an always-on app exactly when it is STOPPED, DOWN or PAUSED, fits, is not throttled and docker can; otherwise it leaves it alone, also under pressure |
| `LifecycleLaws.AlwaysOnStaysOn` | shard_core/service/app_lifecycle.py:78-83 | from the first cycle that could start it on, an always-on app is RUNNING after every cycle |
| `LifecycleLaws.NeverPaused` | shard_core/service/app_lifecycle.py:91-95 | with pausing off, or for an app that skips it, a running or stopped app is never PAUSED, whatever the pressure |
| `LifecycleLaws.StopOnlyByDeadline` | shard_core/service/app_lifecycle.py:91-95 | with cycles at most r apart it is STOPPED by a + t2 + r, and stays so |
| `LifecycleLaws.StopOnlyRunsUntilIdle` | shard_core/service/app_lifecycle.py:91-95 | absent pressure it runs until a + t2 |
| `LifecycleLaws.PausedIsForgotten` | shard_core/service/app_lifecycle.py:91-95 | an app that was PAUSED when it became stop-only stays PAUSED absent pressure, however long it is idle |
| `HumanEncoding.Encoding.Init` | shard_core/service/human_encoding.py:15-36 | a repeated character is refused with nothing changed, too short an alphabet leaves it uninitialized, else the tables are the two directions of the code on the first 2^k characters |
| `HumanEncoding.Encoding.Encode` | shard_core/service/human_encoding.py:44-53 | the loop over groups computes the code word, or fails when uninitialized |
| `HumanEncoding.Encoding.Decode` | shard_core/service/human_encoding.py:56-72 | the loop over characters decodes, or reports an unknown character or a non-zero overhang |
| `HumanEncodingLaws.EncodedLength` | shard_core/service/human_encoding.py:44-53 | an encoding has ceil(8·\|b\|/k) characters |
| `HumanEncodingLaws.EncodedValue` | shard_core/service/human_encoding.py:44-53 | read as a number in base 2^k, most significant character first, the encoding is the big-endian number of the bytes times 2^((-8·\|b\|) mod k) |
| `HumanEncodingLaws.DecodedValue` | shard_core/service/human_encoding.py:56-72 | a text that decodes is, read so, the number of its bytes times 2^((k·\|s\|) mod 8) |
| `HumanEncodingLaws.ValueDetermines` | shard_core/service/human_encoding.py:34-36 | texts of equal length with equal numbers are equal, so both laws fix every character |
| `HumanEncodingLaws.RoundTrip` | shard_core/service/human_encoding.py:44-72 | decode(encode(b)) is b and floor(pad/8) zero bytes |
| `HumanEncodingLaws.RoundTripExactlyWhen` | shard_core/service/human_encoding.py:44-72 | it is b exactly when the padding is shorter than a byte, always for k <= 8 |
| `HumanEncodingLaws.EncodedInjective` | shard_core/service/human_encoding.py:44-53 | equally long byte strings with the same encoding are equal |
| `HumanEncodingLaws.ReverseRoundTrip` | shard_core/service/human_encoding.py:56-72 | whatever decodes is the encoding of its decoding followed by floor(o/k) first characters, o = (k·\|s\|) mod 8 |
| `HumanEncodingLaws.ReverseExactlyWhen` | shard_core/service/human_encoding.py:56-72 | it is that encoding exactly when no whole character fits into the overhang |
| `HumanEncodingLaws.SamePrefixExactlyWhen` | shard_core/data_model/identity.py:44-47 | encodings of equally long inputs share j characters exactly when the inputs share min(8·\|b\|, k·j) bits, so short ids are well defined |
| `HumanEncodingLaws.ShardIdLength` | shard_core/service/crypto.py:29-32 | with the alphabet in use a 64-byte digest gives 103 characters and decodes back |
| `HumanEncoding.PaddingAndGroups` | shard_core/service/human_encoding.py:79-83 | padding is -bits mod k and there are ceil(bits/k) groups |
| `Database.AdaptsBackExactlyWhen` | shard_core/database/db_snapshot.py:155-162 | a value survives writing and adapting exactly when it is not a JSON document that is null |
| `Database.InsertAllMerges` | shard_core/database/db_snapshot.py:139-152 | inserts with ON CONFLICT DO NOTHING keep existing rows and add exactly the first row of each absent key |
| `Snapshot.Store.WriteSnapshot` | shard_core/database/db_snapshot.py:47-76 | the file lists every row of every table exactly once |
| `Snapshot.Store.RestoreSnapshot` | shard_core/database/db_snapshot.py:79-107 | nothing happens without a file or with identities present; else it succeeds exactly when every row adapts and every sequence can be set; a failure leaves all rows, and moves exactly the sequences of the tables that were done by then |
| `Snapshot.Store.RestoreTable` | shard_core/database/db_snapshot.py:139-184 | the rows of one table are merged and its sequence set behind the largest id, or the restore fails exactly when it must |
| `Snapshot.Store.MaxId` | shard_core/database/db_snapshot.py:171-184 | COALESCE(MAX(id), 1) |
| `Snapshot.RestoreIsLeftBiasedMerge` | shard_core/database/db_snapshot.py:79-107 | each restored table is its own rows plus exactly the first snapshot row of each absent key |
| `Snapshot.SecondRestoreChangesNothing` | shard_core/database/db_snapshot.py:79-107 | restoring the same snapshot again changes neither rows nor sequences |
| `Snapshot.WriteThenRestore` | shard_core/database/db_snapshot.py:47-107 | a snapshot restored into an empty database reproduces the rows of every table |
| `Snapshot.SnapshotIsRestorable` | shard_core/database/db_snapshot.py:47-107 | and no insert or sequence reset of it is refused |
| `Snapshot.SequenceSetIsFresh` | shard_core/database/db_snapshot.py:171-184 | after the reset the next generated id exceeds every id, whatever ids were inserted |
| `Snapshot.RestoredKeepsValid` | shard_core/database/db_snapshot.py:79-107 | a restore keeps every table valid and every sequence ahead of its ids |
| `Snapshot.FailedKeepsValid` | shard_core/database/db_snapshot.py:171-184 | so does a restore that fails half-way, although its sequences are not rolled back |
| `Snapshot.FailureChangesNothingExactlyWhen` | shard_core/database/db_snapshot.py:171-184 | a failed restore leaves everything as it was exactly when the sequences it set were there already |
| `Snapshot.GeneratedNeverCollides` | shard_core/database/db_snapshot.py:171-184 | a generated id is never present, and generating keeps the sequence ahead |
| `Snapshot.Store.InsertGenerated` | shard_core/database/db_snapshot.py:171-184 | an insert that generates its id meets no row with it |
| `Snapshot.Store.Replay` | shard_core/database/db_snapshot.py:79-184 | every run of generated inserts, deletes and restores keeps every sequence ahead of every id |
| `TinyDates.ReadBackExactlyWhen` | shard_core/database/tinydb_migration.py:38-50 | a document written by TinyDB is parsed back as it was exactly when none of its own texts reads as a date |
| `TinyImport.OnlyTakenKeysMatter` | shard_core/database/tinydb_migration.py:53-55 | records that agree on the keys a table takes become the same row |
| `TinyImport.CompleteExactlyWhen` | shard_core/database/tinydb_migration.py:87-184 | a row has every column of the insert exactly when every key without a default is in the record |
| `TinyTables.ImportTakes` | shard_core/database/tinydb_migration.py:72-80 | in every imported row a key of the record gives its own value, whatever it is, and a missing one its default; of records with one key the first counts, and rows that were there stay |
| `TinyLaws.FileFits` | shard_core/database/tinydb_migration.py:58-80 | the file of a valid database can be imported into any database with the same tables |
| `TinyLaws.FileGivesBack` | shard_core/database/tinydb_migration.py:58-184 | imported into an empty one it gives every table with own keys back, and backups and usage tracks up to their ids |
| `Boot.Host.MigrateTinydb` | shard_core/database/tinydb_migration.py:58-184 | the import succeeds exactly when every row it makes fits its table; then own-key rows are merged, other rows get generated ids, every value is the record's own or the default of a missing key, and the file is gone; otherwise every row and the file stay |
| `Boot.Host.MigrateFileOf` | shard_core/database/tinydb_migration.py:58-84 | importing the file of a valid database into an empty one succeeds and gives that database back |
| `Boot.Host.Boot` | shard_core/database/database.py:27-36 | the first source with any identity gives all identities: database and import, else snapshot, else one created default; a start that fails leaves the rows as they were before the stage that failed |
| `Boot.Host.Reboot` | shard_core/database/database.py:27-36 | a start after a successful start changes nothing |
| `Boot.Host.BootTwice` | shard_core/app_factory.py:79-99 | two starts in a row leave the database as the first one did |
| `Boot.IdentitiesSettled` | shard_core/database/db_snapshot.py:91-94 | identities of the import and of the snapshot are never mixed |
| `Boot.BootHasOneDefaultExactlyWhen` | shard_core/service/identity.py:12-26 | startup ends with exactly one default exactly when its source has no identity or exactly one default |
| `Boot.ImportIntoEmpty` | shard_core/database/tinydb_migration.py:87-110 | importing records with exactly one default into an empty table leaves exactly that default |
| `Boot.DefaultMoves` | shard_core/service/identity.py:29-40 | unmarking the default and marking id leaves id as the only default, also when they are the same, and nothing else changed |
| `Boot.IdentityService.MakeDefault` | shard_core/service/identity.py:29-40 | make_default refuses an unknown id and otherwise moves the mark |
| `Boot.IdentityService.Update` | shard_core/database/identities.py:46-61 | only updatable columns, only the named row |
| `Boot.IdentityService.Replay` | shard_core/service/identity.py:12-47 | creations, updates and moves of the default in any order keep exactly one default |
| `Boot.UpdateKeepsDefaultExactlyWhen` | shard_core/service/identity.py:43-47 | an update keeps exactly one default exactly when it leaves the mark of its row as it is |
| `StartApp.Classify` | shard_core/service/app_tools.py:53-76 | which container states are classified as running, paused and missing, in both directions |
| `StartApp.AppStack.ComposeUp` | shard_core/service/app_tools.py:79-94 | a stale network and a name conflict are retried once after a compose down, any other failure is not; it raises exactly when that does not help, and otherwise every container runs |
| `StartApp.AppStack.Start` | shard_core/service/app_tools.py:110-164 | from STOPPED, RUNNING, DOWN or PAUSED and any containers it ends RUNNING with every container running, or raises exactly when compose cannot start what has to be started; an app in any other status, or without a row, is left alone |
| `StartApp.AppStack.StartTwice` | shard_core/service/app_tools.py:110-164 | an immediate second revive issues no command |
| `StartApp.Throttle.CallAll` | shard_core/util/misc.py:5-36 | which calls of a whole run are let through |
| `StartApp.DroppedExactlyWhen` | shard_core/util/misc.py:5-36 | a call is dropped exactly when one with the same argument was let through at most the minimum duration before |
| `TraefikConfig.Compiler.Compile` | shard_core/service/traefik_dynamic_config.py:21-38 | the nested loops compute the compiled configuration |
| `TraefikConfig.KeyInjective` | shard_core/service/traefik_dynamic_config.py:161-212 | different apps or port kinds never share a key |
| `TraefikConfig.KeyIsNotCore` | shard_core/service/traefik_dynamic_config.py:41-151 | no app overwrites a core router or service |
| `TraefikConfig.CompiledIsExact` | shard_core/service/traefik_dynamic_config.py:21-38 | in the compiled HTTP and TCP sections, routers and services are the core's and exactly one per (name, port kind) that has an entrypoint, pointing where the last such entrypoint says |
| `TraefikConfig.CompiledIsClosed` | shard_core/service/traefik_dynamic_config.py:21-38 | every service and middleware a router mentions is defined or api@internal |
| `TraefikConfig.TcpExactlyWhen` | shard_core/service/traefik_dynamic_config.py:154-158 | the TCP section exists exactly when some app has an MQTT entrypoint |
| `TraefikConfig.AppIsRouted` | shard_core/service/traefik_dynamic_config.py:161-212 | with distinct names, an app's router and service are those of its own last entrypoint of the kind |
| `TraefikConfig.HttpReachesItsApp` | shard_core/service/traefik_dynamic_config.py:161-212 | with distinct names, the router for an app's own host passes app-error and auth and leads to the container and port of its own last HTTP entrypoint |
| `TraefikConfig.MqttReachesItsApp` | shard_core/service/traefik_dynamic_config.py:161-212 | likewise for MQTT |
| `TraefikConfig.RulesAreDistinct` | shard_core/service/traefik_dynamic_config.py:161-182 | routers of different apps have different rules |
| `TraefikConfig.EverythingElseIsGuarded` | shard_core/service/traefik_dynamic_config.py:41-182 | every HTTP router but the public API and the terminal page carries an authentication middleware |
| `TraefikConfig.ApiIsKept` | shard_core/service/traefik_dynamic_config.py:41-64 | whatever apps there are, the public, protected and management paths keep their rules, service and own authentication |
| `TraefikConfig.PagesAreKept` | shard_core/service/traefik_dynamic_config.py:65-78 | so do the terminal page and the proxy's dashboard |
| `TraefikConfig.CoreIsReached` | shard_core/service/traefik_dynamic_config.py:134-150 | so do the services of the core and of the terminal |
| `TraefikConfig.CollectAppInfos` | shard_core/service/app_installation/util.py:113-137 | the compiled apps are exactly the routable rows with loadable metadata |
| `UsageReport.PrevDayIsOneLess` | shard_core/service/app_usage_reporting.py:31-37 | the day before is one day earlier, across months, years and leap days |
| `UsageReport.OrdinalOrders` | shard_core/service/app_usage_reporting.py:31-37 | the day count orders exactly as the dates do |
| `UsageReport.WindowIsLastMonth` | shard_core/service/app_usage_reporting.py:31-37 | the window is exactly the previous calendar month |
| `UsageReport.ConsecutiveMonthsAbut` | shard_core/service/app_usage_reporting.py:31-37 | windows of consecutive months abut without overlap, across year ends and leap years |
| `UsageReport.Reporter.SearchByTimeRange` | shard_core/database/app_usage.py:24-31 | exactly the tracks of the half-open range, each as often as it is in the table |
| `UsageReport.Reporter.ReportAppUsage` | shard_core/service/app_usage_reporting.py:31-52 | no report exactly when nothing was tracked; else the counts per app are the occurrences in the last month and no app without any is listed |
| `UsageReport.UsageIsConserved` | shard_core/service/app_usage_reporting.py:41-52 | over any stretch of months the counts of the windows add up to all occurrences in the covered span |
| `UsageReport.Reporter.Run` | shard_core/service/app_usage_reporting.py:19-52 | the reports returned in a run of tracks and reports, each made from the table as it was then |
| `UsageReport.RunIsConservedExactlyWhen` | shard_core/service/app_usage_reporting.py:19-52 | with one report a month, the usages returned add up to all occurrences in the final table's span exactly when nothing was tracked into the window of a report already made |
| `UsageReport.RunIsConserved` | shard_core/service/app_usage_reporting.py:19-52 | so they do whenever the clock never runs backwards and no report goes by a date that has not begun |
| `UsageReport.ExactlyOneReport` | shard_core/service/app_usage_reporting.py:31-52 | each track of the span is counted in exactly one report |
| `AuthCache.Auth.FindApp` | shard_core/web/internal/auth.py:133-138 | whoever asks gets the current row or learns that there is none |
| `AuthCache.Auth.UpdateLastAccess` | shard_core/data_model/app_meta.py:167-180 | row and shared object change together, at most once per update frequency, so the cache stays current without a signal |
| `AuthCache.Auth.Serve` | shard_core/web/internal/auth.py:32-44 | over any history of requests and writes the cached service answers exactly as one that always reads the table, and leaves the same table |
| `AuthCache.RecordLagsBoundedly` | shard_core/data_model/app_meta.py:167-180 | the recorded access is never ahead of the last use and behind it by less than the update frequency |
| `AuthCache.RowsAreLastWritten` | shard_core/web/internal/auth.py:32-44 | in every history an app has a row exactly when it is installed, with the reason and the status written last; requests change neither |

## Left out

- HTTP routes, websockets, SQL text, the file system, template rendering and YAML: only their effect on rows, queue and files is modelled.
- docker: a command is a step with an arbitrary answer. In the protocol `stacks` over-approximates which apps may have containers, since a failed `compose up` may have created some; `Agreement` adds what the containers are, for runs in which the commands on the app succeed.
- InstallProtocol: database errors, and a process that stops in the middle of a turn sequence, are not modelled; neither are the DOWN statuses that a graceful shutdown writes (shard_core/app_factory.py:104-109). The safety theorem therefore starts from any rows boot may find in which nothing but uninstallations was under way, which `InstallSafety.BootInv` shows to be the exact condition.
- InstallProtocol: the throttle in front of a revive is not applied; any revive may be spawned at any time, which only adds schedules.
- Agreement.AgreeUnlessMixed: sufficient. Where kinds of work mix, `Agreement.MixedWorkMayPart`, `Agreement.MixedWithTaskMayPart` and `Agreement.PauseOutlivesTeardown` give schedules that end in disagreement, but a mixture may also end in agreement, and a stop beside the worker is counted as mixing. Runs in which a command of a lifecycle call fails for good, an unpause of the worker fails, or the worker creates containers over running or frozen ones are not covered; for the last, `Creation.EndsTrueExactlyWhen` is exact.
- Teardowns.ContainersGoExactlyWhen: starts at the write of UNINSTALLING; before it the teardown still checks the row and may unfreeze it, which `InstallAlone.TeardownAlone` covers for a teardown nobody disturbs.
- Lifecycle: a control cycle runs without wakes, API calls or installations of the apps in between; the clock readings per app are parameters of the cycle. Reading PSI values and reclaiming memory after a pause are left out.
- LifecycleLaws.PressureStopsEverything: assumes what progress needs of the apps the cycle looks at: their metadata can be loaded, docker succeeds for them, and none is accessed within the grace window.
- HumanEncoding: the source computes floor(log2 n) in floating point, the model exactly. Decoding no whole byte gives no bytes. Random strings are left out.
- Snapshot: JSON and ISO text are left out; their parsers are taken to invert their printers. A snapshot row has all columns of its table, so column defaults play no part.
- Snapshot.Store.Replay: an id may be generated again after its row was deleted and a snapshot was restored; it never meets an id that is present.
- Boot.Host.MigrateTinydb: starts from the JSON of the file with its dates parsed (`TinyDates`). A failed import may have used up ids of generated rows, of which the model promises only that they never come back. A crash between the commit and the renaming of the file, which would import generated rows twice, is not modelled.
- Boot.IdentityService: keys are parameters; the identity cache and its signals are left out.
- StartApp.AppStack.Start: `unpause` is taken to succeed only when every container was paused.
- TraefikConfig: certificate resolvers and the static part of the core routers that no app entry touches (TLS options) are left out.
- UsageReport: sending the report and retrying, and the conversion of the local midnight to UTC, are left out. Conservation needs one report in each month of a stretch and no track timed before the end of a window already reported; a clock that never runs backwards, and report dates that have begun by it, are enough.
- AuthCache: one request runs to its end before the next operation; path matching, terminal and peer authentication are left out, so whether a request is granted is a parameter.
- Pairing, peers, backups, telemetry, app store listings, passphrases and metadata migration: independent of the cores above, and easy beside them.

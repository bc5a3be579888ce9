# Verified models of Home Server Interface

Dafny models of the parts of Home Server Interface (HSI) whose correctness spans many
steps: the root worker's diff, trash, updates, backups, restores, schedulers and
configuration edits, the assistant's conversation, and the Compose files. Each module
states what the code does and proves what it is for. `dafny verify dfyconfig.toml` checks
the whole project (Dafny 4.11).

The disk, Docker, restic and the AI provider are abstract: a call that can fail does so, or
not, by a nondeterministic choice at the place where the source makes it. Concurrent code
is a machine over the steps of its processes.

## Modules

- `Text`, `ConfLines`, `StableSort`, `YamlTree`: strings, lines and fields as Go and
  JavaScript cut them, stable sorting and filtering, an ordered YAML tree and the order in
  which a JavaScript object keeps its keys.
- `UnifiedDiff` (`udiff.go`): the table of longest common subsequences, the walk that makes
  the edit script, hunks with context, and a reader that applies printed hunks.
- `TrashProtocol` (`trash.go`): any number of movers and restorers of one user, one system
  call at a time, each able to stop for ever after any of them. `TrashRuns` says which runs
  keep every record and restore the right item. `Trash` is the same calls as whole
  operations, with delete, empty, purge and list.
- `UpdateDatabase`, `UpdateFiles`, `UpdateRetention`, `UpdateRecovery` (`update_fd.go`,
  `update_rollback.go`, `update_state.go`): what a rollback does to the database, to the
  configuration files and units, which releases and snapshots pruning keeps, and a machine
  over the calls of installer, rollback and recovery in which any of them can die.
- `Chat`, `ChatWellFormed`, `ChatTurn` (`chat.ts`): the rows a turn saves under aborts,
  limits, failures and notes, and the conversation rebuilt from any window of them.
- `YamlTree`, `Compose`, `ComposeLaws`, `ComposeDocument`, `ComposeRoundTrip`
  (`compose.ts`, `model.ts`): the form model written into a document that also holds what
  HSI does not own, and read back.
- `RestoreMerge` (`restore_fd.go`): the merge of a restored tree into the live one.
- `Maintenance` (`maintenance_schedule.go`, `maintenance.go`): calendar slots, the bounded
  searches, and the runs over a sequence of ticks. The calendar is the Gregorian one.
- `JobLanes` (`main.go`): the dispatcher and its two lanes.
- `BackupRun` (`backup_run.go`): apps stopped, a snapshot, apps started, a prune.
- `Fstab`, `Volumes`, `BootOptions`, `MdadmConf` (`fstab.go`, `volumes.go`, `mdadm_conf.go`):
  edits of the marked entries of two system files.
- `Unzip` (`fs.go`): the checks of an archive before anything is written, and the unpacking
  they make safe.

## Where the code does less than a reader may expect

These are results about the code as it is, each with its exact condition; where an input
fails, a lemma shows one.

- A unified diff shows nothing under its two names exactly when the texts differ by one
  final newline at most (`UnifiedDiff.NothingShown`, `UnifiedDiff.SameLines`).
- `compareVersions` is a total preorder and not an order: two tags compare equal exactly
  when they read as the same numbers and suffix (`UpdateRetention.EqualExactly`), so a
  leading zero makes different tags equal (`UpdateRetention.EqualVersionsDiffer`). Tags
  without leading zeros or numbers out of range are ordered
  (`UpdateRetention.PlainVersionsAreOrdered`).
- No item that a mover brought ever loses its record, in any run, exactly when every item of
  the trash it starts from has an info file, complete or not
  (`TrashRuns.NoRecordIsLostExactly`). Items without one come from a purge or a delete that
  unlinks a record a mover has just reserved (`apps/root-worker/trash.go:611-630`), or from
  data lost with the power; movers and restorers that die leave none.
- A restore moves the item that was in the trash when its record was read exactly when one
  was there then and no other restorer of the name took it in between
  (`TrashRuns.RestoresExactly`); then it goes to its target or back to where it was
  (`TrashRuns.RestoresWhatItRead`). In every trash both can fail, and another item is
  restored: with a second restorer at work (`TrashRuns.AnotherRestorerMisleads`), or with
  none, when the record read was that of a mover that then withdraws
  (`TrashRuns.MoverMisleads`).
- When the sync after the rename of the database fails, the journals of the version rolled
  back from are put back beside the snapshot's database. In no other case are they ever
  beside it (`UpdateDatabase.Folder.RestoreDatabase`).
- The conversation sent to the model is well formed exactly when every call that some
  result names is answered by the results right after its own message
  (`ChatWellFormed.AnyWindow`). Distinct, non-empty ids over the conversation are enough.
  Ids can repeat: a provider that gives none has `call_0`, `call_1`, … filled in for every
  reply (`apps/backend/src/services/assistant-provider.ts:128`), and a reused id can leave
  a call without its result (`ChatWellFormed.ReusedIdDangles`).
- A form model comes back from the file exactly when it is canonical
  (`ComposeRoundTrip.RoundTripExactly`). The less obvious conditions: a port with a domain
  is the first with its container port (53/tcp and 53/udp share one), and environment,
  label and host keys are in the order a JavaScript object keeps them, which puts keys that
  look like array indexes first.
- A named volume called `constructor`, `toString` or another name every JavaScript object
  answers to is never declared, since the `in` operator finds it
  (`ComposeLaws.VolumesOnlySynced`).
- A subkey `__proto__` of x-hsi is lost when the file is written, since assigning it sets an
  object's prototype; every other unknown subkey is kept (`ComposeLaws.UnknownKeysKept`,
  `ComposeLaws.ProtoSubkeyIsLost`).
- Removing an fstab or mdadm entry gives back the original file exactly when the file had
  nothing for it and ended with a newline.
- `removeFstabSources` drops exactly the entries of the sources and their markers, unless an
  empty string is among the sources and a marker has no entry after it
  (`Volumes.OtherLinesKeptExactly`, `Volumes.EmptySourceDropsComment`). Its callers pass
  device paths and `UUID=` sources only (`apps/root-worker/plan_raid.go:124-126`,
  `apps/root-worker/plan_volume_remove.go:138`).
- The boot options keep the volumes of a file exactly when no marker that has a volume is
  taken for the entry of a marker for the mount point `HSI-managed`
  (`BootOptions.BootKeepsVolumesExactly`, `BootOptions.SwallowedMarkerIsLost`). HSI's own
  markers are for absolute paths (`apps/root-worker/plan_mount.go:40-51`), and a file with
  such markers only is safe (`BootOptions.AbsoluteIsSpared`): it takes a marker written by
  hand.
- The slots of the job runner account for a fetch exactly when it gives one job at most
  (`JobLanes.OneSlotCoversOneJob`).
- A backup run starts every app it tried to stop exactly when no panic comes while an app is
  looked at after one was stopped, while one is stopped, or while one that is not the last
  is started (`BackupRun.StartedExactly`): the deferred restart is set up after the stops,
  and runs once (`BackupRun.PanicLeavesStopped`).
- The record of a backup run does not name the apps that did not start again exactly when a
  signal came and the snapshot had succeeded, or had failed before the signal
  (`BackupRun.NamesLost`). What it records as consistent says only that no look and no stop
  failed, and is so of a run that was interrupted before it looked at anything
  (`BackupRun.ConsistentOfNothing`).
- A merge that stops leaves directories with the mode 0700 they were made with: exactly those
  on the way to where it stopped that were not there before, and any that a warning names as
  replaced meanwhile (`RestoreMerge.StoppedFinds`). One that goes on to its end leaves only
  the latter (`RestoreMerge.FinishedMeans`).
- A file comes back from a snapshot as it was exactly when its mode has nothing but
  permission bits (`UpdateFiles.CopiedExactly`).
- An archive whose checks passed is unpacked in part exactly when a write fails
  (`Unzip.DoUnzip`).

## Model

| member | source | states |
|---|---|---|
| UnifiedDiff.FillTable | apps/root-worker/udiff.go:22-37 | the nested downward loops fill every cell with the length of a longest common subsequence of the two suffixes |
| UnifiedDiff.LcsIsMaximal | apps/root-worker/udiff.go:22-37 | no common subsequence of two suffixes is longer than the table says |
| UnifiedDiff.EditScript | apps/root-worker/udiff.go:44-59 | the walk's script replays the old text on its kept and deleted lines and the new text on its kept and added ones, numbers its lines, and keeps as many as the table allows |
| UnifiedDiff.KeptIsCommon | apps/root-worker/udiff.go:44-59 | what any script keeps is a common subsequence, and fixes the script's length |
| UnifiedDiff.ScriptIsShortest | apps/root-worker/udiff.go:22-59 | no script between the same texts keeps more lines or is shorter |
| UnifiedDiff.HunkEnd | apps/root-worker/udiff.go:69-94 | a hunk ends after its last change and two lines of context, and no change follows within reach |
| UnifiedDiff.PrintHunks | apps/root-worker/udiff.go:60-117 | the printed hunks are in order and apart, and hold exactly the lines near a change |
| UnifiedDiff.ReadHunksRoundTrip | apps/root-worker/udiff.go:95-115 | reading the printed lines by the lengths in their headers gives back the hunks |
| UnifiedDiff.PatchGivesNewText | apps/root-worker/udiff.go:60-117 | applying the hunks to the old text at their printed starts and lengths gives the new text |
| UnifiedDiff.ReversePatchGivesOldText | apps/root-worker/udiff.go:60-117 | read backwards they give the old text from the new one, so the new side's fields are right too |
| UnifiedDiff.EmptySideStartsAtZero | apps/root-worker/udiff.go:95-110 | a hunk without old lines is at the start of the file, so its printed start 0 is its true place |
| UnifiedDiff.NothingShown | apps/root-worker/udiff.go:60-117 | no hunk is printed exactly when the two texts have the same lines |
| UnifiedDiff.SameLines | apps/root-worker/udiff.go:121-127 | two texts have the same lines exactly when they differ by one final newline at most |
| UnifiedDiff.SplitLinesAre | apps/root-worker/udiff.go:121-127 | no line holds a newline, and the lines joined by newlines are the text, with or without one final newline; there are none exactly for an empty text and a single newline |
| UnifiedDiff.LinesAreUnique | apps/root-worker/udiff.go:121-127 | a text has its lines in one way only |
| UnifiedDiff.BlankLineIsNotShown | apps/root-worker/udiff.go:121-127 | an empty file and one blank line have the same lines |
| UnifiedDiff.TextTellsLines | apps/root-worker/udiff.go:62-115 | the printed text is that of no other hunks: each of its lines reads back, header or body |
| UnifiedDiff.UnifiedDiff | apps/root-worker/udiff.go:13-119 | no text exactly for equal texts; too large or changes, each exactly when; changes patch the lines of the old text, as its newlines cut it, into those of the new and back, from a shortest script |
| TrashProtocol.StepKeepsConsistent | apps/root-worker/trash.go:314-379 | whatever mover or restorer runs next, every item brought has its complete record, every other is as it was with its record, and each name has at most one owner, but for the names of items without an info file |
| TrashProtocol.StepConserves | apps/root-worker/trash.go:314-379 | whatever runs next, every entry ever made is at exactly one place |
| TrashProtocol.MoveOutOverwritesNothing | apps/root-worker/trash.go:505-511 | a restore replaces no entry of the place |
| TrashProtocol.OnlyMoversTake | apps/root-worker/trash.go:314-379 | an entry leaves the place only by the mover of that item, and is then in the trash, unchanged |
| TrashProtocol.EveryRunIsSafe | apps/root-worker/trash.go:314-514 | all of this in every state of every run of any number of processes that may die after any call, from any trash |
| TrashProtocol.AnyTrashBegins | apps/root-worker/trash.go:314-379 | any trash with nobody at work is such a start |
| TrashProtocol.OutAndBack | apps/root-worker/trash.go:505-511 | a subtree moved out and back where it was leaves the place as it was |
| TrashRuns.LeftoverCostsARecord | apps/root-worker/trash.go:340-379 | from any trash and for any item in it without an info file, a run in which the next item brought under its name loses its record |
| TrashRuns.NoRecordIsLostExactly | apps/root-worker/trash.go:340-514 | no item brought loses its record in any run exactly when every item of the start has an info file |
| TrashRuns.RestoresExactly | apps/root-worker/trash.go:482-512 | what a restore moves was there under the name from the read of its record exactly when an item was there then and no other restorer of the name took it |
| TrashRuns.RestoresWhatItRead | apps/root-worker/trash.go:482-512 | with an item there at the read and no other restorer of the name at work, that item goes to its target, or to where a mover took it from |
| TrashRuns.AnotherRestorerMisleads | apps/root-worker/trash.go:482-512 | from any trash, a run with a second restorer in which another item is restored to where the first was |
| TrashRuns.MoverMisleads | apps/root-worker/trash.go:371-512 | from any trash, a run with one restorer that reads the record of a mover which withdraws, and restores what another mover brought |
| Trash.UserTrash.ReserveName | apps/root-worker/trash.go:340-370 | the first candidate name free in both folders gets a complete record; no other record changes; when no call fails it succeeds exactly when some name can be reserved, and leaves nothing when it does not |
| Trash.UserTrash.DoTrash | apps/root-worker/trash.go:314-379 | on success the item is in the trash under a new name that a folder can hold, with its record, so that it is listed, and nothing else moved; on failure nothing moved; when no call fails, success exactly for an item of the place, not the trash, with a name to reserve |
| Trash.UserTrash.MakeParents | apps/root-worker/trash.go:502-504 | only missing parents are made, all of them on success |
| Trash.UserTrash.DoTrashRestore | apps/root-worker/trash.go:468-514 | on success the whole item is at its destination and nothing was replaced, on failure it is still in the trash with its record; when no call fails, success exactly for a recorded item whose destination is free, and the record goes |
| Trash.UserTrash.RemoveTrashItems | apps/root-worker/trash.go:546-579 | exactly the given names, or all, go with their records; no item is left without its record; a failure leaves a part of one item at most; when no call fails, success exactly when all names are valid, and then nothing is left of an emptied trash |
| Trash.UserTrash.PurgeRecord | apps/root-worker/trash.go:611-634 | a record goes with its item exactly when it is due; only a failing call makes it fail, and leaves the record, and the item whole, in part or gone |
| Trash.UserTrash.Purge | apps/root-worker/trash.go:599-636 | on success, which only a failing call prevents, what was due is gone and counted, and at any failure nothing that was not due is touched and a part of one item at most is left |
| Trash.UserTrash.List | apps/root-worker/trash.go:425-464 | the recorded items and no others, once each |
| Trash.ValidExactly | apps/root-worker/trash.go:74-77 | valid are exactly the names a folder can hold, those that as a path lead to just one entry in it |
| UpdateDatabase.Folder.StageAt | apps/root-worker/update_fd.go:103-137 | only the staged name is ever touched |
| UpdateDatabase.Folder.CommitAt | apps/root-worker/update_fd.go:140-146 | the staged file replaces the live one whole, or nothing but the staged name changed; it fails also when the sync after the rename does |
| UpdateDatabase.Folder.SetJournalsAside | apps/root-worker/update_rollback.go:132-154 | the live journals are under their aside names, all of them on success |
| UpdateDatabase.Folder.PutBack | apps/root-worker/update_rollback.go:132-139 | the journals are as before unless a rename back failed just now, and the database is not touched |
| UpdateDatabase.Folder.PlaceDatabase | apps/root-worker/update_rollback.go:155-159 | the database is renamed into place, or database and journals are as before; a failed sync alone leaves it placed with the journals put back |
| UpdateDatabase.Folder.RestoreDatabase | apps/root-worker/update_rollback.go:98-167 | it succeeds when no call fails; in every state on the way the snapshot's database is never beside a journal of the version rolled back from, unless the sync after its rename failed; on success database and WAL are the snapshot's; when it is not placed, all is as before unless putting back failed in this call; nothing is left staged or aside unless a removal or a rename failed |
| UpdateFiles.Host.SnapshotFile | apps/root-worker/update_state.go:350-372 | one file's existence, content and permission bits are recorded as they are; refused only for a link that is not a unit, or when a call fails |
| UpdateFiles.Host.TakeFiles | apps/root-worker/update_state.go:335-348 | every listed path is recorded as it is on disk, unless one is such a link or a call fails |
| UpdateFiles.Host.RestoreFile | apps/root-worker/update_rollback.go:205-228 | one file becomes what its record says, owner included, or stays; no other file changes |
| UpdateFiles.Host.RemoveLinksTo | apps/root-worker/update_rollback.go:275-300 | exactly the readable links to removed units go |
| UpdateFiles.Host.SweepLinks | apps/root-worker/update_rollback.go:260-267 | in all link folders, and in no other |
| UpdateFiles.Host.RemoveNewUnits | apps/root-worker/update_rollback.go:238-272 | files of the systemd folder with the prefix and one of the four endings that are not listed go with their links, and nothing else |
| UpdateFiles.UnitNames | apps/root-worker/update_state.go:146-157 | a unit is a file in the systemd folder whose name has the prefix and ends in .service, .timer, .path or .target |
| UpdateFiles.LastName | apps/root-worker/update_rollback.go:293 | the base of a link target is the name after its last slash, whatever slashes follow |
| UpdateFiles.Host.RestoreListed | apps/root-worker/update_rollback.go:182-192 | each listed file is as its last record says, whatever failed before it |
| UpdateFiles.Host.RestoreFiles | apps/root-worker/update_rollback.go:172-203 | when no call fails it succeeds exactly when every copy is there and none is a link that is not a unit; on success the listed files are as recorded, of the files in the systemd folder with the prefix and one of the four endings only the listed ones are left, no readable link names a removed unit, and the rest is untouched |
| UpdateFiles.Host.RoundTrip | apps/root-worker/update_rollback.go:172-300 | snapshot, an update that leaves anything at all, restore, successful when no call fails exactly if no listed path was a link other than a unit: existence, content, owner and permission bits of every listed file are back; with a unit listed no other unit is there and exactly the readable links to units that are gone are gone too; with all listed the units are those of before; with none listed units and links stay |
| UpdateFiles.CopiedExactly | apps/root-worker/update_fd.go:174-179 | a copy is the file itself exactly when its mode has nothing but permission bits |
| UpdateRetention.CompareIsAntisymmetric | apps/root-worker/update_state.go:734-756 | comparing the other way round gives the opposite |
| UpdateRetention.CompareIsTransitive | apps/root-worker/update_state.go:734-756 | at most is transitive, so the comparison is a total preorder |
| UpdateRetention.EqualVersionsDiffer | apps/root-worker/update_state.go:758-766 | a leading zero makes two different versions compare equal |
| UpdateRetention.EqualExactly | apps/root-worker/update_state.go:734-766 | two tags compare equal exactly when they read as the same numbers and suffix |
| UpdateRetention.PlainVersionsAreOrdered | apps/root-worker/update_state.go:734-766 | tags without leading zeros and below the integer limit compare equal only when they are the same |
| UpdateRetention.ComparesByAge | apps/root-worker/update_state.go:734-756 | a tag in range compares lower exactly when its numbers come earlier, or they are equal and it alone has a suffix or the earlier one |
| UpdateRetention.VersionsAreTags | apps/root-worker/update_state.go:51 | a version is exactly v, three numbers and perhaps a suffix of letters, digits and dots |
| UpdateRetention.SnapshotNames | apps/root-worker/update_state.go:273 | a snapshot is named by two versions with a dash between them |
| UpdateRetention.ReadableExactly | apps/root-worker/update_state.go:773-790 | listed are the snapshots with such a name whose manifest names the same two versions |
| StableSort.SortIsStable | apps/root-worker/update_state.go:790-864 | elements that the order does not tell apart stay in the order they had |
| UpdateRetention.UpdateState.PruneReleases | apps/root-worker/update_state.go:871-885 | when every removal succeeds exactly the releases to keep are left, none of those is ever removed, and no release removed is newer than one kept that is not pinned |
| UpdateRetention.RemovedIsOlder | apps/root-worker/update_state.go:855-885 | no release that is not kept is newer than one that is kept without being pinned |
| UpdateRetention.UpdateState.PruneListed | apps/root-worker/update_state.go:805-825 | the first loop drops exactly the listed snapshots that are not to be kept |
| UpdateRetention.UpdateState.PruneSnapshots | apps/root-worker/update_state.go:805-833 | the same for snapshots, and the unreadable ones go |
| UpdateRetention.TargetIsNewest | apps/root-worker/update_rollback.go:375-382 | the rollback target is the newest readable snapshot that goes back from the version |
| UpdateRetention.RemovedSnapshotIsOlder | apps/root-worker/update_state.go:805-825 | no snapshot that is not kept, of an installed release, was made after one that is kept, but for the rollback target |
| UpdateRetention.UpdateState.PruneUpdateState | apps/root-worker/update_state.go:795-799 | releases first, then snapshots by the releases left |
| UpdateRetention.PruneKeepsWhatRollbackNeeds | apps/root-worker/update_state.go:795-885 | the current release, the rollback target and the release it goes back to are kept, every other snapshot kept goes back to an installed release, and the counts are bounded |
| UpdateRetention.PruneIsIdempotent | apps/root-worker/update_state.go:795-885 | pruning again removes nothing |
| UpdateRetention.ListedAfterPrune | apps/root-worker/update_state.go:805-833 | the list of snapshots after pruning is the kept part of the list, in order |
| UpdateRetention.RankedAfterPrune | apps/root-worker/update_state.go:855-885 | the ranking of releases after pruning is its top, then pinned ones |
| UpdateRecovery.UpdateHost.GoBack | apps/root-worker/update_rollback.go:39-55 | on success services are stopped, the release switched and both restores done, in this order |
| UpdateRecovery.UpdateHost.ComeUp | apps/root-worker/update_rollback.go:56-69 | on success units are reloaded, services started and healthy, after all that |
| UpdateRecovery.UpdateHost.Rollback | apps/root-worker/update_rollback.go:21-75 | from reading the manifest to removing the marker: success exactly when all of it succeeded and is recorded, in this order; no marker is left unless its removal failed; a failure records no success |
| UpdateRecovery.UpdateHost.RecoverUpdate | apps/root-worker/update_rollback.go:346-371 | a marker already recovering is reported and removed, without a rollback; any other leads to a rollback once it says recovering; nothing happens without one, or while the lock is held |
| UpdateRecovery.UpdateHost.RollBackFor | apps/root-worker/update_rollback.go:365-370 | recovering is written and the rollback of that marker begun, or nothing is done |
| UpdateRecovery.StepKeepsUnused | apps/root-worker/update_rollback.go:346-371 | whoever takes the next call or dies, a marker short of recovering has been used by no recovery |
| UpdateRecovery.StepKeepsTrail | apps/root-worker/update_rollback.go:21-75 | a rollback that has seen no failure has just done exactly the calls before its stage |
| UpdateRecovery.StepKeepsInPlace | apps/root-worker/update_rollback.go:39-60 | from stop to start the services are down, and release, database and files are the snapshot's as far as the rollback got |
| UpdateRecovery.EveryRunIsSafe | apps/root-worker/update_rollback.go:21-371 | all of this in every state of every run of installers, recoveries and rollbacks by hand that may die after any call |
| UpdateRecovery.OneRollbackPerMarker | apps/root-worker/update_rollback.go:346-371 | over every run with crashes the marker of an update leads recovery into one rollback at most |
| UpdateRecovery.StartsOnlyWhatIsBack | apps/root-worker/update_rollback.go:21-75 | over every run with crashes services are started only right after stop, switch, both restores and reload of the same rollback, when they are down and release, database and files are all the snapshot's |
| UpdateRecovery.RolledBackIsDeserved | apps/root-worker/update_rollback.go:40-71 | a rollback is recorded as done, or tried to be, only after all nine of its calls succeeded one after the other |
| UpdateRecovery.RolledBackIsTrue | apps/root-worker/update_rollback.go:56-71 | when last.json comes to say so, the services are up on the snapshot's release, database and files |
| UpdateRecovery.FinishedRecoveryLeavesNoMarker | apps/root-worker/update_rollback.go:346-371 | a recovery that comes to its end leaves no marker unless its removal failed |
| UpdateRecovery.GivesUpStopped | apps/root-worker/update_rollback.go:43-55 | a rollback that gives up at the switch or at a restore leaves the services stopped |
| UpdateRecovery.CrashIsRecovered | apps/root-worker/update_rollback.go:346-371 | an installer that marked its update, changed anything and died: recovery reads the marker, rewrites it, and its ten calls bring services, release, database and files back, with rolled back recorded and no marker left |
| UpdateRecovery.DeadIsRecovered | apps/root-worker/update_rollback.go:346-371 | so it is whoever died, in whatever call, with a marker short of recovering |
| UpdateRecovery.RollbackWorks | apps/root-worker/update_rollback.go:21-75 | a rollback by hand or by an installer, whose calls work, brings all back and returns to it |
| UpdateRecovery.InterruptedIsReported | apps/root-worker/update_rollback.go:351-364 | after a recovery that died the next one records the failure and clears the marker, and changes nothing else |
| UpdateRecovery.CommitEndsIt | apps/root-worker/update_rollback.go:346-350 | an update that commits leaves no marker and what it installed |
| Chat.HistoryForModel | apps/backend/src/assistant/chat.ts:141-172 | the loop over waiting calls and held notes gives the conversation the window stands for, empty or starting at a user message |
| Chat.FirstUser | apps/backend/src/assistant/chat.ts:142-143 | the first user row at or after the cut |
| Chat.AppendKeepsOrder | apps/backend/src/assistant/chat.ts:228-272 | a row that answers the next waiting call, or is of another kind, keeps a log orderly |
| Chat.EveryNoteIsSent | apps/backend/src/assistant/chat.ts:147-170 | every user message and every note after the start is sent once and in order, whatever the rows |
| Chat.EveryReplyIsSent | apps/backend/src/assistant/chat.ts:159-167 | every reply of the assistant after the start is sent once and in order, its words whole and of its calls exactly those that have a result |
| ChatWellFormed.GatherOk | apps/backend/src/assistant/chat.ts:147-156 | with distinct ids the results of a message's calls are found, each once and in order, and what follows starts afresh |
| ChatWellFormed.GatherDistinct | apps/backend/src/assistant/chat.ts:150-155 | whatever the rows, no result is sent twice or without a waiting call |
| ChatWellFormed.WellFormedExactly | apps/backend/src/assistant/chat.ts:141-172 | for orderly rows what is sent is well formed exactly when each kept call is answered right after its message, by an id of its own |
| ChatWellFormed.AnyWindow | apps/backend/src/assistant/chat.ts:141-172 | the same for any window of any orderly log, with every result, note and reply once and in order |
| ChatWellFormed.DistinctIdsMakeWindowsWellFormed | apps/backend/src/assistant/chat.ts:136-172 | ids distinct over the conversation make every window well formed |
| ChatWellFormed.ReusedIdDangles | apps/backend/src/assistant/chat.ts:145-163 | a reused id can leave a call without its result |
| ChatTurn.CapToolContent | apps/backend/src/assistant/chat.ts:174-176 | a short result is whole, a long one starts the same |
| ChatTurn.Conversation.Save | apps/backend/src/assistant/route.ts:121-126 | one row, between notes that can come at any wait |
| ChatTurn.Conversation.RefuseCalls | apps/backend/src/assistant/chat.ts:251-258 | at the limit every call gets a refusal as its result, in order, up to a row the database refuses |
| ChatTurn.Conversation.RunCalls | apps/backend/src/assistant/chat.ts:259-269 | the calls are run in order, none after the user's stop, and each that gave something has its own outcome saved, whole up to the limit, and kept in memory |
| ChatTurn.Conversation.KeepPartial | apps/backend/src/assistant/chat.ts:236-243 | what was written before the user's stop is saved, and a failure is passed on with nothing saved |
| ChatTurn.Conversation.Round | apps/backend/src/assistant/chat.ts:244-270 | a reply is saved with its words and calls, then the results of its calls or refusals, and the turn goes on or ends for a reason that is named |
| ChatTurn.Conversation.RunTurn | apps/backend/src/assistant/chat.ts:228-272 | the rows saved are exactly the replies of the model and the outcomes of their calls, in order, up to a failure; call i is sent the history and what the i replies before it left, well formed when the history is; why the turn ended; only a stop or a failure leaves calls without results |
| ChatTurn.Conversation.Respond | apps/backend/src/assistant/route.ts:97-130 | all of this from the last rows stored, starting at a user message; with distinct ids every call is well formed |
| ChatTurn.Conversation.StartTurn | apps/backend/src/assistant/route.ts:59-140 | the user's message, if any, is saved and the turn run on what is then stored, or, when it could not be saved, nothing is sent |
| YamlTree.FindPut | packages/compose/src/compose.ts:116-120 | setting a key changes the value at that key only |
| YamlTree.KeptExactly | packages/compose/src/compose.ts:141-150 | an object built from entries lists them back exactly when keys are distinct and index-like ones come first, increasing |
| YamlTree.IndexesAre | packages/compose/src/compose.ts:141-150 | the keys an object puts first are the decimal numbers below 2^32 - 1, without leading zeros |
| ComposeDocument.NamedVolumeRefs | packages/compose/src/compose.ts:60-70 | the names referenced, each once, where first met |
| ComposeDocument.RefsAre | packages/compose/src/compose.ts:60-70 | a name is referenced exactly when some service's volumes use it |
| ComposeDocument.ServiceRefers | packages/compose/src/compose.ts:55-70 | which names a service uses: those before the first colon of a text, or the source of a mapping of the volume kind, when they can be volume names |
| Compose.VolumeNames | packages/compose/src/compose.ts:55-56 | a volume name is made of letters, digits and, after the first, also of underscore, dot and dash |
| ComposeDocument.RewriteService | packages/compose/src/compose.ts:138-169 | deleting the managed keys and setting them in turn leaves the unknown ones first, then those with a value |
| ComposeDocument.NewXHsi | packages/compose/src/compose.ts:133-168 | unknown subkeys are assigned over, but for the one that sets a prototype, then the model's |
| ComposeDocument.DropStale | packages/compose/src/compose.ts:109-111 | deleting stale declarations one by one leaves the others, in order |
| ComposeDocument.Document.SyncVolumeDeclarations | packages/compose/src/compose.ts:86-114 | the edits in place make the document its synced form |
| ComposeDocument.Document.ApplyModel | packages/compose/src/compose.ts:122-171 | the edits in place make the document its applied form |
| ComposeDocument.Document.Generate | packages/compose/src/compose.ts:180-187 | refused, and nothing written, exactly when a volume is still a place; each name referenced and not declared is then declared with exactly its own name, a declaration goes only when it is exactly that and not referenced, and a network added is external under its own name |
| ComposeDocument.Document.Repair | packages/compose/src/compose.ts:229-236 | reports a change exactly when there is one, and a second repair has nothing to do |
| ComposeLaws.SyncKeepsOthers | packages/compose/src/compose.ts:86-114 | declaring volumes touches no other section |
| ComposeLaws.SyncVolumes | packages/compose/src/compose.ts:86-114 | name by name, what is declared after: missing references added, stale declarations of HSI dropped, the rest kept |
| ComposeLaws.VolumesPinned | packages/compose/src/compose.ts:72-114 | a declaration that is added or dropped is exactly the one that pins its own name |
| ComposeLaws.SyncLeavesNoEmptySection | packages/compose/src/compose.ts:112-113 | an empty section is dropped |
| ComposeLaws.SyncTwice | packages/compose/src/compose.ts:86-114 | a second time nothing changes |
| ComposeLaws.OtherSectionsKept | packages/compose/src/compose.ts:122-171 | other sections of the file keep their values |
| ComposeLaws.OtherServicesKept | packages/compose/src/compose.ts:122-171 | other services keep their values |
| ComposeLaws.UnknownKeysKept | packages/compose/src/compose.ts:132-169 | unknown keys of the service keep values and order, and an unknown subkey of x-hsi keeps its value exactly when it is not __proto__ |
| ComposeLaws.ProtoSubkeyIsLost | packages/compose/src/compose.ts:159-163 | a file whose subkey __proto__ is gone from the file written |
| ComposeLaws.FindSetting | packages/compose/src/compose.ts:138-169 | each managed key has the value the model gives it, or is absent |
| ComposeLaws.ContainerKeys | packages/compose/src/compose.ts:138-169 | the image, name, ports, volumes, networks, environment, labels and hosts of the model, under the keys the file has for them |
| ComposeLaws.LimitKeys | packages/compose/src/compose.ts:152-168 | the capabilities, restart policy, hostname, user, command, limits and x-hsi of the model, under the keys the file has for them |
| ComposeLaws.AccessKeys | packages/compose/src/compose.ts:159-167 | x-hsi holds the pinned URL, if any, and each port with a domain with its container port, domain, TLS and public port |
| ComposeLaws.NetworksOnlyAdded | packages/compose/src/compose.ts:125-130 | networks are only added, and only the app's |
| ComposeLaws.NetworksPinned | packages/compose/src/compose.ts:125-130 | each network of the app that was not there is external under its own name, and no other is added or changed |
| ComposeLaws.VolumesOnlySynced | packages/compose/src/compose.ts:86-114 | declarations change only by adding missing references and dropping unreferenced ones of HSI |
| ComposeLaws.ApplyTwice | packages/compose/src/compose.ts:122-171 | a second generation changes nothing |
| ComposeRoundTrip.PortTextRoundTrip | packages/compose/src/compose.ts:15-18 | a port's text reads back as the port |
| ComposeRoundTrip.PortsExactly | packages/compose/src/compose.ts:286-302 | ports with their domains come back exactly when each with a domain is the first of its container port and the others have no access settings |
| ComposeRoundTrip.VolumesExactly | packages/compose/src/compose.ts:20-22 | a volume comes back exactly when its parts hold no colon and it is bound exactly when its source is a path |
| ComposeRoundTrip.HostsExactly | packages/compose/src/compose.ts:147-151 | hosts come back exactly when an object keeps them |
| ComposeRoundTrip.NamesOfApps | packages/compose/src/model.ts:76 | an app's name has up to 64 lower-case letters, digits and, after the first, dots, underscores and dashes |
| ComposeRoundTrip.ListEntryIs | packages/compose/src/compose.ts:43-53 | an entry of the list form is read as its key, up to the first equals sign, and the rest as its value |
| ComposeRoundTrip.ParseOfApplied | packages/compose/src/compose.ts:243-318 | what is read from a file just written, whatever else it holds, is the model as its texts read back, if valid |
| ComposeRoundTrip.RoundTripExactly | packages/compose/src/compose.ts:122-318 | a valid model written into any file comes back exactly when it is canonical |
| ComposeRoundTrip.FreshRoundTrip | packages/compose/src/compose.ts:180-187 | from a new file without naming a service |
| RestoreMerge.MergeInto | apps/root-worker/restore_fd.go:283-368 | whatever the order of the entries and whatever fails, a merge; the complete one when nothing failed; moved and left files add up; when it goes on to its end every entry is moved, entered, made, or skipped and named by a warning, and every warning names an entry still staged |
| RestoreMerge.MergeFile | apps/root-worker/restore_fd.go:343-366 | one entry moved, or left and named by a warning, after which the merge goes on, or left with an error |
| RestoreMerge.MergeDir | apps/root-worker/restore_fd.go:290-342 | one directory entered or made, or left and named by a warning, after which the merge goes on, or the merge stopped in it |
| RestoreMerge.MergeFinds | apps/root-worker/restore_fd.go:283-368 | path by path: a clash keeps the live side, a staged file wins, directories unite, and what stays staged |
| RestoreMerge.MergeLosesNothing | apps/root-worker/restore_fd.go:283-368 | even cut short: no live entry is lost or changes kind, a new directory has the mode it was made with or the staged one, and a staged file is on one side or the other |
| RestoreMerge.StoppedFinds | apps/root-worker/restore_fd.go:283-368 | a merge that stopped, path by path: as merged, skipped and named, not come to, or with the mode it was made with; the last exactly on the way to where it stopped, where nothing was, or where it is named as replaced |
| RestoreMerge.FinishedFinds | apps/root-worker/restore_fd.go:283-368 | a merge that goes on to its end, path by path: as the complete merge, or the path or one above it is named and nothing was done there |
| RestoreMerge.FinishedMeans | apps/root-worker/restore_fd.go:283-368 | what it leaves staged is named, and so is every clash; a directory made has the staged mode unless named as replaced |
| RestoreMerge.CompleteIsMerged | apps/root-worker/restore_fd.go:283-368 | the complete merge is one a merge may do |
| RestoreMerge.MergeResult.Warn | apps/root-worker/restore_fd.go:270-276 | of all the warnings ever given the first twenty are kept, and then one line says there were more |
| RestoreMerge.RelNameIs | apps/root-worker/restore_fd.go:283-290 | an entry is named by the path from the target to it, its parts with slashes between them |
| RestoreMerge.CountFiles | apps/root-worker/restore_fd.go:213-236 | the entries other than directories, in whatever order they are read; only a failing call gives none |
| RestoreMerge.CountPut | apps/root-worker/restore_fd.go:213-236 | moving one entry changes the count by what it holds |
| RestoreMerge.RemoveChildren | apps/root-worker/restore_fd.go:182-209 | the directory is emptied, or a call failed and a part is gone and nothing else changed |
| Maintenance.DateFollows | apps/root-worker/maintenance_schedule.go:45-58 | the calendar goes from each day to the next, in both directions |
| Maintenance.WeekdayFollows | apps/root-worker/maintenance_schedule.go:51-52 | the weekdays follow each other from a Thursday on 1 January 1970 |
| Maintenance.DateOfNumber | apps/root-worker/maintenance_schedule.go:45-58 | every date of the calendar is that of its number of days since 1 January 1970, counted by years, leap days and months |
| Maintenance.NumberOfDate | apps/root-worker/maintenance_schedule.go:45-58 | and every day has that number |
| Maintenance.SlotExactly | apps/root-worker/maintenance_schedule.go:45-58 | the slots are the starts of the schedule's hour on every day, on every seventh day from its weekday's first, or on its day of each month |
| Maintenance.SlotBack | apps/root-worker/maintenance_schedule.go:78-87 | a valid schedule has a slot within 62 days back |
| Maintenance.SlotOn | apps/root-worker/maintenance_schedule.go:90-102 | and within 62 days on |
| Maintenance.LastSlot | apps/root-worker/maintenance_schedule.go:78-87 | the greatest slot at or before now; the search never runs out |
| Maintenance.NextRun | apps/root-worker/maintenance_schedule.go:90-102 | the least slot after the hour; the search never runs out |
| Maintenance.IsDue | apps/root-worker/maintenance_schedule.go:66-75 | due exactly when a slot started after the last run, or now is in one before any run |
| Maintenance.DueHasSlot | apps/root-worker/maintenance_schedule.go:66-75 | every due run has a greatest slot, after the last run |
| Maintenance.AllSkipped | apps/root-worker/maintenance.go:276-286 | nothing started, with the first reason |
| Maintenance.Maintainer.RunMaintenance | apps/root-worker/maintenance.go:290-330 | exactly the due tasks, or the one asked for, are tried; of each what came of it is stored: results and a new last run, or, when all was skipped, the time and the first reason; nothing else changes |
| Maintenance.SlotsAreServedOnce | apps/root-worker/maintenance.go:303-316 | two timer runs of a task, the first recorded, are for different slots |
| Maintenance.MissedSlotStaysDue | apps/root-worker/maintenance.go:303-316 | a slot missed or postponed after a first run is due at every later timer run until one starts something |
| Maintenance.TriedForASlot | apps/root-worker/maintenance.go:307-309 | a timer run is always for a slot since the last run |
| JobLanes.JobLane | apps/root-worker/main.go:221-226 | container jobs, by their subject, have a lane of their own |
| JobLanes.StepKeeps | apps/root-worker/main.go:257-298 | every step keeps the slots, the lanes' jobs and the renewals accounted for |
| JobLanes.EveryRunIsAccounted | apps/root-worker/main.go:257-298 | so does every interleaving |
| JobLanes.NothingBlocks | apps/root-worker/main.go:262-298 | handing over a job and giving back a slot never wait |
| JobLanes.NeverStuck | apps/root-worker/main.go:257-298 | some step can be taken until the connection is closed and all jobs fetched were handled |
| JobLanes.StopsWhenClosed | apps/root-worker/main.go:274-291 | the dispatcher stops fetching exactly once a fetch found the connection closed |
| JobLanes.LaneStartsAPrefix | apps/root-worker/main.go:265-272 | each lane has started a prefix of its jobs in the order fetched, and sixteen at most are queued |
| JobLanes.OneSlotCoversOneJob | apps/root-worker/main.go:274-297 | the account holds after a fetch exactly when it gives one job at most |
| BackupRun.Run.StopOne | apps/root-worker/backup_run.go:276-300 | one app looked at and stopped if it runs, recorded before the stop is tried; a panic ends it there |
| BackupRun.Run.StopApps | apps/root-worker/backup_run.go:274-301 | the apps tried are distinct and listed; consistent exactly when nothing was unknown or failed; cut short only by an interrupt or a panic |
| BackupRun.Run.Restart | apps/root-worker/backup_run.go:303-321 | the apps tried to stop are tried to start in order, once each, up to a panic, and those that did not start are named |
| BackupRun.Run.Snapshot | apps/root-worker/backup_run.go:329-335 | one snapshot at most, none once interrupted |
| BackupRun.Run.Backup | apps/root-worker/backup_run.go:274-359 | stops, snapshot, starts, prune in this order whatever fails, panics or is interrupted; it panics exactly when something in it did; a consistent snapshot had every app at rest; a prune is tried exactly after a snapshot in a run that was not interrupted |
| BackupRun.StartedExactly | apps/root-worker/backup_run.go:274-337 | apps are tried to start in the order stopped, and all of them exactly when no panic came while looking after a stop, while stopping, or while starting one that is not the last |
| BackupRun.PanicLeavesStopped | apps/root-worker/backup_run.go:274-323 | a panic while the second app is looked at leaves the first one stopped |
| BackupRun.Run.RunVersions | apps/root-worker/backup_run.go:259-359 | an early refusal stops nothing; else the run is orderly and its result says how it went |
| BackupRun.Judged | apps/root-worker/backup_run.go:351-358 | success exactly when the snapshot was taken and every app started |
| BackupRun.AsInterrupted | apps/root-worker/backup_run.go:164-169 | an interrupted failure says so, and other errors are kept |
| BackupRun.NamesLost | apps/root-worker/backup_run.go:343-358 | the apps that did not start are missing from the record exactly when a signal came and the snapshot had succeeded, or failed before it |
| BackupRun.ConsistentOfNothing | apps/root-worker/backup_run.go:274-301 | a run interrupted before it looked at any app is recorded as consistent |
| BackupRun.Run.FinishRun | apps/root-worker/backup_run.go:185-200 | one record, a success exactly when the run was, after a signal that may come last |
| BackupRun.Run.RunPlan | apps/root-worker/backup_run.go:204-249 | a run leaves one record unless it is locked out, paused or panicked; it says success exactly when the run was, and a snapshot exactly when one was taken |
| ConfLines.SplitOfJoinConf | apps/root-worker/mdadm_conf.go:47-59 | lines written are the lines read |
| ConfLines.JoinOfSplitConf | apps/root-worker/mdadm_conf.go:47-59 | reading and writing adds the final newline and nothing else |
| ConfLines.FieldsOfJoin | apps/root-worker/volumes.go:80-81 | fields joined by tabs are read back |
| Fstab.DropMarkedEntry | apps/root-worker/fstab.go:35-49 | the index loop drops each marker with its own entry |
| Fstab.CleanedIsOther | apps/root-worker/fstab.go:56-66 | marked and unmarked dropping together drop all there is for the mount point and nothing else |
| Fstab.UpsertFstabEntry | apps/root-worker/fstab.go:55-69 | refused exactly for an unmarked entry of another source; else the other lines in order, then marker and entry |
| Fstab.UpsertTwice | apps/root-worker/fstab.go:55-69 | asked again the file stays as it is |
| Fstab.UpsertLeavesOne | apps/root-worker/fstab.go:55-69 | one marker and one entry for the mount point, the others unchanged |
| Fstab.RemoveFstabLines | apps/root-worker/fstab.go:74-84 | HSI's entry goes, and unmarked ones of the sources |
| Fstab.RemoveUndoesUpsert | apps/root-worker/fstab.go:55-84 | removing gives back the file exactly when it had nothing for the mount point and ended with a newline |
| Volumes.HsiVolumes | apps/root-worker/volumes.go:28-45 | the volumes named by marker and line, in order |
| Volumes.UpsertKeepsVolumes | apps/root-worker/fstab.go:55-69 | where markers precede their own entries the other volumes are unchanged in order and the mount point's own comes last |
| Volumes.RemoveFstabSources | apps/root-worker/fstab.go:121-137 | the index loop drops marked pairs and unmarked entries of the sources |
| Volumes.NoSourceLeft | apps/root-worker/fstab.go:121-137 | no entry of a given source is left, whatever the file |
| Volumes.DropSourcesKeepsOthers | apps/root-worker/fstab.go:121-137 | the other volumes are unchanged in order |
| Volumes.OtherLinesKeptExactly | apps/root-worker/fstab.go:121-137 | exactly the entries of the sources and their markers go, unless an empty source meets a marker without an entry |
| Volumes.EmptySourceDropsComment | apps/root-worker/fstab.go:121-137 | an empty source drops a comment after a marker |
| BootOptions.BootOptionsThere | apps/root-worker/volumes.go:49-66 | both options are there, after all those there were |
| BootOptions.OptionsAdded | apps/root-worker/volumes.go:49-66 | after the options there were come nofail and the device timeout, each only when it was not set |
| BootOptions.EnsureBootOptions | apps/root-worker/volumes.go:69-85 | the loop in place rewrites the line after a marker when it is its entry |
| BootOptions.BootAllTwice | apps/root-worker/volumes.go:69-85 | a second pass changes nothing, whatever the file |
| BootOptions.BootTwice | apps/root-worker/volumes.go:69-85 | the same on the file's text |
| BootOptions.BootKeepsVolumesExactly | apps/root-worker/volumes.go:69-85 | the same volumes in order with mount point, source and filesystem, exactly when no swallowed marker had one |
| BootOptions.WellMarkedIsSpared | apps/root-worker/volumes.go:69-85 | no marker is swallowed where markers precede their own entries |
| BootOptions.AbsoluteIsSpared | apps/root-worker/volumes.go:69-85 | nor where every marker is for an absolute path, in whatever order |
| BootOptions.SwallowedMarkerIsLost | apps/root-worker/volumes.go:69-85 | a file whose volume is lost |
| MdadmConf.ReadArrayLine | apps/root-worker/mdadm_conf.go:33-44 | the device and the last UUID of an ARRAY line |
| MdadmConf.NotForExactly | apps/root-worker/mdadm_conf.go:64-80 | dropped as the array's are its marker and the ARRAY lines with its device or, when one is known, its UUID as the last one given |
| MdadmConf.WithoutHsiEntry | apps/root-worker/mdadm_conf.go:64-80 | the index loop drops the marker with the ARRAY line after it and unmarked lines of the array |
| MdadmConf.NoneLeft | apps/root-worker/mdadm_conf.go:64-80 | nothing is left for the array |
| MdadmConf.OthersKeptExactly | apps/root-worker/mdadm_conf.go:82-89 | every other line is kept in order exactly when no marker of the array precedes the ARRAY line of another |
| MdadmConf.UpsertArrayLine | apps/root-worker/mdadm_conf.go:84-89 | what is left, then the marker and the line |
| MdadmConf.UpsertArrayTwice | apps/root-worker/mdadm_conf.go:84-89 | asked again the file stays as it is |
| MdadmConf.RemoveArrayEntries | apps/root-worker/mdadm_conf.go:197-199 | the same dropping alone |
| MdadmConf.RemoveUndoesUpsertArray | apps/root-worker/mdadm_conf.go:84-199 | removing gives back the file exactly when it had nothing for the array and ended with a newline |
| Unzip.Clean | apps/root-worker/fs.go:1205-1208 | a cleaned path is made of plain names |
| Unzip.LocalExactly | apps/root-worker/fs.go:1205-1208 | an entry is local exactly when its name is not rooted and, walked part by part, never leaves the folder, and its path is where the walk ends |
| Unzip.CleanName | apps/root-worker/fs.go:1205-1208 | a plain name, and no other, leads to just the entry of that name |
| Unzip.EntryOkExactly | apps/root-worker/fs.go:1199-1224 | an entry fits by itself when it is no link, device or name with a NUL, never leaves the folder, and is a directory if it leads to the folder itself |
| Unzip.AddParents | apps/root-worker/fs.go:1226-1231 | the directories above a path, refused exactly when one is a file |
| Unzip.Validate | apps/root-worker/fs.go:1199-1269 | accepts exactly the consistent archives, one entry for each path, and rejects the others at the first entry that does not fit |
| Unzip.OrderDoesNotMatter | apps/root-worker/fs.go:1199-1269 | acceptance does not depend on the order of the entries |
| Unzip.AcceptedStaysInside | apps/root-worker/fs.go:1205-1208 | an accepted entry has only plain names, none of them ".." |
| Unzip.Unpack | apps/root-worker/fs.go:1271-1335 | once the checks passed nothing but a failing write stops it, and then the entries before are there and nothing but what they and the next one need |
| Unzip.DoUnzip | apps/root-worker/fs.go:1175-1337 | into an empty folder: nothing at all from an archive that fails the checks; else, exactly when no write fails, its files and directories and nothing more, and otherwise a part of them and at most one temporary file |

## Left out

- Directories are values in `RestoreMerge`, `Trash` and `Unzip`, and Compose nodes in `ComposeDocument`: a nested map is replaced whole, so aliasing between nodes is not captured. Descriptors, symlink defence, ownership and mode checks, and changes by others during a merge are left out.
- The trash invariants are claimed for movers and restorers only; delete, empty and purge unlink a record that a mover may just have reserved, and are whole operations here.
- Trash.UserTrash.ReserveName: lengths of names are counted in characters, where the file system counts bytes; whether the user's trash folders are ready is a look that can fail.
- UpdateDatabase.Folder.RestoreDatabase: a snapshot WAL whose stat fails is taken for none, as the code does, so success then only says that no WAL is left.
- `switchCurrent`, `replaceRelease`, `addComposeSnapshot`, `writeLast` and the installer's side of an update are single calls that succeed or fail in `UpdateRecovery`; `install.sh` is an installer that may do anything while it holds the lock. Nobody else starts the services while a rollback runs.
- UpdateRecovery.StartsOnlyWhatIsBack: is about the starts a rollback makes; a boot starts what it finds.
- ChatTurn.Conversation.RunTurn: token counts, emitted events and the tools offered are left out; whether the limit is reached is a choice at each reply.
- Malformed stored calls are read as none; elements of such a list that are not calls are left out.
- ComposeRoundTrip.ParseOfApplied: a document whose managed keys hold what the generator never writes (numbers in ports, entries without texts, hosts as a list) gives no app here, where the source coerces some of them; `unknownFields` is left out, and so is number syntax other than digits.
- ComposeLaws.SyncVolumes: a `volumes` section that is a sequence is taken to declare nothing.
- Nested values under unknown subkeys of x-hsi are taken as they are; the source passes them through JavaScript objects, which can reorder index-like keys. YAML text, comments, anchors and quoting are left out: printing and parsing are inverse, also for an x-hsi whose `__proto__` was a sequence.
- `withSidecars`, which adds a store app's other services, and the readers `composeNamedVolumes`, `composeBindSources` and `composeImages` are not part of this model.
- Maintenance.LastSlot: time zones with daylight saving are left out; an hour that is skipped or repeated is not modelled.
- Maintenance.Maintainer.RunMaintenance: the schedule stays the same over a sequence of runs; reading a corrupt state file is left out.
- JobLanes.StepKeeps: what handling a job does, and when the heartbeat fires, are left out; a job that never ends keeps its slot.
- BackupRun.Run.RunPlan: timeouts only make calls fail. The sync and check kinds of run are left out.
- Volumes.UpsertKeepsVolumes: is for files whose markers each precede their own entry; the lines themselves are accounted for without that condition by `Fstab.UpsertLeavesOne`.
- RestoreMerge.MergeResult.Warn: a warning is its kind and the entry it names; the wording is left out.
- `editFstab` and `editMdadmConf` (lock, read, atomic write) are left out.
- Unzip.Validate: the state of the destination is a set of refused paths, which the source finds out by looking at the disk; file contents and modes are left out: a mode that forbids a later write is a write that fails.
- NATS, HTTP, tRPC, the database, the dashboard, external commands and their parsers, cryptography and request validation are not part of this model.

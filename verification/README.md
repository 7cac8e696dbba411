# XX-Drive, verified

XX-Drive is a private cloud drive whose promise is that nothing it does can lose files. These Dafny modules model the
parts that promise rests on, and prove it:

- **The drive** (`DriveModel`, `DriveInvariant`, `DriveHistory`, `DriveArchive`, `DriveSteps`, `DriveTrash`, `DrivePrune`,
  `DriveRuns`, `DriveTidy`, `DriveOutcomes`, and the object `FileServer.Server`): live files, trash, the version index and
  the version blobs, with upload, rename, move, delete, restore, purge, version restore and the janitor.
- **The trash protocol** (`TrashProtocol`): delete and restore as single file-system calls, with a crash between any two.
- **The sync engine** (`SyncModel`, `SyncNoLoss`, `SyncRuns`, `SyncStep`, `SyncConvergence`, `SyncPass`, `SyncProgress`,
  `SyncClients`, `SyncMerge`, `GuardedPush`, and the object `SyncEngine.Engine`): three-way reconcile of a local tree, the
  drive and a baseline.
- **Shares** (`ShareIndex`, `ShareGrants`, `ShareTarget`): the prefix index, the grant table, the path resolver.
- **Camera backup** (`PhotoWatermark`, `FailureList`, `FailureJson`, `FailureReader`): the watermark, and the list of
  failures a run remembers, with its JSON.
- **Strings** (`Strings`, `LogicalPath`, `PathRules`, `LikePattern`, `ConflictName`): path normal form, LIKE patterns, copy
  names.

Where the program changes state step by step, a class or a loop does the same and is proved equal to a function on
values; the properties are proved of that function. Every outcome a step can meet - a failed call, one whose failure is
taken for an answer, a lost reply, a clock, what other clients do in between, what a walk missed or saw too late - is an
argument, so a theorem for all arguments is a theorem for all outcomes.

## Standing assumptions

- SHA-256 is injective, so a blob directory is keyed by its path; generated ids are fresh; distinct shares have distinct
  hash prefixes.
- The per-user lock makes a handler one step of the drive (internal/api/server.go:222-226); SQL transactions and
  `os.Rename` are atomic; the janitor handles one item in one step.
- Where both walks report a path, one size and time mean one content (cmd/xxdrive-cli/sync.go:39-42). `SyncRuns` asks
  this only of entries new to the baseline, and only that the local content is in the archive; `SyncPass` of every path.
- A conflict copy's name is not in use when it is made (cmd/xxdrive-cli/sync.go:368-369); the no-loss theorem asks it of
  the local tree only.
- The local tree is still during a pass. The no-loss theorem lets the local walk miss files and the remote walk report
  anything it could list at any time; a pull over a file the local walk missed is the one case it excludes (`PullCare`),
  and `PullLosesIff` says what that case loses. Convergence is proved for complete walks.
- Local files with staging names ("*.xxpart", ".xxpartial*") belong to the engine and are not content: a pull of "foo"
  overwrites and removes a user's own "foo.xxpart" (cmd/xxdrive-cli/sync.go:149-152 skips them as well).

## What the proofs found

- **A failed look at the destination reads as an empty place.** An upload discards the error of its first stat
  (internal/fsdrv/fsdrv.go:399), rename and move that of their lstat (518-524, 555-560). A file there is then replaced
  without If-Match check, snapshot or conflict copy. An operation that does not purge keeps all content if and only if it
  does not so replace bytes that are nowhere else (`UploadKeeps`, `RelocateKeeps`, `ApplyKeeps`); `UnseenUploadLoses` and
  `UnseenRenameLoses` are such cases. The whole-run theorems exclude exactly these steps (`Careful`). The client's search
  for a place in its local trash has the same gap (cmd/xxdrive-cli/sync.go:329, `TrashHoldsIff`). A restore and the
  search for a conflict copy's name do not: they tell the errors apart.
- **A stranded delete.** When a note cannot be published and the payload not be brought home, or the server dies in
  between, the payload stays in the trash directory and nothing lists it. All content is kept all the same, until the
  trash is emptied (`DeleteKeeps`, `CrashedDeleteIsDelete`).
- **A file against a directory.** Where one side has a file and the other a directory, no pass converges, though no call
  fails: `ClashStays`. A pass with nothing of that kind in its way meets no error (`SmoothPassHasNoErrors`).
- **LIKE folds case.** SQLite's LIKE ignores ASCII case, so renaming "/a" also rewrites the rows of a deleted "/A/x" while
  its blobs move elsewhere. A relocation keeps every row resolving if and only if all selected rows are below the old
  path case and all, and no failed directory move leaves the blob of one behind (`RelocationResolvesIff`);
  `CaseFoldingBreaksRows` is a drive on which it does not. Whole-path purges take the history of case variants too.
- **A swallowed error parts a row from its blob** exactly when the index moved the row and the rename of its blob failed
  (`MovedRowsResolveIff`, `RestoreResolvesIff`): the stored bytes stay, but no row leads to them.
- **The janitor ignores ownership.** Deleting a trash item for good takes only the versions it recorded
  (`TrashDeleteIsExact`), but its expiry takes every version below its original path (`SweepIsExact`), also those of a
  newer file there (`SweepTakesNewerHistory`): it is not the same purge, as cmd/xxdrive-server/main.go:344-349 has it.
- **Hidden directories.** A file in step on both sides stays so if and only if both walks see it (`InStepRestsIff`): below
  `.xxdrive-*` it is deleted remotely by the next pass (`HiddenInStepIsDeleted`), below a remote directory named
  `*.xxpart` it is taken out of the local tree. A pull loses local bytes if and only if the local walk did not report the
  path, hidden or unreadable, and they are nowhere else (`PullLosesIff`); `HiddenPullLoses` shows it at "/.xxdrive-a/b".
- **A failed user listing** lets a share resolve after its revoke has returned: exactly if it was indexed then and no
  rebuild has finished since (`RevokedResolvesIff`), contrary to the comment at internal/api/shares.go:140-144.
  `RevokedStillResolves` is such a run from the server's first state.
- **A failed share listing** of one user is skipped and the index marked fresh (internal/api/shares.go:211-214): exactly
  that user's short links are dead until the next mutation of any share (`LookupMissesIff`, `MissedStaysDead`).
- **Ties in time** are the only way the camera backup skips a photo it has queried (`RunForgetsIff`, `TieIsForgotten`),
  once a watermark is stored; one added or edited with a time not past it is never queried (`ChangeIsQueriedIff`).
  Before that the one-day window slides past a photo that keeps failing (`UnstoredWindowSlides`, `WindowSlidesPast`).
- **Share links.** An entry's link leads back to it if and only if the link is not itself at or under the share's path.
- Conflict copies of different paths differ whatever dots the host name has.

## Model

| member | source | states |
|---|---|---|
| LogicalPath.AcceptedIsNormal | internal/fsdrv/fsdrv.go:115-149 | every accepted path is "/" or slash-joined segments, none empty, "." or "..", without NUL or backslash |
| LogicalPath.ValidateFixesAccepted | internal/fsdrv/fsdrv.go:113-149 | validation is the identity on its own results |
| LogicalPath.ValidateClean | internal/fsdrv/fsdrv.go:127-148 | a clean path is accepted unchanged or rejected, never rewritten to another path |
| LogicalPath.JoinOfParts | internal/fsdrv/fsdrv.go:207-239 | joining a path's parent and its name gives the path back, for every path but the root |
| PathRules.UpDrops | internal/fsdrv/fsdrv.go:127 | cleaning lets ".." take away the segment before it, wherever the two stand |
| PathRules.DotDrops | internal/fsdrv/fsdrv.go:127 | cleaning drops empty segments and "." |
| PathRules.ValidateUp | internal/fsdrv/fsdrv.go:113-149 | so validation answers a path with a segment and ".." as it does the path without both |
| PathRules.ValidateUpFromRoot | internal/fsdrv/fsdrv.go:113-149 | ".." at the root is dropped |
| PathRules.AcceptedIff | internal/fsdrv/fsdrv.go:113-149 | a clean path is accepted if and only if it has no NUL, no backslash and no encoded slash, backslash or dot in either case, and neither it nor a segment is too long |
| Strings.EtagInjective | internal/fsdrv/fsdrv.go:215-217 | two etags are equal exactly when time and size both are, negative values included |
| Strings.NumeralDenotes | internal/fsdrv/fsdrv.go:215-217 | a printed number denotes that number, in both bases and without leading zeros |
| LikePattern.SubtreeTest | internal/store/store.go:942-945 | matching the escaped path followed by "/%" holds exactly for strings that begin, up to ASCII case, with the path and a slash |
| LikePattern.RewritesAgree | internal/store/store.go:699-704 | on case-exact matches the SQL suffix rewrite and the handler's prefix rewrite give one path |
| DriveModel.FreeCopyName | internal/fsdrv/fsdrv.go:428-448 | the probe loop ends, on an accepted name that neither a file nor a directory has |
| DriveModel.FreeRestoreName | internal/fsdrv/fsdrv.go:758-779 | the restore search ends, on a name that is free |
| DriveModel.RestoreNamesDiffer | internal/fsdrv/fsdrv.go:777-778 | the original path and its numbered siblings are pairwise different |
| DriveArchive.UploadHasShape | internal/fsdrv/fsdrv.go:359-469 | whatever fails, an upload does nothing, or only snapshots the file it would replace, or puts one file, having snapshotted what was there; only when the look at the target failed does it replace a file as it is |
| DriveArchive.DriverUploadKeeps | internal/fsdrv/fsdrv.go:353-469 | for all arguments and failures all live, trashed and versioned content stays, if and only if the upload does not replace, after a failed look at it, a file whose bytes are other ones and nowhere else; other paths are untouched, and the conflict flag replaces no file that could be looked at |
| DriveArchive.ConflictCopyIsNew | internal/fsdrv/fsdrv.go:412-448 | with the conflict flag a stored upload goes to an unoccupied name, if and only if it does not replace a file it failed to look at, and is reported as a copy exactly when that is not the requested path |
| DriveOutcomes.UploadIndexes | internal/api/handlers.go:351-367 | a stored upload over a live file adds exactly one row: its path, the new id, the size of the old bytes, the time, with a blob that holds them; only a conflict copy, an unseen file or a failing index leaves the rows as they were, as does any other upload |
| DriveOutcomes.UploadAnswers | internal/fsdrv/fsdrv.go:353-469 | the answer of an upload in which nothing fails: the refusals one by one, and success in every other case |
| DriveOutcomes.UploadPutsOne | internal/fsdrv/fsdrv.go:353-469 | a stored upload puts one file with the bytes and time of the upload where the answer says, and changes neither other files nor the trash |
| DriveOutcomes.CopyNameIs | internal/fsdrv/fsdrv.go:406-418 | a conflict copy can be named for every accepted path and any host name, in the directory of the file, after its name and with its extension |
| DriveOutcomes.FirstFreeCopy | internal/fsdrv/fsdrv.go:428-448 | of the names the probe loop tries it takes the first free one, and gives up only at one that is not accepted |
| DriveOutcomes.ConflictCopyBeside | internal/fsdrv/fsdrv.go:405-469 | the copy that is stored lies in the directory of the file it leaves alone, named after it |
| DriveArchive.SnapshotKeeps | internal/fsdrv/fsdrv.go:997-1033 | a snapshot adds the live bytes under a fresh id and disturbs no blob |
| DriveHistory.RelocationResolvesIffMet | internal/api/handlers.go:986-1001 | rows rewritten first and directories moved after, each move working, failing or stopping half way: every row resolves afterwards if and only if each selected row names the place its blob was taken to |
| DriveHistory.RelocateKeepsRowsIff | internal/api/handlers.go:986-1001 | that is the case if and only if the selection is case-exact and no blob of a selected row was left behind; for relocations that only change case, unless both go wrong at once |
| DriveHistory.MoveOrderIsIrrelevant | internal/store/store.go:681-698 | on a case-exact index two orders of the listed directory moves give the same blobs |
| DriveHistory.HistoryFollows | internal/store/store.go:671-714 | for every suffix the rows at the new path are those of the old path plus those already there; none stay behind; other paths keep theirs |
| DriveInvariant.TrackExact | internal/fsdrv/fsdrv.go:904-932 | below the old path a blob moves once if some move of its directory takes it and stays if none does, whatever the order, because old and new path do not nest |
| DriveSteps.MoveIsRelocatable | internal/fsdrv/fsdrv.go:533-566 | a successful move is one relocation, onto the same path or between two of which neither is below the other |
| DriveSteps.RenameIsRelocatable | internal/fsdrv/fsdrv.go:503-530 | the same for a successful rename |
| DriveSteps.RelocateKeeps | internal/fsdrv/fsdrv.go:503-566 | the rename both share keeps all content if and only if it does not put a file, after a failed look at the destination, over another one whose bytes are nowhere else |
| DriveOutcomes.RelocationMovesFiles | internal/fsdrv/fsdrv.go:503-566 | a successful rename goes beside the source under the new name, a move into the directory under the old one; every file at or below the source is at the same place at or below the destination with its bytes and time, none is left, none other is there, and no other path has changed |
| DriveOutcomes.RelocationSucceedsIff | internal/fsdrv/fsdrv.go:503-566 | one in which nothing fails succeeds if and only if its arguments are valid, something is at the source, and the destination is accepted, free and not below a file; one that fails changes nothing |
| DriveTrash.DeleteRecordsOwned | internal/api/handlers.go:540-568 | a delete whose index query succeeds records exactly the selected rows, each once, and moves no row and no blob |
| DriveTrash.DeleteKeeps | internal/fsdrv/fsdrv.go:639-687 | a delete keeps all content and every row resolving, also when it strands its payload in the trash directory |
| DriveOutcomes.DeleteIs | internal/fsdrv/fsdrv.go:639-687 | a delete succeeds if and only if something is at the path and nothing fails; the new item has the path, the time and exactly the files that were at or below it, which are live no more, and nothing else has changed; likewise without an item for a stranded one |
| DriveOutcomes.DeletedGoesByDate | internal/fsdrv/fsdrv.go:843-890 | an item deleted at a time goes with a sweep if and only if that time is plausible and before the cutoff, and it is not stuck |
| DriveTrash.OwnershipSplit | internal/store/store.go:744-782 | moving listed versions relocates exactly the listed rows still present below the old path, under new ids, and their blobs but those whose rename fails; every other row and blob stays, and there are no further ones |
| DriveTrash.MovedRowsResolveIff | internal/api/handlers.go:625-651 | after such a move every row resolves if and only if no moved row has a blob whose rename failed |
| DriveTrash.RestoreKeeps | internal/api/handlers.go:581-623 | whatever fails in it, a restore overwrites nothing and keeps all content; one that succeeds has the whole payload at a free name, one that fails changes nothing |
| DriveOutcomes.RestoreOutcome | internal/fsdrv/fsdrv.go:744-780 | when a restore succeeds, and the exact files and trash it leaves |
| DriveOutcomes.FirstFreeName | internal/fsdrv/fsdrv.go:757-779 | of the original path and its numbered siblings it takes the first free one, and gives up only at one that is not accepted |
| DriveTrash.RestoreResolvesIff | internal/api/handlers.go:581-623 | it keeps every row resolving if and only if it moves no row whose blob rename fails |
| DriveTrash.RestoreSplitsHistory | internal/api/handlers.go:588-623 | restored beside a newer file, exactly the owned rows and blobs move; restored in place, none do; the newer file keeps its history |
| DriveTrash.DeleteThenRestore | internal/fsdrv/fsdrv.go:744-780 | delete then restore is the identity on the whole drive, on a tree where no file is also a directory |
| DriveTrash.PurgeRefsExact | internal/api/handlers.go:1023-1037 | if its index transaction commits, purging a record removes exactly its rows, and their blobs but those whose removal fails; nothing else goes and no blob is added |
| DriveTrash.TrashDeleteIsExact | internal/api/handlers.go:653-686 | deleting one trash item for good takes exactly the versions it recorded or, without a record, those of its whole path; every other row and blob stays as it was |
| DriveTrash.TrashEmptyIsExact | internal/api/handlers.go:688-711 | emptying the trash takes exactly what the listed items would one by one, and stranded payloads |
| DriveTrash.SweepIsExact | cmd/xxdrive-server/main.go:350-377 | for the roots the janitor collects, it takes exactly the rows and blobs selected for the original path of an item that went, recorded by it or not; an expired item stays only if its payload or its note cannot be removed |
| DriveTrash.SweepTakesNewerHistory | cmd/xxdrive-server/main.go:344-377 | a valid drive on which the sweep removes the history of a live file recreated at a trashed path, and deleting the item for good does not |
| DriveTrash.PurgeHistoryExact | internal/api/handlers.go:1006-1017 | a whole-path purge removes exactly the selected rows with all blobs of their paths, and no blob of an unselected path |
| DriveTrash.PruneKeeps | internal/store/store.go:859-892 | wherever it stops, pruning leaves live files and trash alone and every remaining row resolving |
| DriveTrash.PruneTakes | cmd/xxdrive-server/main.go:323-331 | each row that goes takes its blob along unless that cannot be removed, and no other blob goes; none goes if a row's delete failed |
| DrivePrune.PruneKeepsNewest | internal/store/store.go:858-892 | every path keeps all its rows or exactly the limit, and each row kept is later than each row dropped, or as late with the higher id |
| DriveTrash.VersionRestoreReversible | internal/api/handlers.go:726-750 | a version restore stores the bytes snapshotted under that id and indexes what it replaced; it keeps all content if and only if it does not replace, unseen and without a snapshot, bytes that are nowhere else |
| DriveTrash.SnapshotSaves | internal/api/handlers.go:740-743 | a snapshot of what is replaced, even one the index does not take, is enough |
| DriveOutcomes.VersionRestoreIndexes | internal/api/handlers.go:740-743 | the row for what it replaced has the path, the new id, the size of the old bytes and the time, and its blob holds them; without an indexed snapshot no row is added |
| DriveOutcomes.VersionRestoreSucceedsIff | internal/api/handlers.go:726-750 | one in which nothing fails succeeds if and only if row and blob are there and a file can be at the path |
| DriveRuns.RelocationStraysIff | internal/api/handlers.go:474-518 | a rename or move keeps every row resolving if and only if it does not succeed, its index update fails, or each selected row names the place its blob was taken to |
| DriveRuns.RelocationResolvesIff | internal/api/handlers.go:474-518 | in other words, if its selection is case-exact and no blob is left behind; for relocations that only change case, unless both go wrong at once |
| DriveRuns.RelocationMovesHistory | internal/api/handlers.go:474-518 | through every successful rename and move whose index update commits, the rows at each suffix of the new path are those of the old path and those already there; no other path gains or loses one |
| DriveRuns.CaseFoldingBreaksRows | internal/store/store.go:684-704 | a valid drive on which renaming "/a" leaves a row of "/A/x" without its blob |
| DriveRuns.WrongsMakeUp | internal/store/store.go:684-704 | renaming "/a" to "/A" over a row of "/A/x" whose directory move fails leaves every row resolving, though it is neither case-exact nor complete |
| DriveRuns.ApplyKeeps | internal/api/handlers.go:317-750 | every handler and sweep keeps the drive's invariant, whatever fails in it; one that does not purge keeps all content if and only if it replaces nothing unseen that is nowhere else; those that part no row from its blob keep every row resolving |
| DriveRuns.PartingBreaks | internal/api/handlers.go:474-651 | each step that does part a row from its blob leaves a row that does not resolve |
| DriveRuns.RunResolves | internal/api/handlers.go:317-750 | after any run of handlers and sweeps, with any failures, none of which parts a row from its blob, each row's blob holds the bytes snapshotted under its id |
| DriveRuns.RunKeeps | internal/fsdrv/fsdrv.go:359-469 | no run loses live, trashed, stranded or versioned content, whatever fails in it, as long as no step purges and none replaces something unseen that is nowhere else |
| DriveRuns.UnseenUploadLoses | internal/fsdrv/fsdrv.go:398-461 | an upload with a stale etag whose look at the target fails is stored over the only copy of its bytes |
| DriveRuns.UnseenRenameLoses | internal/fsdrv/fsdrv.go:503-526 | a rename whose look at the destination fails succeeds over the only copy of its bytes |
| DriveTidy.RunIsWellFormed | internal/fsdrv/fsdrv.go:359-780 | no run makes an unclean name, live or in the trash, or a file that is also a directory |
| DriveTidy.ReachedDeleteThenRestore | internal/fsdrv/fsdrv.go:639-780 | on every drive reached from a new one, restoring what was just deleted gives the drive back |
| FileServer.Server.FindCopyName | internal/fsdrv/fsdrv.go:433-448 | the probe loop computes the specified name |
| FileServer.Server.HandleUpload | internal/api/handlers.go:317-372 | the handler's writes, in order and with every failure, the discarded one included, are one upload step of the model |
| FileServer.Server.HandleRename | internal/api/handlers.go:474-496 | the tree, with a look at the destination that may fail, the rows and then each listed blob directory, with every error that is logged and swallowed: one rename step, with the listing the index gave |
| FileServer.Server.HandleMove | internal/api/handlers.go:498-518 | the same for move |
| FileServer.Server.HandleDelete | internal/api/handlers.go:540-568 | one delete step, with the failure that brings the payload home and the one that does not |
| FileServer.Server.FindRestoreTarget | internal/fsdrv/fsdrv.go:757-779 | the search loop, which takes each extension from the name before, computes the specified name |
| FileServer.Server.MoveSpecificVersions | internal/api/handlers.go:629-651 | one insert and delete per listed row, in one transaction that may fail, then one rename per blob, any of which may, is the specified move |
| FileServer.Server.HandleRestore | internal/api/handlers.go:581-623 | one restore step, with a note that outlives its payload, an index that does not answer, and version moves that fail |
| FileServer.Server.PurgeSpecificVersions | internal/api/handlers.go:1023-1037 | the two loops of a purge remove what the model removes; a failing index transaction ends it, a failing removal does not |
| FileServer.Server.HandleTrashDelete | internal/api/handlers.go:653-686 | one purge of an item; a removal that fails half way leaves the rest of the payload and all history |
| FileServer.Server.HandleTrashEmpty | internal/api/handlers.go:688-711 | lists the trash but notes it cannot read, removes it and purges what was listed; a removal that fails leaves whatever notes and payloads it did not reach, and ends it |
| FileServer.Server.SweepExpired | cmd/xxdrive-server/main.go:350-377 | expired items go one by one, implausible dates and items that cannot be removed stay, and then the history of exactly the paths of those that went |
| FileServer.Server.HandlePrune | cmd/xxdrive-server/main.go:323-331 | rows past the limit are deleted one by one, then their blobs, unless a row's delete fails: then the earlier ones are gone and every blob stays |
| FileServer.Server.HandleVersionRestore | internal/api/handlers.go:726-750 | one version-restore step, including the snapshot whose id is discarded |
| TrashProtocol.TrashDir.DeleteWithVersions | internal/fsdrv/fsdrv.go:639-687 | after every call the payload is at exactly one place and a note exists only once it is in the trash; every error but the double fault leaves the original in place |
| TrashProtocol.TrashDir.FinishRestore | internal/fsdrv/fsdrv.go:763-772 | after every call the payload is at exactly one place; nothing live is overwritten; the note goes last |
| TrashProtocol.CrashedDeleteKeepsContent | internal/fsdrv/fsdrv.go:616-630 | whatever call a delete died after, every byte that was on the disk still is |
| TrashProtocol.CrashedDeleteShows | internal/fsdrv/fsdrv.go:622-630 | the drive a dead delete shows is untouched, trashed, or has the payload stranded, by what is on the disk |
| TrashProtocol.CrashedDeleteIsDelete | internal/fsdrv/fsdrv.go:639-687 | a delete that died after any call is the model's delete with one of its three endings |
| TrashProtocol.CrashedRestoreShows | internal/fsdrv/fsdrv.go:763-772 | a dead restore shows the item still in the trash, or put back, with or without its note |
| TrashProtocol.OnDiskIsShown | internal/fsdrv/fsdrv.go:616-630 | the bytes on the disk are exactly those the drive it shows has live, trashed or stranded |
| ConflictName.ConflictPathInjective | cmd/xxdrive-cli/sync.go:417-423 | copies of different paths have different names, whenever they are made, for any slash-free host name |
| ConflictName.ConflictPathVisible | cmd/xxdrive-cli/sync.go:136-166 | the copy of a path a walk sees is seen by that walk |
| SyncModel.FreeBin | cmd/xxdrive-cli/sync.go:322-337 | the local trash search ends on the first of its thousand numbered places where nothing is or the look at it failed, and fails only if there is none |
| SyncNoLoss.TrashHoldsIff | cmd/xxdrive-cli/sync.go:317-338 | moving a file into the local trash loses content if and only if it goes over a file there, not seen, whose bytes are nowhere else |
| SyncNoLoss.ConflictActs | cmd/xxdrive-cli/sync.go:364-408 | wherever conflict handling stops, the local version is archived before anything local changes, and only the path and its copy change |
| SyncNoLoss.StepKeeps | cmd/xxdrive-cli/sync.go:208-309 | every branch of the reconcile switch keeps the no-loss invariant, whatever fails in it, whatever others do meanwhile and whatever the remote walk reported, as long as nothing that is nowhere else is overwritten unseen |
| SyncRuns.PassLosesNothing | cmd/xxdrive-cli/sync.go:168-312 | at every point of every pass, whatever the walks missed or saw too late, all content held at its start is live, in the local trash or in the drive's archive, as long as nothing that is nowhere else is overwritten unseen or purged; and whatever becomes of the baseline file the next pass starts as safely |
| SyncRuns.DeadChangesNothing | cmd/xxdrive-cli/sync.go:208-312 | a plan in which all further calls fail changes no file: a process that dies |
| SyncRuns.RunsLoseNothing | cmd/xxdrive-cli/sync.go:90-107 | over any run of any number of clients, with that care, only the user's own edits can take content away |
| SyncConvergence.ConflictStep | cmd/xxdrive-cli/sync.go:364-408 | a failure-free conflict leaves the remote version in place, the local one as the copy, both on both sides |
| SyncConvergence.StepSettles | cmd/xxdrive-cli/sync.go:208-309 | a failure-free step makes its path agree on all three sides and leaves every path but its copy alone |
| SyncPass.ErrorFreePassConverges | cmd/xxdrive-cli/sync.go:168-312 | from any two trees and any baseline a pass that meets no error ends with all three agreeing on every path |
| SyncProgress.SmoothPassHasNoErrors | cmd/xxdrive-cli/sync.go:168-312 | if the server accepts every path and copy as it is, none lies below another, below a file or where a directory is, on either side, ids are new and the local trash has room, then a pass in which no call fails meets no error |
| SyncProgress.PassConverges | cmd/xxdrive-cli/sync.go:168-312 | from any two trees and any baseline such a pass ends with all three agreeing on every path |
| SyncProgress.ClashStays | cmd/xxdrive-cli/sync.go:230-287 | a local "/a" against a remote "/a/b": though no call fails, every pass, in any order, meets an error and changes nothing |
| SyncClients.SecondPassIsIdle | cmd/xxdrive-cli/sync.go:33-37 | the pass after such a one performs no action, whatever it might have met |
| SyncClients.UneditedPassOnlyReads | cmd/xxdrive-cli/sync.go:213-308 | a pass whose local tree equals its baseline never writes the drive, whatever fails |
| SyncClients.TwoClientsConverge | cmd/xxdrive-cli/sync.go:168-312 | such passes of one client, another, and the first leave both trees and the drive equal on every path |
| SyncClients.ConflictsKeepBoth | cmd/xxdrive-cli/sync.go:32-36 | at the end of such a pass every conflict has both versions on both sides; no other conflict of the pass disturbs them |
| SyncClients.OneConflictIsSmooth | cmd/xxdrive-cli/sync.go:364-408 | the conditions hold, with a conflict to settle, for every two versions of one file and every accepted host name and stamp |
| SyncMerge.StepMerges | cmd/xxdrive-cli/sync.go:208-309 | which way changes travel: after a failure-free step both sides have the winner of the merge - an edit over no edit or a removal, the remote one of two - a remote edit as it was; a copy only of two differing edits; and what was removed on one side and untouched on the other is in the trash of that other |
| SyncMerge.PassMerges | cmd/xxdrive-cli/sync.go:168-312 | the same at the end of a whole pass in which nothing fails and nothing is in the way, for every path, told from the trees and the baseline of its start |
| SyncMerge.StepLeavesBins | cmd/xxdrive-cli/sync.go:208-309 | whatever fails, a step leaves alone what was in the local trash before, if it sees where there is room |
| SyncMerge.PassKeepsEtags | cmd/xxdrive-cli/sync.go:58-66 | however a pass goes, each etag in the baseline it leaves is that of the recorded time and size |
| SyncMerge.StepStamps | cmd/xxdrive-cli/sync.go:208-309 | whatever fails, each entry a step records has that etag, so that the next push of the path is guarded; but for a conflict whose canonical file could not be looked at again |
| SyncMerge.SavedIs | cmd/xxdrive-cli/sync.go:275-312 | an abandoned pass and a failed write leave the old baseline, a torn write none |
| GuardedPush.GuardedUpload | internal/fsdrv/fsdrv.go:404-469 | on an existing file a guarded upload changes something only if time and size are the recorded ones or the file could not be looked at, answers a conflict exactly otherwise, and keeps the replaced bytes as a version unless it did not see them |
| GuardedPush.AbsentTargetIsAccepted | internal/fsdrv/fsdrv.go:404-469 | an absent target is accepted whatever the etag, so this is weaker than section 13.1.1 of RFC 9110 |
| GuardedPush.LostRaceLosesNothing | cmd/xxdrive-cli/sync.go:230-251 | when another client replaced the file first, then whatever fails, everything held before is held after and all the winner's drive archives stays, as long as nothing that is nowhere else is overwritten unseen; the push is recorded only if the server did not see the winner's file |
| GuardedPush.LostRaceKeepsBoth | cmd/xxdrive-cli/sync.go:230-251 | and if nothing fails, the winner's file stays in place and the local bytes are the copy, on both sides |
| GuardedPush.InStepRestsIff | cmd/xxdrive-cli/sync.go:136-166 | a path in step on both sides is left alone if and only if both walks see it |
| GuardedPush.HiddenInStepIsDeleted | cmd/xxdrive-cli/sync.go:136-166 | at "/.xxdrive-a/b", in step on both sides, the drive's file is deleted |
| GuardedPush.PullLosesIff | cmd/xxdrive-cli/sync.go:275-287 | where the drive's file changed, a failure-free step loses the local bytes if and only if the local walk did not report the path and they are neither archived nor in another local file |
| GuardedPush.ReportedIsHeld | cmd/xxdrive-cli/sync.go:208-287 | at a path the local walk did report, the local bytes are held after the step, on the client or in the archive |
| GuardedPush.HiddenPullLoses | cmd/xxdrive-cli/sync.go:275-287 | at "/.xxdrive-a/b" the only copy of any local bytes is lost |
| SyncEngine.Engine.TrashFile | cmd/xxdrive-cli/sync.go:317-338 | the numbered search and the rename are the model's trash step |
| SyncEngine.Engine.KeepBothVersions | cmd/xxdrive-cli/sync.go:364-408 | the statements of conflict handling, with every early return, are the model's conflict step |
| SyncEngine.Engine.Reconcile | cmd/xxdrive-cli/sync.go:208-309 | one turn of the loop is one step of the model |
| SyncEngine.Engine.SyncOnce | cmd/xxdrive-cli/sync.go:168-312 | the whole loop, over whatever the walks reported, is the model's pass; a failed mkdir returns without saving the baseline |
| ShareIndex.LookupAgrees | internal/api/shares.go:162-194 | under any interleaving a fresh index answers, for every share with no mutation pending, nothing if the listing of its owner failed and as a scan would if not |
| ShareIndex.LookupAnswersIff | internal/api/shares.go:162-182 | in a fresh index a share with no mutation pending and a listed owner is answered if and only if the store has it, not revoked and not yet expired |
| ShareIndex.CreatedResolvesIff | internal/api/shares.go:95-101 | once a create has returned, a fresh index answers the share exactly until it expires, whatever runs beside and after, unless it is revoked, its owner removed, or the listing of its owner failed |
| ShareIndex.LookupMissesIff | internal/api/shares.go:184-217 | a live share with no mutation pending is missing from a fresh index if and only if the listing of its owner failed |
| ShareIndex.MissedStaysDead | internal/api/shares.go:184-217 | from the server's first state: a share is created, the listing of its owner fails, and no later lookup resolves it until the next mutation of any share |
| ShareIndex.RevokedNeverResolves | internal/api/shares.go:111-127 | once a revoke has returned, no later lookup in a fresh index resolves the share, whatever was pending or being rebuilt when it began and whatever ran beside and after it, short of creating the share |
| ShareIndex.SettledUntilRebuilt | internal/api/shares.go:165-173 | the entry of a share that is not live, with no mutation pending, stays what it is until a rebuild finishes, and is gone from then on |
| ShareIndex.RevokedResolvesIff | internal/api/shares.go:165-173 | a revoked share resolves if and only if it did when the revoke returned and no rebuild has finished since |
| ShareIndex.RevokedStillResolves | internal/api/shares.go:165-173 | from the server's first state: create, index, revoke, and a lookup whose listing fails answers the share |
| ShareIndex.Index.RebuildShareIndex | internal/api/shares.go:184-217 | the rebuild loop, with store writes slipping in between listings, is a run of the machine that ends with a fresh index |
| ShareIndex.Index.ShareByPrefix | internal/api/shares.go:162-182 | a lookup keeps the invariant and, if the index is fresh, answers as a scan for every share not being changed, unless the listing of its owner failed: the share the store has, neither revoked nor expired |
| ShareGrants.Grants.CapGrants | internal/api/shares.go:281-307 | the nested eviction ends at the cap, and everything kept expires no earlier than anything evicted |
| ShareGrants.Grants.SweepGrants | internal/api/shares.go:264-276 | exactly the grants that outlive the cutoff stay, and no share without one |
| ShareGrants.Grants.IssueGrant | internal/api/shares.go:243-255 | after issue, sweep and cap all grants are alive, none of the inner maps is empty and the cap holds; the new grant itself goes only if all kept ones last as long |
| ShareGrants.Grants.HasGrant | internal/api/shares.go:224-241 | a grant works until it expires; asking for a dead one removes it alone |
| ShareGrants.WithoutIs | internal/api/shares.go:301-304 | one eviction removes one grant and never leaves an empty inner map |
| ShareGrants.SweptIs | internal/api/shares.go:264-276 | sweeping keeps a grant exactly when it expires after the cutoff |
| ShareTarget.TargetIsContained | internal/api/shares.go:488-524 | every accepted target is the share's path followed by the sub path, clean, and at or under the share |
| ShareTarget.AnsweredIff | internal/api/shares.go:488-524 | exactly which requests are answered and with what: none with the share; a whole path with itself, at or under the share; a path within the share with what it names, or with itself where that already is at or under the share; never one with a ".." segment |
| ShareTarget.LinkRoundTrip | internal/api/shares.go:463-473 | feeding back the link of an entry returns that entry if and only if the link is not itself at or under the share's path |
| ShareTarget.PathRoundTrip | internal/api/shares.go:490-498 | a whole path at or under the share always resolves to itself |
| ShareTarget.NestedNamesake | internal/api/shares.go:506-510 | in a share "/a" holding "/a/a" the entry's link leads to the share itself |
| PhotoWatermark.NewerIsLaterIff | android/app/src/main/java/com/piercingxx/xxdrive/PhotoBackup.kt:33-54 | the mixed-unit test equals the test on the millisecond timestamp for all rows if and only if the watermark is not negative |
| PhotoWatermark.NextWatermark | android/app/src/main/java/com/piercingxx/xxdrive/PhotoBackup.kt:68-75 | the loop computes the time at the end of the longest successful prefix in order of time, if that is later |
| PhotoWatermark.RunIs | android/app/src/main/java/com/piercingxx/xxdrive/PhotoUploadWorker.kt:39-97 | a run attempts exactly the rows later than the watermark, in order of time, and moves the watermark to the end of the successful prefix |
| PhotoWatermark.RunRecords | android/app/src/main/java/com/piercingxx/xxdrive/PhotoUploadWorker.kt:39-97 | with or without a stored watermark, a run sends exactly the photos due whose upload does not fail, and records a success if and only if there was none due or one was sent |
| PhotoWatermark.RunForgetsIff | android/app/src/main/java/com/piercingxx/xxdrive/PhotoUploadWorker.kt:39-97 | a run forgets a photo if and only if an unsent one failed at the very time the watermark moved to |
| PhotoWatermark.TieIsForgotten | android/app/src/main/java/com/piercingxx/xxdrive/PhotoBackup.kt:68-75 | two photos of one second, of which the second fails: it is below the watermark afterwards |
| PhotoWatermark.ChangeIsQueriedIff | android/app/src/main/java/com/piercingxx/xxdrive/PhotoBackup.kt:33-54 | a photo added or edited will be queried if and only if its time is past the watermark |
| PhotoWatermark.NoPhotoIsSkipped | android/app/src/main/java/com/piercingxx/xxdrive/PhotoBackup.kt:60-75 | over any runs and failures, with photos added, edited and removed in between and distinct times, every photo newer than the first stored watermark that stays is sent as it is now or still above the current one |
| PhotoWatermark.UnstoredWindowSlides | android/app/src/main/java/com/piercingxx/xxdrive/PhotoUploadWorker.kt:45-51 | while no watermark is stored and the oldest photo fails, the next run queries a photo if and only if it is less than a day old then |
| PhotoWatermark.WindowSlidesPast | android/app/src/main/java/com/piercingxx/xxdrive/PhotoUploadWorker.kt:45-51 | one photo that fails is queried by one run and by none a day later, and never sent |
| PhotoWatermark.FailuresStayCurrent | android/app/src/main/java/com/piercingxx/xxdrive/PhotoUploadWorker.kt:84-95 | after any runs the stored text decodes to at most ten failures, one per photo, each of a photo whose last attempt failed |
| FailureList.RememberIs | android/app/src/main/java/com/piercingxx/xxdrive/PhotoBackup.kt:77-94 | the new list is this run's failures - address, name, and the error or, if that is blank, "upload failed" - and then earlier ones of photos not tried since, no photo twice, none missing unless the list is full |
| FailureList.IncomingNewestFirst | android/app/src/main/java/com/piercingxx/xxdrive/PhotoBackup.kt:87-90 | a further failure goes to the front, with its address, name and error |
| PhotoWatermark.Worker.QueryNewImages | android/app/src/main/java/com/piercingxx/xxdrive/PhotoUploadWorker.kt:101-146 | the cursor loop collects the specified batch in cursor order |
| PhotoWatermark.Worker.DoWork | android/app/src/main/java/com/piercingxx/xxdrive/PhotoUploadWorker.kt:39-97 | the worker's loop, and the watermark, failure text and success time it stores, are one run of the model |
| FailureJson.StringRoundTrip | android/app/src/main/java/com/piercingxx/xxdrive/PhotoBackup.kt:136-155 | reading a printed string gives it back, for all 16-bit units, and stops after its closing quote |
| FailureJson.PrintedListReads | android/app/src/main/java/com/piercingxx/xxdrive/PhotoBackup.kt:96-205 | reading a printed list gives it back and leaves nothing of the text |
| FailureJson.FailuresRoundTrip | android/app/src/main/java/com/piercingxx/xxdrive/PhotoBackup.kt:96-117 | decoding what was encoded is the identity on all lists over all strings |
| FailureJson.OneFailurePrinted | android/app/src/main/java/com/piercingxx/xxdrive/PhotoBackup.kt:96-108 | the text of one failure without special characters, key by key |
| FailureReader.JsonReader.ReadText | android/app/src/main/java/com/piercingxx/xxdrive/PhotoBackup.kt:222-253 | the cursor loop reads the string the parser reads, fails exactly when it fails, and advances |
| FailureReader.JsonReader.ParseFailureArray | android/app/src/main/java/com/piercingxx/xxdrive/PhotoBackup.kt:157-176 | the same for the whole list, with the cursor where the parser stops |
| FailureReader.EncodeFailures | android/app/src/main/java/com/piercingxx/xxdrive/PhotoBackup.kt:96-108 | the builder loop prints a text that decodes to the same list |
| FailureReader.DecodeFailures | android/app/src/main/java/com/piercingxx/xxdrive/PhotoBackup.kt:110-117 | every printed list is read back; missing, blank and malformed text reads as none |

## Left out

- DriveRuns.RelocationResolvesIff: leaves out relocations that only change case and meet an inexact row and a failed directory move at once, where the two can make up for each other (`WrongsMakeUp`); `RelocationStraysIff` covers all.
- PhotoWatermark.NextWatermark: rows whose seconds overflow as milliseconds are wrapped as Kotlin does, but the run theorems ask for rows that fit.
- ShareIndex.LookupAgrees: collisions of 16-character hash prefixes are assumed away.
- SyncProgress.PassConverges: passes with failures or interference are covered by the no-loss theorem, not by convergence, which a later failure-free pass restores.
- SyncMerge.PassMerges: asks for an entry whose etag is missing or its own (`PassKeepsEtags`); with another one in the baseline file a plain edit is refused and becomes a conflict copy.
- SyncProgress.SmoothPassHasNoErrors: goes one way; a pass with one path below another can still meet no error, as when the first of them is removed before the other is pulled.
- Empty directories: the tree is a map of files, so making, moving and listing empty directories is not modelled; one in the way shows only as a failed call.
- Copy, mkdir, stars, events, sessions and the etag cache: they add only easy members.
- The size limit of an upload, symbolic links and case-insensitive file systems.
- The walk of the remote tree is one step in the convergence theorems, although it is one request per directory; the no-loss theorems take whatever it reports.
- Baselines without an etag push unguarded; the model follows them, and the guarded push claims nothing of them.
- Interleaving of the janitor with a handler in mid-step, which the per-user lock does not exclude; a panic after a rename whose result cannot be read.
- HTTP, multipart streaming, templates, password hashing, tokens, SQLite itself, Android activities, and a backup run that finds nobody signed in.

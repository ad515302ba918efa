# MALT client: verified core

A Dafny model of the parts of the MALT client whose correctness is hardest to see: state that
must survive crashes, retries and interleaving, and the forms of one tree that must agree.

- `Paths`, `NamespaceTree`, `Overlay`, `PathStrings`, `FileBytes`, `StagingService`: the dirty
  overlay filesystem. No tree is ever built; a path is looked up by walking the operation
  journal backwards and falling through to an immutable base, and a listing carries base
  children and journal targets forwards. The reference is a plain tree to which the admitted
  operations are applied in order (`NamespaceTree`).
- `Install`, `InstallProgress`: the crash-atomic installation of several directories, as a state
  machine over the disk, the journal record and a crash between any two steps.
- `BucketSync`, `Publication`, `PublicationProgress`, `SnapshotIdentity`: the durable workspace,
  and the publication of snapshots with retries, crashes, lost responses and other users of the
  same workspace.
- `UnixfsLayout`, `StagedTree`, `StagedLoad`, `ChunkedFile`: compiling a tree into authenticated
  maps in two layouts with a shortcut for unchanged directories, reading it back by path,
  loading it whole, and reading byte ranges of chunked files.
- `Trust`, `WriteBack`: the accepted root and its promotions against the completion of uploads.
- `Journal`, `Upload`: the operation journal with its reload validation, and upload batches.
- `WritePlan`: which staged candidates a plan holds, their order, and persisting them.
- `MountLeases`: who owns the resources of a platform mount.
- `Merge`: the three-way merge of plaintext trees.

Functions say what an operation does to a value; classes and methods with loops follow the
client's own code and are proved to compute those functions; lemmas state the properties.
Protocols are state machines whose every step may be followed by a crash. Each has laws about
every run (what is never lost, sent twice or left behind) and laws about what it achieves when
it is left alone, with the exact condition for it to succeed.

## How to read the model

- Content identities (CIDs, fingerprints, transaction IDs) are ideal: an identity is what it
  identifies. The clock and random identities are parameters; a drawn identity is new.
- A step under a file lock (reload, operate, write) is atomic, and a failed step writes nothing.
- Messages, conflict identities and other text of which only equality and emptiness matter are
  numbers, 0 standing for the empty one. Paths are sequences of names; `PathStrings` connects
  them to the slash-separated strings.

## Where a promise needs a condition

Each of these is false of the code as it stands and true under a condition that is proved to
be exact.

One push ID is meant to be sent with one frozen request. The workspace is shared with the
command line, though (`cmd/malt/bucket.go:108-166`): a push made there may pick up the stash
the plan has recorded, or is about to record, while nobody has frozen it yet, and give it
another message or change set (`Publication.Deviates`). Without such a push the law holds
(`Publication.PushIsFrozen`). After one, from every reachable state, the push can go through
and a retry of the plan sends the journaled request under the same push ID
(`Publication.DeviationBreaksThePush`).

One snapshot is meant to be sent under one push ID. The plan's push takes the pending stash of
its candidate without comparing it with the identity it has just journaled. If someone stages
the candidate anew in between, its journaled stash no longer being pending
(`SnapshotIdentity.Splits`), the plan sends the new stash, and a later retry restores the
journaled one: `SnapshotIdentity.RestagingSplitsTheSnapshot`, from every reachable state.
Without such a step it cannot happen: `SnapshotIdentity.SnapshotIsSentOneWay`.

Recovery is meant to lose nothing the user put at a destination. It takes the fingerprint of
the destination and then removes it, in two calls (`application/backup/install.go:529-534`). An
edit between the two is removed (`Install.EditInWindowIsLost`); without one nothing is lost
(`Install.NothingOfTheUsersIsLost`). In the same way an edit between the check of a destination
and its move aside (`application/backup/install.go:341-355`) goes aside as if it were the
original: `Install.RollbackIsTheOriginal`, `Install.EditGoesAside`.

Marked nodes are meant to have marked ancestors. After a materialization that holds if and
only if no file was marked (`StagedTree.MarksAfterSave`), because the marks of files stay set
(`StagedTree.SaveUnlinksMarks`). The shortcut does not depend on it: `StagedTree.SessionIsSound`
shows what it does depend on, and that edits and saves in any order keep it.

## Model

| member | source | states |
|---|---|---|
| `NamespaceTree.ApplyKeepsProper` | filesystem/staging/service.go:326-484 | every allowed write, mkdir, remove or rename keeps the tree proper: each node lies in an existing directory and files have nothing below them |
| `NamespaceTree.RenameWithinItselfRefused` | filesystem/staging/service.go:434-484 | a rename onto an ancestor, a descendant or the path itself is always refused |
| `NamespaceTree.RenameDisjoint` | filesystem/staging/service.go:434-484 | so source and destination of an allowed rename never lie within each other, and the source and the destination's parent exist |
| `NamespaceTree.MoveContents` | filesystem/staging/service.go:434-484 | a rename carries exactly the subtree at the source to the destination and leaves every other path alone |
| `NamespaceTree.MovedKeepsProper` | filesystem/staging/service.go:434-484 | moving a subtree keeps the tree proper |
| `NamespaceTree.ListedNames` | filesystem/staging/service.go:757-813 | a listing holds a name exactly when the tree has a node there |
| `Overlay.ResolveIsLookup` | filesystem/staging/service.go:698-755 | for every base tree and every allowed run, the backward walk over the journal gives exactly what looking the path up in the forward-replayed tree gives: same node, same content source, same kind of failure |
| `Overlay.OneStepBack` | filesystem/staging/service.go:698-755 | undoing one operation on a path and looking it up before the operation is looking it up after it |
| `Overlay.BackwardThenForward` | filesystem/staging/service.go:698-755 | carrying the origin of a surviving base node forward leads to where the node is |
| `Overlay.ReadDirIsListing` | filesystem/staging/service.go:757-813 | for every allowed run and every path, the listing made from base children and journal targets, all carried forward and re-resolved, is exactly the listing of the replayed tree, failures included |
| `Overlay.ChildrenAreEvident` | filesystem/staging/service.go:757-813 | every child in the replayed tree is found either as a base child carried forward or as a later journal target carried forward |
| `Overlay.ForwardThenBackward` | filesystem/staging/service.go:1089-1110 | a base path that survives being carried forward is, where it ends up, the same base node or the file that overwrote it: the two directions are inverse on surviving nodes |
| `Overlay.SameParentCheck` | filesystem/staging/service.go:815-828 | the parent check made through the overlay has the same outcome as the one made on the replayed tree |
| `Overlay.SameWriteCheck` | filesystem/staging/service.go:326-357 | a write is admitted, or refused with the same error, as on the replayed tree |
| `Overlay.SameMkdirCheck` | filesystem/staging/service.go:359-383 | the same for mkdir |
| `Overlay.SameRemoveCheck` | filesystem/staging/service.go:401-432 | the same for unlink and remove-directory, including the emptiness check |
| `Overlay.SameRenameCheck` | filesystem/staging/service.go:434-484 | the same for rename, including the kind match and the emptiness of a replaced directory |
| `Overlay.SameAdmission` | filesystem/staging/service.go:326-484 | every operation is admitted by the overlay exactly when it is allowed on the replayed tree |
| `Overlay.AdmittedIsAllowed` | filesystem/staging/service.go:326-484 | a whole run is admitted by the overlay if and only if every operation of it is allowed on the tree it meets |
| `Overlay.ReplayIsProper` | filesystem/staging/service.go:326-484 | after every allowed run the tree is proper |
| `Overlay.OverlayIsReplay` | filesystem/staging/service.go:326-484 | main theorem of the overlay: for every run the service admits, every path resolves as in the replayed tree, every directory lists as in it, and the tree is proper |
| `PathStrings.IsWithinIsPrefix` | filesystem/staging/service.go:1064-1070 | on rendered canonical paths the string tests for containment are the prefix order on segments |
| `PathStrings.ReplacePrefixIsRebase` | filesystem/staging/service.go:1072-1077 | replacing the string prefix is replacing the leading segments |
| `PathStrings.JoinPathIsAppend` | filesystem/staging/service.go:1079-1087 | joining a name is appending a segment, also at the root |
| `PathStrings.ImmediateNameIsChild` | filesystem/staging/service.go:1112-1124 | cutting a candidate at its first slash gives a name exactly for strict descendants, and it is the child on the way |
| `PathStrings.CutIsFirst` | filesystem/staging/service.go:1112-1124 | cutting a rendered path at its first slash gives its first segment |
| `PathStrings.RenderInjective` | filesystem/staging/service.go:964-976 | two canonical paths never have the same string |
| `StagingService.Service.constructor` | filesystem/staging/service.go:106-161 | a service opened over any admitted journal is valid, and its tree is the replay of that journal over the base |
| `StagingService.Service.ResolveAt` | filesystem/staging/service.go:698-755 | the loop that walks the journal backwards computes `Resolve` |
| `StagingService.Service.ForwardPath` | filesystem/staging/service.go:1089-1110 | the loop that carries a path forwards computes `Forward` |
| `StagingService.Service.ReadDirAt` | filesystem/staging/service.go:757-813 | the listing method gives `ReadDir`: the names of the children, or why there are none |
| `StagingService.Service.JournalCandidates` | filesystem/staging/service.go:757-813 | the loop over later operations collects exactly the children their targets are carried to |
| `StagingService.Service.BaseCandidates` | filesystem/staging/service.go:757-813 | the loop over the base listing collects exactly the children base entries are carried to |
| `StagingService.Service.StatNames` | filesystem/staging/service.go:757-813 | re-resolving the candidates keeps exactly those that exist |
| `StagingService.Service.StatAt` | filesystem/staging/service.go:690-696 | a stat is the backward walk, and so a lookup in the replayed tree |
| `StagingService.Service.RequireParentDirectory` | filesystem/staging/service.go:815-828 | the parent check as a method: the outcome of the one on the replayed tree |
| `StagingService.Service.Append` | filesystem/staging/service.go:486-498 | an admitted operation is appended and the service stays valid; the replayed tree is the old one with the operation applied |
| `StagingService.Service.StageMkdir` | filesystem/staging/service.go:359-383 | mkdir appends exactly when allowed on the replayed tree, and otherwise changes nothing and gives the tree's error |
| `StagingService.Service.StageRemove` | filesystem/staging/service.go:401-432 | the same for both removals |
| `StagingService.Service.EmptyDirectory` | filesystem/staging/service.go:401-432 | the emptiness check through the listing refuses a directory exactly when the replayed tree has a child in it |
| `StagingService.Service.StageRename` | filesystem/staging/service.go:434-484 | the same for rename |
| `StagingService.Service.CurrentFileBody` | filesystem/staging/service.go:298-324 | the body a partial write starts from is the file's content in the replayed tree |
| `StagingService.Service.StageWriteBody` | filesystem/staging/service.go:326-357 | writing a body makes the path a file with that content, under the tree's admission rule and the size limit |
| `StagingService.Service.StageWrite` | filesystem/staging/service.go:190-212 | a whole write makes the file hold exactly the bytes given |
| `StagingService.Service.StageWriteAt` | filesystem/staging/service.go:217-258 | an offset write overlays the bytes at the offset, fills a gap with zeros, keeps the rest, and refuses sums that overflow or exceed the limit |
| `StagingService.Service.StageTruncate` | filesystem/staging/service.go:262-296 | a truncate cuts the file or extends it with zeros to exactly the size |
| `StagingService.Service.ReadFileRange` | filesystem/staging/service.go:532-563 | reading a range of a file gives that range of its content in the replayed tree, however the body is split when read |
| `FileBytes.WriteInto` | filesystem/staging/service.go:249-256 | the in-place overlay on a fresh array: data at the offset, zeros in the gap, old bytes elsewhere |
| `FileBytes.Resize` | filesystem/staging/service.go:292-294 | the copy into an array of the new size: old bytes, then zeros |
| `FileBytes.RangeCapture.Write` | cache/store.go:518-539 | after any sequence of chunks the capture holds exactly the wanted range of the stream seen so far |
| `FileBytes.RangeCapture.constructor` | cache/store.go:511-516 | a new capture has seen nothing |
| `FileBytes.ReadLocalRange` | cache/store.go:337-382 | for every split of the body into chunks, a range read gives that range of the body; the wrapping 64-bit sum of offset and length never misleads it |
| `Install.PreserveStepInv` | application/backup/install.go:306-395 | preserving a destination keeps the installation invariant |
| `Install.PlaceStepInv` | application/backup/install.go:306-395 | placing the new directory keeps it |
| `Install.InstallStepInv` | application/backup/install.go:306-395 | so do the journal writes and the commit |
| `Install.InspectOriginalInv` | application/backup/install.go:398-526 | recovery's look at an entry that had a directory keeps the invariant, whichever phase was journaled |
| `Install.InspectNewInv` | application/backup/install.go:398-526 | the same for an entry that had none |
| `Install.RestoreStepInv` | application/backup/install.go:398-526 | putting an original back keeps it |
| `Install.CleanupStepInv` | application/backup/install.go:657-721 | finalizing keeps it |
| `Install.RemoveStagingInv` | application/backup/install.go:657-721 | removing staging keeps it |
| `Install.ProceedInv` | application/backup/install.go:271-526 | every step of installation and recovery keeps the invariant |
| `Install.DisturbanceInv` | application/backup/install.go:271-526 | a crash, a failed call, or a crash inside a recursive removal keeps it |
| `Install.AllOrNothing` | application/backup/install.go:306-526 | with no outside edits and a crash after any step, any number of times, whenever a run is finished every destination is the new one if the commit record ever was durable, and every one is the original (or absent) otherwise |
| `Install.ProceedAdvances` | application/backup/install.go:398-526 | every step of installation or recovery makes progress |
| `Install.Completes` | application/backup/install.go:398-526 | from every reachable state, a run that is not disturbed any more finishes |
| `Install.RecoveryReachesAnOutcome` | application/backup/install.go:398-526 | so after every history of crashes there is a recovery that finishes, all new or all original |
| `Install.FreeStepInv` | application/backup/install.go:398-551 | removing or setting aside a half-installed directory keeps the invariant |
| `Install.ProceedMoves` | application/backup/install.go:398-551 | before the commit, every step but the removal of a destination only moves directories to empty places or drops what is not the user's |
| `Install.MovesKeepUserContent` | application/backup/install.go:398-551 | such moves lose none of the user's content |
| `Install.ProceedKeepsUserContent` | application/backup/install.go:398-551 | before the commit a step keeps the user's content if and only if it is not the removal of a destination that became the user's after recovery looked at it |
| `Install.InterruptionSparesUserContent` | application/backup/install.go:398-551 | the same for a crash inside a recursive removal |
| `Install.ExposedByEdit` | application/backup/install.go:398-551 | content of the user's is exposed to such a removal only if an edit fell between the look at that destination and its removal |
| `Install.NothingOfTheUsersIsLost` | application/backup/install.go:398-551 | with outside edits at any point but in that window: before the commit every step keeps the multiset of the user's own directories over destination, rollback and quarantine; after it no step touches a destination or a quarantine |
| `Install.StagingOutlivesOriginals` | application/backup/install.go:398-551 | an uncommitted recovery reaches the removal of staging only when no preserved original is left there |
| `Install.EditInWindowIsLost` | application/backup/install.go:528-537 | the condition is exact: from every state in the window, every edit to something else than the installed tree is lost with the next step |
| `Install.WindowOpens` | application/backup/install.go:528-537 | the window is reached, for every entry that had a directory |
| `Install.RollbackIsTheOriginal` | application/backup/install.go:330-358 | in every run without an edit between the look at a destination and its move aside, what is kept aside, and removed after the commit, is the journaled original |
| `Install.EditGoesAside` | application/backup/install.go:330-358 | an edit in that window goes aside in place of the original |
| `InstallProgress.RecoveryEnds` | application/backup/install.go:398-526 | after any crashes, failures and outside edits, an uncommitted recovery left alone comes to an end if and only if every entry is clear: pinned, and what is at its destination is the original, can be removed or set aside, or was never touched. Then every destination is what was kept aside for it, or untouched where nothing was, or gone where there was none; what was in the way is in quarantine; no record, staging or pin is left |
| `InstallProgress.PassesEntry` | application/backup/install.go:398-526 | recovery gets past one clear entry, leaving exactly that |
| `InstallProgress.StuckStep` | application/backup/install.go:398-526 | and never past one that is not |
| `InstallProgress.NothingIsLeftBehind` | application/backup/install.go:398-526 | in every run, with edits and crashes, that finished after its record was durable, no new tree and no original is left in staging, and no pin unless the removal of the pins was disturbed |
| `InstallProgress.Installs` | application/backup/install.go:271-395 | an installation left alone whose destinations all are as journaled commits and ends with the new trees in place and nothing else left |
| `InstallProgress.RollsBack` | application/backup/install.go:271-395 | one that meets a destination that is not as journaled rolls back, ends if and only if from there on directories are exactly where there were some, and then leaves every destination as it found it |
| `InstallProgress.InstallsEntry` | application/backup/install.go:271-395 | one entry: the original goes aside, if there is one, and the new tree takes its place |
| `InstallProgress.PreparedIsReady` | application/backup/install.go:271-395 | these cover every prepared installation, whatever is done to its destinations before it starts |
| `InstallProgress.FinalizingEnds` | application/backup/install.go:657-679 | a committed installation is finalized if and only if every destination is there, whatever it is by now; destinations and quarantines stay |
| `Install.CommittedKeepsDestination` | application/backup/install.go:657-679 | finalizing a committed installation leaves destinations and quarantine as they are |
| `BucketSync.PullKeeps` | bucketsync/service.go:126-162 | a pull keeps the workspace invariant and moves no head back |
| `BucketSync.PullOutcome` | bucketsync/service.go:126-162 | a pull is refused exactly for a head that is malformed or names another commit at the known revision; otherwise the newer head is the remote one, the base too unless local work holds it back, and stashes stay |
| `BucketSync.Service.PullHead` | bucketsync/service.go:126-162 | the pull step as a method |
| `BucketSync.AppendKeeps` | bucketsync/service.go:188-230 | adding a stash keeps the invariant |
| `BucketSync.StageBinds` | bucketsync/service.go:188-230 | refused exactly in a new workspace, on a bad base or if the candidate is pending on another one; a staged candidate is pending on exactly the base asked for, and a new stash is made only if it has none pending |
| `BucketSync.Service.StageCandidate` | bucketsync/service.go:188-230 | staging finds the pending stash of a candidate or appends a new one, and refuses another base |
| `BucketSync.RestoreIsExact` | bucketsync/service.go:235-293 | refused exactly if the stash is not a frozen pending one on a valid base, or something else has its identity or its candidate; it is there afterwards, no other is touched, and repeating it changes nothing |
| `BucketSync.Service.RestoreStash` | bucketsync/service.go:235-293 | restoring puts the exact frozen stash back, is idempotent, and refuses a different stash under the same identity or candidate |
| `BucketSync.FreezeKeeps` | bucketsync/service.go:298-364 | freezing keeps the invariant and rebinds nothing |
| `BucketSync.FreezeAnswers` | bucketsync/service.go:298-364 | refused exactly if a frozen request has other fields; the frozen request has the fields the push asked for and the stash's own otherwise, no other stash changes, and the same push again is the same request |
| `BucketSync.NothingToFreeze` | bucketsync/service.go:298-364 | a push without a pending stash of its candidate is refused |
| `BucketSync.Service.FreezeForPush` | bucketsync/service.go:298-364 | the request is frozen before anything is sent; a frozen one is never changed |
| `BucketSync.SettleKeeps` | bucketsync/service.go:364-414 | recording the remote's answer keeps the invariant |
| `BucketSync.SettleOutcome` | bucketsync/service.go:364-414 | refused exactly for a head that contradicts the known one; success takes exactly the pushed stash away, a branch keeps it and marks it, all others stay, and the newer head is recorded, as base too once no stash holds it back |
| `BucketSync.Service.SettlePush` | bucketsync/service.go:364-414 | success removes the stash, a branch marks it, both catch up with the remote head |
| `BucketSync.ResolveKeeps` | bucketsync/service.go:429-469 | resolving keeps the invariant |
| `BucketSync.ResolveOutcome` | bucketsync/service.go:429-469 | succeeds exactly for a branched stash of that identity and candidate, takes exactly it away and catches up |
| `BucketSync.Service.Resolve` | bucketsync/service.go:429-469 | the resolution step as a method |
| `BucketSync.StepKeeps` | bucketsync/service.go:126-469 | after every step the base is not ahead of the remote head, equals it when there is no stash, stash identities are distinct; neither head went back and no stash changed its base, candidate or frozen request |
| `BucketSync.RunKeeps` | bucketsync/service.go:126-469 | over every run the workspace stays valid and neither head goes back |
| `BucketSync.RunKeepsBound` | bucketsync/service.go:126-469 | over every run in which its identity is not drawn again or restored as other work, a stash keeps base, candidate and, once frozen, its request, also across being gone and put back |
| `BucketSync.Service.constructor` | bucketsync/service.go:101-122 | an uninitialized workspace is valid |
| `Publication.ProceedInv` | application/backup/plan_backup.go:273-396 | every step of a backup or a retry, with a crash possible after each, keeps the publication invariant |
| `Publication.NextInv` | application/backup/plan_backup.go:273-396 | so does every step of outsiders that does not deviate |
| `Publication.PushIsFrozen` | application/backup/plan_backup.go:273-396 | in every run of backups, retries, crashes, lost responses and outside workspace commands, none of which gives a stash the plan remembers and nobody has frozen other request fields, all requests ever sent under one push ID are identical: base, candidate, change set and message |
| `Publication.RetrySends` | application/backup/plan_backup.go:273-396 | once its stash is gone, a retry restores it and sends exactly the journaled request |
| `SnapshotIdentity.SnapshotIsSentOneWay` | application/backup/plan_backup.go:273-396 | in every such run in which nobody stages the pending candidate anew between the plan's record and its push, all requests sent for one pending snapshot are identical, push ID included |
| `SnapshotIdentity.FreezePicksTheStagedOne` | application/backup/plan_backup.go:273-396 | without such a step the stash a push picks up by candidate is the one the journal recorded |
| `SnapshotIdentity.OutsideLeavesOnly` | application/backup/plan_backup.go:273-396 | no other step of outsiders puts another pending stash in its place |
| `SnapshotIdentity.RestagingSplitsTheSnapshot` | application/backup/plan_backup.go:281-288 | the condition is exact: from every reachable state, every such step can be followed by steps in which nobody deviates or stages anything and the plan sends the snapshot under two push IDs |
| `SnapshotIdentity.RestagingIsPossible` | application/backup/plan_backup.go:281-288 | and such a step is possible, for every candidate, message and base |
| `PublicationProgress.BackupCompletes` | application/backup/plan_backup.go:273-304 | from every reachable state: a backup left alone sends its snapshot once, under a new identity, with exactly its fields. Answered "not branched" it ends with the pending record gone and the stashes as they were; answered "branched" it ends with the record pending and its frozen stash branched; either way the workspace has the newest head |
| `PublicationProgress.Finishes` | application/backup/plan_backup.go:273-304 | the same from the moment the stash is found: record, freeze, pull, send, settle, close |
| `PublicationProgress.RetryResumes` | application/backup/plan_backup.go:307-396 | a retry that finds its stash pending sends exactly the journaled request with it and completes as a backup does |
| `PublicationProgress.RetryRestages` | application/backup/plan_backup.go:307-396 | one that finds nothing, and nothing else pending for its candidate, puts the stash back under the journaled identity, or stages it anew if none is journaled, and completes |
| `PublicationProgress.RetryRefused` | application/backup/plan_backup.go:307-396 | in every other case it changes nothing |
| `PublicationProgress.NoSnapshotIsForgotten` | application/backup/scheduler.go:151-203 | in every run, whatever others do, a journaled snapshot stays journaled with its candidate, base and message until it has been sent or is cleared |
| `PublicationProgress.OneAtATime` | application/backup/scheduler.go:151-203 | while a publication is under way no other starts and nothing is cleared, and a new snapshot waits for the pending one |
| `PublicationProgress.ConflictIsResolved` | application/backup/scheduler.go:151-203 | after a branched push, resolving the stash and clearing the record leaves the workspace as it was before the snapshot, caught up |
| `Publication.MarkInv` | application/backup/scheduler.go:206-227 | recording the staged identity in the journal keeps the invariant: it is recorded only for the stash that matches, and never replaced by another |
| `Publication.MatchInv` | application/backup/service.go:73-94 | finding the workspace's stash for the journaled snapshot keeps the invariant |
| `Publication.StashAgrees` | application/backup/service.go:73-94 | everything known under the identity of a stash in the workspace is that stash's request |
| `Publication.RestoreInv` | bucketsync/service.go:235-282 | putting the remembered stash back re-creates the very request sent before |
| `Publication.FreezeInv` | bucketsync/service.go:298-364 | a conforming push freezes a request that contradicts nothing already known under its identity |
| `Publication.DeviationBreaksThePush` | cmd/malt/bucket.go:108-166 | the condition is exact: from every reachable state, every push from the command line that gives a remembered, unfrozen stash another change set or message can be followed by steps that send two different requests under one push ID |
| `Publication.DeviatingRunBreaksThePush` | cmd/malt/bucket.go:108-166 | the same over whole runs: any run can be extended so after the first push that deviates |
| `Publication.DeviationIsPossible` | cmd/malt/bucket.go:108-166 | such a push is possible, and on an interrupted backup it deviates exactly by its fields |
| `Publication.OutsidePushInv` | cmd/malt/bucket.go:108-166 | a push from the command line that does not deviate keeps the invariant, sent or not |
| `UnixfsLayout.RootIsFaithful` | unixfs/staged_materialize.go:57-163 | the root of a tree leads every existing path to its target and every directory to its manifest, in both layouts |
| `StagedTree.Materialize` | unixfs/staged_materialize.go:57-163 | the recursive compilation with the unchanged-subtree shortcut gives identity, descendants and settled tree as specified, and fails exactly for a file or on a non-canonical name |
| `StagedTree.MaterializeChildren` | unixfs/staged_materialize.go:57-163 | the loop over the children compiles each of them |
| `StagedTree.MaterializeChild` | unixfs/staged_materialize.go:57-163 | one child, file or directory |
| `StagedTree.ShortcutIsExact` | unixfs/staged_materialize.go:109-118 | when the marks are right, the shortcut gives the root and descendants that compiling everything anew gives |
| `StagedTree.SettledIsSound` | unixfs/staged_materialize.go:109-118 | after materialization the recorded identities are right again |
| `StagedTree.MarksAfterSave` | unixfs/staged_materialize.go:109-118 | after materialization marked nodes have marked ancestors if and only if no file carried a mark |
| `StagedTree.SaveUnlinksMarks` | unixfs/staged_materialize.go:109-118 | so setting any file to another target and saving leaves a mark below an unmarked directory |
| `StagedTree.SessionKeepsDescriptor` | unixfs/staged_materialize.go:109-118 | whatever is edited and saved, the root keeps the descriptor it was loaded with |
| `StagedTree.SessionIsSound` | unixfs/staged_materialize.go:109-118 | any mix of edits and materializations keeps the marks right |
| `StagedTree.SessionReadsBack` | unixfs/staged_materialize.go:109-118 | main theorem: load a tree, edit and save it in any order and number; at every point the saved root is that of a full compilation, and every path of it reads back as the edited tree says |
| `StagedTree.ProjectDirectoryBindings` | unixfs/projection.go:24-52 | the nested loops fill exactly the bindings of the layout: every child, and in the hybrid layout every deeper path as one label |
| `StagedTree.Prefixed` | unixfs/projection.go:24-52 | the inner loop puts the child's name before every descendant label |
| `StagedTree.OnlyProject` | unixfs/projection.go:24-52 | what holds under each label determines the map |
| `UnixfsLayout.PathLabel` | unixfs/projection.go:24-52 | in a hybrid map the rendered path of every descendant is bound to its target |
| `UnixfsLayout.PayloadIsReserved` | unixfs/projection.go:24-52 | no path label is the reserved manifest label |
| `UnixfsLayout.ProjectionFinds` | unixfs/authentication_reader.go:51-99 | following a path's steps from the root gives the target of the node there |
| `UnixfsLayout.RootedSteps` | unixfs/authentication_reader.go:51-99 | segment by segment in the rooted layout |
| `UnixfsLayout.HybridStep` | unixfs/authentication_reader.go:51-99 | in one step in the hybrid layout |
| `UnixfsLayout.ManifestAt` | unixfs/verified_facade.go:352-403 | the manifest read for a directory path lists exactly the directory's entries and kinds |
| `StagedTree.ResolveUnixfsPath` | unixfs/verified_facade.go:318-350 | the loop over the segments computes `ResolvePath` |
| `UnixfsLayout.ReadsBack` | unixfs/verified_facade.go:318-350 | for every tree, path and layout, compiling and then resolving gives the path's kind and target, and not-found or not-a-directory for every other path |
| `UnixfsLayout.LayoutsAgree` | unixfs/verified_facade.go:318-350 | so both layouts mean the same: same kinds, same file targets, same failures |
| `StagedTree.EnsureKeeps` | unixfs/staged_tree.go:60-83 | ensuring a directory keeps the marks right |
| `StagedTree.EnsureFinds` | unixfs/staged_tree.go:60-83 | it makes the path and all above it directories, leaves every node it does not replace as it was, and makes nothing else |
| `StagedTree.SetFileKeeps` | unixfs/staged_tree.go:86-111 | setting a file keeps the marks right |
| `StagedTree.SetSameIsQuiet` | unixfs/staged_tree.go:86-111 | setting a file to the target it has leaves it as it is, mark and all |
| `StagedTree.SetFinds` | unixfs/staged_tree.go:86-111 | afterwards the path is a file with that target |
| `StagedTree.SetLeavesAlone` | unixfs/staged_tree.go:86-111 | and paths beside it are unchanged, except that a path below a file that had to give way is not found instead of not in a directory |
| `StagedTree.RemoveKeeps` | unixfs/staged_remove.go:7-39 | removing keeps the marks right |
| `StagedTree.RemoveTakesAway` | unixfs/staged_remove.go:7-39 | a removal is refused exactly as a lookup is; otherwise the path and all below it are gone and nothing else is |
| `StagedTree.MergeKeepsSound` | unixfs/staged_tree.go:158-185 | merging keeps recorded identities right: a directory stays unmarked only if nothing in it changed |
| `StagedTree.MergeKeepsMarks` | unixfs/staged_tree.go:158-185 | and marked nodes keep marked ancestors |
| `StagedTree.MergeSameIsQuiet` | unixfs/staged_tree.go:158-185 | overlaying what is there already changes nothing and marks nothing |
| `StagedTree.UnmarkedMerge` | unixfs/staged_tree.go:158-185 | a merge that leaves no mark leaves identity and descendants as they were |
| `StagedTree.MergeOverlays` | unixfs/staged_tree.go:158-185 | what the staged tree has wins, the rest stays |
| `StagedTree.EditOutcome` | unixfs/staged_tree.go:60-185 | every edit does what it says, and one that cannot be done changes nothing |
| `StagedTree.EditKeeps` | unixfs/staged_tree.go:60-185 | every edit keeps the marks right |
| `StagedTree.EditsKeepMarks` | unixfs/staged_tree.go:60-185 | any sequence of edits keeps them right |
| `StagedTree.LoadedIsSound` | unixfs/staged_tree.go:60-185 | they are right in a freshly loaded tree |
| `StagedLoad.LoadTree` | unixfs/staged_load.go:61-150 | the recursive load, with its loop over the manifest, computes `LoadDirectory` for any root |
| `StagedLoad.LoadEntry` | unixfs/staged_load.go:61-150 | one entry: refused on a bad name, a failed stat or a kind other than declared |
| `StagedLoad.LoadIsExact` | unixfs/staged_load.go:61-150 | for every root, compiled by this client or not: if it loads, the loaded tree has at every path exactly the identity and kind that reading the path gives, and the same failure where reading fails |
| `StagedLoad.LoadsBack` | unixfs/staged_load.go:61-150 | for every tree and layout, loading the root it compiles to gives that tree back, unmarked and with the identity of every directory |
| `StagedLoad.UnmarkedIsLoaded` | unixfs/staged_load.go:61-150 | that tree compiles to the same root and is what the session theorems start from |
| `StagedLoad.LoadedSession` | unixfs/staged_load.go:61-150 | whole sessions from a root: load, edit and save in any order and number; the load reads as the compiled tree, and every saved root is that of a full compilation and reads back |
| `StagedLoad.ChildIsBelow` | unixfs/staged_load.go:61-150 | loading goes down: a child leaves fewer labels of the root map, or is bound inside its parent |
| `StagedLoad.CandidateMatches` | unixfs/verified_facade.go:911-957 | the check of a materialized candidate never refuses one made from a tree whose marks are right |
| `StagedLoad.MatchesLooks` | unixfs/verified_facade.go:911-957 | and whatever passes it has the same nodes at every path |
| `StagedLoad.ResolvedIsProjected` | unixfs/verified_facade.go:519-570 | a stat's key is the target its path leads to |
| `ChunkedFile.WriteChunkedFile` | unixfs/chunked_file.go:25-57 | refused exactly for a chunk size that is not positive; otherwise the stored file holds the data: right count, right chunk lengths, right bytes |
| `ChunkedFile.ReadTypedRange` | unixfs/authentication_reader.go:171-219 | for every stored file and range the answer is exactly the requested bytes, failing exactly when a touched chunk has the wrong length; every index and offset stays within 64 bits |
| `ChunkedFile.ReadChunks` | unixfs/authentication_reader.go:171-219 | the loop over the chunks assembles the range |
| `ChunkedFile.ReadShare` | unixfs/authentication_reader.go:171-219 | one chunk contributes exactly its part of the range |
| `ChunkedFile.ShareBounds` | unixfs/authentication_reader.go:171-219 | the part of a chunk that belongs to the range, by 64-bit arithmetic without overflow |
| `ChunkedFile.ReadsWhatWasWritten` | unixfs/authentication_reader.go:171-219 | a range of a file that holds the data is that slice of the data |
| `ChunkedFile.WriteThenRead` | unixfs/chunked_file.go:25-57 | writing and then reading any range gives that slice of what was written, for every content, chunk size and range |
| `ChunkedFile.SaturatingAdd` | unixfs/verified_facade.go:963-968 | the sum, or the largest 64-bit number |
| `WritePlan.Staging.MaterializeAuthentication` | writeplan/staging.go:103-120 | an unsound candidate is refused; the first one staged for a root stays; staging order and index stay consistent |
| `WritePlan.Staging.constructor` | writeplan/staging.go:36-47 | a new staging area is empty and consistent |
| `WritePlan.Staging.BeforeImage` | writeplan/staging.go:82-102 | a before-image is given exactly if it is there and is of the root asked for; a missing or substituted one is refused and changes nothing, and the root of one the source answered counts as a source from then on |
| `WritePlan.SourceIsNotPlanned` | writeplan/staging.go:82-102 | no root that was used as a source before-image is in a plan |
| `WritePlan.Staging.Visit` | writeplan/staging.go:121-163 | the depth-first visit terminates and adds exactly walkable candidates reachable from the key, closed under dependencies |
| `WritePlan.Staging.Reached` | writeplan/staging.go:121-163 | visiting from the final root gives exactly the candidates reachable from it without passing a source before-image |
| `WritePlan.Staging.MakePlan` | writeplan/staging.go:121-163 | a plan is exactly those candidates in staging order, given if and only if that order puts dependencies first and the root last |
| `WritePlan.OrderedStagingPlans` | writeplan/staging.go:121-163 | if every candidate was staged after what it depends on, every root can be planned |
| `WritePlan.DependenciesArePlanned` | writeplan/staging.go:121-163 | a planned candidate's staged dependencies are planned too, and earlier, unless they are source before-images |
| `WritePlan.Validate` | writeplan/plan.go:42-86 | accepts exactly sound, duplicate-free plans with dependencies first and the root last |
| `WritePlan.CheckDeps` | writeplan/plan.go:42-86 | one candidate depends on nothing at or after its own position |
| `WritePlan.Remote.Persist` | writeplan/plan.go:90-114 | on a remote in any state, also one asked before: nothing is sent for an invalid plan; candidates go out in order, after all blocks, stopping at the first call that is not acknowledged exactly; it succeeds if and only if the plan is valid, every block matches both times it is read, and every call was acknowledged |
| `WritePlan.Remote.InstallAll` | writeplan/plan.go:90-114 | the loop over the candidates |
| `WritePlan.PrefixIsClosed` | writeplan/plan.go:90-114 | so whenever it stops, and whether or not the last call took effect, every installed candidate's planned dependencies were installed before it |
| `WritePlan.Remote.PersistBlocks` | writeplan/blocks.go:40-109 | blocks go out in order, each once, in batches of at most 4096 blocks and 8 MiB that the next block would not have fitted in, larger ones alone; nothing goes out if some local bytes do not match, and no block that does not match when it is read again; what went out is a prefix; it succeeds, having sent all, if and only if all match both times and every call was acknowledged |
| `WritePlan.Remote.SendBlocks` | writeplan/blocks.go:40-109 | the batching loop: it succeeds if and only if every block still matches and every call was acknowledged |
| `WritePlan.Remote.Consume` | writeplan/blocks.go:40-109 | one block joins the batch, or the batch is flushed first, or the block goes alone; refused exactly if it no longer matches or a call is not acknowledged |
| `WritePlan.Remote.Flush` | writeplan/blocks.go:40-109 | flushing sends exactly what is pending |
| `Trust.Store.WithAcceptedRoot` | trust/store.go:155-185 | lets the guarded operation run exactly while the expected root is the accepted one |
| `Trust.Store.TrustRoot` | trust/store.go:187-213 | makes a root the accepted one |
| `Trust.PromotionMoves` | trust/store.go:187-373 | every promotion that succeeds makes the root the accepted one, remembers the one before it, keeps the observations, and of the candidates exactly those with another root, none if it is the first accepted root |
| `Trust.PromotionNeeds` | trust/store.go:187-373 | trusting always succeeds; accepting needs exactly a candidate recorded on the accepted root, or an observation of the root |
| `Trust.Store.RecordCandidate` | trust/store.go:215-259 | a candidate is recorded exactly on the accepted root |
| `Trust.CandidatesKeep` | trust/store.go:215-259 | and stays unique |
| `Trust.CandidateIsRecorded` | trust/store.go:215-259 | recorded exactly on the accepted root, and not if it is that root; nothing else changes but an earlier record of the same root |
| `Trust.Store.RecordHead` | trust/store.go:261-289 | an observation is recorded unless it is older than, or contradicts, the one known |
| `Trust.Store.PromoteCandidate` | trust/store.go:291-333 | succeeds exactly for a candidate recorded on the currently accepted root |
| `Trust.Store.PromoteObserved` | trust/store.go:338-373 | succeeds exactly for a root that was observed |
| `Trust.Store.Promote` | trust/store.go:629-645 | promotion remembers the root before it and drops the promoted candidate |
| `Trust.PromotionKeeps` | trust/store.go:629-645 | promotion keeps the state valid: the accepted root is never a candidate |
| `Trust.KeepOthers` | trust/store.go:664-672 | the loop keeps exactly the other candidates |
| `Trust.ObservationKeeps` | trust/store.go:599-619 | observations of one stream never go back and one revision never names two heads |
| `Trust.ObservationIsRecorded` | trust/store.go:599-619 | recorded exactly if well formed, newer than the one known of its stream or equal to it, and replaces only that one |
| `Trust.StepKeeps` | trust/store.go:187-373 | every step keeps the state valid, and the accepted root moves only by outright trust, to an observed root, or along a candidate recorded on it |
| `WriteBack.StepInv` | application/writeback/service.go:101-174 | every step of write-back workers, promotions and staging keeps the invariant |
| `WriteBack.CompletedUnderFence` | application/writeback/service.go:101-174 | main theorem: in every interleaving an operation becomes completed only while its base is the accepted root, with a result that is that base or stood earlier as a candidate on it while it was accepted |
| `WriteBack.CompletionHappens` | application/writeback/service.go:101-174 | there is such a run: trust a root, stage, prepare, record the candidate, complete |
| `WriteBack.ReplayCompletes` | application/writeback/service.go:101-174 | from every state, a replay left alone on the accepted root completes exactly the operations its batch froze, with the planned root, which is a recorded candidate if it is a new one |
| `WriteBack.ReplayConflicts` | application/writeback/service.go:101-174 | if another root is promoted before it can complete, it ends with exactly those operations conflicted |
| `WriteBack.BeatenReturns` | application/writeback/service.go:101-174 | and if its root is accepted again by the time it looks again, it gives up without marking anything |
| `WriteBack.WriteBackNeverAccepts` | application/writeback/service.go:101-174 | no step of write-back changes the accepted root; all it adds is candidates on it |
| `WriteBack.ConflictIsReal` | application/writeback/service.go:101-174 | a worker marks an operation conflicted only after it began while the operation's base was the accepted root and then another root was accepted, both before it marks it |
| `WriteBack.StoredWasCandidate` | application/writeback/service.go:132-174 | a worker that goes on to complete has its root recorded as a candidate on its base |
| `WriteBack.WorkerBegan` | application/writeback/service.go:132-174 | a worker at work began on its view, when that view's root was the accepted one |
| `WriteBack.LoserWasBeaten` | application/writeback/service.go:132-174 | a worker that goes on to mark a conflict began on its view while that was accepted, and another root was accepted since |
| `WriteBack.CompletingStep` | application/writeback/authentication.go:19-87 | the step that completes an operation is a worker's, under the fence |
| `WriteBack.StagingCompletesNothing` | journal/store.go:137-316 | staging, freezing, conflicts and resolutions complete nothing |
| `Journal.ReloadLocked` | journal/store.go:546-617 | the reload validation, record by record with its maps of what was seen, accepts exactly the journals the invariant describes |
| `Journal.CheckRecords` | journal/store.go:546-617 | no two records share a sequence number or a retry identity, and each has its tombstones |
| `Journal.CheckReplacements` | journal/store.go:546-617 | superseded records point to later records of the same dataset and branch, no two to the same |
| `Journal.AppendReloads` | journal/store.go:466-486 | an append leaves a journal that reloads |
| `Journal.AppendOutcome` | journal/store.go:466-486 | repeating an append gives the stored record and changes nothing; otherwise it needs exactly two identities never used before and appends the intent as a new last record, all others staying |
| `Journal.Store.AppendIntent` | journal/store.go:466-486 | appending is idempotent for the same intent, and refuses a used operation or retry identity |
| `Journal.TransitionReloads` | journal/store.go:488-521 | a status change leaves a journal that reloads |
| `Journal.TransitionOutcome` | journal/store.go:488-521 | a transition succeeds exactly for a record that can reach the target, which is spelled out status by status; it ends there with its intent and sequence number, all others stay, and repeating it changes nothing |
| `Journal.Store.TransitionOne` | journal/store.go:488-521 | one record changes status along the allowed transitions; a pending upload is never demoted |
| `Journal.BatchReloads` | journal/store.go:163-375 | a batch change leaves a journal that reloads |
| `Journal.BatchOutcome` | journal/store.go:163-375 | a batch moves exactly if it names distinct records that can all reach the target; then they all do and no other changes |
| `Journal.Store.MoveBatch` | journal/store.go:163-375 | all records of a batch move, or none does |
| `Journal.ResolveReloads` | journal/store.go:262-316 | a resolution leaves a journal that reloads |
| `Journal.ResolveOutcome` | journal/store.go:262-316 | a conflicted record is resolved exactly by intent for its dataset and branch under new identities; it is superseded by the new record, and repeating it gives that record again |
| `Journal.ResolveOfOthers` | journal/store.go:262-316 | of other records only one superseded by this very intent counts as resolved |
| `Journal.Store.Resolve` | journal/store.go:262-316 | a conflicted record is superseded by new intent under new identities; repeating it is idempotent |
| `Journal.PruneReloads` | journal/store.go:417-448 | pruning leaves a journal that reloads |
| `Journal.Store.PruneCompleted` | journal/store.go:417-448 | removes exactly the finished records and counts them |
| `Journal.SelectFinished` | journal/store.go:417-448 | the fixpoint loop terminates and selects exactly the finished records |
| `Journal.FinishedIffChain` | journal/store.go:417-448 | a record is finished exactly when a chain of supersessions leads from it to a completed one |
| `Journal.StepReloads` | journal/store.go:137-448 | every step leaves a journal that reloads and uses no identity twice |
| `Journal.RunReloads` | journal/store.go:137-448 | every journal reachable through the API passes its own reload validation |
| `Journal.IdentitiesAreForever` | journal/store.go:137-448 | in every run, whatever was pruned, an operation or retry identity that turns up twice is the same intent with the same sequence number |
| `Journal.PrunedStaysAway` | journal/store.go:137-448 | a pruned record never comes back |
| `Journal.StepMoves` | journal/store.go:137-448 | in one step a completed record does not change, a conflicted one is at most superseded, a frozen one is never demoted, and only a frozen one is completed |
| `Journal.RunKeepsFinal` | journal/store.go:137-448 | over any stretch of a run a completed record stays as it is, a conflicted one is at most superseded and a frozen one is never demoted |
| `Journal.Store.constructor` | journal/store.go:830-835 | a new journal is empty |
| `Upload.Operations` | filesystem/staging/service.go:652-680 | lists exactly the view's operations that are not superseded, in sequence order |
| `Upload.Service.PrepareUpload` | filesystem/staging/upload.go:47-102 | freezes exactly the view's unfinished operations and returns a batch that validates; succeeds exactly if the view is well formed, none is conflicted and some is unfinished; each refusal has its own error and changes nothing |
| `Upload.PreparedIsOfTheView` | filesystem/staging/upload.go:47-102 | only operations made on the view are touched or returned, and every one that is not superseded is returned |
| `Upload.IdentityIsExact` | filesystem/staging/upload.go:47-102 | two batches have one transaction identity exactly if they replay the same intents in the same places on the same view |
| `Upload.PreparedMaySettle` | filesystem/staging/upload.go:47-102 | right after it was prepared a batch may be settled either way |
| `Upload.FrozenBatch` | filesystem/staging/upload.go:47-102 | freezing the unfinished operations of a view without conflicts gives a valid batch |
| `Upload.Service.CompleteUpload` | filesystem/staging/upload.go:108-144 | completes exactly the batch's operations, if each is still pending or already has that result; a candidate equal to the base is refused |
| `Upload.Service.CompleteNoChange` | filesystem/staging/upload.go:150-183 | the same with the base as the result |
| `Upload.Service.MarkUploadConflicted` | filesystem/staging/upload.go:188-221 | the same for a conflict identity |
| `Upload.ValidateUploadBatch` | filesystem/staging/upload.go:288-326 | the validation loops accept exactly the batches that are valid |
| `Upload.CollectOperations` | filesystem/staging/upload.go:288-326 | only pending and completed operations, none twice |
| `Upload.CheckPending` | filesystem/staging/upload.go:288-326 | each pending entry is a pending operation of the batch, none twice |
| `Upload.RequireTargetSnapshot` | filesystem/staging/upload.go:342-354 | accepts exactly when every pending entry is in the journal, unchanged but for its status, and pending or at the target |
| `Upload.Service.SettleBatch` | filesystem/staging/upload.go:108-221 | completing and conflicting in one: all of the batch or nothing |
| `Upload.SettleOutcome` | filesystem/staging/upload.go:108-221 | settling brings exactly the batch's pending operations to the target and changes no other |
| `Upload.SettlesExactlyItsOwn` | filesystem/staging/upload.go:108-221 | at any later point of any run, a prepared batch can be settled exactly when its operations are still there and ready; settling moves those and no other, none staged later |
| `Upload.SettledOnce` | filesystem/staging/upload.go:108-221 | once settled, settling again, the same way or with another result, changes nothing at any later point |
| `Upload.RepeatedCompletion` | filesystem/staging/upload.go:108-221 | while its operations are still in the journal, repeating a completion succeeds exactly with the same result root |
| `MountLeases.Manager.constructor` | filesystem/mount/manager.go:179-195 | a new manager owns nothing |
| `MountLeases.Manager.Mount` | filesystem/mount/manager.go:210-301 | succeeds if and only if the manager is open and the mount is up already, or what is left of it can be taken down and every call for a new one succeeds; whatever call fails, afterwards every acquired lease is held by exactly one record or released, and other mounts are untouched |
| `MountLeases.Manager.MountNew` | filesystem/mount/manager.go:210-301 | acquiring the lease and binding a writable filesystem: comes up if and only if every call succeeds; otherwise a record is left exactly if something cannot be taken down again, and names what had been made |
| `MountLeases.Manager.AttachSession` | filesystem/mount/manager.go:210-301 | attaching the session, or taking everything down again |
| `MountLeases.Manager.Unmount` | filesystem/mount/manager.go:305-342 | succeeds if and only if the mount can be taken down, or recovered when there is no record, and the durable record marked and deleted; the record goes exactly then, and otherwise still owns what is left |
| `MountLeases.Manager.Shutdown` | filesystem/mount/manager.go:390-447 | succeeds if and only if every mount can be taken down and the filesystem closes; the records left are exactly those that cannot be taken down, and on success every lease ever acquired is released |
| `MountLeases.Manager.CleanupLive` | filesystem/mount/manager.go:534-551 | takes a mount down, succeeding if and only if each call that is still needed does, and keeps the record |
| `MountLeases.Manager.MarkDetached` | filesystem/mount/manager.go:553-562 | a detached record is no active mount any more |
| `MountLeases.Manager.RollbackFailedMount` | filesystem/mount/manager.go:576-594 | a record is retained exactly if some call to take it down fails, and then holds everything; otherwise the lease is released |
| `MountLeases.Manager.RetainCleanup` | filesystem/mount/manager.go:596-609 | a retained record takes the lease over without displacing another |
| `MountLeases.Manager.Monitor` | filesystem/mount/manager.go:611-651 | after a session ended on its own the record goes exactly if its binding can be closed and its lease released, and stays for a retry otherwise |
| `MountLeases.Manager.ReleaseView` | filesystem/mount/manager.go:693-707 | may be called only when the session is detached or ended and the binding closed; idempotent |
| `MountLeases.Manager.CloseBinding` | filesystem/mount/manager.go:709-723 | idempotent and retryable |
| `MountLeases.ExactlyOneOwner` | filesystem/mount/manager.go:210-651 | between operations every acquired lease is released or held by exactly one record |
| `Merge.MergeTrees` | application/backup/merge.go:30-97 | merges exactly when no path was changed on both sides and the result is a proper tree; otherwise reports exactly the conflicting paths, or one path that has a missing or non-directory ancestor |
| `Merge.FindMisfit` | application/backup/merge.go:30-97 | the climb from every path to the root gives a path with a missing or non-directory ancestor, exactly when there is one |
| `Merge.SameUpToSource` | application/backup/merge.go:30-97 | two nodes count as the same exactly if they differ at most in where their bytes lie |
| `Merge.OneSidedChange` | application/backup/merge.go:30-97 | a path changed on one side ends as that side has it |
| `Merge.MergeIsSymmetric` | application/backup/merge.go:30-97 | swapping the sides gives the same conflicts and the same tree |
| `Merge.UnchangedSide` | application/backup/merge.go:30-97 | if one side has not changed the merge succeeds and is the other side |
| `Merge.MisfitHasACause` | application/backup/merge.go:30-97 | a merged tree fails to fit only where one side needs a directory the other took away |
| `Merge.Disk.WriteTree` | application/backup/merge.go:98-128 | shallowest paths first, so every parent directory exists before its children; what is written is the merged tree |
| `Merge.Disk.Create` | application/backup/merge.go:98-128 | a path is made inside an existing directory |

## Left out

- StagedTree.Materialize: the source updates nodes in place and may have settled some children when it fails; the model works on values and says nothing of a tree after a failure. A name is refused when it is empty or holds a slash; the source also refuses dot segments, backslashes and NUL.
- StagedTree.EnsureKeeps: the edits of staged trees are modelled on values, so sharing of nodes between trees is not captured.
- UnixfsLayout.ReadsBack: assumes that no entry has the reserved name `@payload`.
- WritePlan.Validate: content validation of a candidate and parsing of root CIDs are one flag of the candidate.
- ChunkedFile.ReadTypedRange: proofs are ideal; the file's chunk count is the one its metadata calls for.
- FileBytes.ReadLocalRange: a body that fails its digest or size check is not modelled.
- Upload.Service.PrepareUpload: payload bodies and the cache states that follow the journal's statuses are not modelled.
- WriteBack.CompletedUnderFence: the snapshot check and the batch completion of one upload are one step; the journal's own checks make the second refuse what changed in between.
- Merge.Disk.WriteTree: goes by depth without fixing an order among paths of one depth, and starts from an empty destination.
- Trust.Store.RecordHead: observations are kept in order of arrival instead of sorted.
- BucketSync.Service.SettlePush: commit identities, branch names and the list of conflicts in the remote's answer are left out.
- BucketSync.Service.RestoreStash: refusals of a stash without creation time or with identities that do not parse are left out.
- StagingService.Service.StageWriteBody: the body goes to the model's file as bytes; storing and pinning it in the cache first, and failures there, are left out.
- StagedLoad.LoadTree: which of several refusals is reported is left out, and so is the manifest block's own digest check, identities being ideal.
- Install.NothingOfTheUsersIsLost: a rename onto an existing destination fails in the model also where the platform would let it replace an empty directory.
- Merge.Disk.Create: file modes, the copying of bytes and failing calls are left out.
- Publication.ProceedInv: a retry's check that the trust store still holds the candidate is left out.
- MountLeases.Manager.Shutdown: the lock of the manager itself, released last, is left out.
- MountLeases.Manager.Mount: writing the durable record of the wanted mount, which comes first and may fail, is left out.
- The flat layout and opaque map directories: they depend on label encodings that are not part of this model.
- Path and identity checks of an install transaction before it is used, and the text of the quarantine report.
- The scheduler's plan history, intervals and conflict checkouts: record keeping around the pending snapshot.
- The cache's state tables and its reconciliation with the journal after a restart.
- `PersistBatch`: the same candidates in one call, with a receipt.
- `Restore` of mounts after a restart: it calls the modelled mount for every desired record.
- File I/O, locks, permissions, JSON, HTTP, the command line, encryption and the commitment engine.

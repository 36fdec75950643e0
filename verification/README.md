# A verified model of kfuse's overlay, merged view and session protocol

kfuse mounts a read-only lower tree with a writable overlay whose state is a fold over a log of
events. This project models the three connected parts that make that work and proves what they
promise:

- **The overlay state machine.** `Overlay` holds the state (nodes, whiteouts, overrides, redirects,
  bound lower id, last sequence number) and the fold `Apply`/`Replay`; `EventMeaning` says, on the maps
  alone, which events are accepted and what each does. `Extents` is the sparse extent
  list: split, sort, coalesce, clip. `Renames` and `Lookup` are the subtree rename and the
  ancestor walks. `UpperObject` is the mutable object itself, whose loops visit map keys in an arbitrary
  order; `ExtentList` holds the in-place extent loops. `Images` is the serialized state.
- **The merged view and the read path.** `MergedView` resolves one path and specifies listings over a
  lower tree given as a fixed function; `Readdir` holds the loops. `RenamedView`
  gives the entry at every path after any rename, `LowerRenames` the rename of a purely lower-backed tree,
  `RenamedFiles` the bytes, `FileAttrs` the attributes a write or truncate leaves. `FileBytes`, `FileRuns` and
  `ReadPath` compare handle writes, truncates and reads with `write()` and `ftruncate()` of chapter 3 of the
  System Interfaces volume of POSIX.1-2017 on a plain byte sequence.
- **The commit, checkpoint, resume and branch protocol.** `EventLog` is the partition read loop and the
  image choice. `Sessions` is one session as a step system in which an append may succeed, vanish, or
  persist and report failure, a checkpoint is several lock sections, and crashes and resumes come
  anywhere, and a fenced object another mount has replaced may still checkpoint; `SessionRuns` proves what
  every run keeps, `SessionProgress` what commits, checkpoints and resumes achieve. `SessionObject` is the mounted object proved
  against those steps. `Cluster` and `Lineage` put many sessions on one partitioned log, forking from any
  offset to any depth.

`Witnesses` shows, on one small lower tree and with events the mount emits, the expectations the code does
not meet. `Paths`, `Names` and `Machine` hold canonical paths, dictionary order and Go's fixed-width integers.

Hypotheses carried by the theorems: a write's offset is not negative and its range stays below 2^63, its
blob range does not wrap, sizes stay below 2^63 (`SaneOp`, `SaneRun`); one unfenced writer per session; a
record whose append failed is in the log when a resume reads it or never appears; no record newer than the
chosen image has been trimmed (`Retained`).

Where the code does less than its surroundings suggest, the model follows the code, states exactly when
the expectation holds and gives a run where it fails:

- An empty write past the end moves the end of file, and a lower-backed file cut and extended again shows
  lower bytes: `FileRuns.FileIsPosixIff`, `Witnesses.EmptyWriteExtends`, `Witnesses.CutThenExtendResurfaces`.
- The first write to a lower file makes its times 0 unless a Setattr recorded them, and truncating it first
  makes it root's with mode 0644: `FileAttrs.FirstWriteAttrs`, `FileAttrs.FirstTruncateAttrs`,
  `Witnesses.FirstTouchForgets`.
- Unlinking an overlay node uncovers its lower twin: `EventMeaning.RemovalShown`,
  `Witnesses.UnlinkUncovers`.
- A redirect whose source is gone, or that lies under a whiteouted directory, is listed but absent:
  `MergedView.ReaddirAgreesWithLookup`, `Witnesses.MovedInFileVanishes`.
- Renaming a lower directory with one edited file below it makes the directory and its other lower entries
  absent at both places, and renaming a file inside an already renamed lower directory loses it, because
  lookup follows one redirect: `RenamedView.MovedEntryKeptIff`, `RenamedView.MovedAbsentIff`,
  `Witnesses.EditedDirectoryVanishes`, `Witnesses.TwiceRenamedFileVanishes`.
- A rename onto a path that another file's holes read from changes that other file:
  `RenamedView.OtherEntryKeptIff`, `RenamedFiles.OtherBytesKeptIff`, `Witnesses.UnrelatedFileDisturbed`.
- A target before a branch's own start rebuilds the empty overlay: `Sessions.RebuildIsReplayIff`,
  `Lineage.ForkStartsAsParent`, `Witnesses.EarlyBranchIsEmpty`.
- A branch whose first image was reported lost reopens empty, and if the image lands after it has committed,
  it no longer opens: `LateBranches.LateImageOpensIff`, `Witnesses.LateImageBlocks`.
- A recorded parent offset past the parent's newest record changes meaning later:
  `Lineage.FutureOffsetDrifts`, `Witnesses.BranchOffsetDrifts`.

## Model

| member | source | states |
|---|---|---|
| Paths.NormalizePath | internal/upper/upper.go:105-126 | accepts exactly the paths whose components are all real names and returns them unchanged; an accepted path is non-empty with no slash at either edge |
| Paths.CanonicalIff | internal/upper/upper.go:115-125 | a path is canonical iff none of its pieces between slashes is empty, "." or ".." |
| Paths.CanonicalJoin | internal/upper/apply.go:346-354 | splitting at a component boundary and re-joining keep canonical form, in both directions |
| Paths.RebaseBack | internal/upper/apply.go:481-486 | moving a canonical path from one subtree to another and back is the identity, and only the subtree's root lands on the new root |
| Paths.SharedDescendant | internal/upper/apply.go:342-354 | two directories above one path lie on one branch |
| Extents.SplitTidy | internal/upper/apply.go:151-164 | cutting around a new extent leaves a sorted, disjoint list clear of it |
| Extents.SplitAt | internal/upper/apply.go:151-164 | cutting around a new extent erases exactly its range from the offset-to-cell map |
| Extents.SortIsUnique | internal/upper/apply.go:166-169 | any sort by offset of the split list gives one and the same list |
| Extents.MergeMeaning | internal/upper/apply.go:179-193 | coalescing keeps the offset-to-cell map and leaves no mergeable neighbours |
| Extents.InsertMeaning | internal/upper/apply.go:145-171 | insertion yields a canonical list denoting the old map overridden on exactly the new range |
| Extents.ClipMeaning | internal/upper/apply.go:489-501 | clipping keeps canonical form and restricts the map to the offsets below the end |
| Extents.CompactUnique | internal/upper/apply.go:173-201 | canonical lists denoting the same map are equal |
| Extents.DisjointInsertsCommute | internal/upper/apply.go:145-201 | writes to disjoint ranges commute down to the stored list |
| ExtentList.CoalesceInPlace | internal/upper/apply.go:179-193 | the compaction that writes to the front of the array it is still reading equals the functional merge |
| ExtentList.CutAround | internal/upper/apply.go:149-164 | the loop that keeps the parts outside the new extent computes the split |
| ExtentList.InsertExtent | internal/upper/apply.go:145-171 | split, sort and in-place compaction together compute the insertion whose meaning is InsertMeaning |
| ExtentList.ClipExtents | internal/upper/apply.go:489-501 | the clipping loop computes the clip whose meaning is ClipMeaning |
| ExtentList.FurthestEnd | internal/fs/lower.go:159-167 | the result bounds every stored offset and the byte before it is stored |
| Overlay.ReplayAppend | internal/upper/apply.go:133-141 | replaying a concatenation is replaying the parts in turn, with the first refusal ending it |
| Overlay.OpClean | internal/upper/apply.go:22-121 | no accepted operation, whatever its numbers, introduces a key or redirect source that is not canonical |
| Overlay.ApplyKeepsSound | internal/upper/apply.go:22-121 | every event keeps canonical keys, canonical extent lists and no extent past the size of a non-fallthrough file |
| Overlay.ReachableSound | internal/upper/apply.go:133-141 | all of that holds in every state a replay reaches |
| EventMeaning.AcceptedIff | internal/upper/check.go:20-121 | an event is accepted iff its number is fresh, it names no other lower tree, and the maps fit its operation, each condition written on the maps |
| EventMeaning.RefusalReason | internal/upper/check.go:20-121 | the reason given for every refused event |
| EventMeaning.NameAndNumber | internal/upper/apply.go:31-33 | the lower id and sequence number after an accepted event |
| EventMeaning.StartMarks | internal/upper/apply.go:35-36 | a SessionStart changes no map |
| EventMeaning.MadeNode | internal/upper/apply.go:37-113 | create, mkdir and symlink add exactly one node, field by field, over no earlier one |
| EventMeaning.RemovedEntry | internal/upper/apply.go:83-104 | unlink and rmdir drop an overlay node or whiteout any other path, and change nothing else |
| EventMeaning.RemovalShown | internal/upper/apply.go:83-104 | after an accepted removal the path is visible iff a node shadowed a live lower twin, and no entry outside its subtree changes |
| EventMeaning.SetNode | internal/upper/apply.go:235-258 | Setattr of a path with a node: each attribute, size and extent after it |
| EventMeaning.SetLowerSize | internal/upper/apply.go:260-287 | truncating a path with no node: the node over the lower file, with the override absorbed |
| EventMeaning.SetOverride | internal/upper/apply.go:289-310 | Setattr of a lower-backed path records the named attributes over the earlier ones |
| EventMeaning.WrittenNode | internal/upper/apply.go:46-82 | a write overrides the extents on its range, cuts at an end-of-file mark, sets the size, and starts from the recorded, a new or a lower-backed node |
| EventMeaning.RenamedToItself | internal/upper/apply.go:318-321 | a rename to the same name changes no map |
| EventMeaning.RenamedMapsAre | internal/upper/apply.go:317-447 | an accepted rename between incomparable names, with or without a whiteout asked for: all four maps at every path |
| EventMeaning.RenamedEntriesAre | internal/fs/merged.go:66-121 | and the entry every path then resolves to |
| EventMeaning.RenamedOntoAncestor | internal/upper/apply.go:317-340 | an accepted rename onto an ancestor: all four maps at every path |
| EventMeaning.NodesSurvive | internal/upper/apply.go:22-121 | an accepted event discards a node only by Unlink, Rmdir or clearing a rename's destination; a renamed node goes along whole |
| Renames.MovedMeaning | internal/upper/apply.go:384-422 | re-keying keeps every value, at exactly the re-based keys |
| Renames.RenamePointwise | internal/upper/apply.go:317-447 | path by path for all four maps: the destination shows the source's entries, the source is empty but for the requested whiteout, the rest is untouched |
| Renames.RenameIsRekeying | internal/upper/apply.go:317-382 | for incomparable paths, renaming an overlay subtree is one re-keying of all four maps of what clearing the destination leaves, plus the requested whiteout |
| Renames.RenameRoundTrip | internal/upper/apply.go:317-447 | renaming to a vacant incomparable place and back restores all four maps |
| UpperObject.MoveKeys | internal/upper/apply.go:384-400 | moving keys while visiting them in any order equals the one declarative re-keying |
| UpperObject.MovePaths | internal/upper/apply.go:404-411 | the whiteout move, in any order, re-keys exactly the paths strictly below the source |
| UpperObject.DeleteKeys | internal/upper/apply.go:426-436 | deletion in any order leaves exactly the entries outside the subtree |
| UpperObject.DeletePaths | internal/upper/apply.go:437-441 | the same for the whiteout set |
| UpperObject.AnyAtOrBelow | internal/upper/apply.go:359-371 | the key loop, in any order, finds a key in the subtree iff there is one |
| UpperObject.Upper.HasSubtree | internal/upper/apply.go:359-371 | the two loops together decide whether a node or redirect lives at or below the directory |
| UpperObject.Upper.HasChildNode | internal/upper/upper.go:286-294 | the key loop, in any order, decides whether a node lives directly inside the directory |
| UpperObject.Upper.CheckRenamePaths | internal/upper/check.go:102-121 | the rename precondition decided on the object by its loops |
| UpperObject.Upper.Check | internal/upper/check.go:20-87 | decided by the loops over the maps: nothing is reported iff the event names no other lower tree and fits the maps, which is iff Apply accepts it under every fresh number |
| UpperObject.Upper.AbsorbOverride | internal/upper/apply.go:207-228 | the override's fields win and the override is gone |
| UpperObject.Upper.ApplyWrite | internal/upper/apply.go:46-82 | the object's new state is the write of the fold |
| UpperObject.Upper.Remove | internal/upper/apply.go:83-104 | an overlay node is dropped, anything else is whiteouted |
| UpperObject.Upper.ApplySetattr | internal/upper/apply.go:235-310 | the object's new state is the setattr of the fold: in place, materializing, or recorded as an override |
| UpperObject.Upper.DeleteSubtree | internal/upper/apply.go:426-447 | all four maps lose exactly the subtree |
| UpperObject.Upper.MoveSubtree | internal/upper/apply.go:377-382 | all four maps are re-keyed, for every visiting order |
| UpperObject.Upper.ApplyRename | internal/upper/apply.go:317-340 | the object's new state is the rename of the fold, overlay move or redirect |
| UpperObject.Upper.Apply | internal/upper/apply.go:22-121 | accepts iff the number is fresh and the event fits the maps, then does exactly what the fold does; keeps the keys canonical, and changes nothing when refused |
| UpperObject.Upper.Children | internal/upper/upper.go:300-328 | exactly the overlay children by name, and the whiteouted names no node shadows |
| UpperObject.Upper.Redirected | internal/upper/upper.go:335-353 | exactly the names renamed into the directory, ascending |
| UpperObject.Upper.Hidden | internal/upper/upper.go:266-283 | the ancestor walk ends and holds iff some component-boundary prefix is whiteouted |
| UpperObject.Upper.LowerPath | internal/upper/upper.go:240-259 | the ancestor walk ends and rewrites by the longest redirected prefix; the flag says whether one exists |
| Lookup.LowerPathBy | internal/upper/upper.go:240-259 | the longest redirected prefix, and no other, is replaced by its source |
| Lookup.LowerPathFrame | internal/upper/upper.go:240-259 | redirect tables that agree above a path resolve it alike |
| Lookup.LowerPathChild | internal/upper/upper.go:240-259 | a child that is not itself redirected lives inside its parent's lower directory |
| Lookup.IsChild | internal/upper/upper.go:300-328 | a name is a child in a key set exactly when the joined path is a key |
| Names.SortedKeys | internal/upper/serialize.go:46-61 | the keys, visited in any order, come out strictly ascending and complete |
| Names.AscendingUnique | internal/upper/serialize.go:58-61 | a set of strings has one ascending list |
| Images.Marshal | internal/upper/serialize.go:44-63 | the entry lists hold every map's entries once, in dictionary order |
| Images.ViewUnique | internal/upper/serialize.go:44-63 | the serialized view is a function of the state alone |
| Images.RestoreInverts | internal/upper/serialize.go:66-91 | restoring a view gives back the state it was taken from |
| Images.UnmarshalState | internal/upper/serialize.go:66-91 | the loading loops compute the restoration |
| Images.ImageThenSuffix | internal/upper/serialize.go:66-91 | replaying a suffix on a restored image equals replaying the whole list |
| MergedView.ResolveCases | internal/fs/merged.go:66-121 | where what it consults can be inspected, a path is present iff it has a node, or is not hidden and its lower location exists |
| MergedView.LowerEntryFields | internal/fs/merged.go:99-120 | a visible lower entry: kind by its file type, each attribute the override's or the stat's, size, no node |
| MergedView.NodeEntryFields | internal/fs/merged.go:80-98 | a path with a node: the node's kind, attributes and extents, its twin, every case of its size, and when it fails |
| MergedView.LowerLookup | internal/fs/merged.go:66-121 | a path with no node is absent, fails as unreadable, or fails as unsupported, each iff its lower entry is so |
| MergedView.ReaddirAgreesWithLookup | internal/fs/lower.go:22-75 | every child that resolves present is listed; a child is listed iff lookup does not answer absent, exactly when it is no dangling redirect; unsupported or unreadable kinds elsewhere do not matter |
| MergedView.ListedIsName | internal/fs/lower.go:22-75 | everything listed is a real name, so agreement covers every listed entry |
| MergedView.EmptyAgreesWithListing | internal/fs/lower.go:84-110 | the emptiness test holds iff the listing is empty, and fails iff the lower listing does and nothing else is listed |
| Readdir.MergedEntries | internal/fs/lower.go:22-75 | lists each visible child exactly once with the right kind, and errs iff the lower listing does |
| Readdir.IsEmpty | internal/fs/lower.go:84-110 | the loops compute the emptiness test that EmptyAgreesWithListing is about |
| RenamedView.MapsAfter | internal/upper/apply.go:317-447 | all four maps after any rename between incomparable names, overlay move or redirect, path by path |
| RenamedView.HiddenAfterIs | internal/upper/upper.go:266-283 | which whiteouts cover each path after any rename |
| RenamedView.LocationAfterIs | internal/upper/upper.go:240-259 | where the lower tree is consulted for each path after any rename, redirects inside, above and created included |
| RenamedView.RenamedResolve | internal/fs/merged.go:66-121 | the entry every path resolves to after any rename, from the overlay and lower tree before it |
| RenamedView.MovedEntryKeptIff | internal/upper/apply.go:317-340 | an entry of any renamed tree, overlay, lower or mixed, is kept iff the lower tree answers alike at its old and new location and its size does |
| RenamedView.MovedNodeFace | internal/upper/apply.go:384-391 | an overlay node carries kind, attributes and extents along, and its size iff the source of a derived one shows the same |
| RenamedView.MovedAbsentIff | internal/upper/apply.go:326-339 | a renamed path is absent at its new place iff it has no node and no visible lower entry there |
| RenamedView.OldPlaceAbsentIff | internal/upper/apply.go:330-332 | a path at or below the old place is absent iff whiteouted there or above, or without lower entry |
| RenamedView.MixedRenameLosesRoot | internal/upper/apply.go:326-339 | a lower-backed directory with something of the overlay below it is absent at both places where the lower tree has nothing at the new one |
| RenamedView.OtherEntryKeptIff | internal/fs/lower.go:130-157 | after any rename a path outside both trees keeps its entry iff the source of its size shows the same |
| LowerRenames.RenamedEntryMoves | internal/upper/apply.go:317-340 | every path of a renamed purely lower-backed tree resolves to the very entry it had |
| LowerRenames.OldPlaceAbsent | internal/upper/apply.go:330-332 | everything at or below the old place is absent |
| LowerRenames.RenamedListingMoves | internal/upper/apply.go:333-339 | every directory of the renamed tree lists what it listed before |
| LowerRenames.OtherEntriesKept | internal/upper/apply.go:317-340 | every other path keeps its entry unless it derives its size from a lower path under the destination |
| LowerRenames.OtherListingKept | internal/upper/apply.go:317-340 | every directory outside both trees reads the same lower names and lists the same children outside both trees |
| RenamedFiles.RenamedData | internal/fs/handle.go:87-104 | what every file holds after any rename |
| RenamedFiles.MovedBytesKeptIff | internal/fs/handle.go:87-104 | a file of any renamed tree keeps its bytes iff the lower bytes at its old and new location agree, or, once written, those its holes show |
| RenamedFiles.OtherBytesKeptIff | internal/fs/handle.go:92-97 | a file outside both trees keeps its bytes iff its holes show the same, for derived and explicit sizes |
| RenamedFiles.RenamedBytesMove | internal/upper/apply.go:333-339 | every file of a renamed purely lower-backed tree keeps its bytes |
| RenamedFiles.OtherBytesKept | internal/upper/apply.go:317-340 | the common case of OtherBytesKeptIff: holes that read from outside the destination |
| RenamedFiles.ExposedBytesShift | internal/fs/handle.go:92-97 | a file whose holes read from under the destination shows the renamed tree's lower bytes there |
| FileBytes.WriteIsPosixIff | internal/fs/handle.go:114-142 | one handle write equals write() iff it is not an empty write past the end and no non-zero lower byte resurfaces |
| FileBytes.TruncateIsPosixIff | internal/upper/apply.go:253-256 | one truncate equals ftruncate() iff no non-zero lower byte resurfaces |
| FileBytes.WriteSize | internal/upper/apply.go:73-82 | a handle write makes the logical size max(old size, off+len), for derived and explicit sizes |
| FileBytes.NodeWrite | internal/upper/apply.go:46-82 | a handle write on a node is one overwrite of its bytes and drops nothing outside the range |
| FileBytes.NodeTruncate | internal/upper/apply.go:253-256 | a truncate on a node is one resize of its bytes |
| FileRuns.ResolveFile | internal/fs/lower.go:130-148 | the size the merged view reports is the length of the byte sequence |
| FileRuns.PerformIsByteOp | internal/fs/handle.go:114-142 | a sequential operation, from the handle's decisions to the applied event, is accepted and is its byte reference |
| FileRuns.RunIsByteRun | internal/fs/handle.go:114-142 | any sequential run acts on the file as on a byte sequence over its lower bytes |
| FileRuns.RunIsPosixIff | internal/fs/handle.go:114-142 | a byte run agrees with POSIX after every step iff each step is tame where it happens |
| FileRuns.FileIsPosixIff | internal/fs/handle.go:114-142 | the mounted file is a POSIX byte file throughout a run iff the run is tame |
| FileRuns.PlainFileIsPosix | internal/fs/handle.go:114-142 | a file with no lower backing is a POSIX file under every run of non-empty writes and truncates |
| FileRuns.FallthroughFileIsPosix | internal/fs/handle.go:114-142 | so is a lower-backed file never cut below its lower size |
| ReadPath.ReadWindow | internal/fs/handle.go:35-50 | the window is exactly min(want, size-off), or 0, although off+want may wrap; refused exactly for negative arguments or a window above 2^30 |
| ReadPath.CopyExtent | internal/fs/extents.go:29-46 | one extent's bytes land at their offsets and the other bytes of the window stay |
| ReadPath.MergeExtents | internal/fs/extents.go:16-49 | every window byte comes from the covering extent or stays; fails iff a needed blob range is missing |
| ReadPath.FillWindow | internal/fs/handle.go:87-104 | each byte is the covering extent's, else the lower file's, else zero |
| ReadPath.HandleRead | internal/fs/handle.go:64-112 | a read of a regular file returns the slice of its byte sequence, and errs exactly for negative arguments or a window above 2^30; errors of resolve, overlay nodes that are no files, and absent paths too |
| ReadPath.ReadAfterRun | internal/fs/handle.go:35-142 | any tame run followed by any read returns the slice a POSIX byte file would, with the same refusals |
| FileAttrs.FirstWriteAttrs | internal/fs/handle.go:126-133 | the first write to a lower file keeps mode, owner and group, and a time iff it was recorded or is 0 |
| FileAttrs.FirstTruncateAttrs | internal/upper/apply.go:260-287 | truncating a lower file first keeps each attribute iff it was recorded or equals the default |
| FileAttrs.LaterOpsKeepAttrs | internal/upper/apply.go:46-82 | writes and truncates of a file with a node change no attribute |
| FileAttrs.ReachableMasks | internal/upper/apply.go:294-297 | recorded modes are permission bits only, in every state a replay reaches |
| EventLog.ReadSessionFromReader | internal/kafkalog/kafkalog.go:446-497 | succeeds iff the stream reaches the end and the session's records decode, and then returns exactly the session's records in [from, end] in order and the offset after the last |
| EventLog.ReadSessionTo | internal/kafkalog/kafkalog.go:368-410 | the same for a partition with bounds, retention and an early-ending consumer: succeeds iff the window is empty or can be read through, so always when everything up to the high-water mark is delivered |
| EventLog.LatestStateImage | internal/registry/state.go:51-93 | the newest listed image at or below the bound, or none iff there is none |
| Sessions.RebuildIsReplay | internal/session/session.go:205-232 | whatever usable image is chosen, reconstruction succeeds and equals full replay to the target, and covered is the newest offset reflected |
| Sessions.EarlyTargetIsEmpty | internal/session/session.go:205-232 | a target before a child's own start rebuilds the empty overlay |
| Sessions.RebuildIsReplayIff | internal/session/session.go:205-232 | reconstruction is full replay iff the target is not before the session's own start, or its base is empty |
| Sessions.RebuildIsStateTo | internal/session/session.go:205-232 | for every image and every target reconstruction succeeds, with its exact state and covered offset |
| Sessions.SameTagSameImage | internal/session/session.go:356-412 | two images with one tag are equal, under every interleaving |
| SessionRuns.CommittedEventApplies | internal/session/session.go:594-598 | the failure to apply after a durable append is unreachable |
| SessionRuns.CaptureKeeps | internal/session/session.go:377-400 | a captured image holds the state through its tag; a diverged object captures none |
| SessionRuns.ResumeKeeps | internal/session/session.go:144-178 | a resume always opens, holding the replay of all durable records, its newest offset, the image's offset as saved and no fence |
| SessionRuns.StaleKeeps | internal/session/session.go:356-412 | a replaced lease-lost object that checkpoints late still tags exactly the state it holds |
| SessionRuns.StepKeepsInv | internal/session/session.go:356-606 | every step of commit, checkpoint (of mounted and of replaced objects), fence, crash and resume keeps the invariant |
| SessionRuns.RunKeepsInv | internal/session/session.go:356-606 | so does every run |
| SessionRuns.RootRunMirrorsLog | internal/session/session.go:568-606 | over every run of a root session the unfenced overlay is the replay of its records, numbered 1..n, and a commit in flight will apply |
| SessionRuns.FencedObjectLandsAtMostOne | internal/session/session.go:515-606 | once fenced, any number of committers land at most one more record, and none after a failed append |
| SessionRuns.DivergedCapturesNothing | internal/session/session.go:356-412 | while a diverged object stays mounted, every new image carries the offset of some undiverged object it replaced; with none there is no new image |
| SessionProgress.BeginsIff | internal/session/session.go:568-581 | an event is stamped and appended iff the object is idle and unfenced and the event fits the maps |
| SessionProgress.CommitLands | internal/session/session.go:580-605 | an acknowledged commit adds one record with the next number, applied, its offset known, and changes nothing else |
| SessionProgress.FailedAppendFences | internal/session/session.go:583-592 | after a failed append, kept by the broker or not, the overlay is unchanged and no event is appended again |
| SessionProgress.LeaseLossFences | internal/session/session.go:644 | after the lease is marked lost no event is appended |
| SessionProgress.CapturesIff | internal/session/session.go:377-400 | the capture step captures iff the object is undiverged with a newer offset, and then the state under that offset |
| SessionProgress.StaleCapturesIff | internal/session/session.go:377-400 | so does a replaced object |
| SessionProgress.CheckpointStores | internal/session/session.go:356-412 | the steps of a whole checkpoint store exactly the news, under its offset, and remember it iff the upload succeeded |
| SessionProgress.CheckpointSparesReplay | internal/session/session.go:356-412 | a resume from the stored image replays no record and holds what the object held |
| SessionProgress.ResumeIsOpen | internal/session/session.go:144-178 | an unmounted session, or one mounted by a fenced idle object, can always be resumed |
| SessionProgress.CommitTracked | internal/session/session.go:568-606 | a commit on the object is its steps on the ledger the object mirrors |
| SessionProgress.CheckpointTracked | internal/session/session.go:356-412 | a checkpoint on the object is its steps on the ledger: same image, same saved offset |
| SessionObject.CommitIsTwoSteps | internal/session/session.go:568-606 | the locked commit is the two steps around the append, on object and log |
| SessionObject.MountedSession.constructor | internal/session/session.go:156-166 | the opened object carries the rebuilt overlay, its number, covered and saved offsets |
| SessionObject.MountedSession.MarkLeaseLost | internal/session/session.go:644 | sets the fence and nothing else |
| SessionObject.MountedSession.CommitLocked | internal/session/session.go:568-606 | re-tests the fence, checks, stamps, appends, applies; the whole new object for each outcome, and an event made durable never fails to apply |
| SessionObject.MountedSession.Capture | internal/session/session.go:377-385 | offset and serialized state are taken together |
| SessionObject.MountedSession.Checkpoint | internal/session/session.go:356-412 | stores an image exactly when undiverged with a newer offset, tagged with that offset and holding the current state |
| SessionObject.PickImage | internal/session/session.go:322-335 | the newest image at or below the bound, from a listing in any order |
| SessionObject.ReplayInto | internal/session/session.go:219-223 | the loop of Apply calls on the object is the replay of the fold, errors included |
| SessionObject.Reconstruct | internal/session/session.go:205-232 | starts one past the newest usable image; with nothing needed trimmed it succeeds iff the tail can be read, and then holds exactly the state to the target and its covered offset |
| Cluster.NextExtends | internal/session/session.go:568-606 | no move disturbs another session's ledger, and each history only grows at its end |
| Cluster.ForkIsPossible | internal/session/session.go:243-314 | every session can be branched at every offset |
| Cluster.ForkedLedger | internal/session/session.go:243-314 | a fork starts with the invariant and no records beyond its own start |
| Cluster.NextKeepsInv | internal/session/session.go:144-606 | every move of every session keeps the invariant of the whole world |
| Lineage.StateToIsMeaning | internal/session/session.go:205-314 | the state to a target is the parent's state at the branch offset plus the session's own records, iff the target does not predate a session that began non-empty |
| Lineage.ReconstructionIsMeaning | internal/session/session.go:205-314 | for every lineage depth, image and target, reconstruction succeeds and equals that state under exactly that condition, and is empty before the session's start |
| Lineage.ReachableReconstruction | internal/session/session.go:205-314 | that holds in every world reachable by any interleaving of moves, branches at any offset included |
| Lineage.ReachableMirror | internal/session/session.go:568-606 | in every reachable world every mounted, undiverged session, root or child, holds its meaning through its newest record |
| Lineage.MeaningIsStable | internal/session/session.go:243-314 | later parent and child appends never change each other's reconstruction |
| Lineage.ForkStartsAsParent | internal/session/session.go:243-314 | a fork starts as its parent at the requested offset iff that offset does not predate a parent that began non-empty; before the parent's start it is empty |
| Lineage.RecordedOffsetNamesBase | internal/session/session.go:256-270 | the recorded parent offset is the one asked for or the newest record's, and at branch time names the state the child starts from under exactly the same condition |
| Lineage.FutureOffsetDrifts | internal/session/session.go:256-262 | an append leaves the meaning of an offset alone iff the offset is below the new record's |
| Lineage.PartitionServesRebuild | internal/kafkalog/kafkalog.go:368-410 | a session read of its partition serves exactly the records a reconstruction replays |
| Lineage.ReachableServes | internal/kafkalog/kafkalog.go:368-410 | in every reachable world the hypotheses of Reconstruct hold |
| Lineage.ImageHoldsItsTag | internal/session/session.go:377-412 | every image a run captured or wrote holds exactly the state through its tag |
| LateBranches.UnfinishedBranchOpensEmpty | internal/session/session.go:286-303 | a branch that stopped between its first record and its first image reopens empty |
| LateBranches.LateImageOpensIff | internal/session/session.go:297-303 | when the lost first image lands after all and is chosen, the session opens iff it has committed nothing since its start or the image is no later than a start; what it then holds, and the refusal otherwise |
| LateBranches.BegunByStart | internal/session/session.go:125-137 | every state of a session that opens with its SessionStart is empty, just started, or two events old |
| Witnesses.FirstTouchForgets | internal/upper/apply.go:260-287 | a one-byte write to a lower file changes its time, a truncate to its own size its owner |
| Witnesses.UnlinkUncovers | internal/upper/apply.go:83-89 | one byte written to a lower file, then unlink: the path is present with its lower bytes |
| Witnesses.MovedInFileVanishes | internal/fs/lower.go:46-54 | rmdir and mkdir of a lower directory, then a lower file moved in: it is listed there and present nowhere |
| Witnesses.EmptyWriteExtends | internal/fs/handle.go:134 | an empty write at 2 of a new file makes it two zero bytes, where write() leaves it empty |
| Witnesses.CutThenExtendResurfaces | internal/fs/handle.go:92-97 | a mounted lower file cut to 0 and extended to 2 shows its lower bytes, where ftruncate() shows zeros |
| Witnesses.UnrelatedFileDisturbed | internal/upper/apply.go:333-339 | write a byte of b, rename b to c, rename a to b: the bytes of c change |
| Witnesses.EditedDirectoryVanishes | internal/upper/apply.go:326-339 | write one byte of d/x, rename d to e: d, d/y, e and e/y are all absent |
| Witnesses.TwiceRenamedFileVanishes | internal/upper/upper.go:243-257 | rename d to e, then e/x to f: the file is absent at both places |
| Witnesses.EarlyBranchIsEmpty | internal/session/session.go:252-255 | a branch of a non-empty branch at an offset before it began is empty |
| Witnesses.BranchOffsetDrifts | internal/session/session.go:256-262 | offset 9 of a valid session whose newest record is 0 rebuilds another state once record 5 exists |
| Witnesses.LateImageBlocks | internal/session/session.go:297-303 | a late image of a parent two events old stops a reopened branch that has committed one event |

## Left out

- Paths.NormalizePath: does not model the rejection of byte strings that are not UTF-8, because paths are sequences of Unicode characters.
- Sequence numbers are unbounded; 64-bit exhaustion of the event counter is not modelled.
- Nodes and overrides are values: readers of the Go object get clones, so no aliasing is lost, but the cloning itself is not modelled.
- File-type bits of modes, the attribute size of symbolic links, and times finer than the recorded values.
- FUSE node plumbing, inode numbers, attribute timeouts, handle bookkeeping and errno mapping beyond the few codes the read path returns.
- Blob store, S3 and Kafka clients: blobs are a content-addressed map from id to bytes, an append is a nondeterministic step.
- JSON, protobuf and SHA-256: treated as injective encodings; an image that exists but does not decode is not modelled.
- An image deleted between listing and fetch: the registry then reports no image and the whole log is replayed, which the hypotheses exclude.
- Pagination of the listing; any listed image gives the same result by Sessions.RebuildIsStateTo.
- The lease file and its clocks: only its effect, the lease-lost flag, is a step.
- The end-of-file flag is computed before the commit lock, so the byte-file theorems are about sequential operations.
- Short reads of the lower file by a single pread.
- An append still under way in a lease-lost object when another mount resumes: excluded with the one-writer hypothesis; its later checkpoints are modelled.
- validateEventPaths and the fence test before the lock: both are repeated under the lock, where they are modelled.
- The refusal to open or branch a session under another lower id than its registered one.
- NewSession is registration followed by a resume and a commit of SessionStart.
- Branch is one step of the world (the parent's reconstruction, the child's record and its first image); a branch cut short, and an image of it that lands late, are covered by LateBranches for that session alone.
- The single-flight launch of asynchronous checkpoints and the wait for them at shutdown.
- The library sorts are functions; Extents.SortIsUnique and Names.AscendingUnique show that any sort gives the same list.
- SessionObject.MountedSession.Checkpoint: is the form no commit interleaves with; the separate lock sections and every interleaving are the checkpoint steps of Sessions.
- LowerRenames.RenamedEntryMoves: is stated for a purely lower-backed, visible source; RenamedView.MovedEntryKeptIff gives the exact condition for every source.
- Renames of a path onto one of its own ancestors: the mount refuses them because the ancestor is not empty; RenamedView is about names neither of which lies below the other.
- internal/daemon, internal/config, cmd/kfuse, internal/perf and internal/log.

# Storage engine: model and proofs

A Dafny model of the storage engine of this repository: how bytes are split, published, listed and read
back by the local, SMB and S3 backends, and what callers can rely on. `dafny verify dfyconfig.toml`
checks the whole project.

## What is modelled

**Vocabulary.** Keys and paths are strings; comparing code points orders them as comparing UTF-8 bytes
does, which is what the Rust code compares. Bodies are byte sequences, streams are sequences of chunks that
may end in an error. SHA-256 is a function parameter. UUIDs are parameters; where two calls meet, their
UUIDs are assumed to differ. Counters are naturals with the source's saturation written out. For one call at a
time, how the file system or the server answers each request is given, for all answers, and the contracts say for
which of them the call succeeds; in the interleaved machines a step that can fail may fail at any time.

| part | modules |
|---|---|
| keys, prefixes, temporary names, generated keys; paths as a file system follows them | `Keys`, `TempNames`, `GeneratedKeys`; `Containment` |
| local publication: any number of interleaved puts, conditional puts, copies, deletes, sweeps, readers | `LocalStore`, `LocalStoreInvariant`, `LocalStoreRuns`, `LocalStoreConditional`, `LocalStoreTheorems`, `LocalStoreProgress`, `LocalStoreCopies`, `LocalStoreTemps`, `LocalStoreEntries`, `LocalStoreLookup`, `LocalStoreDefault` |
| local objects, data file and sidecar: each call on its own, and all calls interleaved | `ObjectAgreement`, `DiskCalls`, `Objects`; `ObjectStore`, `ObjectStoreInvariant`, `ObjectStoreTheorems`, `ObjectStoreSweeps`, `ObjectStoreWitnesses`, `ObjectStoreCleanups`, `ObjectStoreReads`, `ObjectOverlap`; `ObjectListing` |
| paged listing and draining, local and SMB | `KeyOrder`, `Trees`, `Paging`, `FilterMaps`, `Listing`, `PrefixListing`, `Draining`, `StoreListings`, `PagingTrees`, `PagingWitnesses` |
| sweep of stale temporary files | `Sweep` |
| streams, ranges, the S3 part splitter | `Sequences`, `ByteStrings`, `Streams`, `Ranges`, `S3Upload` |
| SMB writes, reads and publication call by call; puts, conditional creates and deletes of one key interleaved; the transfer semaphore | `SmbTransfer`; `SmbStore`, `SmbStoreTheorems`; `TransferLimit` |
| the service that composes keys and blobs | `Service` |

**Local publication** is a state machine over names, inodes and bytes. Each call is a small program whose
steps interleave freely with all others and which can fail or stop between any two. The state carries
history (which inodes are finished, which bodies are whole versions, how often a key was deleted, who
published what), so the theorems are about every reachable state and every run. A blob and a
temporary file are different names there; `LocalStore.PathsDistinct` proves the paths behind them distinct
when no blob key ends in `.uploading`.

**Objects** are two files. `DiskCalls` has the calls on a file system and what runs of them lead to when some fail;
`Objects` has the writer as a class over such a disk. Each method's contract says when it succeeds, which calls it makes,
which states it passes through, and that no file outside the writer's own four paths is touched in any of them, so calls
with disjoint paths can take turns. `ObjectStore` is the same program as a
state machine in which any number of uploads and deletions interleave, fail or stop between any two file system
steps; calls for one object do not overlap. Its `window` is the set of objects that an unfinished or mishandled
upload may have put out of agreement, and its invariant is that every other object a listing shows agrees with
its sidecar. A range read takes part with its two look-ups, and a sweep may take the temporary files of calls in progress.
`ObjectOverlap` lets a second upload join one of the same object. `ObjectListing` is the walk of `list_objects` over a
tree and its files.

**The SMB key** is a state machine too: conditional creates write under the key itself, puts go through a
temporary file and a rename, deletes and cleanups go by name, and a request may take effect although its reply
is lost. For one call at a time the server's answers to its requests are given, and the contracts say for which of
them it succeeds.

**Listing** is a tree whose directories hold their entries in name order, which is what reading and sorting
a directory gives. The local prefix is a path at which the walk starts; the SMB prefix is compared as
text; the model keeps that difference.

## What the proofs found

- A local drain returns every key exactly once, in order, if and only if no two listed keys first differ at
  a `/` against a character below `/`, that is, if no directory has a sibling whose name extends its own with
  such a character. With `a/x` and `a.txt`, pages of one key lose `a.txt`; with `b` as well, pages of two
  return `a/x` twice. Generated keys always meet the condition.
- A key that ends in `.uploading` is hidden by the local listing and can be swept. A generated key is of that
  kind exactly when the uploaded file's name has the extension `uploading`, in any case.
- Multipart `complete` uses two renames, so an overwritten object is shown with its old sidecar in between,
  and stays so when the second rename fails, or its temporary file is swept. It agrees there exactly if the old sidecar
  records the size and hash of the new data. The documentation of the trait speaks of atomic finalization.
- Multipart `complete` cleans up after a rename that fails, but not after a flush or a sidecar write that fails: then the
  temporary files stay until they are swept.
- A writer completed in spite of a failed `write_chunk` records the size and hash of bytes the file may lack;
  the object then agrees exactly if the file happens to have that size and hash. `put_object_stream` aborts
  instead.
- A deletion that fails half-way leaves a sidecar without data. It is not shown, but the next
  upload of that key then passes through the window like an overwrite.
- Two uploads of one object whose renames overlap can both succeed and leave the data of one with the sidecar of the
  other, with nothing in progress any more. That happens when the renames of one enclose those of the other, and only
  then; the object then agrees exactly if both bodies have one size and hash.
- `get_object_range` reads the sidecar and then opens the data file. If a whole overwrite comes between, it declares
  the old length and gives bytes of the new body, although the object agrees at both moments.
- The size `get_blob` reports comes from a separate look-up, which finds the streamed file if and only if the key is
  neither deleted nor published in between; for any two bodies some run streams one and reports the size of the other.
- `list_objects` returns what the sidecars say of exactly the shown objects at or below the prefix path; a prefix
  below a file is an error.
- The trait's default conditional write admits two successful callers: of two that meet no error, and no third
  writer, both succeed if and only if each checks before the other publishes. The local hard link admits one.
- An SMB conditional create writes under the final name, so part of a body is visible meanwhile; its
  cleanup deletes by name, and can remove a later caller's finished file if the failed caller's own file
  had been deleted in between.
- Two SMB conditional creates can both return success in a period in which the key is not removed, exactly when,
  as the period begins, one has a file open that the last removal took from under the key, and another
  can still succeed.
- With the default copy, transfers can deadlock exactly when there are at least as many copies as
  permits; a lone copy at limit 1 never moves a byte.
- An S3 upload that was asked for is neither completed nor aborted exactly when the stream breaks, or the request to
  open it or to send a part fails; it is asked for exactly when at least one whole part is read, and aborted exactly when
  its completion is not answered by success.
- An SMB conditional create whose reply is lost may have left an empty file under the key, which nothing cleans up.
- S3 reports an error for a non-empty range that starts at or past the end, where the local store and
  the default return no bytes. The size hint of a local or S3 range is the requested length, which
  exceeds the body when the range reaches past the end.

## Model

| member | source | states |
|---|---|---|
| Keys.ValidJoin | src/blob.rs:341-370 | a joined key is valid if and only if both parts are; `Containment.ValidKeyIff` says which are valid |
| Keys.JoinSplit | src/blob.rs:345-347 | the components a key is split into join to the key |
| Containment.ValidKeyIff | src/blob.rs:341-370 | a key is accepted if and only if it is not empty, has no backslash or NUL, and every beginning of it, followed as a file system follows paths, leads to itself |
| Containment.KeyStaysBelow | src/local.rs:78-81 | under any root the path of an accepted key never leaves the root and ends at the key's own components |
| Containment.ObjectPathsStayBelow | src/local.rs:83-105 | the same for data, sidecar and temporary paths of an object; they exist exactly for a bucket of one safe component and an accepted key |
| Containment.ProviderKeysStayBelow | src/s3.rs:95-106 | an S3 key is the components of the trimmed prefix and then those of the key, and never leaves them |
| Containment.MappedKeysStayBelow | src/smb.rs:357-363 | an SMB path, and the temporary path beside it, stays below the root prefix |
| Keys.TrimmedSlashes | src/s3.rs:100 | trimming a prefix takes slashes from both ends and nothing else |
| Keys.ProviderKeyRoundTrip | src/s3.rs:95-118 | every accepted key maps to a valid provider key that strips back to it, with no prefix or a slash-trimmed one |
| Keys.ProviderKeyInjective | src/s3.rs:95-106 | two keys with one provider key are the same key |
| Keys.ProviderKeyNested | src/s3.rs:95-106 | mapping under one configured prefix and then another is mapping under the one inside the other, refusals and edge slashes included |
| Keys.MappedKeyRoundTrip | src/smb.rs:357-363 | the mapped key is valid, and the listing code recovers the key from it |
| Keys.ObjectPathsInjective | src/local.rs:83-105 | data paths determine bucket and key, and so do sidecar paths |
| Keys.DataMeetsSidecar | src/local.rs:83-105 | a data path is a sidecar path only for the internal directory used as bucket, and exactly for which keys |
| TempNames.SmbTempKeyFacts | src/smb.rs:1005-1026 | a temporary key is valid, keeps the parent, is recognised, and its file name is a dot, the key's, a dot, the UUID and the suffix |
| TempNames.SmbTempKeyIff | src/smb.rs:1017-1026 | a key is recognised if and only if its file name is a stem, a dot, a UUID in one of its text forms, and the suffix |
| TempNames.ParseUuidIff | src/smb.rs:1024-1025 | exactly four forms are read as a UUID, digits in either case: plain, hyphenated, braced and URN, and as the UUID they spell |
| TempNames.TextGroups | src/smb.rs:1007 | the text form is the lower case digits in groups of 8, 4, 4, 4 and 12 (section 4 of RFC 9562) |
| TempNames.SmbTempKeyInjective | src/smb.rs:1005-1015 | a temporary key determines key and UUID |
| TempNames.ParseText | src/smb.rs:1017-1026 | the text form of a UUID (section 4 of RFC 9562) parses back to it |
| TempNames.UploadingIsSuffix | src/local.rs:762-766 | the recogniser on file names is the suffix test on the whole path |
| TempNames.LocalTempInjective | src/local.rs:711-719 | a local temporary path determines path and UUID |
| TempNames.LocalTempFacts | src/local.rs:711-719 | it keeps the directory, and its file name is the old one, a dot, the UUID and the suffix |
| GeneratedKeys.ObjectKeyParts | src/key.rs:9-48 | a generated key is valid and has the four components namespace, shard, shard, file name |
| GeneratedKeys.FileExtensionIff | src/key.rs:37-48 | a file name has an extension exactly if what follows its last dot, without the whitespace around it, is not empty and has no separator or NUL; that is the extension |
| GeneratedKeys.TrimmedWhitespace | src/key.rs:38 | trimming takes whitespace from both ends and nothing else |
| GeneratedKeys.ToAsciiLowercase | src/key.rs:18 | exactly the letters A to Z are lowered, each by its own small letter |
| GeneratedKeys.EmptyExtension | src/key.rs:17-20 | an empty extension is none, and the file name then is the UUID |
| GeneratedKeys.ObjectKeyRoundTrip | src/key.rs:9-32 | namespace and UUID can be read back from the key |
| GeneratedKeys.GeneratedNeverClash | src/key.rs:9-48 | no two generated keys clash in the sense of the paging condition |
| GeneratedKeys.GeneratedVisibility | src/local.rs:762-766 | a generated key is hidden locally exactly when it ends in the suffix, and never by SMB |
| GeneratedKeys.GeneratedHiddenIff | src/key.rs:37-48 | it is hidden exactly when the caller's file name has the extension `uploading`, in any case |
| GeneratedKeys.UploadingFileIsHidden | src/key.rs:37-48 | a file name for which it is |
| GeneratedKeys.GeneratedStoresAgree | src/service.rs:185-191 | on two stores of the same generated keys, for any prefix, page size and SMB root prefix, both drains are complete and in byte order, and the local one is the SMB one restricted to keys below the prefix path that lack the suffix |
| LocalStore.PathsDistinct | src/local.rs:711-719 | different names are different paths when no blob key has the temporary suffix |
| LocalStore.SuffixedKeyMeetsTemp | src/local.rs:762-766 | a suffixed blob key can be the path of another call's temporary file |
| LocalStoreRuns.StepOk | src/local.rs:114-323 | every step of every call keeps the invariant: published inodes are finished, writers own their inodes, temporary names have one owner |
| LocalStoreRuns.BlobsAreWhole | src/local.rs:114-173 | in every reachable state each blob holds a whole version |
| LocalStoreRuns.SealedForever | src/local.rs:721-749 | a finished inode is never written again, in any run |
| LocalStoreRuns.StreamYieldsOneVersion | src/local.rs:175-196 | a stream yields exactly the version its key had when it was opened, whatever happens meanwhile |
| LocalStoreConditional.ReachableSafe | src/local.rs:141-173 | the invariant with the winner history holds in every reachable state |
| LocalStoreTheorems.AtMostOneWinner | src/local.rs:141-173 | between two deletions of a key at most one conditional write succeeds |
| LocalStoreTheorems.WinnerIsStored | src/local.rs:141-173 | until a deletion or an unconditional write the key holds the winner's whole body |
| LocalStoreTheorems.LinkDecides | src/local.rs:150-173 | once a caller reaches the link step without error there is exactly one winner, and it is that caller if and only if the key was absent |
| LocalStoreTheorems.UnsuccessfulPublishedNothing | src/local.rs:114-173 | a call that did not succeed published nothing |
| LocalStoreTheorems.QuietStepKeepsBlobs | src/local.rs:114-323 | a step that neither deletes nor installs changes no blob |
| LocalStoreTheorems.InstallGivesWholeBody | src/local.rs:114-173 | an installing step gives its key the whole body and touches no other blob |
| LocalStoreTheorems.CopyIsWhole | src/local.rs:288-314 | what a copy is about to publish is all of the file it has open; `LocalStoreCopies` says which that is |
| LocalStoreCopies.OpenSourceIff | src/local.rs:288-300 | a copy opens what its source key names at that moment, and fails there exactly if the key is absent |
| LocalStoreCopies.CopyPublishesSource | src/local.rs:288-314 | in any run a copy that succeeds has passed a moment at which its source was there, and has published the body the source had then |
| LocalStoreCopies.CopyCanFinish | src/local.rs:288-314 | a copy of a present source left to itself gives its key the source's body |
| LocalStoreProgress.WriterCanFinish | src/local.rs:114-139 | an unconditional write left to itself publishes its whole body |
| LocalStoreProgress.ConditionalCanFinish | src/local.rs:141-173 | a conditional write left to itself stores its body if the key is absent, and is refused and changes nothing if not |
| LocalStoreProgress.ReaderCanFinish | src/local.rs:188-190 | a stream left to itself can be read to the end of its file |
| LocalStoreTemps.EndedCallsLeaveNoTemp | src/local.rs:128-171 | in any run in which no removal of its temporary file fails, a call that has ended has left none, however it ended |
| LocalStoreTheorems.SweepDooms | src/local.rs:62-67 | sweeping the temporary file of a live writer dooms it |
| LocalStoreTheorems.DoomedForever | src/local.rs:133-171 | a doomed writer ends in an error in every run |
| LocalStoreTheorems.OwnStepDoomed | src/local.rs:133-171 | no step of such a writer installs anything |
| LocalStoreEntries.EntryKept | src/local.rs:114-323 | an entry stays as it is over any run that neither deletes nor publishes under its key |
| LocalStoreLookup.EntryStandsIff | src/local.rs:114-323 | over any run a key goes on naming the same file if and only if no step of it deletes the key or installs something under it |
| LocalStoreLookup.LookupFindsStreamIff | src/local.rs:175-196 | the look-up that follows the opening of a stream finds the streamed file, and so its size, if and only if the key was neither deleted nor published in between |
| LocalStoreLookup.LookupCanDiffer | src/local.rs:244-257 | for any two bodies, a reachable state and a run in which the first is streamed and the size of the second reported |
| LocalStoreDefault.DefaultAdmitsTwoWinners | src/blob.rs:171-182 | a run of the default conditional write in which two callers both succeed |
| LocalStoreDefault.LatecomerNeverStores | src/blob.rs:171-182 | a default write that has not checked when the key is present never succeeds unless the key is deleted |
| LocalStoreDefault.BothWinIff | src/blob.rs:171-182 | two default writes of an absent key that meet no error and no third writer both succeed if and only if each checked before the other published |
| ObjectAgreement.ObjectStep | src/local.rs:585-617 | whatever happens to the files of one object puts no other object out of agreement |
| ObjectAgreement.WriterPaths | src/local.rs:389-405 | the four paths of a writer are distinct, for every bucket and key |
| ObjectStoreReads.UndisturbedRangeIsExact | src/local.rs:434-454 | a range read that finds the sidecar of an object outside the window has exactly the bytes it declares, if until the data file is opened no upload or deletion of the object replaces or removes that file |
| ObjectStoreReads.OverwriteBetweenMisreads | src/local.rs:434-454 | a reachable run with a whole overwrite between the two look-ups: the object is shown and outside the window at both, and the read has the declared length exactly if the new body is not shorter |
| ObjectStoreReads.AnObjectIsMisread | src/local.rs:434-454 | one such object, read with a length of one and no byte |
| Objects.LocalMultipartWriter.WriteChunk | src/local.rs:574-583 | each chunk is counted and hashed whether or not writing it succeeds, no file but the writer's temporary one changes, and it succeeds exactly if the write works |
| Objects.LocalMultipartWriter.Complete | src/local.rs:585-617 | succeeds exactly if flush, sidecar write and both renames work, and makes exactly these calls and the removals after a failed rename; success replaces both files, with a sidecar that describes what was hashed; in every state before that the sidecar is the old one and the data old or whole; no file outside the writer's own is touched in any state |
| Objects.LocalMultipartWriter.Abort | src/local.rs:619-634 | both removals are tried, each file is gone exactly if its removal works, and no other file is touched in either state |
| Objects.CreateMultipartObject | src/local.rs:389-419 | a fresh writer on an empty temporary file, and no other file touched; it succeeds exactly for accepted paths and calls that all work |
| Objects.PutObjectStream | src/local.rs:358-387 | succeeds exactly for accepted paths, an unbroken stream and calls that all work, and makes exactly the calls stated; success stores the whole stream and a sidecar that describes it; failure leaves the sidecar and the old data, or the whole new data, and no temporary file if it came to removals and they worked; no other file is touched in any state |
| Objects.DeleteObject | src/local.rs:541-555 | succeeds exactly for accepted paths and two removals that work; success leaves neither file; failure leaves the object as it was or hidden, by the removal that failed; no other file is touched |
| DiskCalls.PutFacts | src/local.rs:358-387 | for all answers of the file system, what the calls of a whole upload lead to |
| DiskCalls.CompleteFacts | src/local.rs:585-617 | the same for the calls of `complete`: how it comes out, when the data is in place, and when no temporary file is left |
| ObjectStoreInvariant.StepOk | src/local.rs:389-634 | every step of every interleaved upload and deletion keeps the invariant: temporary files hold what their uploads were given, calls own disjoint paths, objects outside the window agree, and the window has a cause |
| ObjectStoreTheorems.ObjectsAgree | src/local.rs:495-539 | in every reachable state every object shown outside the window agrees with its sidecar in size, hash, bucket and key |
| ObjectStoreTheorems.DisagreementHasACause | src/local.rs:605-617 | an object disagrees only if some upload of it has placed its data without then completing with every chunk written |
| ObjectStoreTheorems.DataRenameAgreesIff | src/local.rs:600-609 | at the data rename, whatever runs beside it, the object agrees if and only if it is hidden, has no complete sidecar yet, or has one that records bucket, key, size and hash of the new data |
| ObjectStoreTheorems.CompletionAgreesIff | src/local.rs:585-617 | a completed upload has its sidecar in place, and its data unless that looks temporary and was swept; the object agrees if and only if it is hidden or the file has the size and hash of what was hashed, as it does when no chunk failed |
| ObjectStoreTheorems.DeletionRestores | src/local.rs:541-555 | a finished deletion leaves the object hidden and out of the window |
| ObjectStoreCleanups.DeletionLeavesNeither | src/local.rs:541-555 | in every reachable state a deletion that succeeds has left neither of the two files |
| ObjectStoreCleanups.EndedUploadLeavesNoTemps | src/local.rs:605-634 | in any run in which no removal of its files fails, an upload that ends by its last rename, by an abort or after a failed rename has neither temporary file |
| ObjectStoreCleanups.UploadEndsBy | src/local.rs:585-634 | exactly which steps end an upload; a failed rename and an abort come to the removals first |
| ObjectStoreCleanups.UndescribedLeavesTemp | src/local.rs:585-603 | a flush or a sidecar write that fails ends the upload and leaves the data's temporary file |
| ObjectStoreTheorems.OtherStepsPublishNothing | src/local.rs:574-634 | every step but the two renames and the two removals leaves all published files as they were |
| ObjectStoreTheorems.AbortedPublishedNothing | src/local.rs:619-634 | no step of an aborted upload, from its beginning on, published anything |
| ObjectStoreSweeps.SweptUploadOnlyFails | src/local.rs:62-67 | an upload whose temporary file is swept before its data rename can only fail and publishes nothing, in every run |
| ObjectStoreSweeps.SweptSidecarLeavesWindow | src/local.rs:62-67 | an upload whose sidecar temporary is swept between the renames can only fail, and its object stays in the window until another call for it begins |
| ObjectStoreWitnesses.FailedChunkCanDisagree | src/local.rs:574-583 | a reachable state in which an upload completed after a chunk was written in part is shown; it agrees if and only if that part has the size and hash of the whole |
| ObjectStoreWitnesses.OverwriteShowsOldSidecar | src/local.rs:605-614 | for any object and any two bodies, a reachable state in which the new data is shown with the old sidecar; it agrees if and only if both have one size and hash |
| ObjectStoreWitnesses.AnObjectDisagrees | src/local.rs:605-614 | one such object that disagrees, bucket and key given |
| ObjectStoreWitnesses.HalfDeletionShowsOldSidecar | src/local.rs:541-555 | the same, exact condition included, after a deletion that failed half-way, which itself shows nothing |
| ObjectOverlap.OverlapAgreesIff | src/local.rs:605-614 | two uploads of one object whose remaining steps run in any order and both succeed leave it shown and outside the window; it agrees if and only if one of them made both the last data rename and the last sidecar rename, or both bodies have one size and hash |
| ObjectOverlap.OnlyEnclosingCrosses | src/local.rs:605-614 | of the orders of the four renames only the one in which one upload's enclose the other's leaves files of different uploads |
| ObjectOverlap.CrossedUploads | src/local.rs:605-614 | for any object and any two bodies, a run in that order in which both calls succeed |
| ObjectOverlap.AnObjectCrosses | src/local.rs:605-614 | one such object that disagrees with nothing in progress |
| ObjectListing.ListObjects | src/local.rs:495-539 | on any tree and any file contents, the infos of exactly the shown objects at or below the prefix, each once, sorted by recorded key; an error exactly for an invalid bucket or prefix or a prefix below a file |
| ObjectListing.WalkObjects | src/local.rs:510-534 | the stack loop reports each file of the walk under its key exactly if it is not temporary, below the prefix and has a sidecar that parses |
| ObjectListing.AgreeingListing | src/local.rs:536-538 | when the listed objects are outside the window the list is strictly ascending, has exactly the shown keys, and each info has the size and hash of its data |
| ObjectStoreReads.ReachableListingAgrees | src/local.rs:495-539 | the same in every reachable state of the interleaved machine |
| KeyOrder.OrdersAgree | src/local.rs:638-687 | path order and byte order agree on a pair exactly when it does not clash |
| KeyOrder.AscendingIffNoClash | src/local.rs:638-687 | a list in path order is in byte order if and only if no two of its keys clash |
| Trees.WalkInPathOrder | src/local.rs:638-687 | a sorted walk meets files in path order, on every tree |
| Listing.WalkPage | src/local.rs:655-684 | the stack loop collects the first keys after the token in walk order |
| Listing.CollectBlobPage | src/local.rs:638-687 | the page from any prefix, with the error cases of a bad prefix or a start below a file |
| PrefixListing.LocalPrefixMembers | src/local.rs:646-650 | listing under a prefix gives exactly the keys of the whole listing below that path |
| StoreListings.FileIff | src/local.rs:668-672 | the files of a tree are the paths that lead to a file |
| StoreListings.LocalListedIff | src/local.rs:638-687 | the local store lists exactly the files at or below the prefix path that are neither in the internal directory nor end in `.uploading` |
| PrefixListing.LocalMatchingFailsIff | src/local.rs:664-667 | a listing is refused with an I/O error exactly if its prefix is valid, public and lies below a file |
| Listing.LocalListPage | src/local.rs:259-286 | one page and its token, and the refusal of limit zero |
| Paging.PageFacts | src/local.rs:273-286 | a page has at most `limit` keys, the first after the token, and a token, its last key, exactly if a listed key is left |
| Paging.TokenIff | src/smb.rs:894-909 | on an ascending list a token is given exactly if some key after the old token is not on the page |
| Draining.CollectKeys | src/smb.rs:641-709 | the stack walk yields the sorted mapped keys of all files not recognised as temporary |
| Draining.SmbListPage | src/smb.rs:880-910 | one page and its token of the sorted matching keys |
| Draining.Lister.ListBlobs | src/blob.rs:250-264 | the default drain terminates on a fixed tree and returns the specified concatenation of pages, for either lister |
| Draining.LocalDrainExact | src/blob.rs:250-264 | for every tree, prefix and page size, the local drain is exact if and only if no two listed keys clash |
| Draining.SmbDrainExact | src/smb.rs:641-709 | for every page size the SMB drain is exactly the ascending list of the matching keys of all files whose names lack the shape of a temporary one |
| StoreListings.SmbListedIff | src/smb.rs:641-709 | SMB lists exactly the keys that begin with the prefix text and whose paths are files, unless the file name is a stem, a UUID and the suffix |
| Paging.DrainExactIff | src/blob.rs:250-264 | for each page size, draining a list is exact if and only if the list is ascending |
| Paging.SnapshotDrainFacts | src/smb.rs:880-910 | a finished drain over changing snapshots is strictly ascending, holds every key present throughout, and none absent from all |
| PagingTrees.NoClashIffNoBadPair | src/local.rs:783-799 | the files of a tree are free of clashes exactly when no directory has a sibling whose name extends its own with a character below the separator |
| PagingTrees.NoBadPairDrainsExactly | src/local.rs:638-687 | on a tree without such siblings every local drain is exact |
| PagingWitnesses.ClashIffSiblings | src/local.rs:783-799 | the same for two keys: they clash exactly when their paths pass through such a pair of names in one directory |
| PagingWitnesses.DrainLosesKey | src/local.rs:259-286 | a tree on which pages of one key lose a key |
| PagingWitnesses.DrainRepeatsKey | src/local.rs:259-286 | a tree on which pages of two keys repeat a key |
| Sweep.Storage.SweepTempFiles | src/local.rs:49-76 | it succeeds exactly if every stale file can be deleted; every file is looked at once, a file is gone if and only if its path ends in the suffix and it is old enough, their number is returned, and what is left is the pruned tree; an error has removed stale files only |
| Sweep.Storage.Walk | src/local.rs:54-73 | the stack loop accounts for every file, met or unmet |
| Sweep.DirectoryStep | src/local.rs:71-72 | replacing a directory by its children leaves the same files to meet |
| Sweep.SweptTree | src/local.rs:62-67 | what a sweep leaves is a tree whose files are those that were not stale |
| Sweep.SweepKeepsListing | src/local.rs:668-680 | the tree a sweep leaves gives the same listing, as a whole and under any prefix, in the same order and with the same errors, if and only if the prefix was not refused for lying below stale files alone; then it lists nothing |
| Sweep.KeyAtRiskIff | src/local.rs:762-766 | a file can be missing from the swept tree exactly when its path ends in the suffix |
| Streams.CollectStorageStream | src/blob.rs:80-93 | the collected bytes are all bytes of the stream, or its error |
| Streams.RangeStream.Next | src/blob.rs:292-325 | one poll yields the first item still to be yielded |
| Streams.RangedIsSlice | src/blob.rs:288-333 | for every chunking the output is the clamped slice in non-empty chunks, and an error is yielded exactly when it comes before the range is satisfied |
| Streams.RangeIgnoresChunking | src/blob.rs:288-333 | two chunkings of one body give the same range |
| Streams.ExactHintStaysExact | src/blob.rs:289-291 | an exact size hint stays exact |
| Ranges.LocalIsDefault | src/local.rs:198-233 | seek-and-take returns what the default returns, for every range |
| Ranges.S3IsLocalIff | src/s3.rs:385-405 | the S3 range equals the local one if and only if it is not a non-empty range starting at or past the end |
| Ranges.RequestedHintExactIff | src/s3.rs:385-405 | the requested length is the size of the body exactly when the range does not pass the end |
| Ranges.GetObjectRange | src/local.rs:421-471 | exactly when a range is served or refused, start <= end <= total with the end clamped to the sidecar's size, and when the body has the declared length |
| Ranges.AgreeingObjectRange | src/local.rs:421-471 | with an agreeing sidecar no requested byte is missing |
| S3Upload.PartsShape | src/s3.rs:120-151 | the parts concatenate to the body and all but the last have exactly the part size |
| S3Upload.PartCount | src/s3.rs:120-151 | the number of parts is the total divided by the part size, rounded up |
| S3Upload.PlanShape | src/s3.rs:120-189 | a body below the part size is one put; a larger one is an upload opened, its parts numbered from 1 in order, and a completion |
| S3Upload.PlanByLength | src/s3.rs:120-189 | bodies of equal length are sent by requests of the same kinds, numbers and sizes |
| S3Upload.SendFullParts | src/s3.rs:139-153 | the inner loop sends full parts only and loses no byte |
| S3Upload.PutBlobInner | src/s3.rs:120-189 | for every chunking and all answers of the server: it succeeds exactly if the stream does not break, every request due is accepted and nothing is in the way of a conditional write, and is refused exactly if then something is; the requests sent are those due, as far as they are accepted, with an abort after a completion without success; what is stored is exactly stated |
| S3Upload.ServedInFull | src/s3.rs:120-189 | when all requests are accepted these are the planned ones and the whole body is stored, or the colliding write changes nothing |
| S3Upload.StoredIsOldOrWhole | src/s3.rs:120-189 | whatever fails, the object is the old one or the whole body, and the old one if the stream breaks |
| S3Upload.LeftOpenIff | src/s3.rs:137-167 | an upload is asked for exactly when a whole part was read; it is left neither completed nor aborted exactly if then the stream broke or a request before the completion failed, and aborted exactly if the completion was sent and not answered by success |
| S3Upload.PlanBegins | src/s3.rs:139-153 | full parts cut from the front of a body are sent by the first requests of its plan |
| S3Upload.PutBlob | src/s3.rs:318-330 | the unconditional write in parts of 8 MiB: it succeeds exactly if the stream does not break and every request is accepted, and is never refused |
| SmbTransfer.WriteChunk | src/smb.rs:512-552 | for any positive short writes the loop ends with the chunk appended; it fails exactly if some write of it has no reply or takes nothing |
| SmbTransfer.WriteFile | src/smb.rs:467-576 | success leaves the whole body with its size and hash, and comes exactly if the stream does not break, no exclusive create collides and every request is answered with success; it creates, writes, flushes and closes, and after a failure closes and removes the file, which is gone if that is accepted; an exclusive write never changes an existing file |
| SmbTransfer.PublishThrough | src/smb.rs:718-745 | every state from the first request on shows the old content or the whole body under the key; success comes exactly if the stream does not break and every request is answered with success; the rename is asked for only once the file is written, and a failure ends with the removal of the temporary file |
| SmbTransfer.PutBlob | src/smb.rs:718-745 | in every state passed through, lost replies included, the key holds its earlier content or the whole new body; success means the new body, and comes exactly for a valid key, an unbroken stream and answers of success |
| SmbTransfer.PutBlobIfNotExists | src/smb.rs:747-764 | an existing file is never changed, and success means the key was absent and holds the body; exactly when the call succeeds, and when it reports an existing file |
| SmbTransfer.ReadStream.Next | src/smb.rs:777-828 | one poll yields the first item still to be yielded, given how the server answers |
| SmbTransfer.ReadAll | src/smb.rs:777-828 | polling to the end yields all that the stream is to yield under the given answers |
| SmbTransfer.ReadBreaksIff | src/smb.rs:777-828 | the stream ends in an error if and only if a READ that is still needed has no reply or no byte, or the close fails; it gives the bytes before the first such READ, and otherwise the whole file |
| SmbTransfer.SoundReadGivesFile | src/smb.rs:777-828 | for any positive short reads and a close that succeeds the file is given back without error |
| SmbTransfer.ChunkSizes | src/smb.rs:799-801 | no chunk is empty or longer than 256 KiB |
| SmbStore.StepKeepsInv | src/smb.rs:467-764 | every step of every put, conditional create and delete keeps the invariant: one creator an epoch, each file a beginning of its call's body, and no put under the key but a whole one |
| SmbStoreTheorems.KeyIsWhole | src/smb.rs:718-764 | in every reachable state the key is absent, initial, the whole body of one put, or a conditional create's file, whole once that has succeeded |
| SmbStoreTheorems.WinnerIsStoredWhole | src/smb.rs:747-764 | until a removal or a put the key names the winner's whole body |
| SmbStoreTheorems.WhoDisplacesWinner | src/smb.rs:565-581 | exactly which events take the winner's file from under the key |
| SmbStoreTheorems.LosersAreHarmless | src/smb.rs:754-756 | in any run, a step of a conditional create that has no file leaves an entry that is there and all contents as they are |
| SmbStoreTheorems.WinnerStands | src/smb.rs:747-764 | over any run without displacing events the winner keeps the key and its whole body |
| SmbStoreTheorems.OneWinnerPerEpoch | src/smb.rs:747-764 | two successful conditional creates took effect in different epochs |
| SmbStoreTheorems.CreateDecides | src/smb.rs:753-764 | in any run whether a call reports an existing file is decided when its create is answered: a conditional create does exactly if the key names a file then, a put never |
| SmbStoreTheorems.LostWasAnswered | src/smb.rs:753-764 | no call reports an existing file without such an answer |
| SmbStoreTheorems.UnansweredCreateStays | src/smb.rs:753-764 | a create that takes effect without a reply leaves an empty file that its caller does not clean up |
| SmbStoreTheorems.FailureCleansUp | src/smb.rs:506-576 | in any run a call that fails has tried its cleanup, unless it was a conditional create without a reply |
| SmbStoreTheorems.PutCanFinish | src/smb.rs:718-745 | a put left to itself puts its whole body under the key and succeeds |
| SmbStoreTheorems.OneWinnerPerPeriod | src/smb.rs:747-764 | if two calls return Some in a period without removals, one was stale when it began |
| SmbStoreTheorems.TwoWinnersIff | src/smb.rs:747-764 | two can, if and only if some call is stale and another can still succeed |
| SmbStoreTheorems.TwoWinInOnePeriod | src/smb.rs:747-764 | a reachable state and a run in which two do |
| SmbStoreTheorems.PartIsVisible | src/smb.rs:754 | for any body, a reachable state in which the key shows only part of it |
| SmbStoreTheorems.CleanupCanRemoveAWinner | src/smb.rs:578-581 | a reachable state in which a failed caller's cleanup removes another caller's finished file |
| TransferLimit.PermitsConserved | src/smb.rs:627-639 | permits held and permits free add up to the limit in every reachable state |
| TransferLimit.DeadlockIff | src/blob.rs:272-277 | deadlock is exactly the state in which every permit is held by a copy waiting for its second |
| TransferLimit.FewCopiesNeverStick | src/blob.rs:272-277 | while fewer copies are in flight than there are permits, some unfinished transfer can step |
| TransferLimit.MaximalRunsFinish | src/smb.rs:766-829 | a run that cannot be continued has finished every transfer, unless it ends with as many copies in flight as permits |
| TransferLimit.RunsAreBounded | src/smb.rs:766-829 | every run is bounded by the work there is |
| TransferLimit.CanDeadlockIff | src/blob.rs:272-277 | transfers can deadlock if and only if there are at least as many copies as permits |
| TransferLimit.NoCopyAtLimitOne | src/smb.rs:473 | with one permit no copy ever holds two |
| TransferLimit.MovingHoldsPermits | src/blob.rs:272-277 | whoever moves a chunk holds two permits if it is a copy and one if not |
| TransferLimit.FinishedMovedAll | src/smb.rs:766-829 | a transfer that finishes without failure or cancellation has moved each of its chunks once |
| Service.PutObjectStream | src/service.rs:84-100 | the generated key is never refused, and success stores the whole stream with its size and hash; it comes exactly if the stream does not break and every request is answered with success |
| Service.GetObject | src/service.rs:106-132 | the bytes returned are the stored ones, with the recorded size and hash when the object is intact; they are returned exactly if the key is valid, the file is there and can be opened, and the stream does not break |
| Service.GetObjectRange | src/service.rs:139-152 | a collected range is the slice of the stored body, even if the read fails after it; exactly when it is returned, and whenever the server answers |
| Service.PutThenGet | src/service.rs:66-132 | reading back what was stored gives the stream's bytes, or an error, and no error if the server answers every request of the read |

## Left out

- The AWS SDK, the SMB client, tokio, authentication, reconnecting, timeouts as such, backoff, `probe`, configuration checks and debug output.
- Crash durability: the code never syncs, so only stopped processes are modelled, not lost power.
- SHA-256 itself, and JSON encoding: a complete sidecar is taken to parse back to what was written, an incomplete one not to parse.
- Clocks: `last_modified` and `created_at` are not modelled, and file ages are given.
- S3 error classification by message text, and the tables that turn SMB and I/O statuses into error kinds.
- Windows paths, file names with a backslash (which no valid key has, and which the listings would report with a slash instead), and keys that are files and directories at once such as `a` with `a/b`; creating parent directories can fail but is otherwise not modelled.
- Seek offsets beyond the signed 64-bit range, part numbers beyond the signed 32-bit range, and conversions that fail on 32-bit machines.
- ObjectListing.ListObjects: the tree and the files do not change during the walk, and a sidecar that is neither missing nor invalid can be read.
- ObjectStoreTheorems.ObjectsAgree: for buckets other than the internal directory, and with no blob written inside a bucket; `Keys.DataMeetsSidecar` says which data paths of the internal directory are sidecar paths. Calls for one object do not overlap; `ObjectOverlap` has two uploads that do, and leaves out overlapping deletions and more than two uploads.
- `Objects` names a writer's temporary file by its path rather than by the open handle; the two differ only if something else removes that file meanwhile, which `ObjectStoreSweeps` and `LocalStoreTheorems` cover.
- ObjectStoreReads.UndisturbedRangeIsExact: a data path that holds something other than data is read as missing; no call of the machine makes one outside the internal directory.
- Late errors of the buffered file handle: a failed write is reported here by the call that makes it; the source may report it at the next write or at the flush, before anything is published.
- SmbTransfer.PublishThrough: opening an existing file to rename or remove it, and making directories, are no requests of their own.
- SmbTransfer.PutBlob: one call against a share that nobody else changes meanwhile; `SmbStore` has any number of calls interleaved. In both, a request takes effect at once or not at all, and the server's rename is atomic.
- SmbStoreTheorems.TwoWinInOnePeriod: a removal takes the name away at once, although a create may hold the file open. The library only marks the file for deletion and closes its own handle; on a server that defers the removal until the last handle is closed, `Stale`, this run and `CleanupCanRemoveAWinner` need a removal that does not come from the library.
- SmbTransfer.ReadAll: the file does not change while it is read; the source holds a handle, and whether the server then serves one version is its own affair.
- SMB collisions reported while creating parent directories, which `put_blob_if_not_exists` would take for an existing key.
- Symbolic links in the storage root: `Containment` follows paths by their components alone.
- S3Upload.PutBlobInner: one call against an object that nobody else changes, with any positive part size in place of the source's 8 MiB; the part number stays an unbounded number.
- TransferLimit.MaximalRunsFinish: consumers keep reading; a stream that its consumer holds without polling keeps its permit.
- Sweep.Storage.SweepTempFiles: the storage root exists (the source sweeps nothing otherwise), every file and directory can be read, and the tree is fixed but for the sweep's own removals; sweeping among live writers is in `LocalStoreTheorems` and `ObjectStoreSweeps`.
- The SMB root directory probes, `blob_exists`, `copy_blob` on S3, and the plain data types of `object.rs` and `error.rs`.
- The Azure placeholder and backend name parsing.

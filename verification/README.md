# TitanBox in Dafny

TitanBox deploys applications from Telegram uploads.  This project models the parts of it that have to
survive crashes, failures and interleavings, and proves what they guarantee over whole runs:

* the local release machine: stage, validate, record, rename, activate, health-check, prune, restore, roll
  back and resume (`Paths`, `Archive`, `Manifest`, `LocalState`, `Releases`, `Replay`,
  `Recovery`);
* the durable release store: backup, promotion, abandonment, retention, the answer of `latest` and the
  authenticated download (`Chronology`, `RemoteState`, `Storage`, `RemoteLaws`);
* the persistent job queue and the worker that drives deployments from it (`Jobs`, `JobLaws`, `Worker`,
  `WorkerLaws`, `Documents`);
* containment: update deduplication, slots and counters, the token bucket, the crash-loop window and the
  audit chain (`Dedup`, `Admission`, `Rate`, `Restart`, `Audit`).

`dafny verify dfyconfig.toml` checks everything.

## How it is modelled

Code that changes state step by step is a class with the fields of the original.  Before every effect it asks
an `Environment` (`Prelude`) for a fate: the effect happens, fails with or without having happened, or the
process dies first.  The list of fates is arbitrary, so a contract holds for every failure and every crash
point.  `Outcome` distinguishes a normal return, an exception and the death of the process, after which no
handler runs.  Contracts relate the old state to the new one by predicates on values (`AttemptLeaves`,
`Attempted`, `Leaves`, `Worked`, ...); the theorems about runs are lemmas about sequences of such steps.

SHA-256, HMAC, Python's `sorted`, ZIP reading, Unicode tables, the syntax checks and the packing of an archive
are function-valued parameters.  Where a law needs more than determinism of them, it says so: `Sorts` (a
sorted listing has every path once), `CollisionFree`, `Distinctive` (names computed from different operations
or uploads differ), `Ideal` (no two records share a MAC), `Plausible` (trimming), and a keyed `Scheme` in
which only the service can sign.

Two flags are hypotheses.  `steadyDeletes` says that deletes in the object store do not fail (they may still
be cut short by a crash); `steadyDisk` says the same of local renames, links and removals.  Contracts that
need one of them mention it.

`Releases.DeploymentManager` is the manager of one project; the lock of the original lets one operation of a
project run at a time.  `Jobs` treats each SQL transaction as one step, and `fail_job` as the two statements it
consists of.  Times are integers, or reals for the token bucket.

## Main results

The other rows of the model table are contracts of single steps, and lemmas on the way to these.

* Crash recovery: `Recovery.Repeat`, with `Replay.ReplayEqualsOneRun` and `Replay.AlwaysResumable` on values;
  `Replay.FrozenRollback` for rollbacks.
* Jobs carried out exactly as asked: `WorkerLaws.SucceededMeansDeployed`, `WorkerLaws.OneReleasePerDocument`;
  `current` sound in every reachable state: `WorkerLaws.CurrentIsAlwaysSound`.
* Local and durable state change together: `Releases.DeploymentManager.FinalizeRelease` and `AtomicPublication`.
* The durable store: `RemoteLaws.ActiveMeansRestorable`, `LatestFollowsCommits`, `FailedCommitInvisible` and
  `AuthenticDownload`.
* The queue under any interleaving: `JobLaws.StartsAreCounted`, `StartsAreApart`, `QueueTerminates`.
* Uploads: `Archive.Extract` with `OrderDoesNotMatter` and `UnpackedFiles`; `Manifest.OnlyTheRecordedTree`;
  `Documents.FrozenMeaning`.
* Containment: `Dedup.OneHolder`, `Dedup.RecentIsRemembered`, `Admission.AdmissionConserves`,
  `Admission.EveryAdmissionDeparts`, `Rate.GrantedIffWithinRate`, `Restart.RestartBound`,
  `Restart.AppState.Monitor`, `Audit.SameEndSameRecords`, `Audit.AlwaysLinked`.

## Where the code guarantees less

These are lemmas with the exact condition, or a concrete history:

* A backup made by the system cannot be restored by it: the archive contains the release manifest, and
  extraction refuses that path (`OwnBackupIsRefused`).
* A `/put` to `.titanbox-release.json` succeeds, but the manifest overwrites the upload (`PutChangesOneFile`).
* An upload whose single folder has a `.titanbox-release.json` is accepted, and that file is lost
  (`MemberIsDeployed`); at the top of the archive the name is refused (`MemberIsRefused`).
* A repetition that finds its release current promotes it before it checks its health and restores nothing, so
  it can fail and still move the answer of `latest`: exactly if the store can promote the release and the app
  is run here (`PromotedThenUnhealthy`, `ResumeCurrent`).  Atomicity holds for the first execution
  (`AtomicPublication`, and `FinalizeRelease` for the order of health check and marker).
* If a promotion fails and the process dies after the candidate was withdrawn but before the release before it
  is current again, and durability is required, the release stays current and no repetition of its job ever
  completes (`GetsStuck`, `NeverCompletes`).  A repetition of a current release completes exactly if durability
  is not required or the store can promote the release (`Resume`).
* Backing up a name that has a marker, or a delete that fails silently, breaks the store
  (`BackupNeedsFreshName`, `LostKeysMatter`).  A backup that dies between its writes under the name of an older
  candidate leaves metadata beside an archive it may not describe (`TornBackup`); a repetition backs up again
  before it promotes, which is why `Repeat` and `AlwaysResumable` hold all the same.
* A late second statement of `fail_job` can start a job more often than allowed (`LateWrite`,
  `LateWriteBreaksBound`), and a late failure report can reopen a finished job (`LateReport`).
* A touched update can outlive its time to live (`TouchedOutlivesItsStamp`).
* A rejection for a busy bot makes the hub's counter too small (`CounterStaysExact`,
  `BusyBotMiscounts`).
* A frozen `/put` path that begins or ends with white space after normalization, such as `a/ /.`, is trimmed
  again when the job runs (`FrozenMeaning`, `FreezingChangesTarget`).
* An append whose record was written but reported as failed breaks the audit chain at the next append
  (`UnreportedWrite`), and `verify` raises instead of answering at a record without a MAC (`Verify`).
* An unfrozen rollback that is repeated can go back (`UnfrozenRollbackReturns`).

## Model

| member | source | states |
|---|---|---|
| `Paths.MemberPath` | src/titanbox/deploy.py:257-270 | an accepted member name is a path without empty, `.` or `..` segments, so it cannot leave the directory it is joined to |
| `Paths.TargetPath` | src/titanbox/deploy.py:110-121 | the same for the target of a `/put`; the text `.` passes and denotes the directory itself |
| `Paths.PosixRoundTrip` | src/titanbox/deploy.py:287-290 | a clean path is recovered from its text |
| `Paths.SameTextSameTarget` | src/titanbox/deploy.py:290-298 | comparing normalized texts, as the duplicate check does, compares targets: equal texts if and only if equal paths |
| `Paths.PlainMemberPath` | src/titanbox/deploy.py:257-270 | the normalized text of a clean path, up to 512 characters, is accepted as that whole path |
| `Paths.RefusedMemberPath` | src/titanbox/deploy.py:257-270 | a member name is refused exactly if it is empty, has a NUL or an invisible character, or after normalization (a backslash is a slash) is too long, absolute, begins with `./`, or has a double slash or a `..` segment; otherwise it stands for its other segments in order |
| `Paths.PlainTargetPath` | src/titanbox/deploy.py:110-121 | the same acceptance for the target of a `/put`, up to 240 characters |
| `Paths.RefusedTargetPath` | src/titanbox/deploy.py:110-121 | and the same exact refusals, after trimming |
| `Archive.CheckMembers` | src/titanbox/deploy.py:285-302 | the first pass accepts exactly the archives whose members all have allowed names, are no symbolic links and have pairwise different paths |
| `Archive.CopyChunks` | src/titanbox/deploy.py:315-328 | copying in chunks with running totals succeeds exactly if the member fits its declared size plus 1024 and the total limit; it returns the new total |
| `Archive.Place` | src/titanbox/deploy.py:306-317 | one member goes to its own path with its own bytes and creates the missing parents; it fails exactly if a file is in the way |
| `Archive.GrowTree` | src/titanbox/deploy.py:306-328 | placing one more member extends the tree of the members placed before to the tree of all of them |
| `Archive.FailureIsClash` | src/titanbox/deploy.py:306-317 | placing fails exactly if some member is a file above another one |
| `Archive.Unpack` | src/titanbox/deploy.py:304-328 | the extraction loop succeeds exactly for archives within limits without clashes and yields the tree determined by the set of members |
| `Archive.Extract` | src/titanbox/deploy.py:272-345 | extraction accepts exactly the archives described without reference to member order, and returns their flattened tree; every refusal is a DeployError, unless a file is above another member |
| `Archive.SumDeclared` | src/titanbox/deploy.py:282-284 | the sum of the declared sizes that is compared with the limit |
| `Archive.OrderDoesNotMatter` | src/titanbox/deploy.py:272-345 | for any reordering of the members, acceptance and the resulting tree are the same |
| `Archive.UnpackedFiles` | src/titanbox/deploy.py:304-328 | every entry lies strictly below the destination; every member file is there with its own bytes; nothing else is a file |
| `Archive.UnpackedTreeIsClosed` | src/titanbox/deploy.py:304-328 | all parents of every entry are directories of the tree |
| `Archive.ManifestIsRefused` | src/titanbox/deploy.py:291-292 | an archive with a member at the reserved manifest path is never accepted |
| `Archive.FlattenKeepsFiles` | src/titanbox/deploy.py:332-344 | flattening a single root keeps exactly the files outside `__MACOSX`, each under its path without the root |
| `Archive.NamesAreParsed` | src/titanbox/deploy.py:287-303 | a name that spells a path is a file at that path; with a slash at its end it is a directory |
| `Archive.MemberIsUnpacked` | src/titanbox/deploy.py:304-328 | in an accepted archive a file member is unpacked with its own bytes to the whole path that its name spells |
| `Archive.MemberIsRefused` | src/titanbox/deploy.py:290-302 | a symbolic link, or a member named like the release manifest, makes the archive unacceptable |
| `Archive.FlattenedFiles` | src/titanbox/deploy.py:332-344 | exactly the files outside a folder `__MACOSX` remain; their first segment is cut off exactly if one folder is the only other entry at the top |
| `Manifest.TreeDigest` | src/titanbox/deploy.py:357-372 | the digest loop computes the hash of the sorted, length-prefixed listing |
| `Manifest.EncodingOfMore` | src/titanbox/deploy.py:357-372 | each file is fed as four bytes of path length, the path in UTF-8, and its contents |
| `Manifest.FourBytesAre` | src/titanbox/deploy.py:365 | the length is written most significant byte first |
| `Manifest.WriteManifest` | src/titanbox/deploy.py:374-394 | a manifest verifies right after it was written |
| `Manifest.VerifyManifest` | src/titanbox/deploy.py:396-430 | verification accepts exactly the trees that agree with the manifest in format, digest, set of paths, sizes and hashes; every refusal is a DeployError |
| `Manifest.OnlyTheRecordedTree` | src/titanbox/deploy.py:374-430 | with a collision-free file hash, a manifest accepts a tree if and only if it is the one it was written for |
| `Manifest.DigestAloneIsAmbiguous` | src/titanbox/deploy.py:357-372 | two different trees have the same tree digest, because contents carry no length; the file records still tell them apart |
| `LocalState.PartialNeverDeceives` | src/titanbox/deploy.py:396-430 | losing files can make a release unusable but never turns it into a different usable release |
| `LocalState.MovedInto` | src/titanbox/deploy.py:695-697 | a release directory that appears under its final name changes nothing else and is usable |
| `LocalState.PreparedThenStopped` | src/titanbox/deploy.py:682-704 | a deployment stopped before activation leaves `current` and every other release as they were |
| `LocalState.PreparedThenSwitched` | src/titanbox/deploy.py:541-573 | after activation and retention, `current` is the new release or the old one, and both still verify |
| `LocalState.AttemptThenRemove` | src/titanbox/deploy.py:699-704 | cleaning up a failed release keeps what an attempt may leave behind |
| `Releases.DeploymentManager.constructor` | src/titanbox/deploy.py:67-98 | a restart keeps releases and `current` and clears the staging directories |
| `Releases.DeploymentManager.RemoveRelease` | src/titanbox/deploy.py:688 | removal touches one release only, may stop half way, and never makes a usable release out of another |
| `Releases.DeploymentManager.RemoveStaging` | src/titanbox/deploy.py:699-702 | removing the staging directory touches no other one |
| `Releases.DeploymentManager.MoveToReleases` | src/titanbox/deploy.py:697 | the rename moves the staged release into place in one step or not at all, and never replaces a directory that is not empty |
| `Releases.DeploymentManager.ActivateRelease` | src/titanbox/deploy.py:470-480 | `current` moves only to a release that verifies, in one step, and the release before it is returned |
| `Releases.DeploymentManager.RestoreAfterFailedActivation` | src/titanbox/deploy.py:482-503 | returns to the release that was current before, or to none; the app is restarted with it, and a restart that fails is ignored |
| `Releases.DeploymentManager.RestartAndVerify` | src/titanbox/deploy.py:505-516 | an app that is not stable is a DeployError, a runner that breaks another error; an app confirmed stable is so with the current release; an app that is not configured is not restarted |
| `Releases.DeploymentManager.ReleaseNames` | src/titanbox/deploy.py:206-212 | every release once, most recently modified first, ties broken by name |
| `Releases.DeploymentManager.PruneReleases` | src/titanbox/deploy.py:647-655 | exactly the protected releases and the most recently modified ones, as many as configured but at least two, are left, unchanged |
| `Releases.DeploymentManager.ThinOut` | src/titanbox/deploy.py:647-655 | counting survivors removes exactly the names after the quota that are not protected |
| `Releases.DeploymentManager.CheckFiles` | src/titanbox/deploy.py:432-463 | the running totals and syntax checks accept exactly the trees whose file count and total size are within the limits and whose files all parse, whatever the order of the walk |
| `Releases.DeploymentManager.ValidateTree` | src/titanbox/deploy.py:432-468 | a tree within the limits whose files parse gets a manifest that verifies; a file named like the manifest is replaced by it |
| `Releases.DeploymentManager.BuildRelease` | src/titanbox/deploy.py:694-697 | while a release is built nothing else changes; when it is in place it holds exactly the planned files and verifies |
| `Releases.DeploymentManager.BackupCandidate` | src/titanbox/deploy.py:518-539 | a failed backup is an error, a DeployError, exactly if durability is required |
| `Releases.DeploymentManager.PromoteOrAbandon` | src/titanbox/deploy.py:554-564 | a promotion that fails is withdrawn; whatever happens the store stays restorable |
| `Releases.DeploymentManager.CommitCandidate` | src/titanbox/deploy.py:554-571 | if the durable commit fails and durability is required, the release that was current before is current again; while a marker stands nothing is restored |
| `Releases.DeploymentManager.ActivateAndCheck` | src/titanbox/deploy.py:541-552 | an unhealthy release is left again: `current` is what it was |
| `Releases.DeploymentManager.FinalizeRelease` | src/titanbox/deploy.py:518-573 | normal return: the release is current, its app was confirmed stable, retention is done; error: the local releases and (if links can be set) `current` are as before, and the error is a DeployError; in both cases the store holds a complete attempt; at every crash point a new marker means that the app was found stable with this release |
| `Releases.DeploymentManager.AtomicPublication` | src/titanbox/deploy.py:518-573 | normal return with durability required: metadata, marker, pointer and archive all name the new release, with the hash of its archive; error: no key of it is left and `latest` answers as before |
| `Releases.DeploymentManager.Publish` | src/titanbox/deploy.py:694-704 | every crash point of stage, validate, rename and finalize leaves `current` sound and all other usable releases unchanged |
| `Releases.DeploymentManager.CleanUp` | src/titanbox/deploy.py:699-704 | the exception handler removes the failed release unless it is current |
| `Releases.DeploymentManager.BuildAndPublish` | src/titanbox/deploy.py:677-697 | the guarded part of a deployment: a broken archive or a target that is a folder is a DeployError, a target below a file is not; otherwise an attempt as above |
| `Releases.DeploymentManager.Reconcile` | src/titanbox/deploy.py:580-592 | repeating the promotion fails exactly if durability is required; its writes are made for genuine metadata only |
| `Releases.DeploymentManager.ResumeCurrent` | src/titanbox/deploy.py:575-600 | a repetition whose release is already current changes nothing locally, repeats the promotion and then confirms the app; it can raise after the promotion only if the app is run here |
| `Releases.DeploymentManager.PublishedIsReplayed` | src/titanbox/deploy.py:682-704 | a first or repeated build keeps the durable store resumable at every crash point and ends committed |
| `Releases.DeploymentManager.ResumedIsReplayed` | src/titanbox/deploy.py:575-592 | the same for a repetition that finds its release current |
| `Releases.DeploymentManager.DeployAs` | src/titanbox/deploy.py:682-704 | one execution under a deterministic name: resumed if current, rebuilt otherwise; fails only if the environment makes it fail, provided the operation is feasible |
| `Releases.DeploymentManager.GoodUploadIsFeasible` | src/titanbox/deploy.py:657-704 | a first deployment of an archive and a tree within the limits, all files of which parse, on a working store or without one, is feasible |
| `Releases.DeploymentManager.DeployZip` | src/titanbox/deploy.py:657-704 | the ZIP deployment: size limits by trust, the files of the archive under the name of the operation, or no change; an upload that is no archive, or not acceptable for another reason than a clash, is a DeployError |
| `Releases.DeploymentManager.PutFile` | src/titanbox/deploy.py:706-746 | the single-file deployment: refused exactly for a bad path, a large file or no current release; otherwise as above; on success the target holds the upload and every other file is the one of the release before, caches excepted |
| `Releases.DeploymentManager.PutChangesOneFile` | src/titanbox/deploy.py:713-738 | the new release has the files of the current one with exactly the target replaced; the target holds the uploaded bytes if and only if it is not the manifest path |
| `Releases.DeploymentManager.PutKeepsOtherFiles` | src/titanbox/deploy.py:245-255 | every other file of the current release is kept unchanged, except `__pycache__`, `.pytest_cache` and `*.pyc` |
| `Releases.DeploymentManager.PutIsPossible` | src/titanbox/deploy.py:723-733 | a file can be put anywhere but on the root, on a directory of the copy, or below one of its files |
| `Releases.CloneKeeps` | src/titanbox/deploy.py:245-255 | cloning copies everything but the caches |
| `Releases.DeploymentManager.SizeLimit` | src/titanbox/deploy.py:666-681 | an upload may be as large as configured; a restored archive also as large as any release can get |
| `Releases.DeploymentManager.MemberIsDeployed` | src/titanbox/deploy.py:677-696 | a member file of an accepted upload is deployed with its own bytes under the path of its name, without the one folder that holds everything |
| `Releases.DeploymentManager.RollbackTarget` | src/titanbox/deploy.py:753-764 | an explicit target must exist; the default is the most recently modified release that is not current |
| `Releases.DeploymentManager.SwitchTo` | src/titanbox/deploy.py:781-790 | a target that is not healthy is left again for the original release |
| `Releases.DeploymentManager.GoBack` | src/titanbox/deploy.py:784-790 | the original release is activated and restarted, whatever comes of the restart; the error is a DeployError |
| `Releases.DeploymentManager.Reconfirm` | src/titanbox/deploy.py:769-781 | a target that is current already is verified and confirmed again |
| `Releases.DeploymentManager.Rollback` | src/titanbox/deploy.py:748-798 | no release is changed; `current` is the old release or the target, which verifies; normal return means the target, confirmed stable; error means the old one; a target that is missing, or current already without being asked to be idempotent, is refused with a DeployError |
| `Releases.DeploymentManager.FetchBackup` | src/titanbox/deploy.py:619-636 | what is fetched passed all checks of the download and belongs to the release that was named, or for none, an empty name or `latest` to the answer of `latest` |
| `Releases.DeploymentManager.RestoreBackup` | src/titanbox/deploy.py:619-645 | a restore is a deployment of the downloaded bytes; every error is a DeployError and leaves the releases as a failed deployment does; a release asked for by its name, whose archive can be deployed, is restored unless the environment interferes |
| `Releases.DeploymentManager.OwnBackupIsRefused` | src/titanbox/storage.py:284-298 | an archive that contains the release manifest, as the ones packed by the store do, can never be restored |
| `Replay.CloneDependsOnFiles` | src/titanbox/deploy.py:245-255 | a clone depends only on the files of the release that is cloned |
| `Replay.ZipAimIsStable` | src/titanbox/deploy.py:677-696 | repeated executions of a ZIP deployment aim at the same files |
| `Replay.PutAimIsStable` | src/titanbox/deploy.py:713-738 | as long as the same release is current, repeated executions of a `/put` aim at the same files |
| `Replay.ReplayEqualsOneRun` | src/titanbox/deploy.py:682-704 | after any number of executions cut short anywhere, a normal return leaves the same `current` and the same files as one undisturbed execution, and no second new release |
| `Replay.AlwaysResumable` | src/titanbox/deploy.py:575-592 | wherever the process died, the durable side can be repeated, and a normal return leaves it committed |
| `Replay.FrozenStep` | src/titanbox/plugins/deploy_admin.py:952-985 | one execution of a frozen rollback moves `current` only to the target or to a copy restored from its stored archive |
| `Replay.FrozenRollback` | src/titanbox/plugins/deploy_admin.py:952-985 | over any number of repetitions, `current` is the release active before, the frozen target, or a copy of it that one of them restored; after a success it is the target or such a copy |
| `Replay.FrozenWithoutCopy` | src/titanbox/plugins/deploy_admin.py:952-985 | while the stored archive of the target does not unpack, `current` is the release active before or the target, and the target after a success |
| `Replay.UnfrozenRollbackReturns` | src/titanbox/plugins/deploy_admin.py:508-524 | without freezing, a repeated default rollback goes back to where it came from, exactly when that release is newer than all but the target |
| `Recovery.Restarted` | src/titanbox/deploy.py:67-97 | a new process finds releases, `current` and stored objects as they were left, and no staging directory |
| `Recovery.ExecutableStays` | src/titanbox/deploy.py:682-746 | an execution stopped anywhere leaves the operation executable with the same source, or its release current |
| `Recovery.GoodUploadIsExecutable` | src/titanbox/deploy.py:657-704 | such an upload is one that `Repeat` speaks of |
| `Recovery.RestartAndExecute` | src/titanbox/deploy.py:657-746 | one execution by a new process in which nothing but a crash goes wrong does not raise, and completes if it is not disturbed |
| `Recovery.Repeat` | src/titanbox/plugins/deploy_admin.py:202-291 | a deployment or `/put` executed any number of times, the process dying at any point of each, never raises; the first execution left alone completes it: `current` is its release with the files first aimed at, the release before is intact, no other release was added, the app is confirmed, and if required the store is committed |
| `Recovery.PromotedThenUnhealthy` | src/titanbox/deploy.py:575-600 | a repetition is promoted and then fails for an unhealthy app, with `current` and the promotion left in place, if and only if the store can promote the release and the app is run here |
| `Recovery.Resume` | src/titanbox/deploy.py:575-600 | a repetition that finds its release current and is not disturbed completes if and only if durability is not required or the store can promote the release |
| `Recovery.GetsStuck` | src/titanbox/deploy.py:554-571 | a failed promotion whose candidate was withdrawn, followed by the death of the process, leaves the release current without a candidate |
| `Recovery.NeverCompletes` | src/titanbox/deploy.py:575-592 | from such a state no repetition ever returns normally, whatever happens |
| `Chronology.LexIsFirstDifference` | src/titanbox/storage.py:514 | ties are broken by the names as strings: the first different character decides |
| `RemoteState.AcceptedNames` | src/titanbox/storage.py:262-273 | project and release names: a letter or digit, then letters, digits, dots, underscores, dashes, up to 64 and 97 characters |
| `RemoteState.AcceptedHashes` | src/titanbox/storage.py:456 | 64 lower-case hexadecimal digits |
| `RemoteState.Signed` | src/titanbox/storage.py:303-315 | what the store signs passes its own signature check |
| `RemoteState.AuthenticIfDurable` | src/titanbox/storage.py:570-606 | in a store whose signed documents all come from the service, a release that passes the download checks was backed up and promoted with that very hash |
| `RemoteState.SameActiveRows` | src/titanbox/storage.py:526-568 | rewriting the pointer does not change which releases are active |
| `Storage.DurableReleaseStore.constructor` | src/titanbox/storage.py:243-252 | the number of releases kept is clamped to 2 to 500 |
| `Storage.DurableReleaseStore.Put` | src/titanbox/storage.py:164-174 | a put is applied, not applied, or applied although it failed; nothing else changes |
| `Storage.DurableReleaseStore.ListKeys` | src/titanbox/storage.py:194-228 | a listing returns all keys of the project if there are no more than the limit, else some of them |
| `Storage.DurableReleaseStore.EraseKeys` | src/titanbox/storage.py:415-421 | marker, metadata and archive go in this order, so while the marker is there so are the others; a failed delete is swallowed |
| `Storage.DurableReleaseStore.AbandonRelease` | src/titanbox/storage.py:408-421 | when deletes work, no key of the release is left, and no key of any other release is touched |
| `Storage.DurableReleaseStore.ActiveMarker` | src/titanbox/storage.py:437-458 | returns exactly a marker that is genuine, names this project and release, and has a hash and an activation time; a bad one is an integrity error |
| `Storage.ListingBound` | src/titanbox/storage.py:481-483 | five keys for every release asked for and fifty more, at most 2500 |
| `Storage.DurableReleaseStore.ListRows` | src/titanbox/storage.py:478-515 | the active releases newest first, complete if the project has no more keys than the call reads |
| `Storage.DurableReleaseStore.ListReleases` | src/titanbox/storage.py:478-515 | the names of the newest active releases, each of which has a marker |
| `Storage.DurableReleaseStore.EraseRows` | src/titanbox/storage.py:428-435 | retention removes nothing of a release that fewer than `keep` newer active ones outrank |
| `Storage.DurableReleaseStore.Prune` | src/titanbox/storage.py:423-435 | as above for whole prune calls, from whatever the listing returned |
| `Storage.DurableReleaseStore.BackupRelease` | src/titanbox/storage.py:325-356 | after a normal return archive and candidate metadata match; after an error nothing of the candidate is left if deletes work |
| `Storage.DurableReleaseStore.WriteActivation` | src/titanbox/storage.py:379-401 | the three writes of a promotion happen in order, and a failure or crash leaves a prefix of them |
| `Storage.DurableReleaseStore.PromoteRelease` | src/titanbox/storage.py:358-406 | only genuine metadata with this identity can be promoted; every stop leaves a prefix of the three writes, and a normal return all of them followed by retention |
| `Storage.DurableReleaseStore.FollowPointer` | src/titanbox/storage.py:526-551 | the pointer is followed only if it and the marker it names are genuine and agree; a document that fails the checks is an error, not an absent pointer |
| `Storage.DurableReleaseStore.FallBack` | src/titanbox/storage.py:552-568 | without a live pointer the newest active release is chosen and the pointer repaired to name it |
| `Storage.DurableReleaseStore.LatestRelease` | src/titanbox/storage.py:517-568 | answers with the live pointer, else with the newest active release; only the pointer is written, and after a repair it is live; a pointer or marker that fails the integrity checks is an error and nothing is repaired |
| `Storage.DurableReleaseStore.DownloadArchive` | src/titanbox/storage.py:570-606 | succeeds exactly for a release whose marker, metadata, size and hash agree; with a key, its hash was computed by a backup and signed by a promotion of that name |
| `RemoteLaws.DeletionKeepsCoherent` | src/titanbox/storage.py:408-435 | deleting the marker first keeps every listed release restorable |
| `RemoteLaws.BackupKeepsCoherent` | src/titanbox/storage.py:325-356 | so does every prefix of a backup under a name without a marker |
| `RemoteLaws.PromotionKeepsCoherent` | src/titanbox/storage.py:358-401 | so does every prefix of a promotion |
| `RemoteLaws.ActiveMeansRestorable` | src/titanbox/storage.py:325-435 | over any run of calls, each cut short anywhere, every release with a marker has active metadata with the same hash and an archive with that hash, and every candidate that could be promoted has its archive |
| `RemoteLaws.CallKeepsWhole` | src/titanbox/storage.py:325-435 | each call keeps every promotable candidate complete, because metadata is written after and deleted before its archive |
| `RemoteLaws.TornBackup` | src/titanbox/storage.py:338-356 | a backup stopped between its writes keeps candidates complete if and only if there was none under its name, or the old metadata describes the new archive |
| `RemoteLaws.BackupNeedsFreshName` | src/titanbox/storage.py:350-352 | a backup keeps the store restorable if and only if its name has no marker |
| `RemoteLaws.LostKeysMatter` | src/titanbox/storage.py:417-421 | after losing keys of a release the store is restorable if and only if the marker of the release is gone or its metadata and archive have both stayed |
| `RemoteLaws.FailedCommitInvisible` | src/titanbox/storage.py:358-421 | a promotion stopped at any write and then abandoned leaves the newest active release as it was; if the pointer was not reached, `latest` answers as before; if it was overwritten, exactly if its answer had been the newest active release |
| `RemoteLaws.CommitBecomesAnswer` | src/titanbox/storage.py:358-406 | a completed promotion with the latest time becomes the answer of `latest`, and retention does not take it away |
| `RemoteLaws.AttemptCommits` | src/titanbox/storage.py:325-406 | a completed backup and promotion leaves metadata, marker, pointer and archive in agreement: release, hash of the archive and time of activation |
| `RemoteLaws.AttemptKeepsOrder` | src/titanbox/storage.py:325-421 | each complete attempt, successful or not, keeps pointer and markers consistent and moves the answer only on success |
| `RemoteLaws.LatestFollowsCommits` | src/titanbox/storage.py:517-568 | over any run of attempts with increasing times, `latest` answers with the last release whose commit returned normally |
| `RemoteLaws.LedgerIsHistory` | src/titanbox/storage.py:303-323 | nothing counts as signed, backed up or promoted, with its hash, that was not |
| `RemoteLaws.AuthenticDownload` | src/titanbox/storage.py:570-606 | however stored objects were rewritten by someone without the key, an archive that passes the download checks has a hash that a backup of that name computed and that a promotion of that name signed |
| `Jobs.PostgresDatabase.EnqueueJob` | src/titanbox/database.py:265-293 | a new key gets one queued row with clamped attempts; a known key changes nothing and returns its row |
| `Jobs.PostgresDatabase.ClaimJob` | src/titanbox/database.py:295-354 | expired rows are requeued or, out of attempts, failed; then the first due row of a requested kind is started; nothing is returned only if nothing is due |
| `Jobs.PostgresDatabase.CompleteJob` | src/titanbox/database.py:356-363 | the row turns `succeeded` and unlocked, whatever its state was; nothing else changes |
| `Jobs.PostgresDatabase.FailRead` | src/titanbox/database.py:378-382 | a retry is possible exactly if attempts are left |
| `Jobs.PostgresDatabase.FailWrite` | src/titanbox/database.py:384-402 | requeued after the clamped delay, or failed, as was decided from the earlier read |
| `Jobs.PostgresDatabase.FailJob` | src/titanbox/database.py:365-403 | the two statements without anything between them |
| `JobLaws.LateWrite` | src/titanbox/database.py:376-402 | a late second statement keeps the counters in bounds if and only if it does not requeue a row whose attempts are used up |
| `JobLaws.LateWriteBreaksBound` | src/titanbox/database.py:376-402 | a history in which a job limited to two attempts starts three times |
| `JobLaws.StepKeepsSane` | src/titanbox/database.py:265-403 | every transaction keeps one row per key, queued rows below their limit, and counts exactly its own claim |
| `JobLaws.StartsAreCounted` | src/titanbox/database.py:295-354 | over any history with any number of workers, `attempts` is the number of claims and never exceeds the limit |
| `JobLaws.RowsKeepTheirJob` | src/titanbox/database.py:265-293 | key, kind, payload and limit of a row never change; re-enqueueing alters nothing |
| `JobLaws.EveryChangeIsProgress` | src/titanbox/database.py:295-403 | with live reporters, twice the attempts left plus one if running strictly decreases at each claim, expiry, failure and completion; finished rows never change |
| `JobLaws.QueueTerminates` | src/titanbox/database.py:295-403 | a history makes at most forty changes per enqueued job |
| `JobLaws.LateReport` | src/titanbox/database.py:365-402 | a late failure report reopens a finished job exactly if it asks for a retry and attempts are left |
| `JobLaws.StartsAreApart` | src/titanbox/database.py:307-351 | a job that was started and not reported on is started again only after some claim found its own lease to have passed since |
| `JobLaws.StartsAreALeaseApart` | src/titanbox/database.py:307-351 | two starts without a report between them are more than a full lease apart |
| `Worker.JobWorker.ResolveRollbackTarget` | src/titanbox/plugins/deploy_admin.py:508-524 | a rollback is frozen to a target that exists and is not current, exactly if there is one |
| `Worker.JobWorker.ResolveRestoreTarget` | src/titanbox/plugins/deploy_admin.py:526-534 | `latest` is frozen to the newest active release, if the project has no more keys than the call reads |
| `Worker.JobWorker.Download` | src/titanbox/plugins/deploy_admin.py:993-1007 | the bytes of the upload, refused above the limit |
| `Worker.JobWorker.HandleDocument` | src/titanbox/plugins/deploy_admin.py:1009-1081 | a document job does to the disk what a deployment under its key does, complete or not; a feasible one fails only if the environment makes it fail |
| `Worker.JobWorker.IsListed` | src/titanbox/plugins/deploy_admin.py:966-968 | whether the durable store lists the release; a release that can be downloaded is listed if a listing of a hundred shows them all |
| `Worker.JobWorker.DoRestore` | src/titanbox/plugins/deploy_admin.py:934-950 | a restore fetches the release that it names; every error is a DeployError; a release that can be restored is, unless the environment interferes |
| `Worker.JobWorker.RestoreListed` | src/titanbox/plugins/deploy_admin.py:966-973 | the durable fallback of a rollback restores the frozen target itself, if it is listed |
| `Worker.JobWorker.DoRollback` | src/titanbox/plugins/deploy_admin.py:952-985 | the local rollback first; only if that is refused and the frozen target is listed as a backup, a restore of it; it succeeds undisturbed if the target verifies locally, or is lost locally and can be restored |
| `Worker.JobWorker.WhatCanBeDone` | src/titanbox/plugins/deploy_admin.py:241-264 | what can be carried out besides documents: a restart of a configured app, a rollback to a release that verifies, and the restore of a named release, also in place of a rollback to it |
| `Worker.JobWorker.Perform` | src/titanbox/plugins/deploy_admin.py:241-264 | every kind of job has the effect on the disk that its request allows; a restore fetches the release that it names; success means that the app was confirmed; a request of any kind that can be carried out fails only if the environment makes it fail; a restart that cannot be made and a malformed request are DeployErrors |
| `Worker.Backoff` | src/titanbox/plugins/deploy_admin.py:278-279 | two seconds after the first attempt, doubled with every further one, up to 32 |
| `Worker.JobWorker.ProcessJob` | src/titanbox/plugins/deploy_admin.py:225-291 | the row of an executed job of any kind: `succeeded` if it was carried out, `failed` after a DeployError or without attempts left, else queued again after the back-off; an actor who is no longer authorized changes nothing; reports that get lost leave the row as it was |
| `Worker.JobWorker.Turn` | src/titanbox/plugins/deploy_admin.py:202-223 | one turn of the loop: at most one job claimed, executed and reported on, with losses and crashes anywhere; undisturbed, it leaves no job held for more than 600 seconds, no due job of the four kinds unclaimed, and the row of a job that can be carried out `succeeded` |
| `WorkerLaws.AttemptKeepsProvenance` | src/titanbox/deploy.py:227-231 | a release that carries the name of a job was made by that job and contains what it asked for |
| `WorkerLaws.CarriedOutMeansDeployed` | src/titanbox/plugins/deploy_admin.py:239-265 | a document request that was carried out is deployed, whether it was built now or found current |
| `WorkerLaws.SucceededMeansDeployed` | src/titanbox/plugins/deploy_admin.py:202-291 | in every history of jobs, restarts and direct operations, when a document job turns `succeeded`, `current` is the one release named from its key and upload, it verifies, and for `/put` it maps the target to the uploaded bytes |
| `WorkerLaws.Operate` | src/titanbox/deploy.py:619-798 | whatever operation is called, with or without an operation id, it changes the disk as a deployment, a switch, or not at all |
| `WorkerLaws.CurrentIsAlwaysSound` | src/titanbox/deploy.py:470-480 | in every reachable state, after any jobs, direct operations and crashes, `current` is absent or names a complete release whose manifest verifies |
| `WorkerLaws.OneReleasePerDocument` | src/titanbox/deploy.py:227-231 | however often a document job is executed, it never has a second release |
| `WorkerLaws.WorkersStartApart` | src/titanbox/plugins/deploy_admin.py:209 | workers of this plugin start a job twice without a report only more than 600 seconds apart |
| `Documents.DeployAdmin.PickProject` | src/titanbox/plugins/deploy_admin.py:424-438 | a named project if its name is valid, else the selected one, else the only one; the choice is remembered for this user |
| `Documents.DeployAdmin.CanonicalDocument` | src/titanbox/plugins/deploy_admin.py:440-506 | the message stored with the job, or a DeployError; selections of other users stay |
| `Documents.TargetSurvives` | src/titanbox/plugins/deploy_admin.py:476-477 | the normalized text of a target denotes the same path again if and only if trimming leaves it alone |
| `Documents.FrozenMeaning` | src/titanbox/plugins/deploy_admin.py:440-506 | a frozen upload means at any later time what it meant when enqueued, whatever is selected or deployed then, if and only if it is not a `/put` whose normalized path is changed by trimming |
| `Documents.FreezingChangesTarget` | src/titanbox/plugins/deploy_admin.py:475-477 | a `/put` to a path such as `a/ /.` is frozen to a message with another target |
| `Documents.FreezingIsIdempotent` | src/titanbox/plugins/deploy_admin.py:463-472 | freezing a deployment again changes nothing |
| `Documents.UnknownCommandIsRefused` | src/titanbox/plugins/deploy_admin.py:478-479 | freezing refuses an unknown command, which execution would treat like no caption |
| `Documents.RefusedDocuments` | src/titanbox/plugins/deploy_admin.py:440-506 | which captions are refused, and what the accepted ones are frozen to |
| `Documents.UnusableFileIsRefused` | src/titanbox/plugins/deploy_admin.py:449-456 | no file id, an unusable file name or a declared size above the limit is refused |
| `Dedup.UpdateDeduplicator.Prune` | src/titanbox/telegram.py:114-121 | expired entries go from the front, then the oldest until the limit holds |
| `Dedup.UpdateDeduplicator.Begin` | src/titanbox/telegram.py:123-133 | the answer and the new state of a begin; a completed entry moves to the back with its old time |
| `Dedup.UpdateDeduplicator.Complete` | src/titanbox/telegram.py:135-140 | the update leaves the in-flight set and is the last completed entry |
| `Dedup.UpdateDeduplicator.Fail` | src/titanbox/telegram.py:142-144 | the update leaves the in-flight set |
| `Dedup.CallsKeepTidy` | src/titanbox/telegram.py:114-144 | in-flight and completed stay disjoint, no update is listed twice, at most `max_items` are listed |
| `Dedup.AnswersCompleted` | src/titanbox/telegram.py:114-130 | `completed` is answered exactly if the update is listed and it or something listed before it has not expired |
| `Dedup.FailedIsNew` | src/titanbox/telegram.py:142-144 | a failed update is new again |
| `Dedup.OneHolder` | src/titanbox/telegram.py:123-144 | over any history an update is in flight exactly while one caller holds it, and everyone else is told so |
| `Dedup.RecentIsRemembered` | src/titanbox/telegram.py:114-140 | an update completed within the time to live is answered `completed` as long as fewer than `max_items` others were completed or touched since its last touch |
| `Dedup.TouchedIsLast` | src/titanbox/telegram.py:127-140 | completing or touching an update puts it behind all others |
| `Dedup.TouchedOutlivesItsStamp` | src/titanbox/telegram.py:127-129 | a history in which a touched update is still answered `completed` after its time to live |
| `Admission.TelegramHub.Arrive` | src/titanbox/telegram.py:656-671 | what `begin` answers decides whether the request goes on; an update in flight is rejected |
| `Admission.TelegramHub.TakeSlot` | src/titanbox/telegram.py:672-683 | without a global slot the update is failed and nothing is held |
| `Admission.TelegramHub.TakeBotSlot` | src/titanbox/telegram.py:684-698 | without a bot slot the update is failed and the global slot given back; the hub counter is decremented although it was not incremented |
| `Admission.TelegramHub.End` | src/titanbox/telegram.py:696-740 | the update is completed or failed, and both slots are given back |
| `Admission.StepKeepsPermits` | src/titanbox/telegram.py:660-740 | every step keeps free plus held permits constant, the counter of a bot equal to its running handlers, and the counter of the hub at most that |
| `Admission.StepKeepsOwned` | src/titanbox/telegram.py:640-740 | every step keeps an update in flight exactly while one request has it |
| `Admission.AdmissionConserves` | src/titanbox/telegram.py:575-740 | the same over every interleaving; `total_handled` is the number of completions |
| `Admission.EveryAdmissionDeparts` | src/titanbox/telegram.py:656-740 | every update begun as new is completed or failed exactly once, or its request is still in progress |
| `Admission.NothingLeaks` | src/titanbox/telegram.py:734-740 | when no request is left, all slots are free, all counters zero and nothing is in flight |
| `Admission.TotalsAreExact` | src/titanbox/telegram.py:652-740 | the totals of hub and bots count exactly the requests handled and those turned away; every arrival is a duplicate, handled, turned away or in progress |
| `Admission.CounterStaysExact` | src/titanbox/telegram.py:684-695 | a step keeps an exact hub counter exact if and only if it is not a bot-busy rejection with the counter above zero |
| `Admission.BusyBotMiscounts` | src/titanbox/telegram.py:684-695 | an interleaving after which one handler runs and the hub counts none |
| `Rate.TokenBucket.Allow` | src/titanbox/security.py:98-107 | granted exactly if the credited bucket covers the cost, which is then taken |
| `Rate.LevelIsLeastAllowance` | src/titanbox/security.py:98-107 | the level is the smallest allowance over all windows ending now |
| `Rate.GrantedIffWithinRate` | src/titanbox/security.py:88-107 | a call is granted if and only if every window beginning with an earlier call, or with this one, stays within burst plus rate times length |
| `Rate.RateBound` | src/titanbox/security.py:88-107 | in any interval the granted cost is at most burst plus rate times length |
| `Rate.MinuteBound` | src/titanbox/security.py:88-107 | as configured: at most `burst` plus `per_minute` requests of cost one in any minute |
| `Rate.FullBucket` | src/titanbox/security.py:88-107 | a new bucket gives up to `burst` at once, and `per_minute` come back in a minute |
| `Rate.Replay` | src/titanbox/security.py:88-107 | the runs of these laws are what a bucket object does call by call |
| `Restart.AppState.RecordRestart` | src/titanbox/runner.py:221-231 | recorded if and only if fewer than `max_restarts` were recorded within the window, else the circuit opens |
| `Restart.AppState.Forget` | src/titanbox/runner.py:224-225 | the deque holds exactly the restarts within the window |
| `Restart.RecentIsWithin` | src/titanbox/runner.py:224-225 | the recent restarts are those in the closed window that ends now |
| `Restart.AppState.StartApp` | src/titanbox/runner.py:290-301 | no effect while the app runs or is monitored; otherwise a clean window and a closed circuit |
| `Restart.AppState.Reset` | src/titanbox/runner.py:303-314 | a clean window and a closed circuit; the total count stays |
| `Restart.AppState.RunOnce` | src/titanbox/runner.py:237-259 | one pass: started at most once, and repeated exactly if the policy asks for it and fewer than `max_restarts` were recorded within the window |
| `Restart.AppState.RunPasses` | src/titanbox/runner.py:233-259 | the loop runs passes in order, records a restart for every one but possibly the last, and stops only if stopped, broken or not to be restarted |
| `Restart.AppState.Monitor` | src/titanbox/runner.py:233-259 | the same, and no closed interval of the length of the window sees more than `max_restarts` + 1 processes started |
| `Restart.RestartBound` | src/titanbox/runner.py:221-231 | between resets no closed interval of the length of the window holds more than `max_restarts` restarts |
| `Restart.StartBound` | src/titanbox/runner.py:233-259 | two passes that started a process within a window are at most `max_restarts` passes apart |
| `Audit.AuditLog.constructor` | src/titanbox/audit.py:22-27 | a log continues from the last well-formed MAC among the last twenty lines |
| `Audit.AuditLog.FindLastMac` | src/titanbox/audit.py:29-45 | the backward search over the last lines |
| `Audit.ContinuesFrom` | src/titanbox/audit.py:29-45 | the last MAC of 64 characters among the last twenty lines, or 64 zeros |
| `Audit.AuditLog.RotateIfNeeded` | src/titanbox/audit.py:47-56 | a full file is moved away and the chain starts anew, or nothing changes |
| `Audit.AuditLog.Append` | src/titanbox/audit.py:58-96 | the record refers to the MAC in memory; it is written and known, written but reported as failed, or lost |
| `Audit.AuditLog.Verify` | src/titanbox/audit.py:117-139 | answers true exactly if the chain holds; raises exactly if it reaches a record without a MAC |
| `Audit.ReopeningContinues` | src/titanbox/audit.py:29-45 | the MAC a reopened log continues from is the one a verifying file ends in |
| `Audit.SameEndSameRecords` | src/titanbox/audit.py:117-139 | with an ideal MAC, verifying files that end in the same MAC hold the same records |
| `Audit.EditChangesEnd` | src/titanbox/audit.py:117-139 | any edit that still verifies changes the final MAC |
| `Audit.AlwaysLinked` | src/titanbox/audit.py:47-96 | after any sequence of appends, failures without effect, rotations and reopenings the file verifies and ends in the MAC in memory |
| `Audit.UnreportedWrite` | src/titanbox/audit.py:84-93 | after a record that was written but reported as failed, reopening repairs the chain, and going on breaks it unless two MACs coincide |

## Left out

- Telegram calls, webhook registration and watchdog, message texts, the HTTP routes, the dashboard, settings, health reporting, redaction: plumbing and user interface.
- The S3 client, the PostgreSQL driver, process spawning, signals and resource limits: only their abstract effect, a step that may fail or be the last.
- `FailureCircuit`, TOTP, and the tables `titanbox_meta` and `titanbox_idempotency`: they would add easy members only.
- Splitting and quoting captions by shell rules: a frozen caption is taken to split into the words it was made of.
- Several projects in one manager: their directories and keys are disjoint, and `DeploymentManager` is one project.
- `list_durable_projects`, `list_projects`, `list_files`, status reports and `restart` as an operation of its own.
- Symbolic links, file modes and the temporary upload files of the original; a release is a tree of directories and files.
- Cancellation of a running handler, which skips `dedup.fail`: `Admission` runs every request to one of its exits.
- Other exceptions inside the monitor, and the lengths of its pauses: a pass that breaks is recorded as a restart, and time only has to move forward.
- The `last_error` column, row timestamps other than `available_at` and `locked_at`, and table growth.
- A write to the audit file that is cut in the middle of a line.
- Releases.DeploymentManager.CheckFiles: the Python, JSON and TOML parsers are one predicate, `parses`, on the path and contents of a file.
- Releases.DeploymentManager.RemoveRelease: a removal is one step of which any part may survive.
- Releases.DeploymentManager.ReleaseNames: directories with a leading dot, which the manager never creates under `releases/`, are not told apart.
- Releases.DeploymentManager.RestartAndVerify: one step whose fate says whether the app became stable or the runner broke; the runner's state is not shared with `Restart`.
- Releases.DeploymentManager.PutFile: a target that is a symbolic link, and the mode of a replaced file.
- Releases.DeploymentManager.DeployZip: without an operation id, the time stamp is taken to name a release that does not exist yet.
- Archive.Extract: the directory is filled on values; that an interrupted extraction leaves part of a staging directory is a step of `Releases.DeploymentManager.Stage`.
- Archive.FlattenKeepsFiles: the two renames of flattening are one step.
- Worker.JobWorker.Perform: a payload that does not fit its kind is `Malformed` and refused; a missing project key, which the original retries, is not told apart.
- WorkerLaws.SucceededMeansDeployed: for one worker process at a time, jobs with a key, and direct operations under time stamps, which name no job (`Foreign`); workers of other processes reporting late are covered for the queue alone, in `JobLaws`.
- Recovery.Repeat: for executions in which nothing but a crash goes wrong; what an execution leaves behind when anything else fails is said by the contracts of `DeployZip` and `PutFile`, and that a repetition may then be in vain by `Recovery.GetsStuck`.
- Admission.TelegramHub.Arrive: authentication, content checks, circuit and rate limit come before it and hold nothing.
- Audit.AuditLog.FindLastMac: a line that is JSON but not an object, on which the original raises.
- Storage.DurableReleaseStore.LatestRelease: the JSON of a pointer that cannot be parsed is a `Blob`, which is treated as no pointer.

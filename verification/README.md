# reoftpd: a verified model of the append-only archive

reoftpd stores camera uploads in an append-only archive. This project models the parts of it that
keep state, and proves what they keep.

**The store** (`Append`, `Store`, `StoreKin`, `StoreImmutability`, `StoreReassembly`,
`StoreWitness`, `StoreExactness`, `StoreLinks`, `StoreSubtrees`, `StoreTree`, `StoreStream`). The archive binds names to inodes and
inodes to bytes; hard links make two names share an inode. Every upload is a program counter over the
calls that `store_stream`, `store_encrypted` and the quarantine branch of `put` await: check, size,
create directories, open, copy by chunks, flush, link, unlink. Any call may fail, any upload may be
killed between two calls, any number of uploads may interleave with each other, with `mkd` and with
the retention sweep. Every stored byte carries, as bookkeeping, the upload that wrote it and its
position in that upload's output. Class `StoreStream.Disk` holds the code itself, call by call on a
disk updated in place. Each store is proved to be a run of that machine in which only this upload
takes steps, with an outcome that is a function of the disk it met and of the calls that fail; so the
theorems about runs apply to it (`StoreSubtrees.OwnRunKeepsOthers`, `Backend.PutFile`). An upload
whose connection is gone counts as active until its last blocking file call is over.

A `Discipline` says what a deployment guarantees about a run: one writer per name at a time, no
capture named like a staging file, existence checks that do not fail, a sweep that leaves the staging
file of an active upload alone, plaintext only. Each main theorem about finalized captures is an
equivalence: the property holds in every run exactly under the discipline named, and for each missing
part there is a run that breaks the property. The names in these statements are all names a capture
can have, that is, all but connection-test names; for names that are themselves staging names the
condition is another one. A name is finalized from the link of an upload to it until it is removed.

**The session tracker** (`Ledger`, `Limits`, `LimitsRuns`, `Sessions`). The map of time stamp vectors with its
cached counter, saturating arithmetic and `as u32` casts refines a flat log of admitted slots. Runs of
admissions, clean logouts (of any session, although the tracker drops the oldest stamp), reaps and
live cap changes are compared with the list of sessions that are really open. Class `Server.Server`
carries the run of events its tracker went through, so the theorems about runs are about it.

**Paths** (`Paths`, `Containment`, `Creation`). `canonicalize` is the walk the system makes over a tree with
symbolic links, bounded by the system's own bound on links followed. The loop of `contained` is proved
to compute its specification by the longest canonicalizable ancestor. `Creation` says where a path
would lead if all that is missing were created, and with it exactly which results stay inside the
jail whatever is created later.

**The retention sweep** (`Retention`, `RetentionSweep`, `Lifetime`). The recursive `visit`, deleting and
pruning in place, is proved to be one filter-then-prune of the whole tree, whatever the order of
entries, and a run of single removals. `Lifetime` puts store and sweep on one archive with
modification times: how long a finalized capture lives. There an inode is modified when it is created
and when its bytes change; a system that also counts a truncation of an empty file reports it younger,
never older.

**Configuration, accounts, server and backend** (`Config`, `Accounts`, `Server`, `Backend`,
`Isolation`) tie these together: what a validated configuration means for accounts, scopes, admission,
reload, and the isolation of cameras.

## Where the code differs from its documentation

- The documentation calls completed files immutable without a condition (README.md:29-31,
  docs/superpowers/specs/2026-06-18-reoftpd-design.md:236-237). The code needs the condition of
  `StoreExactness.ImmutableExactly`. Two plaintext uploads to one name may both open the staging file,
  and the slower one goes on appending to the file the faster one finalized.
  `store_encrypted` treats a failing existence check as absence (src/backend.rs:314); after a
  crash between link and unlink, an upload that passes this way truncates a finalized file
  (`StoreExactness.FailedCheckTruncates`).
- `put` accepts final names that end in the staging suffix. Such a capture is finalized and its
  uploader told so; then an upload to the name without the suffix takes it for its own staging file,
  extends it, or discards it on an offset mismatch, and unlinks it when done. No sweep and no delete is
  involved, though the documentation says a clip cannot be deleted once uploaded (README.md:21-24), and
  the name can be stored to again (`StoreExactness.StagedNameShrinks`, `StagedNameStoredTwice`). It
  is excluded exactly where no capture is given such a name (`StoreExactness.GrowsOnlyExactly`,
  `OkOncePerNameExactly`).
- The documentation calls the caps concurrent-session caps (README.md:338-341). They bound the slots of
  the tracker. A session older than the ttl loses its slot to the reaper and stays open, so more
  sessions may be open than the cap says (`Sessions.SessionsExceedCap`); the caps bound the sessions
  exactly as long as nothing but the logout of a session takes a slot (`Sessions.AgreeExactly`).
- The documentation says the staging file is renamed (design document, lines 234-235). The code
  hard-links and then unlinks (src/backend.rs:276-279), so for a while, and for ever after a crash in
  between, both names share the inode. The model follows the code.
- The design lets a resumed upload extend the staging file it measured. If the sweep removes that file
  between the measurement and the open, the input lands at offset 0
  (`StoreExactness.SweepRaceLosesBytes`).
- `contained` follows no link it cannot resolve: a dangling link inside the home is an Ok result, and
  it denotes a place elsewhere as soon as another process creates the link's target
  (`Creation.DanglingLinkEscapes`; `Creation.OkStaysInsideExactly` has the exact condition). The store
  itself does not create it: it writes to the name with the staging suffix, its hard link onto the
  dangling name fails, and `create_dir_all` refuses a dangling component.
- `validate` does not compare the homes of cameras: `a` and `a/b` are accepted, and what the first
  makes below its home appears in the home of the second (`Isolation.UnplainNamesInterfere`). Cameras
  are isolated exactly if no home lies in another (`Isolation.CamerasIsolatedExactly`), which could be
  checked there; plain names are one way to have it.
- The sweep prunes the emptied home of a camera, after which every path of that camera fails with
  NotFound until the home is made again (`Lifetime.SweptHomeResolves`).
- The plan of the connection caps counts a session on `LoggedIn`; the code admits at the
  authentication gate and ignores `LoggedIn` (src/presence.rs:14-20). The model follows the code.

## Model

| member | source | states |
|---|---|---|
| Append.ProbeNamesExactly | src/append.rs:31-37 | a name is a connection-test name exactly if it is `test`, or begins with `test.` or `testftp`, each letter in either ASCII case |
| Append.SuffixKeepsTestStatus | src/append.rs:25-37 | pushing the staging suffix or `.age` onto any name neither makes it a connection-test name nor stops it being one |
| Append.StemKeepsTestStatus | src/append.rs:25-37 | stripping any number of staging suffixes does not change it either |
| Append.KinOfStaging | src/append.rs:25-29 | a staging name is recognizable as one, and belongs to the kin and to the namespace of its final name |
| Append.StagingPathInjective | src/append.rs:25-29 | two final names with the same staging name are the same |
| Append.AgeNameIsPlain | src/backend.rs:298-302 | no `.age` name is a staging name |
| Append.AgeSuffixNames | src/backend.rs:298-302 | the encrypted final name of a capture is an `.age` name, is no staging name, and is a connection-test name only if the capture was |
| Store.ExecAppend | src/backend.rs:210-350 | running two pieces one after the other is running their concatenation, and is allowed exactly when both are |
| Store.WriteAtExactly | src/backend.rs:541-551 | a positioned write changes its own range and no other position, a hole before it reading as zeros |
| StoreStream.StoredExactly | src/backend.rs:210-350 | a store of any mode succeeds exactly if every call it makes works, no ancestor of the name is a file, no directory has the name it writes to, a capture's name is free, and a plaintext upload starts where the staged bytes end |
| StoreStream.RefusedExactly | src/backend.rs:218-245 | of the failures, Overlap and Gap are exactly an offset before and after the end of what is staged for a free name, Finalized is a taken name, and a taken name is Finalized whenever the check works |
| StoreStream.MadeDirsExactly | src/backend.rs:589-592 | `create_dir_all` makes exactly the path and its ancestors, after a failing call the first few of the ancestors, and nothing where a file is in the way |
| StoreStream.Disk.TryExists | src/backend.rs:219-224 | is the check step of the machine; reports whether a file or directory has the name, and changes no file |
| StoreStream.Disk.Metadata | src/backend.rs:227-232 | is the size step of the machine; reports the bytes staged under the staging name, 0 if it is absent |
| StoreStream.Disk.CreateDirAll | src/backend.rs:248-252 | is the directory step: succeeds exactly if the call works and no ancestor of the final name is a file; then all of them are directories, and after a failing call the first few |
| StoreStream.Disk.OpenFile | src/backend.rs:254-259 | is the open step: fails exactly on a directory, a missing parent or a failing call; an append handle finds the staged bytes, a truncating one empties the inode the name is bound to |
| StoreStream.Disk.Write | src/backend.rs:263 | is one copy step: an append handle adds the chunk at the end, whatever others wrote; a positioned one writes at its own position |
| StoreStream.Disk.HardLink | src/backend.rs:276-289 | is the link step: binds the final name to the staged inode exactly if the staging name exists and the final one does not, and never replaces a name |
| StoreStream.Disk.RemoveStaging | src/backend.rs:237-243 | drops the staging name exactly when the call works, and nothing else; a call that fails does not change the outcome |
| StoreStream.Disk.CopyAll | src/backend.rs:262-269 | succeeds exactly if no read or write fails, in any chunking, and then the file is what it was followed by all the output |
| StoreStream.Disk.CheckFree | src/backend.rs:219-224 | refuses exactly an existing final name, and with Io a failing call or a name whose ancestor is a file; changes no file |
| StoreStream.Disk.CheckSize | src/backend.rs:226-245 | refuses exactly an overlap and a gap, each with its own error and discarding the staging file, and with Io a failing call, which changes no file |
| StoreStream.Disk.CheckOffset | src/backend.rs:218-245 | both checks together: the refusal is a function of disk, offset and failing calls; an overlap or a gap discards the staging file and nothing else, any other refusal changes no file |
| StoreStream.Disk.Finalize | src/backend.rs:276-290 | the outcome is exactly Io, Finalized or Ok according to whether the staging name can be linked and the final name is free; on Ok it is bound to what was staged; in all three cases the staging name is gone wherever its removal works, no other name changes, and no inode does |
| StoreStream.Disk.AppendAndLink | src/backend.rs:261-290 | the plaintext store from the open file on: a failing copy drops the staging name wherever its removal works, a failing flush leaves it, anything later is Finalize; no other name changes |
| StoreStream.Disk.CopyAndLink | src/backend.rs:321-349 | the encrypted store from the open file on: a failing copy leaves the staging name, anything later is Finalize; no other name changes |
| StoreStream.Disk.StoreStream | src/backend.rs:210-291 | is a run of the step machine in which only this upload takes steps; Ok(n) exactly if no call fails, the name is free, its ancestors are no files, no directory has the staging name and the offset equals the staged size; then n is the input length, the final file is the staged bytes followed by the input, and the staging name is gone if its removal works; every error is a function of the disk it met and of the calls that fail; whatever the outcome, the staging name is left exactly where said, and no other name changes |
| StoreStream.Disk.StoreEncrypted | src/backend.rs:306-350 | the same for the encrypted store: Ok(n) exactly if nothing fails but possibly the existence check, and the names are free; Finalized exactly if the name exists and the check or the link finds it; on Ok n is the input length, the final file is the whole ciphertext and nothing else, and the staging name is gone if its removal works |
| StoreStream.Disk.StoreProbe | src/backend.rs:535-553 | the same for the quarantine: Ok(n) exactly if nothing fails and nothing is in the way, and then the quarantined file is this input alone; no other name changes |
| StoreKin.StepKeepsKin | src/backend.rs:210-350 | whatever step is taken, by any upload in any interleaving, names sharing an inode stay of one kin (equal up to staging suffixes), and open handles reach only names of the kin of their upload |
| StoreKin.RunKeepsKin | src/backend.rs:210-350 | so over every run, with no assumption on the deployment |
| StoreImmutability.StepTouchesKinOnly | src/backend.rs:210-350 | a bound capture is changed by nothing but a write, or an encrypted open, of an upload of its own kin; it is never rebound; a plaintext write only extends it |
| StoreImmutability.OnlyLinkBinds | src/backend.rs:276-290 | a capture's name comes to be bound by the link step of an upload to that name and by nothing else |
| StoreImmutability.StepKeepsOneWriter | src/backend.rs:218-224 | with one writer per name and a check that works where it matters, no upload is past the existence check once the name is bound; every step keeps this |
| StoreImmutability.RunKeepsBytes | src/backend.rs:210-350 | from any state with the invariant, over any run with crashes and failures, a finalized capture keeps its inode and every byte |
| StoreImmutability.RunKeepsPrefix | src/backend.rs:210-291 | from any state with the invariant, over any run, a finalized capture stays bound and its earlier content is a prefix of its later content |
| StoreImmutability.DisciplineKeepsBytes | src/backend.rs:210-350 | in every run from the empty archive under the discipline, finalized captures are immutable byte for byte, in both modes |
| StoreImmutability.DisciplineKeepsPrefix | src/backend.rs:210-350 | in every run from the empty archive where no encrypted upload can race past the check, finalized captures only grow |
| StoreExactness.ImmutableExactly | src/backend.rs:210-350 | for every name a capture can have: finalized content is immutable byte for byte in all runs if and only if no capture is named like a staging file and, unless the name is itself a staging name (which then is never stored to), uploads to one name do not overlap and, for an `.age` name, the existence check does not fail or nothing is encrypted |
| StoreExactness.GrowsOnlyExactly | src/backend.rs:210-350 | for every name a capture can have: a finalized name stays bound and only grows in all runs if and only if it is no `.age` name, or nothing is encrypted, or writers do not overlap and the check does not fail; so always among plaintext uploads, however interleaved; for a staging name, if and only if no capture is named like a staging file |
| StoreExactness.ReassemblyExactly | src/backend.rs:210-350 | for every name a capture can have: every finalized file is surviving staged bytes followed by the linking upload's output, each byte at its own offset, in all runs if and only if the immutability condition holds and, unless the name is itself a staging name, the sweep leaves alone the staging files of active uploads |
| StoreExactness.OkOncePerNameExactly | src/backend.rs:276-290 | for every name a capture can have: in every interleaving, plaintext or encrypted, at most one more store returns Ok than the sweep removed the name, if and only if the name is no staging name or no capture is named like a staging file |
| StoreExactness.OverlapChangesBytes | src/backend.rs:254-290 | for every capture name: without the one-writer rule a run of two plaintext uploads appends to the finalized file |
| StoreExactness.StagingNameChangesBytes | src/append.rs:25-29 | for every capture name: a capture named like its staging file, crashed between link and unlink, leads to a finalized file that changes |
| StoreExactness.EncryptedOverlapTruncates | src/backend.rs:306-336 | for every `.age` name: two encrypted uploads past the check, and the second empties the file the first finalized |
| StoreExactness.FailedCheckTruncates | src/backend.rs:314-316 | for every `.age` name: a failing existence check counted as absence, after a crash between link and unlink, empties the finalized file |
| StoreExactness.SweepRaceLosesBytes | src/backend.rs:227-259 | for every capture name: a sweep of the staging file between size check and open makes the resumed input land at offset 0 |
| StoreExactness.StagedNameChanges | src/backend.rs:226-259 | for every staging name: a finalized capture of that name is extended by an upload to the name without the suffix |
| StoreExactness.StagedNameShrinks | src/backend.rs:276-279 | for every staging name: it is removed when that upload finishes |
| StoreExactness.StagedNameStoredTwice | src/backend.rs:218-279 | for every staging name: after which a second store to it returns Ok, with no sweep in the run |
| StoreReassembly.StepKeepsAssembly | src/backend.rs:210-350 | every step keeps: staged bytes of a name were each written by an upload to it at its start offset plus index, the writer's file ends with what it copied so far, the offset checked still is the staged size, and a finalized file is assembled |
| StoreReassembly.RunKeepsAssembly | src/backend.rs:210-350 | so over every run under the discipline |
| StoreReassembly.DisciplineReassembles | src/backend.rs:226-279 | in every run from the empty archive, across any chain of crashed and resumed stores, a finalized file is assembled |
| StoreReassembly.AssembledBytes | src/backend.rs:226-279 | an assembled file's bytes are a staged prefix as long as the linking upload's start offset, every byte of it written in place by an upload to the same name, followed by that upload's whole output |
| StoreLinks.LinksBalance | src/backend.rs:276-290 | over every run, in any interleaving, for every name a capture can have: uploads that finalized the name = times it was lost + 1 if it is finalized now |
| StoreLinks.OnlyLinkFinalizes | src/backend.rs:276-290 | a name becomes finalized by the link step of an upload to it and by nothing else, staging names included |
| StoreLinks.LossHasCause | src/backend.rs:236-279 | a finalized name is lost only to the sweep or, if it is a staging name, to the clean-up of an upload that takes it for its staging file |
| StoreLinks.LossesAreRemovals | src/backend.rs:210-350 | so for a name that is no staging name the losses are the removals by the sweep |
| StoreLinks.OkIsLink | src/backend.rs:276-290 | every upload that returned Ok finalized the name by its own link, and there is at most one more of them than losses of the name |
| StoreLinks.RunFinalizes | src/backend.rs:276-290 | a name that is no staging name is finalized as soon as it is bound, over every run |
| StoreLinks.AtMostOneOkPerName | src/backend.rs:276-290 | at most one more upload returns Ok than the sweep removes the name, for every name that is no staging name, and for those where no capture is named like one |
| StoreSubtrees.RunOutsideKeepsSubtree | src/backend.rs:508-592 | a run none of whose actions names anything under a directory leaves every file and directory under it as it was, shared inodes included |
| StoreSubtrees.OwnRunKeepsOthers | src/backend.rs:210-350 | a store, whatever fails, changes, binds and removes no name but those of its own kin |
| StoreSubtrees.OwnRunKeepsSubtree | src/backend.rs:508-573 | a store leaves every directory alone that its final name does not lie in, files and subdirectories |
| StoreSubtrees.OwnRunKeepsFinalized | src/backend.rs:210-350 | under the discipline a store keeps every finalized capture byte for byte, its own name included |
| StoreSubtrees.QuarantineApart | src/backend.rs:535-553 | in every run, no step of a quarantine upload creates, removes or changes any file, final or staging, that is not itself named like a probe |
| StoreTree.StepKeepsTree | src/backend.rs:248-290 | every action, failing calls and the sweep included, keeps the archive a tree: no name is file and directory, everything has its parent |
| StoreTree.RunKeepsTree | src/backend.rs:248-290 | so over every run, with no assumption on the deployment |
| Ledger.TimesOfLogout | src/limits.rs:54-71 | a logout in the log drops exactly the oldest stamp of that account, and nothing of others |
| Ledger.ReapAllUsers | src/limits.rs:76-88 | reaping account by account is one filter of the whole log |
| Ledger.ReapTakesTheStale | src/limits.rs:76-88 | what a reap leaves and the stale slots it meets are the whole log |
| Ledger.ReapKeepsTheYoung | src/limits.rs:76-88 | a reap keeps every slot younger than the ttl as often as it was there, and no other |
| Ledger.RefusedExactly | src/limits.rs:105-114 | a login is refused exactly if admitting it would take the number of slots above the global cap, or the number of that account's slots above its cap |
| Ledger.LogoutTakesFirst | src/limits.rs:54-71 | a logout takes out the first slot of the account and nothing else, and nothing if there is none |
| Limits.SessionTracker.constructor | src/limits.rs:34-42 | an empty log with the given caps |
| Limits.SessionTracker.CountIsExact | src/limits.rs:90-102 | the `as u32` cast of a vector length never loses a value |
| Limits.SessionTracker.IsAtCapacity | src/limits.rs:90-103 | answers by the log: a count has reached the global cap, or the account's cap if there is one |
| Limits.SessionTracker.TryAdmit | src/limits.rs:105-121 | fails exactly if one slot more would exceed the global cap or, counted over the account's own slots, the cap per account; else one slot is logged now, and on failure nothing changes; counter and map agree with the log, no stored vector is empty |
| Limits.SessionTracker.OnLogout | src/limits.rs:54-71 | drops the oldest stamp of the account, for an account without one nothing; the saturating subtraction never saturates |
| Limits.SessionTracker.Reap | src/limits.rs:76-88 | removes exactly the slots aged at least the ttl and returns their number; no sum saturates, whatever the order of accounts |
| Limits.SessionTracker.SetLimits | src/limits.rs:123-127 | replaces both caps and no session |
| LimitsRuns.RunKeepsInv | src/limits.rs:54-127 | the invariant of all runs of admissions, logouts, stray ones included, reaps and cap changes: order, domination, caps, balance, age |
| LimitsRuns.FreshIsSuffix | src/limits.rs:76-88 | a reap takes a prefix of an account's vector, exactly its stale stamps |
| LimitsRuns.TrackerNeverOvercounts | src/limits.rs:54-121 | over every run, an account's vector is no longer than its list of open sessions and pointwise at least as young as the youngest of them, although logout always drops the oldest stamp |
| LimitsRuns.ReapTakesOnlyStale | src/limits.rs:76-88 | hence a reap takes a prefix of the vector and no more slots than there are open sessions aged at least the ttl |
| LimitsRuns.CapsAlwaysHold | src/limits.rs:105-127 | over every run with live cap changes, each count stays within the larger of its cap and its value when the caps were last set |
| LimitsRuns.CapsHoldSince | src/limits.rs:105-127 | the same by events alone: since the last change of the caps each count stays within the larger of its cap and its value then |
| LimitsRuns.AdmissionsBalance | src/limits.rs:54-121 | over every run: logins admitted = slots present + stale slots met by reaps + logouts of accounts that had a stamp, each counted by itself |
| LimitsRuns.LeakBound | src/limits.rs:9-15 | if reaps are at most an interval apart, every slot is younger than ttl + interval |
| LimitsRuns.ServerLeakBound | src/limits.rs:9-15 | with the constants of the server, no slot gets 360 seconds old |
| Sessions.AgreeExactly | src/limits.rs:54-121 | slots and open sessions agree in number, in all and per account, all along a run if and only if no reap, and no logout that is no session's, takes a slot |
| Sessions.SessionsCapped | src/limits.rs:105-127 | in such a run the caps bound the open sessions, in all and per account, across live cap changes |
| Sessions.YoungSessionsKeepSlots | src/limits.rs:10-15 | it is such a run if at every reap all open sessions are younger than the ttl and every logout is a session's |
| Sessions.SessionsExceedCap | src/limits.rs:76-88 | otherwise not: with a cap of one, two sessions are open after a reap at the ttl |
| Paths.WalkConcat | src/paths.rs:35-74 | resolving a path is resolving its first part and then the rest from there, links counted over both |
| Paths.WalkIsReal | src/paths.rs:35-74 | a resolved place exists, and is reached through directories and no links |
| Paths.CanonicalizePrefix | src/paths.rs:50-74 | every prefix of a canonicalizable path is canonicalizable, so the loop finds the longest |
| Paths.CanonicalizeIdempotent | src/paths.rs:36-45 | a canonical path is real and is its own canonical form |
| Paths.LinkIsTarget | src/paths.rs:36-45 | a link stands for its target, from the root or from its own directory, at the cost of one link; `..` drops the last name of a real directory |
| Containment.LongestFound | src/paths.rs:50-74 | walking up from the whole path finds the k such that the prefixes up to length k, and no others, canonicalize |
| Containment.ContainedLoop | src/paths.rs:35-74 | fast path and loop together compute the specification: the canonical form of the longest canonicalizable ancestor with the rest appended, if inside; the loop terminates |
| Containment.Normalize | src/paths.rs:19-29 | any `..` or prefix component is refused; otherwise the specified names, of which IdleComponent, ClimbIsRefused and NamesResolve say what they are |
| Containment.ResolveVirtual | src/paths.rs:95-107 | normalizing, joining the names one by one and containing compute the specification of resolve, for single roots and scopes |
| Containment.IdleComponent | src/paths.rs:19-29 | on every tree and scope, leaving out a root or `.` component anywhere in a path changes no result |
| Containment.ClimbIsRefused | src/paths.rs:19-29 | on every tree and scope, a path with a `..` or prefix component anywhere fails with Traversal |
| Containment.NamesResolve | src/paths.rs:95-107 | a path of plain names is resolved below the single root; in a scope its first name chooses the root and the rest is resolved below that, and no name or an unknown one is OutsideScope |
| Containment.BaseIsFound | src/paths.rs:50-74 | once the base canonicalizes, the search stops at or below it, the rest is plain names, the result is that place if it lies inside and Traversal if not, and NotFound is unreachable |
| Containment.ResolvedShape | src/paths.rs:35-74 | every Ok result has the canonical base as a component prefix and is an existing link-free directory chain followed by a tail that is missing or a link that does not resolve |
| Containment.ResolvedExactly | src/paths.rs:35-107 | on a tree without links, resolving against a base fails with NotFound exactly if the base does not exist, and is concatenation to the place the base names otherwise |
| Containment.ResolveInjective | src/paths.rs:95-107 | on a tree without links, for a single root, or roots none of which lies in another, two virtual paths with the same result have the same normalized names |
| Containment.InjectiveExactly | src/paths.rs:76-107 | on a tree without links, resolving in a scope is injective on normalized paths if and only if no existing root is, or lies in, another |
| Creation.WalkIsWould | src/paths.rs:31-34 | whatever files and directories are created, a path that leads somewhere leads where it would have led |
| Creation.WouldBeMade | src/paths.rs:31-34 | and every place a path would lead to can be reached by creating directories |
| Creation.StaysInsideExactly | src/paths.rs:31-34 | hence a path denotes nothing outside the jail, whatever is created later, if and only if it would not lead outside now |
| Creation.OkStaysInsideExactly | src/paths.rs:31-74 | the same for every Ok result of `contained`: a condition a caller can compute from the tree |
| Creation.CreatedInside | src/paths.rs:31-34 | in particular, where the missing part of an Ok result does not begin with a link, it stays inside: it denotes itself once something is created there, and nothing before |
| Creation.DanglingLinkEscapes | src/paths.rs:31-34 | a concrete Ok result that fails the condition, and the later tree in which it denotes an outside place |
| Retention.FileStaysExactly | src/retention.rs:76-92 | a file below the root stays if and only if its age is at most the quarantine ttl, directly in a quarantine directory; elsewhere the staging ttl, under a name with the staging suffix; otherwise the retention |
| Retention.UploadTtls | src/retention.rs:78-84 | outside a quarantine directory every staging name has the staging ttl, and every name that does not end in the suffix the retention |
| Retention.DirStaysExactly | src/retention.rs:57-75 | a directory below the root stays if and only if a file below it stays |
| Retention.SweepAbsorbs | src/retention.rs:12-96 | for t1 <= t2, sweeping at t1 and then at t2 leaves what one sweep at t2 leaves |
| Retention.SweepsCommute | src/retention.rs:44-96 | sweeps of any two directories, nested or not, commute |
| Retention.NothingLeftToSweep | src/retention.rs:53-95 | after a sweep no file below the root has expired, no directory strictly below it is empty, and every entry has its parent |
| Retention.EntryIffSurvivor | src/retention.rs:69-75 | the test made after the recursion, whether a directory is empty, is the test whether an unexpired file is left below it |
| Retention.VisitFileStep | src/retention.rs:76-92 | visiting a file entry takes the tree from one partial result of the specification to the next |
| Retention.VisitDirStep | src/retention.rs:57-75 | so does visiting a directory entry: sweep it, then prune it if that left it empty |
| Retention.ReplaySnoc | src/retention.rs:69-92 | one more removal of an expired file or an empty directory continues a legal sequence of removals |
| RetentionSweep.Sweeper.Sweep | src/retention.rs:23-42 | for every file below the root: kept, with its time, if and only if its age is at most the ttl of its place, quarantine, staging suffix or neither, each named; a directory below the root stays if and only if a file below it does, and nothing else changes; `deleted` and `pruned` list what went, each once; a dry run changes nothing and reports the same files, and the directories already empty; what was removed was, at its turn, an expired file or an empty directory |
| RetentionSweep.Sweeper.Visit | src/retention.rs:44-96 | the same for each recursive call, on top of the report so far |
| RetentionSweep.Sweeper.VisitEntry | src/retention.rs:53-95 | the same for one entry, the pruning of an emptied directory included |
| RetentionSweep.SecondSweepIsIdle | src/retention.rs:44-96 | a second sweep at the same time changes nothing and reports nothing |
| RetentionSweep.DryRunAnnounces | src/retention.rs:69-75 | a dry run announces no directory the real run keeps, and all it removes if and only if every directory with entries has an unexpired file below it |
| Lifetime.KeptUntilExpired | src/retention.rs:12-21 | under the store's discipline, in every timed run of uploads, crashes and sweeps, a finalized capture keeps its name, every byte and its modification time until its age exceeds the retention, or the quarantine ttl directly in a directory of that name, or the staging ttl if its whole name is the staging suffix |
| Lifetime.RunKeepsInv | src/retention.rs:12-21 | every timed run keeps that invariant: the store's, an inode for every name, and the tree |
| Lifetime.WriteStamps | src/retention.rs:12-21 | a write where the file ends makes its inode as new as the write, and no other inode |
| Lifetime.SweepIsRun | src/retention.rs:44-96 | the removals of one sweep, in their order, are a run of the archive, and what is left of the archive is what is left of the tree the sweep saw |
| Lifetime.SweepDecides | src/retention.rs:44-96 | after a whole sweep of an archive with the invariant of all runs a finalized capture below the root is gone if its age exceeds that same limit, and otherwise kept byte for byte |
| Lifetime.SweptHomeResolves | src/retention.rs:69-75 | after a sweep a camera resolves its paths if and only if an unexpired file is left below its home; otherwise every path without `..` fails with NotFound |
| Config.CheckCameras | src/config.rs:166-179 | accepts exactly unique names and unique logins, and reports a name or login that occurs twice |
| Config.CheckGroups | src/config.rs:180-188 | accepts exactly groups of declared cameras, and reports a member that is none |
| Config.CheckViewerNames | src/config.rs:192-206 | accepts exactly unique viewer names that are no camera's login, and reports one that is not |
| Config.CheckScopes | src/config.rs:207-218 | accepts exactly scopes naming declared cameras and groups, and reports an item of that viewer's scope that is neither |
| Config.Validate | src/config.rs:160-230 | accepts exactly the valid configurations; of any other the error says something true |
| Config.ValidExactly | src/config.rs:160-230 | what valid means, entry by entry: ordered ports; camera names and logins, the username or else the name, unique; known group members; unique viewer names apart from all logins; known scope items; recipients, where configured, present and all of them keys |
| Accounts.PlainJoin | src/account.rs:54-69 | a plain camera name adds exactly one component to the archive root |
| Accounts.JoinBySlash | src/account.rs:54-69 | and any other name: a leading slash replaces the root, a name with slashes joins piece by piece, `.` and empty pieces add nothing, `..` adds a step up |
| Accounts.ExpandedIsUnion | src/account.rs:32-52 | a scope list stands for the members of its groups and the cameras it names, the group winning on a clash |
| Accounts.ExpandScope | src/account.rs:32-52 | the insertion loop yields that scope, each name with its own directory |
| Accounts.Build | src/account.rs:54-84 | both insertion loops yield the declared accounts by login, a later one replacing an earlier one |
| Accounts.BuildLosslessExactly | src/account.rs:54-84 | there are as many accounts as cameras and viewers if and only if no two share a login |
| Accounts.ValidBuildsLossless | src/config.rs:160-206 | for a validated configuration there is exactly one account per camera and viewer, each found under its login with its own hash, its own home or scope, and TLS demanded exactly of cameras that set `require_tls` |
| Accounts.ScopeDenotesCameras | src/account.rs:32-52 | for a validated configuration, a list-scoped viewer's root names are exactly that union, all are declared cameras, and each maps to that camera's home |
| Accounts.AllReachesRoot | src/account.rs:32-35 | on any tree, what a viewer with scope `all` resolves lies below the archive root; without links every path without `..` resolves to the place it names there; NotFound exactly if there is no root |
| Server.Server.Authenticate | src/auth.rs:86-112 | BadPassword if and only if the password matches the hash of no camera or viewer of that name; TlsRequired if and only if it matches that of a camera with `require_tls` on an insecure channel; of the others LimitReached exactly if one slot more would exceed a cap; else admitted, and a slot of that account is logged then and only then; no cap changes, and what happened is one admission event of the run, or none |
| Server.GateDecides | src/auth.rs:86-99 | for a validated configuration the gate finds an account exactly if the password matches the hash of the camera or viewer that declares the name, and demands TLS exactly of a camera that says so |
| Server.Server.ReceivePresence | src/presence.rs:14-20 | LoggedIn changes nothing, LoggedOut releases the oldest slot of the account, whichever of its sessions ended; if it is known which, that session and no other is no longer open |
| Server.Server.ProvideUser | src/auth.rs:124-136 | finds the one camera or viewer of the configuration loaded last that logs in under the name, with that entry's own role; finds nothing only if there is none |
| Server.LookupFindsDeclared | src/account.rs:26-30 | for a validated configuration, looking up a login finds the account of its one camera or viewer, and nothing exactly if nobody has that login |
| Server.EnsureHomeDirs | src/server.rs:129-134 | makes the homes in order up to the first that cannot be made, each with its ancestors, and nothing else but the ancestors a failing call leaves |
| Server.HomeDirsExactly | src/server.rs:129-134 | the directories made are exactly the homes of those cameras and their ancestors |
| Server.HomeResolves | src/server.rs:127-134 | once its home is made, a camera whose home has no `..` resolves every path without `..` to the place it names below the home |
| Server.Server.ReaperTick | src/server.rs:209-223 | keeps every slot younger than 300 seconds as often as it was there and reclaims all others, as a reap event of the run |
| Server.Server.SlotsBounded | src/limits.rs:105-127 | whatever the server did so far: the slots taken, in all and per account, are within the larger of their cap and their number when the caps were last set, and, where the reaper ran on time, none is 360 seconds old |
| Server.Server.Reload | src/server.rs:145-158 | replaces accounts and caps together exactly if the new configuration loads, validates and every home can be made, and then all homes are there; otherwise neither, though homes made before the failing one stay; sessions stay in any case |
| Backend.PlannedTarget | src/backend.rs:517-572 | an accepted put is for exactly one place: a probe name goes to the home's quarantine, any other to the home joined with its names, with `.age` and offset 0 when encrypting |
| Backend.PutAccepted | src/backend.rs:517-572 | on every archive: a viewer's put is Denied, a path without a file name refused; a probe is taken; a capture is taken, resumed or not, exactly if the path does not climb and the home exists, and when encrypting only at offset 0; each refusal has its own error |
| Backend.PlannedJob | src/backend.rs:534-572 | the store gets a probe's input for the quarantine of the home; when encrypting, the ciphertext from offset 0 for the `.age` name of the home joined with the names; otherwise the input at its offset for that name |
| Backend.PutStaysHome | src/backend.rs:508-573 | that place lies strictly below the camera's own home, and the store gets a job that keeps captures, probes and ciphertexts apart |
| Backend.PutFile | src/backend.rs:508-573 | a put that returns Ok(n) has n the input length and leaves, under the `.age` name of the home joined with the names, the whole ciphertext and nothing else; without recipients, under that name, the staged bytes, as many as the offset says, followed by the input; for a probe the input in the quarantine; the names were free, and the staging name is gone if its removal works; a refused put changes nothing and returns its error; any other is a run of the store on the planned job and nothing else, with that store's exact outcome; no name but the final and staging one changes; from any reachable archive it keeps every name not of the kin of its own, every home neither in nor around its own, and under the discipline every finalized capture |
| Backend.MkdStaysHome | src/backend.rs:585-592 | what mkd is asked to make is the place its names denote at or below the home |
| Backend.MkdAccepted | src/backend.rs:585-592 | a viewer's mkd is Denied; an uploader's is accepted exactly if the path does not climb and the home exists |
| Backend.MakeDirectory | src/backend.rs:585-592 | a refused mkd changes nothing; any other makes exactly that directory and its ancestors, and fails exactly if the call fails, leaving the first ancestors, or a file is in the way, leaving nothing |
| Isolation.IsolatedExactly | src/account.rs:54-69 | from every reachable archive, over every run of one camera's puts and mkds with any failures, everything in the other home stays as it was, if and only if neither home lies in the other |
| Isolation.PutActsFor | src/backend.rs:508-573 | what a put does is such a run, and sweeps nothing |
| Isolation.CamerasIsolatedExactly | src/account.rs:54-69 | the cameras of a configuration do not interfere if and only if no home is, or lies in, another |
| Isolation.CamerasDoNotInterfere | src/account.rs:54-69 | for a validated configuration whose camera names are plain components that is so |
| Isolation.UnplainNamesInterfere | src/config.rs:166-179 | validation accepts cameras `a` and `a/b`, and a directory the first one makes appears in the home of the second |
| Isolation.ViewerStaysInScope | src/paths.rs:95-106 | for a validated configuration, on any tree, every path a list-scoped viewer resolves lies in the home of a declared camera its scope denotes, the one it names first; without links at exactly the place it names there |

## Left out

- StoreStream.Disk.StoreStream: is one uninterrupted store; interleavings and crashes are on the step machine it is a run of.
- Backend.PutFile: takes the place a home written with `..` names; the directories a probe's `create_dir_all` makes only on the way to a `..` are not modelled, and a file on that way does not stop it.
- Server.EnsureHomeDirs: makes the place a home written with `..` names; directories made only on the way to a `..` are not modelled.
- Lifetime.KeptUntilExpired: the discipline is sufficient; that each part of it is needed is proved without times, in `StoreExactness.ImmutableExactly`.
- Sockets, TLS, the FTP protocol engine, signal handling, privilege drop and server assembly: plumbing with no state of its own.
- age and argon2: the ciphertext of an upload and the password check are parameters, so decrypting what was stored is not stated.
- Command line, TOML parsing, snippet and nftables rendering, certificate generation: string templates.
- `list`, `get`, `metadata`, `cwd`, `list_root` and the metadata accessors: they change nothing and add one-branch facts.
- `del`, `rmd` and `rename`: always denied, so the step machine has no action for them; names are removed only by staging clean-up and the sweep.
- `on_login`: called by tests only.
- The stub backend for the default user type: every operation is refused.
- Symbolic links inside the store's and the sweep's own trees: the server creates none; resolution is modelled with links.
- Names that are not Unicode and their lossy conversion; relative archive roots.
- The 64-bit width of sizes and offsets, and of modification times.
- Power loss, torn writes and reuse of inode numbers: a crash ends an upload, what it wrote before stays.
- Errors while the sweep reads or removes entries, failing `remove_dir`, and modification times of directories.
- The order in which the sweep reports, which is that of the directory listing: reports are compared as multisets.
- Clocks beyond never going back; the mutex of the tracker, whose methods are single steps.
- A reload that runs concurrently with a login sees accounts and caps change one after the other; here a reload is one step.

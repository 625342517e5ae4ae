# Import decision engine of ddrives/transfer, in Dafny

This project models the part of `index.js` that mirrors a file or directory tree into an
append-only vault. It keeps an entry index from vault name to the last known
`{length?, mtime}` record, the two status counters `fileCount` and `totalSize`, and the
importer's effects on the vault and its status emitter.

The model is a pure state transformer over `State(index, fileCount, totalSize, log)`:

- `Decide.ConsumeFile` is `consumeFile`: a file becomes *created*, *updated* or *skipped*.
  The counters are adjusted before the copy. The index record is written only after the copy
  succeeds.
- `Decide.EnterDir` is the first half of `consumeDir`. It appends a directory marker only
  when the record is missing or its mtime differs. In both cases it records the mtime.
- `Walk.Consume` and `Walk.ConsumeAll` are `consume` and the `run-series` walk over a
  directory's listing. An ignored path does nothing. A failed stat or listing fails. The
  first failing child aborts its later siblings.
- `Resume.Seed` folds the vault listing into the index and counters. `Resume.Import` runs
  seeding first, then the walk.
- `Paths.JoinDest` is `joinDDatabasePath`, including the rule that an empty base joined with
  an empty path names the root `""`.

The filesystem is a tree of `Walk.Node` values in listing order. A node whose stat fails is
`Vanished`. A directory whose listing fails is not `readable`. Whether a copy succeeds is an
oracle `copyOk` on the source path, and the ignore matcher is a predicate on source paths.
The `log` records, in order:

- directory markers issued to the vault (whether the append persisted is not modelled);
- file writes that completed;
- the `file imported` and `file skipped` notifications.

`totalSize` can become NaN, which is modelled as `Index.Total = Bytes(n) | NaN`:
`t - undefined + size` is NaN. This happens when a file meets a record without a length, or
when a listed non-directory entry has no length.

Two behaviours of the code are easy to miss:

- `vault.append(…, next)` passes a continuation that ignores its error argument
  (index.js:116-120). A failed marker append therefore does not abort the walk.
- `consumeDir` updates an existing record in place (index.js:102-103). A directory record
  that replaces a file record keeps that record's `length`.

The main results:

- `WalkProps.WalkTwiceOnlySkips`: re-importing an unchanged tree in the same run only
  skips. There is no error, no transfer, no marker, and index and counters are unchanged.
- `Resume.ResumeRoundTrip`: after a first import whose marker appends all persisted, a resumed
  import of the same tree from the vault's listing only skips and ends with the same index and counters.
- `FirstImport.FirstImportCounts`: a first import adds exactly the number of files to
  `fileCount` and exactly the sum of their sizes to `totalSize`.
- `WalkProps.ConsumeFrame` and `WalkProps.ConsumeWrites`: a walk touches only the vault
  names of its non-ignored nodes. It never announces an ignored path.
- `Scenarios.*`: the concrete counter values and vault listings of the repository's tests.

## Model

| member | source | states |
|---|---|---|
| Paths.JoinDest | index.js:145-153 | the derived name is never "."; an empty base with an empty path is the root ""; an empty base leaves the path as it is; a non-empty base prefixes the name, with one slash before a non-empty path |
| Paths.DirectoryRootName | index.js:98 | a directory target (relative path "") is named by the base path, and by "" when there is none |
| Paths.FileRootName | index.js:60-61 | a file target is named by its base name under the base path, never by the root "" |
| Paths.BasePathPrefixesEveryName | index.js:60-62 | with a base path, every vault name lies under it, and the directory root is the base path itself |
| Decide.ConsumeFile | index.js:58-94 | no record: fileCount +1 and totalSize +size; a record equal in both length and mtime: only a skipped notification, nothing else changes; a record differing in either field: fileCount unchanged and totalSize - oldLength + size; counters kept even when the copy fails; the index changes only on success, to exactly {length: size, mtime}; the write and the imported notification appear exactly when the copy completed |
| Decide.EnterDir | index.js:99-121 | a marker is appended iff there is no record or its mtime differs; the record then has the node's mtime and keeps an existing length; no other index entry and neither counter changes |
| Decide.ReimportSkips | index.js:69-92 | after a successful transfer, the same (size, mtime) is a skip that changes nothing else |
| Decide.FailedCreateCountsAgain | index.js:69-86 | a failed copy of a new file leaves no record, so consuming it again counts it a second time |
| Walk.Consume | index.js:46-56 | an ignored path returns at once with the state untouched; the file count never decreases, the log only grows, and no index entry is removed |
| Walk.ConsumeAll | index.js:105-110 | the series over the children keeps the same monotonicity: file count, log and index keys only grow |
| WalkProps.SeriesComposes | index.js:105-110 | children are walked in listing order: a listing is its first part and then the rest, and once the first part fails the rest is never visited and that error is the one reported |
| WalkProps.IgnoredTargetIsInert | index.js:47 | an ignored target completes with no error and an unchanged state |
| WalkProps.ConsumeFrame | index.js:46-122 | a walk changes index entries only at the vault names of the subtree's non-ignored nodes |
| WalkProps.ConsumeAllFrame | index.js:105-110 | the walk of a listing changes index entries only at the names of its non-ignored nodes |
| WalkProps.ConsumeWrites | index.js:46-122 | vault writes of a walk name only its non-ignored nodes, and its notifications never name an ignored path |
| WalkProps.ConsumeAllWrites | index.js:105-110 | the same for the walk of a listing |
| WalkProps.SyncedStable | index.js:82-113 | whether the index describes a subtree depends only on the subtree's own vault names |
| WalkProps.WalkSyncs | index.js:46-122 | after a walk without error, every non-ignored file's record is exactly {length, mtime} and every directory's record has its mtime |
| WalkProps.WalkAllSyncs | index.js:105-110 | the same for a listing: later siblings never disturb the records of earlier ones |
| WalkProps.SyncedWalkSkips | index.js:87-92 | a walk over a tree the index already describes succeeds whatever the copy outcomes; it keeps index and counters and only appends skipped notifications, with no marker and no transfer |
| WalkProps.SyncedAllSkips | index.js:105-113 | the same for a listing |
| WalkProps.WalkTwiceOnlySkips | index.js:124-126 | idempotence: a second import of an unchanged tree in the same run only skips, with no error and the same index and counters |
| FirstImport.FirstImportCounts | index.js:83-86 | a successful walk of a tree none of whose names are indexed adds the number of non-ignored files to fileCount and the sum of their sizes to totalSize |
| FirstImport.FirstImportAllCounts | index.js:105-110 | the same for a listing |
| Resume.Seed | index.js:129-136 | seeding never touches the log, never lowers fileCount and never drops an index entry |
| Resume.Import | index.js:124-140 | a failed listing reports its error without a walk: the result is exactly the seeded state with no log; the seeded counts and names survive into the result |
| Resume.SeedAppend | index.js:131-136 | folding two listings in turn equals folding their concatenation |
| Resume.SeedLeavesUnlisted | index.js:132 | a name the listing never mentions keeps its record, or its absence |
| Resume.SeedLastWins | index.js:132 | the record for a name comes from the last listed entry with that name |
| Resume.SeedCounts | index.js:133-134 | every non-directory entry adds 1 to fileCount, repeated names included, and directory entries add nothing |
| Resume.SeedTotal | index.js:133-135 | totalSize grows by the sum of the non-directory entries' lengths, and becomes NaN if one of them has no length |
| Resume.FreshWalkCoherent | index.js:65-73 | during a first import, re-seeding from the vault writes so far rebuilds exactly the index and counters |
| Resume.FreshWalkAllCoherent | index.js:105-120 | the same for a listing |
| Resume.ResumeRoundTrip | index.js:128-137 | when the first import's marker appends all persisted, a resumed import of the same tree from the vault's listing only skips and ends with the first run's index and counters |
| Scenarios.ImportDirectory | test/index.js:21-40 | importing d.txt (4 bytes) and e.txt (5 bytes) gives 2 files, 9 bytes and vault entries "", d.txt and e.txt |
| Scenarios.ImportFile | test/index.js:42-59 | importing d.txt alone gives 1 file, 4 bytes and the single entry d.txt, or foo/bar/d.txt under that base path |
| Scenarios.ImportDirectoryWithBasePath | test/index.js:229-248 | with basePath foo/bar the entries are foo/bar, foo/bar/d.txt and foo/bar/e.txt |
| Scenarios.ResumeAfterVaultOverwrite | test/index.js:61-98 | a listing with a second 6-byte d.txt seeds 3 files; the 4-byte file on disk is updated, giving 3 files and 13 bytes, and e.txt is skipped |
| Scenarios.ResumeAfterTouch | test/index.js:100-143 | an mtime-only change to d.txt is an update, and the counters stay at 2 files and 9 bytes |
| Scenarios.FirstRun | test/index.js:21-40 | the complete state after the fixture's first import, with no base path or with foo/bar |
| Scenarios.SecondRun | test/index.js:70-83 | a resumed walk of the fixture with a stale d.txt record updates d.txt and skips e.txt |

## Left out

- Live mode (index.js:29-39): the chokidar watcher and its ready/add/change wiring are
  event-driven concurrency in an external library. The unlink handler does nothing anyway.
- The EventEmitter, `status.close` and the optional-callback / `emitError` plumbing
  (index.js:16-23, 41-42). Notifications appear only as entries of the log.
- `fs.stat`, `fs.readdir`, read streams, `createFileWriteStream` and `@dwcore/channel` piping
  are I/O. Each is an outcome instead: `Vanished`, an unreadable directory, or the `copyOk`
  oracle.
- A partially written file stream after a failed copy is not recorded in the log.
- The outcome of a marker append is not modelled: the walk's control flow ignores it
  (index.js:116-120), so every issued marker is logged as if it reached the vault.
- Resume.FreshWalkCoherent: assumes every marker append issued during the first import
  persisted. A failed append leaves no vault entry for that directory although the import
  reports no error.
- Resume.FreshWalkAllCoherent: makes the same assumption that every issued marker append
  persisted.
- Resume.ResumeRoundTrip: assumes every marker append of the first import persisted. If one
  failed, the resumed run finds no record for that directory and appends its marker again,
  so it does not only skip.
- Decide.ConsumeFile: the index is a Dafny map in which a name is absent until written. In the
  source it is a plain object (index.js:26), so a name inherited from `Object.prototype`
  (`toString`, `constructor`, `valueOf`, `__proto__`, …) is found by `entries[dDrivePath]`
  (index.js:82). Such a file takes the update branch or throws, and is not modelled. The same
  holds for the seeding assignment at index.js:132 (Resume.Seed).
- Counters as doubles: `fileCount` and `totalSize` are JavaScript numbers and lose integer
  exactness above 2^53 (index.js:84-85, 88, 134-135). The model uses unbounded integers.
- Walk.Consume: `file === target` is modelled as "this node is the walk's root". Source paths
  are built with a plain slash join, without Node's normalisation, so a target with a trailing
  slash is not modelled.
- Paths.JoinDest: models `path.join` only as a slash join of two segments with the "." rule
  for an empty result. It does not normalise "..", "." segments or repeated slashes.
- The `anymatch` glob and regex semantics are an abstract predicate on source paths.
- `Date` values: every mtime is integer milliseconds.
- A resume listing that fails is modelled as ending after the entries it delivered, and then
  the walk never starts. The vault stream's own error/end semantics are not modelled.
- example.js is a command-line demo and is not part of this model.

# Open Terms Archive: recorder store, history migration, history rewrite and history schema

This Dafny project models four parts of Open Terms Archive.

- **Document store** (`document_store.dfy`, module `DocumentStore`). The MongoDB repository of the
  recorder keeps snapshots and versions as one document per record. A collection is a
  sequence of stored documents in insertion order. The pure functions say what each query
  selects: `Latest`, `FindDoc`, `Summaries`, and `SaveStep` for what `save` writes. The
  class `MongoRepository` performs `save`, `findLatest`, `findById`, `findAll`, `count`,
  `iterate`, `removeAll` and `loadRecordContent` step by step. Each method is proved against
  those functions.
- **Migration engine** (`migration.dfy`, module `Migration`). The script splits the source
  records by the services to migrate. It merges the migrating records into the
  destination's list by `fetchDate` and replays the snapshots, which fills the mapping from
  old ids to new ids. It then replays the versions with their `snapshotId` rewritten
  through that mapping, and stops at the first version whose snapshot has no mapping.
  The replays are specified as folds (`ReplaySnapshots`, `ReplayVersions`). The class
  `MigrationRun` runs them as loops against repositories.
- **History rewrite** (`history_rewrite.dfy` and `posix_path.dfy`, modules `HistoryRewrite`
  and `PosixPath`). The script replays the commits of an old snapshots repository as
  snapshot records:
  - commits are sorted by date;
  - only commits whose message starts with "Start tracking" or "Update" are kept;
  - the document key of each commit comes from its first changed file: `path.dirname` gives
    the service and `path.basename` without `path.extname` gives the document type;
  - the renaming rules may change that key;
  - each recorded snapshot is counted as rewritten, or as skipped because nothing changed.
  `PosixPath` models Node's POSIX `dirname`, `basename` and `extname`.
- **History schema** (`history_schema.dfy`, module `HistorySchema`). This is the JSON Schema of
  `*.history.json` files, stated as predicates over a small `Json` datatype. It covers:
  - the closed set of top-level keys;
  - the three declaration shapes, combined with `oneOf`;
  - the PDF URL regular expression.

The other two files hold shared helpers. `wrappers.dfy` has `Option` and `Result`.
`sorting.dfy` (module `Sorting`) has a stable sort by an integer key, a filter that keeps
order, and the facts about both that the other modules use.

External services and I/O are parameters of the model:
- MongoDB is the sequence `collection`;
- Git, the GitHub API and the HTTP download of a commit's file are the function `fetchBody`;
- the renaming rules are the function `applyRules`;
- the shared schema definitions and the `date-time` format are the predicates in `Definitions`.

## Model

| member | source | states |
|---|---|---|
| Sorting.Filter | scripts/rewrite/rewrite-snapshots.js:58-59 | `Array.prototype.filter`: keeps exactly the elements that satisfy the predicate, and no more of them than the input has |
| Sorting.FilterSubsequence | scripts/rewrite/rewrite-snapshots.js:58-59 | filtering keeps the input order: the result is a subsequence of the input |
| Sorting.FilterComplement | scripts/history/migrate-services.js:153-154 | filtering by a predicate and by its negation splits the input: the two multisets add up to the input and are disjoint |
| Sorting.FilterSorted | scripts/rewrite/rewrite-snapshots.js:58-59 | filtering a list sorted by a key leaves it sorted |
| Sorting.InsertBy | scripts/history/migrate-services.js:155 | inserting into a sorted list keeps it sorted and adds exactly that element |
| Sorting.SortBy | scripts/history/migrate-services.js:155 | `sort` with a key comparator: the result is sorted by the key and is a permutation of the input |
| Sorting.SortByStable | scripts/history/migrate-services.js:155 | the sort is stable: elements with equal keys keep their input order, as `Array.prototype.sort` guarantees |
| DocumentStore.Latest | src/archivist/recorder/repositories/mongo/index.js:57-61 | the newest document of a key: none exactly when the key has no document; otherwise a document of that key whose `fetchDate` is at least that of every other document of the key |
| DocumentStore.FindDoc | src/archivist/recorder/repositories/mongo/index.js:63-67 | lookup by id: none exactly when no stored document has the id; otherwise a stored document with that id |
| DocumentStore.FindDocStored | src/archivist/recorder/repositories/mongo/index.js:63-67 | in a collection with unique ids, looking up a stored document's id finds that document |
| DocumentStore.LoadContent | src/archivist/recorder/repositories/mongo/index.js:100-104 | fails exactly when the id is not stored; otherwise only `content` changes, and it becomes the stored document's content |
| DocumentStore.ToDomain | src/archivist/recorder/repositories/mongo/index.js:106-120 | no document gives the empty result; otherwise the record differs from the document at most in `content` |
| DocumentStore.ToDomainStored | src/archivist/recorder/repositories/mongo/index.js:106-120 | loading a stored document's content gives back the document unchanged |
| DocumentStore.Summary | src/archivist/recorder/repositories/mongo/index.js:76-77 | `project({ content: 0 })` on one document; no contract of its own: `Summaries` states that each summary is its document without content |
| DocumentStore.LatestContent | src/archivist/recorder/repositories/mongo/index.js:44-47 | the content `save` compares against, that of `findLatest`; no contract of its own: `SaveStep` states that `save` skips exactly when it equals the new record's content |
| DocumentStore.Summaries | src/archivist/recorder/repositories/mongo/index.js:76-77 | the projection without content: one summary per matching document, in collection order, each that document without its content; every matching document has its summary in the result |
| DocumentStore.FreshId | src/archivist/recorder/repositories/mongo/index.js:50-52 | the id assigned by the insert is non-empty and differs from every stored id |
| DocumentStore.SaveStep | src/archivist/recorder/repositories/mongo/index.js:35-55 | `save`: sets `isFirstRecord` when unset, to whether the key had no document; skips exactly when the newest document of the key has the same content; otherwise appends the record under a new unique id; nothing else of the record changes |
| DocumentStore.SaveStepKeepsStored | src/archivist/recorder/repositories/mongo/index.js:35-55 | `save` keeps the collection's invariant: ids non-empty and unique, contents loaded, `isFirstRecord` set |
| DocumentStore.SaveSameContentTwiceSkips | src/archivist/recorder/repositories/mongo/index.js:44-48 | saving the newest record of a key a second time with the same content writes nothing |
| DocumentStore.CursorLoadsStored | src/archivist/recorder/repositories/mongo/index.js:84-94 | every document a cursor over the collection yields is stored, so loading its content gives it back unchanged |
| DocumentStore.MongoRepository.constructor | src/archivist/recorder/repositories/mongo/index.js:13-29 | a repository over a valid collection |
| DocumentStore.MongoRepository.Save | src/archivist/recorder/repositories/mongo/index.js:35-55 | the new collection, the mutated record and the returned record are those of `SaveStep`; the invariant is kept |
| DocumentStore.MongoRepository.FindLatest | src/archivist/recorder/repositories/mongo/index.js:57-61 | returns `Latest` of the key |
| DocumentStore.MongoRepository.FindById | src/archivist/recorder/repositories/mongo/index.js:63-67 | returns nothing exactly when the id is not stored, otherwise the stored document with that id |
| DocumentStore.MongoRepository.FindAll | src/archivist/recorder/repositories/mongo/index.js:69-78 | the matching documents without content, each once, sorted by `fetchDate`: a permutation of `Summaries` |
| DocumentStore.MongoRepository.Count | src/archivist/recorder/repositories/mongo/index.js:80-82 | the number of stored documents |
| DocumentStore.MongoRepository.Iterate | src/archivist/recorder/repositories/mongo/index.js:84-94 | yields every stored document once, with its content, sorted by `fetchDate` |
| DocumentStore.MongoRepository.RemoveAll | src/archivist/recorder/repositories/mongo/index.js:96-98 | the collection becomes empty |
| DocumentStore.MongoRepository.LoadRecordContent | src/archivist/recorder/repositories/mongo/index.js:100-104 | fails exactly when the record's id is not stored; otherwise the record gets the stored content |
| Migration.Tally | scripts/history/migrate-services.js:203-209 | each processed record adds one to `migrated` or to `skipped`, and to `migrated` exactly when it was written |
| Migration.MigratingRecords | scripts/history/migrate-services.js:153 | the records of the services to migrate, and only those |
| Migration.RemainingRecords | scripts/history/migrate-services.js:154 | the records of the other services, and only those |
| Migration.PartitionRecords | scripts/history/migrate-services.js:153-154 | the two selections partition the source records: together they are the source as a multiset, they share no record, and each keeps the source order |
| Migration.ReplayList | scripts/history/migrate-services.js:155 | the destination's records and the migrating ones, sorted by `fetchDate`: nothing lost, nothing added |
| Migration.ReplaySnapshots | scripts/history/migrate-services.js:195-211 | `rewriteSnapshots` as a fold of `SnapshotStep` over the list; no contract of its own: `ReplaySnapshotsCounts`, `ReplaySnapshotsMapsEveryId` and `ReplaySnapshotsTargets` state its counts, its mapping keys and its targets |
| Migration.SnapshotStep | scripts/history/migrate-services.js:198-210 | one snapshot, corrected: the record's old id maps to the new id when it was written, and to nothing when it was skipped; only that key of the mapping changes; the collection and counters follow `save` |
| Migration.SnapshotStepAsWritten | scripts/history/migrate-services.js:199-209 | one snapshot as written: a written record is keyed by its NEW id, mapped to itself; a skipped duplicate keeps its old id, mapped to nothing; the collection and counters follow `save` as in the corrected step |
| Migration.ReplaySnapshotsCounts | scripts/history/migrate-services.js:195-211 | a snapshot replay counts every record once, keeps the existing collection as a prefix, and grows it by the migrated count |
| Migration.ReplaySnapshotsMapsEveryId | scripts/history/migrate-services.js:195-211 | after a snapshot replay, the mapping's keys are the old keys plus every replayed record's old id |
| Migration.ReplaySnapshotsTargets | scripts/history/migrate-services.js:195-211 | every mapping target is a stored snapshot id, before and after a replay |
| Migration.NewSnapshotId | scripts/history/migrate-services.js:217-221 | a version's new snapshot id exists exactly when its snapshot id has a mapping to a non-empty id, and it is that id |
| Migration.ReplayVersions | scripts/history/migrate-services.js:213-235 | `rewriteVersions` as a fold of `VersionStep` that stops at the first throw; no contract of its own: `ReplayVersionsAbortsIff`, `ReplayVersionsStopsAtFirstUnmapped`, `ReplayVersionsSound` and `AbortedStays` state when it throws and what it writes |
| Migration.VersionStep | scripts/history/migrate-services.js:216-234 | one version: throws exactly when its snapshot id has no truthy mapping, changing nothing; otherwise the version is saved with its snapshot id replaced by the mapped id and counted |
| Migration.ReplayVersionsAbortsIff | scripts/history/migrate-services.js:213-235 | a version replay throws exactly when some version's snapshot has no mapping, and the version it reports is an unmapped version of the list |
| Migration.ReplayVersionsStopsAtFirstUnmapped | scripts/history/migrate-services.js:216-221 | it throws on the first such version, after saving every version before it |
| Migration.ReplayVersionsSound | scripts/history/migrate-services.js:213-235 | a version replay keeps the existing collection and grows it by the migrated count; every version it writes is one of the input versions with its snapshot id replaced by the mapping of its own snapshot id, and nothing else changed but the id and `isFirstRecord` that `save` sets; a completed replay counts every version once |
| Migration.DuplicateSnapshotsWriteOnce | scripts/history/migrate-services.js:198-210 | two snapshots of one key with the same content: the first is written and the second skipped |
| Migration.VersionSnapshotIdRewritten | scripts/history/migrate-services.js:217-225 | a version whose snapshot was migrated is saved with the new snapshot id |
| Migration.MappingKeyAsWrittenLosesOldId | scripts/history/migrate-services.js:199-201 | as written, the old id of a migrated snapshot is missing from the mapping, so a version that points to it makes the version replay throw; with the corrected step it completes |
| Migration.MigrationRun.constructor | scripts/history/migrate-services.js:51-54 | empty mapping and zero counters |
| Migration.MigrationRun.RewriteSnapshots | scripts/history/migrate-services.js:195-211 | the new collection, mapping and counters are those of `ReplaySnapshots` |
| Migration.MigrationRun.RewriteVersions | scripts/history/migrate-services.js:213-235 | the new collection and counters are those of `ReplayVersions`; the version it reports is the one the replay throws on |
| Migration.MigrationRun.PersistMapping | scripts/history/migrate-services.js:178 | the persisted mapping is the current mapping |
| Migration.MigrationRun.MigrateSnapshots | scripts/history/migrate-services.js:171-176 | both snapshot replays, source side first, share one mapping; every target of the final mapping is a stored snapshot id |
| Migration.SnapshotPhase | scripts/history/migrate-services.js:173-176 | the two snapshot replays of `main`, the second with the mapping and counters the first left; no contract of its own: `MigrationRun.MigrateSnapshots` is proved to compute it, and `ReplaySnapshotsTargets` gives its mapping's targets |
| Migration.VersionPhase | scripts/history/migrate-services.js:182-185 | the two version replays of `main`, the second only when the first completes; no contract of its own: `VersionPhaseMissingIff` states when it reports a version and which |
| Migration.MigrationOutcome | scripts/history/migrate-services.js:152-185 | the whole run from the records read: partition and merge, `SnapshotPhase`, then `VersionPhase` with the mapping and counters it left; no contract of its own: `MigrationRun.Migrate` is proved to compute it |
| Migration.VersionPhaseMissingIff | scripts/history/migrate-services.js:182-185 | the version phase throws exactly when some version of either list has no truthy mapping, and the version it reports is such a version |
| Migration.MigrationRun.MigrateVersions | scripts/history/migrate-services.js:182-185 | both destinations, the counters and the reported version are those of `VersionPhase`; every version written on either side points to a snapshot id the mapping targets |
| Migration.MigrationRun.MigrateSnapshotRecords | scripts/history/migrate-services.js:152-178 | the snapshot half of `main`: both snapshot destinations, the mapping and the counters are the snapshot replays of the partitioned and merged source snapshots; the persisted mapping is that mapping; every mapping target is a stored snapshot id |
| Migration.MigrationRun.Migrate | scripts/history/migrate-services.js:152-185 | the whole run, as `MigrationOutcome`: both snapshot replays over the partitioned and merged source snapshots, the persisted mapping, then both version destinations, the counters and the reported version as `VersionPhase` over the partitioned and merged versions with that mapping; a version is reported exactly when some version of either list has no mapping; versions are written on either side only with snapshot ids stored in one of the two migrated snapshot collections |
| Migration.AbortedStays | scripts/history/migrate-services.js:219-221 | once a version replay has thrown, later records change nothing |
| PosixPath.LastIndexOf | scripts/rewrite/rewrite-snapshots.js:73-74 | an index in range, or -1 |
| PosixPath.LastIndexOfFinds | scripts/rewrite/rewrite-snapshots.js:73-74 | the index found holds the character, and no later index does |
| PosixPath.LastIndexOfIs | scripts/rewrite/rewrite-snapshots.js:73-74 | an occurrence with none after it is the one found |
| PosixPath.TrimTrailingSlashesKeepsPrefix | scripts/rewrite/rewrite-snapshots.js:73-74 | trimming keeps a non-empty prefix that has no trailing slash, unless it is a single character, and drops only slashes |
| PosixPath.DirName | scripts/rewrite/rewrite-snapshots.js:73 | Node's POSIX `path.dirname`; no contract of its own: `DirNameIsPrefix`, `SplitAtLastSeparator`, `NoSeparator` and `DirAndBaseOfJoinedPath` state what it returns |
| PosixPath.BaseName | scripts/rewrite/rewrite-snapshots.js:74 | Node's POSIX `path.basename`; no contract of its own: `BaseNameIsLastComponent`, `BaseNameAfterLastSeparator` and `DirAndBaseOfJoinedPath` state what it returns |
| PosixPath.ExtName | scripts/rewrite/rewrite-snapshots.js:74 | Node's POSIX `path.extname`; no contract of its own: `ExtNameIsSuffix` and `StemOfDottedName` state what it returns |
| PosixPath.Stem | scripts/rewrite/rewrite-snapshots.js:74 | `path.basename(p, path.extname(p))`; no contract of its own: `StemAndExtension`, `StemOfDottedName` and `DirAndStemOfJoinedPath` state what it returns |
| PosixPath.DirNameIsPrefix | scripts/rewrite/rewrite-snapshots.js:73 | `path.dirname` is never empty, and is "." or a prefix of the path |
| PosixPath.BaseNameIsLastComponent | scripts/rewrite/rewrite-snapshots.js:74 | `path.basename` is a suffix of the trimmed path with no separator |
| PosixPath.ExtNameIsSuffix | scripts/rewrite/rewrite-snapshots.js:74 | `path.extname` is a suffix of the basename; it is non-empty exactly when the basename has a dot after its first character and is not ".."; it then starts at the last dot |
| PosixPath.StemAndExtension | scripts/rewrite/rewrite-snapshots.js:74 | the basename without its extension, followed by the extension, is the basename |
| PosixPath.BaseNameAfterLastSeparator | scripts/rewrite/rewrite-snapshots.js:74 | without a trailing slash, the basename is what follows the last separator |
| PosixPath.SplitAtLastSeparator | scripts/rewrite/rewrite-snapshots.js:73-74 | a relative path with a separator is its dirname, "/" and its basename |
| PosixPath.NoSeparator | scripts/rewrite/rewrite-snapshots.js:73-74 | a name without a separator has dirname "." and is its own basename |
| PosixPath.DirAndBaseOfJoinedPath | scripts/rewrite/rewrite-snapshots.js:73-74 | joining a relative directory and a file name with "/" is undone by dirname and basename |
| PosixPath.StemOfDottedName | scripts/rewrite/rewrite-snapshots.js:74 | "name.ext" has extension ".ext" and stem "name", even when `name` has dots |
| PosixPath.DirAndStemOfJoinedPath | scripts/rewrite/rewrite-snapshots.js:73-74 | "dir/name.ext" gives back `dir`, `name` and ".ext" |
| HistoryRewrite.SortCommits | scripts/rewrite/rewrite-snapshots.js:43-45 | the commits sorted by date, as a permutation |
| HistoryRewrite.SortCommitsStable | scripts/rewrite/rewrite-snapshots.js:43-45 | commits with the same date keep their `git log` order |
| HistoryRewrite.IsRecordingCommit | scripts/rewrite/rewrite-snapshots.js:58-59 | the message test `/^(Start tracking\|Update)/`; no contract of its own: `FilterCommitsKeeps` states that the filter keeps exactly the commits that pass it |
| HistoryRewrite.FilterCommits | scripts/rewrite/rewrite-snapshots.js:58-59 | the commit filter; no contract of its own: `FilterCommitsKeeps` states what it keeps, in which order |
| HistoryRewrite.FilterCommitsKeeps | scripts/rewrite/rewrite-snapshots.js:58-59 | exactly the commits whose message starts with "Start tracking" or "Update" are kept, in order; a sorted list stays sorted |
| HistoryRewrite.KeyOf | scripts/rewrite/rewrite-snapshots.js:73-74 | the document key of a changed file, before renaming; no contract of its own: `KeyOfSnapshotFile` and `KeyOfDottedNames` state what it returns |
| HistoryRewrite.KeyOfSnapshotFile | scripts/rewrite/rewrite-snapshots.js:71-74 | the file "service/type.ext" gives the key (service, type) |
| HistoryRewrite.KeyOfDottedNames | scripts/rewrite/rewrite-snapshots.js:71-74 | only the last extension is removed: "example.com/Privacy.v2.html" gives ("example.com", "Privacy.v2") |
| HistoryRewrite.CommitRecord | scripts/rewrite/rewrite-snapshots.js:71-87 | nothing exactly when the commit changed no file; otherwise the renamed key of its first file, the commit date, the downloaded body, mime type ".html" and an unset `isFirstRecord` |
| HistoryRewrite.DeriveWellDerived | scripts/rewrite/rewrite-snapshots.js:80-87 | every snapshot derived from a commit carries content and the commit's date |
| HistoryRewrite.CommitStep | scripts/rewrite/rewrite-snapshots.js:71-93 | one iteration of the loop body; no contract of its own: `CommitStepFacts` states what it adds and when it fails |
| HistoryRewrite.ReplayCommits | scripts/rewrite/rewrite-snapshots.js:66-94 | the loop as a fold of `CommitStep` that stops at the first failure; no contract of its own: `ReplayCommitsFailsIff`, `ReplayCommitsSound`, `ReplayCommitsInDateOrder` and `FailedStays` state when it fails and what it writes |
| HistoryRewrite.ReplayCommitsFailsIff | scripts/rewrite/rewrite-snapshots.js:66-94 | a replay stops exactly when no snapshot can be derived from some commit |
| HistoryRewrite.CommitStepFacts | scripts/rewrite/rewrite-snapshots.js:71-93 | one commit adds at most one snapshot, the one derived from it, dated as the commit, and fails exactly when nothing can be derived from it |
| HistoryRewrite.RewriteFailsIff | scripts/rewrite/rewrite-snapshots.js:71 | the rewrite stops exactly when some commit changed no file |
| HistoryRewrite.ReplayCommitsSound | scripts/rewrite/rewrite-snapshots.js:66-94 | a replay keeps the existing history, grows it by the rewritten count, adds only snapshots derived from the commits, and counts every commit once when it completes |
| HistoryRewrite.RewriteWritesCommitKeys | scripts/rewrite/rewrite-snapshots.js:71-87 | a snapshot stored for a commit has the renamed key of its first file, its date, its downloaded body and mime type ".html" |
| HistoryRewrite.ReplayCommitsInDateOrder | scripts/rewrite/rewrite-snapshots.js:43-94 | replaying commits sorted by date appends snapshots sorted by `fetchDate` |
| HistoryRewrite.HistoryRewriter.constructor | scripts/rewrite/rewrite-snapshots.js:27-30 | both counters start at zero |
| HistoryRewrite.HistoryRewriter.RecordCommit | scripts/rewrite/rewrite-snapshots.js:66-94 | one iteration of the loop body follows `CommitStep`; a commit without files changes nothing and reports the failure |
| HistoryRewrite.HistoryRewriter.RecordCommits | scripts/rewrite/rewrite-snapshots.js:66-94 | the new history, counters and failing commit are those of `ReplayCommits` |
| HistoryRewrite.HistoryRewriter.Rewrite | scripts/rewrite/rewrite-snapshots.js:43-94 | the new history and counters are those of the replay of the sorted, filtered commits; the snapshots it adds are in date order |
| HistoryRewrite.ReplayCommitsNext | scripts/rewrite/rewrite-snapshots.js:66-94 | one more commit extends the replay by one step |
| HistoryRewrite.FailedStays | scripts/rewrite/rewrite-snapshots.js:71 | once the replay has failed, later commits change nothing |
| HistorySchema.DocumentsProperties | scripts/validation/service.history.schema.js:7-24 | one property per document type name and no other, each an array whose items are one of the three shapes |
| HistorySchema.MatchesShape | scripts/validation/service.history.schema.js:34-89 | one of the three declaration definitions; no contract of its own: `MultiPageExcludesOthers`, `PdfDeclaration` and `PdfThatIsAlsoSinglePageRejected` state how the shapes overlap |
| HistorySchema.CountMatching | scripts/validation/service.history.schema.js:14-18 | the number of matching shapes is at most the number of shapes, and zero exactly when none matches |
| HistorySchema.OneOf | scripts/validation/service.history.schema.js:14-18 | `oneOf`: exactly one shape matches; no contract of its own: `ValidItemIff` states which declarations it accepts |
| HistorySchema.MultiPageExcludesOthers | scripts/validation/service.history.schema.js:34-89 | a multi-page declaration matches neither the single-page nor the PDF shape |
| HistorySchema.ValidItemIff | scripts/validation/service.history.schema.js:13-89 | a declaration is accepted exactly when it is multi-page, or exactly one of PDF and single-page |
| HistorySchema.PdfThatIsAlsoSinglePageRejected | scripts/validation/service.history.schema.js:13-62 | a PDF declaration whose URL is also a valid `location` and whose date is also a valid `validUntil` matches two shapes and is rejected |
| HistorySchema.PdfDeclaration | scripts/validation/service.history.schema.js:34-49 | a PDF declaration has exactly the keys `fetch` and `validUntil`, and is accepted exactly when it is not also single-page |
| HistorySchema.ValidHistoryIff | scripts/validation/service.history.schema.js:7-31 | a history is accepted exactly when it is an object whose keys are document types and whose values are arrays of accepted declarations |
| HistorySchema.ValidHistory | scripts/validation/service.history.schema.js:26-31 | the whole schema; no contract of its own: `ValidHistoryIff` and `UnknownKeyRejected` state what it accepts |
| HistorySchema.UnknownKeyRejected | scripts/validation/service.history.schema.js:28-31 | a key that is not a document type rejects the history |
| HistorySchema.PropertyNamesMatchProperties | scripts/validation/service.history.schema.js:28-31 | `additionalProperties: false` and the `propertyNames` enum accept the same keys |
| HistorySchema.SchemeLength | scripts/validation/service.history.schema.js:41 | the `https?://` prefix is 7 or 8 characters long, or absent |
| HistorySchema.PdfUrl | scripts/validation/service.history.schema.js:41 | the `fetch` pattern of a PDF declaration; no contract of its own: `PdfUrlDecomposes` and `PdfUrlAccepts` state both directions of what it accepts |
| HistorySchema.PdfUrlDecomposes | scripts/validation/service.history.schema.js:41 | every accepted URL is "http" or "https", "://", at least one character, any one character, "pdf" in any case, then nothing or "?" and at least one character, with no line terminator |
| HistorySchema.PdfUrlAccepts | scripts/validation/service.history.schema.js:41 | every string assembled from those parts is accepted |
| HistorySchema.PdfWithoutDotAccepted | scripts/validation/service.history.schema.js:41 | the character before "pdf" need not be a dot: "https://example.com/xpdf" is accepted |
| HistorySchema.BareQuestionMarkRejected | scripts/validation/service.history.schema.js:41 | a URL whose only "?" is its last character is rejected |

## Left out

- Connections: the client, `initialize` and `finalize` are not modelled. A repository is a collection held in memory.
- Logging: the `explain()` and `console.log` output of `findAll` is not modelled. Nor are the winston loggers, the progress counters `i`, the timers and the summary printing.
- `DataMapper` is not part of this model. Records are stored as they are. `Binary` contents and their unwrapping are not modelled, and content is compared as a string value, not as a `Buffer` reference.
- DocumentStore.MongoRepository.Save: requires a record with content. As written, a record without content makes `#toPersistence` call `loadRecordContent` on `this.repository`, which is undefined, so `save` throws. The migration script does pass such records (next line).
- Migration.MigrationRun.Migrate: requires records with content, and so do `RewriteSnapshots`, `RewriteVersions`, `MigrateSnapshots` and `MigrateVersions`. As written, the source snapshots come from `findAll` on a MongoDB repository (scripts/history/migrate-services.js:63, 145), which returns summaries without content (src/archivist/recorder/repositories/mongo/index.js:76-77). Their first `save` into the MongoDB destination (scripts/history/migrate-services.js:68, 174) then throws in `#toPersistence`. The model assumes the records arrive with their contents loaded, which is what the script evidently intends.
- DocumentStore.MongoRepository.FindById: `new ObjectId(recordId)` throws on an id that is not a valid ObjectId. The model compares ids as strings and returns nothing instead.
- DocumentStore.FreshId: the model uses a deterministic fresh id, not an ObjectId's timestamp and counter.
- DocumentStore.Latest: documents of one key with equal `fetchDate` are an unspecified order in MongoDB. The model picks the last inserted.
- DocumentStore.MongoRepository.FindAll: documents with equal `fetchDate` come back in an order MongoDB does not specify. The model fixes it to collection order (a stable sort).
- DocumentStore.MongoRepository.Iterate: the same tie order is fixed to collection order as well.
- DocumentStore.MongoRepository.Iterate: returns the whole sequence the async generator would yield, not one document at a time.
- Dates: `new Date(...)` parsing is not modelled. Dates are integer timestamps.
- Migration.MigrationRun.Migrate: models the run past line 148. As written, `process.exit()` right after reading the source snapshots ends the script before anything is migrated.
- Migration.MigrationRun.Migrate: the `Promise.all` pairs run one after the other, source side first. As written they interleave on the shared `idsMapping` and counters.
- Migration.MigrationRun.MigrateVersions: when the first version replay throws, the model does not run the second one. As written, `Promise.all` (scripts/history/migrate-services.js:182-185) has already started both, and the second goes on saving until its own throw or its end.
- The Git repository backend (`src/archivist/recorder/repositories/git`) is not part of this model. Every repository of the migration has the document store's `save` semantics.
- Migration.MigrationRun.PersistMapping: the JSON file write is not modelled. The persisted mapping is a field.
- HistoryRewrite.HistoryRewriter.Rewrite: the loop is modelled as the commented-out sequential `for...of`. As written, `forEach(async ...)` starts every commit without awaiting any of them. A commit without changed files throws in its own callback; the model stops at that commit. As written, the other callbacks go on only where Node tolerates an unhandled rejection; from Node 15 on, the rejection ends the process. Which commits are recorded before that depends on timing, which the model does not capture.
- HistoryRewrite.HistoryRewriter.Rewrite: `git checkout`, the GitHub API call and the download of the file are the parameter `fetchBody`. The renaming rules are the parameter `applyRules`.
- The rate-limit request, the `--init` target-repository initializer and `history.init()` are not modelled.
- `recordSnapshot` (`src/app/history`) is not part of this model. It is modelled as the document store's `save` of a snapshot record.
- PosixPath: only Node's POSIX path functions are modelled, not the Windows variants. The stem strips the extension when it is a proper suffix of the basename, which is every case where the extension comes from `path.extname`.
- HistorySchema: `definitions.js` is not part of this model. Its definitions and Ajv's `date-time` format are the predicates in `Definitions`.
- HistorySchema.PdfUrl: strings are sequences of Unicode code points. The validator compiles the pattern without the `u` flag, so there `.` matches one UTF-16 code unit, half of a surrogate pair. A URL such as "https://" followed by U+1F600 and "pdf" is accepted by the validator, whose `.+.` takes the two halves, and rejected by `PdfUrl`.
- HistorySchema: `title` and the other annotations are not modelled. Neither are JSON numbers other than integers.

## Findings

| source | as written | input that shows it | evidently intended | confidence | as-written member | corrected member |
|---|---|---|---|---|---|---|
| scripts/history/migrate-services.js:199-201 | `idsMapping[record.id] = recordId` runs after `save` has set `record.id` to the new id (src/archivist/recorder/repositories/mongo/index.js:52), so a migrated snapshot is keyed by its new id | a snapshot with id "old-123" that `save` writes, then a version whose `snapshotId` is "old-123": the mapping has no "old-123" and `rewriteVersions` throws | key the mapping by the id the record had before `save` | high; not executed | Migration.MappingKeyAsWrittenLosesOldId | Migration.MigrationRun.RewriteSnapshots |

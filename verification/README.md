# Verification model of jscout

`jscout` keeps one SQLite database of derived state about a repository: files and what was
extracted from them, a structural projection, vector indexes, and policy tables. Its cheap
update paths promise to agree with a rebuild from nothing. This project models four of its
components in Dafny and proves those promises on the model.

* **Index publication** (`src/indexer.rs`, `src/publication.rs`, `src/dependency.rs`).
  `Publication` holds the length-framed digest streams and proves that they decode in one way only.
  `Tables`, `Database` and `Captures` are the data model: one publication's tables, a connection on
  which any statement may fail, and the captured inputs of one attempt. `Contracts`,
  `FirstPartyRows`, `Tagging`, `Dependency`, `DependencyFiles` and `Checker` are the stages;
  `Preparing`, `Replacing` and `Indexer` run them inside a transaction. `IndexState` and `Outcomes`
  state what a committed index is and what an attempt may end in. `PackagePlan` chooses the sources
  of one dependency. `IndexRun` is a whole invocation, with the policy reconciliation behind it.
* **Vector upkeep** (`src/embed.rs`). `VectorIndex`, `VectorSync` and `VectorConnection` model the
  cache, the entries, the shared vector tables and the completion markers; `Embedding` is a run that
  may be cancelled or fail between batches; `VectorSearch` is the exact search over partitions;
  `VectorRuns` runs these operations in any order.
* **Self-describing byte budgets** (`src/compact.rs`, `src/mcp.rs`). `Decimal` and `Settle` are the
  arithmetic of a text that records its own length; `WhoUses`, `Definitions`, `Neighborhood` and
  `BoundedArrays` cut responses to a limit. JSON is not modelled: the length of a response is an
  arbitrary function of its parts plus the digits of the lengths that it records.
* **Policy and chunking** (`src/recon.rs`, `src/chunk.rs`). `Ancestry` walks parent links that may
  be cyclic, `Recon` selects and writes the policy tables, `Scopes` says which scope decides the row of a
  file and what the rows hold, `Chunking` splits and merges source text.

`Wrappers`, `Sorting`, `Collections`, `Utf8`, `ByteOrder` and `Formats` are shared helpers.

## How to read the publication model

A `World` is the functions that the program calls but that are not modelled: extraction, chunking of
documents, role classification, the projection, the hash. They are arbitrary but deterministic. A
`Capture` is what one attempt reads; a `Build` is the version constants compiled into one program, so
runs of different builds over one database are covered. `CollisionFree` assumes that the hash tells
streams of less than 2^62 bytes apart; `CollisionFreeExists` shows that the assumption can be met, and
`Witness.SomethingIsPublished` builds a repository of one file with its publication, so that the
results about publications are not about nothing.
`Consistent` is the invariant of committed states: what the markers say of the rows is true, and the
published code digest, the projection and the editions belong together.

Three results hold the component together. `Indexer.Attempt` says that an attempt either leaves the
committed state untouched, for a cause that `Preparing.Blamed` lists, or commits one complete publication of its capture.
`Outcomes.IncrementalRefinesFull` says that two such publications of one capture agree in every row,
edge, marker and digest, whatever was stored before and in whatever mode they ran.
`IndexState.SkipIsSound` says that a projection that was not rebuilt is the one that a rebuild would
give, including the row ids that it mentions; it rests on unique decoding of the digest stream.
What a projection is built from is said of the tables themselves: `Tables.ProjectionShows` recovers the
files, ids, columns, edges and facts from it, and `Indexer.Attempt` commits one that is built from all of them.

## Where the code does less than it says

Each shortfall has a lemma or method at a concrete input, and an if-and-only-if with a condition that
can be checked beforehand.

* **Workspace tagging** (`src/dependency.rs:222-255`). The tagging statement passes a byte length to
  SQLite's `substr`, which counts characters; it compares with a prefix in which backslashes were
  replaced; and for the package at the repository root it asks for paths that begin with a slash.
  So no file below a package is tagged with it if its path is not ASCII (`Tagging.NonAsciiPackageIsMissed`),
  has a backslash in it (`Tagging.BackslashPackageIsMissed`) or is the root itself, which globs
  such as `.` and `**` produce (`Tagging.RootPackageIsMissed`); and a package with a backslash in its
  path may claim the files of another directory (`Tagging.MisreadPackageClaims`).
  `Tagging.DeepestPackageOwnsIff` says when a file gets the deepest package that contains it: exactly
  if that package is none of these three and no misread one is as deep and listed behind it, or deeper.
* **Retagging keeps vector rows** (`src/dependency.rs:172-178`). A changed origin does not reach the
  partition keys of vector rows (`VectorConnection.RetagLosesKeys`);
  `VectorConnection.RetagKeepsKeysIff` says when they stay right.
* **A repaired profile can hold a wrong vector** (`src/embed.rs:1507-1593`). The full audit compares
  keys, not vectors: a row that stood at a matching entry is kept whatever it holds
  (`VectorConnection.RepairKeepsWrongVector`). `VectorSync.RepairIsExhaustiveIff` says, of the state
  before the repair, when the repaired index is exhaustive; in the states that the operations reach it
  always is (`VectorSync.SoundRowsHold`).
* **Settled lengths can be ambiguous** (`src/mcp.rs:1962-2074`). Just below a power of ten one text
  has two settled lengths (`Settle.SettledTwice`), and a probe then depends on the length it settles
  from (`BoundedArrays.VerdictOf`). A refusal says that not even the smallest response fits. At every
  limit that is no run of nines that is true, and at every other one some refused response fits without
  its items: `BoundedArrays.RefusalsAreRightIff`. A refused response may even have a prefix that fits
  from whatever length it settles (`BoundedArrays.RoomyResponseIsRefused`); for any one response
  `BoundedArrays.RenderingEnds` says that a refusal means that the emptied text does not fit, or that
  the limit is a run of nines and some cut text just fits it.
* **A scope that names a file can lose** (`src/recon.rs:46-57`). The deeper scope decides the policy of a
  file, since it counts more components; but a scope limited to direct files counts as one deeper, so the
  directory of a file ties with a scope that is the file itself, and depth and id decide
  (`Scopes.FileScopeMayLose`). `Scopes.NestedScopeIsAbove` says exactly when an outer scope comes out
  above an inner one, and `Scopes.NestedScopeDecides` that it never decides a file below the inner one.
* **A policy transaction can stay open** (`src/recon.rs:486-522`). When COMMIT fails, nothing rolls
  back, so the clearing that follows is visible on that connection only (`Recon.PolicyStaysOpen`), and
  the next index run on it fails at once (`IndexRun.IndexAndReconcile`). `Recon.Connection.Reconcile`
  says which statement has to fail for that.

## Model

| member | source | states |
|---|---|---|
| `Publication.CodeStreamInjective` | src/publication.rs:167-257 | the bytes fed to the code digest decode in one way: equal streams come from equal contracts, edition context, ordered rows and resolution |
| `Publication.DocStreamInjective` | src/publication.rs:260-288 | the same for the documentation digest |
| `Publication.FoldStreamInjective` | src/publication.rs:159-165 | the publication snapshot fixes the code, documentation and provenance digests it was folded from |
| `Publication.DomainsSeparate` | src/publication.rs:159-170 | a stream of one kind is never a stream of another kind, because the domain labels differ |
| `Publication.CodeDigestDeterminesInput` | src/publication.rs:167-257 | with a collision-free hash, equal code digests mean equal digest inputs |
| `Publication.DocDigestDeterminesInput` | src/publication.rs:260-288 | with a collision-free hash, equal documentation digests mean equal contracts and rows |
| `Publication.SnapshotDeterminesIdentities` | src/publication.rs:65-103 | two readable publications with one snapshot agree in all four identities |
| `Publication.CollisionFreeExists` | src/publication.rs:340-373 | the assumption made of the hash can be met |
| `Witness.SomethingIsPublished` | src/indexer.rs:639-1143 | a capture of one source file has a publication, and that is a state that can be refreshed again |
| `Publication.ComputeCodeDigest` | src/publication.rs:167-257 | feeding the hasher field by field gives the hash of the specified code stream |
| `Publication.ComputeDocumentationDigest` | src/publication.rs:260-288 | the row loop gives the hash of the specified documentation stream |
| `Publication.Read` | src/publication.rs:65-103 | reading succeeds exactly if all four identities are there and the snapshot is their fold |
| `Publication.FramedDigest.Formats` | src/publication.rs:291-321 | the active formats are written as a count and then tagged, framed contracts |
| `ByteOrder.ListingUnique` | src/publication.rs:213-214 | a set of paths has one listing in binary order, so row order carries no information |
| `ByteOrder.Listing` | src/publication.rs:213-214 | sorting the paths gives that listing |
| `Tables.ResolutionStreamInjective` | src/structural.rs:385-431 | equal resolution-hash streams list equal module edges |
| `Tables.ContextStreamInjective` | src/rust_lang.rs:146-162 | equal edition fingerprints mean the same edition for every Rust file |
| `Tables.SameInputSameCode` | src/publication.rs:167-257 | equal code digest inputs come from tables with the same code files, each with the same hash, role, origin, format, package path and package columns, and with the same versions, resolution and, if there is Rust code, editions |
| `Tables.SameInputSameDocuments` | src/publication.rs:260-288 | equal documentation digest inputs come from tables with the same documents, each with the same hash and format |
| `Tables.SameContracts` | src/publication.rs:291-321 | if both list the same contracts, a format that occurs has the same marker in both and was compiled in the same version |
| `Tables.ProjectionShows` | src/structural.rs:606-622 | if the projection function loses nothing, equal projections come from the same JavaScript, TypeScript and Rust files with equal data, row ids and digest columns, the same edges and the same accepted facts |
| `Tables.ProjectedIsBuilt` | src/indexer.rs:1067-1082 | a rebuilt projection is the projection function applied to a view of every code file and of no other, to all edges, and to the active facts if they are bound to this digest |
| `Contracts.EnsureContract` | src/indexer.rs:1308-1360 | a format's rows are invalidated exactly if there are any and they were extracted under another contract, own or legacy |
| `Contracts.OutdatedMeans` | src/indexer.rs:1308-1360 | a format is outdated exactly if it has rows and its marker, or the older marker that stood for it, is not the version compiled in; Rust has no older marker |
| `Contracts.EnsureFormatContracts` | src/indexer.rs:1291-1384 | after the loop every marker is this build's, exactly the outdated code formats lost their hashes, and the projection and its identity are withdrawn if any did |
| `Contracts.EnsureRustEditionContext` | src/indexer.rs:1386-1422 | the editions are replaced and the previous ones are returned for comparison |
| `Contracts.InvalidationIsSound` | src/indexer.rs:1291-1384 | a row that kept its hash holds what this build would extract from the same source, even after a version bump of other formats |
| `FirstPartyRows.KeptCodeIsCurrent` | src/indexer.rs:741-758 | a row that passes the keep test equals the freshly extracted row but for its tags and role |
| `FirstPartyRows.IndexCodeFile` | src/indexer.rs:706-796 | one captured file ends with the row a rebuild would give it, or with none; races leave the row alone; an unchanged file keeps its row id |
| `FirstPartyRows.IndexCode` | src/indexer.rs:706-797 | the same for the whole loop, touching no dependency row |
| `FirstPartyRows.IndexDocFile` | src/indexer.rs:803-855 | a document ends with its chunks, role and provenance current, whether kept, re-provenanced or replaced |
| `FirstPartyRows.RefreshFirstParty` | src/indexer.rs:706-885 | after both loops and the deletion of unseen files, the first-party rows are exactly those of the capture |
| `Tagging.OwnsIff` | src/dependency.rs:229-254 | the tagging statement matches a file exactly if the file is the prefix or lies below it and the prefix is ASCII (or the file is the prefix, or the prefix with a slash) |
| `Tagging.MatchesIff` | src/dependency.rs:229-254 | a package matches the files of its own directory if its path is ASCII, has no backslash and is not empty, and besides them those of a directory that its path is misread for |
| `Tagging.NonAsciiPackageIsMissed` | src/dependency.rs:233-254 | a concrete file below a package that the statement does not match |
| `Tagging.RootPackageIsMissed` | src/workspace.rs:407-492 | a package at the repository root contains every file and is given none |
| `Tagging.BackslashPackageIsMissed` | src/dependency.rs:233-254 | a concrete file that is not tagged with its package because of a backslash |
| `Tagging.MisreadPackageClaims` | src/dependency.rs:233-254 | a concrete file that is tagged with a package in another directory |
| `Tagging.SameDepthSameRoot` | src/dependency.rs:225-255 | packages at one depth that contain one file are the same directory, so their order does not matter |
| `Tagging.OwnerPrevails` | src/dependency.rs:224-255 | among all matching packages the deepest one, and of those the one listed last, writes the row last |
| `Tagging.DeepestPackageOwnsIff` | src/dependency.rs:222-255 | a first-party file is tagged with the deepest package containing it if and only if that package is reached by its own path (not the root, ASCII, no backslash) and no misread package overrules it |
| `Tagging.TagDescribesFile` | src/dependency.rs:222-255 | tagging writes origin, package and package path only; an untaken file loses its tags, and if the package that takes a file contains it, the directory of the package followed by the package path is the path of the file |
| `Dependency.TagWorkspaceFiles` | src/dependency.rs:222-255 | running the statements shallow packages first leaves each row with the tags of the last package that matches it |
| `Dependency.RemoveStale` | src/dependency.rs:194-220 | exactly the rows of undesired instances go; all other rows keep everything |
| `Dependency.SynchronizeInstances` | src/dependency.rs:163-270 | exactly the desired instances remain, no first-party row is lost, dependency rows stay or go with their instance; on failure the savepoint is restored |
| `DependencyFiles.IndexDependencyFile` | src/indexer.rs:2216-2268 | one planned dependency file ends with its row from scratch; an unchanged one keeps its row id |
| `DependencyFiles.IndexDependencies` | src/indexer.rs:2183-2297 | the dependency rows are exactly those of the plan and first-party rows are untouched; on failure the savepoint is restored |
| `PackagePlan.ForcedFirst` | src/dependency.rs:336-349 | no source that is not an entry point comes before one that is, entry points and the rest each come in path order, and no source is lost |
| `PackagePlan.KeptIsBounded` | src/dependency.rs:351-376 | the selection respects the limits on count, file size and total size |
| `PackagePlan.NothingIsLost` | src/dependency.rs:351-388 | kept and skipped sources together are the sources of the package, with all their bytes |
| `PackagePlan.LaterSourcesDoNotMatter` | src/dependency.rs:336-376 | the choice among entry points does not depend on the sources behind them |
| `PackagePlan.PlanPackage` | src/dependency.rs:146-388 | the loop computes the greedy selection from that order with its skipped counts; the byte counter overflows exactly if the budget is the largest 64-bit number and the admitted sources sum beyond it |
| `Checker.CarrySource` | src/store.rs:1392-1430 | the batch kept for the watcher is the newest reusable one, or else the newest |
| `Checker.Rebind` | src/store.rs:1433-1590 | the active batch is cloned for the new digest exactly if it is bound to the old one and every item maps to one call site |
| `Checker.Retain` | src/indexer.rs:976-1053 | the answer is exactly what the policy makes of the batches, and whenever no change is reported the projection accepts the same facts as before; manual indexing keeps a batch only if it was proven reusable |
| `Checker.RetainedIsOld` | src/indexer.rs:976-1053 | no policy makes up facts: what is active or carried afterwards was a batch before, and exactly one policy hides a batch for the next enrichment |
| `Checker.CheckerSeesTheSame` | src/indexer.rs:1208-1250 | if the identity function loses nothing, equal checker identities mean the same checked files with the same packages and digest columns |
| `IndexState.HeldRowsAgree` | src/indexer.rs:682-886 | two tables made from one capture agree on every first-party row |
| `IndexState.PublicationUnique` | src/indexer.rs:263-267 | two publications of one capture agree in every row, instance, edge, marker and digest, up to row ids |
| `IndexState.PublishedRowFaithful` | src/indexer.rs:1291-1384 | every published row is what the markers published with it claim |
| `IndexState.PublicationIsConsistent` | src/indexer.rs:639-1143 | whatever was published can be refreshed again, by this build or another |
| `IndexState.EqualRowWasKept` | src/indexer.rs:743-758 | a code file whose digest row did not change was kept in place, not stored anew |
| `IndexState.EqualDigestKeepsViews` | src/indexer.rs:1054-1066 | equal code digests fix everything the projection reads, said of the tables themselves: the same code files with equal data, row ids and columns, the same edges, the same projection version |
| `IndexState.SkipIsSound` | src/indexer.rs:1054-1082 | a projection whose rebuild is skipped equals the rebuilt one |
| `IndexState.SnapshotDeterminesCode` | src/publication.rs:49-62 | one publication snapshot means one set of code files with equal columns, one set of documents with equal contents, one list of edges and one set of compiled-in versions |
| `IndexState.CheckerPublicationIsConsistent` | src/indexer.rs:1060-1066 | activating a checker batch with its rebuilt projection keeps the invariant |
| `Preparing.Prepare` | src/indexer.rs:639-912 | the first stage makes the repository's rows current in either mode and withdraws the published identities, or names the cause of failure |
| `Replacing.SynchronizationKeepsRows` | src/dependency.rs:172-255 | synchronizing instances changes tags only |
| `Replacing.StillUnmoved` | src/indexer.rs:743-758 | rows kept by the loops are still the same rows after instances and dependencies were written |
| `Replacing.ReplaceRows` | src/indexer.rs:929-947 | instances, dependency files and edges complete the canonical rows |
| `Outcomes.SkippedProjectionIsCurrent` | src/indexer.rs:976-1082 | under every checker policy, if the skip test passes then the stored projection is current |
| `Outcomes.PublicationIsDerived` | src/indexer.rs:639-1143 | in a complete publication the edges are resolved from its own code files, the projection is built from all of its code files, edges and accepted facts, and the provenance identity from its own rows |
| `Outcomes.BatchSurvivesIff` | src/indexer.rs:976-1053 | after manual indexing the checker batch is still active exactly if it was found for the previous digest, the inputs, files and resolution of the checker are unchanged, no checked contract is outdated, and the digest is the same or every item maps to one call site |
| `Outcomes.IncrementalRefinesFull` | src/indexer.rs:263-267 | two successful attempts on one capture commit the same rows, edges, markers and identities, whatever their modes and starting states |
| `Indexer.ComputeIdentities` | src/publication.rs:49-62 | the identities are the digests of the current rows and their fold, unless something is too large to count |
| `Indexer.Project` | src/indexer.rs:976-1082 | after checker retention and the skip test the projection is the one a rebuild would give, and the batches are what the policy leaves |
| `Indexer.Publish` | src/indexer.rs:929-1110 | the second stage ends with one complete, self-consistent publication or names the cause of failure |
| `Indexer.Conclude` | src/indexer.rs:1111-1143 | only a stable capture whose stages succeeded is committed; everything else is rolled back |
| `Indexer.Attempt` | src/indexer.rs:526-1146 | a failure at any statement leaves the committed state untouched; success means that no statement failed and commits one complete publication, whose identities can be read and whose projection is built from exactly its own code files, edges and facts |
| `Indexer.IndexRepository` | src/indexer.rs:464-513 | only provenance drift is retried, each time with a new capture, and at most three attempts are made |
| `Indexer.Serve` | src/indexer.rs:464-513 | over any run of invocations by any builds, what is committed is what was there or one complete publication |
| `Indexer.ServeNew` | src/indexer.rs:464-513 | the same from an empty database |
| `VectorIndex.ReadyIsExhaustive` | src/embed.rs:1775-1795 | in every sound state a profile reported ready has exactly one right vector row for each eligible cached chunk |
| `VectorIndex.EnsuredIsSound` | src/embed.rs:1216-1259 | recreating a table withdraws the markers of all profiles that shared it |
| `VectorIndex.PruneIsSound` | src/embed.rs:1405-1443 | dropping ineligible occurrences keeps every marked profile complete |
| `VectorSync.CleanedIsCleaned` | src/embed.rs:1405-1467 | the deletions of a full sync leave no orphaned, mispartitioned or ineligible row of the profile, whatever they began with |
| `VectorSync.GrownIsSound` | src/embed.rs:1595-1634 | materialization leaves nothing missing and disturbs no other profile |
| `VectorSync.RestoredIsAudited` | src/embed.rs:1507-1593 | after a full sync rows and entries of the profile are in one-to-one agreement and their partition keys match |
| `VectorSync.RepairIsExhaustiveIff` | src/embed.rs:1507-1593 | a full sync ends exhaustive if and only if, before it began, every row at an eligible entry with matching keys held the cached embedding |
| `VectorSync.AuditedStill` | src/embed.rs:1523-1590 | auditing one profile leaves another one audited and as exhaustive as it was |
| `VectorConnection.RepairKeepsWrongVector` | src/embed.rs:1507-1593 | a concrete index with one wrong vector is reported ready after a successful repair and still holds it |
| `VectorConnection.Connection.SyncVectorIndex` | src/embed.rs:1507-1593 | from any state the schema admits, a successful sync of one profile ends audited and only then marks it, and is exhaustive exactly on the condition above; failures have a stated cause, and if every row stands at an entry only an unsupported dimension is one |
| `VectorConnection.Connection.SyncVectorIndexes` | src/embed.rs:1507-1593 | the loop over profiles repairs each of them, on the condition that held before the loop, or leaves nothing but tables made anew; it fails exactly on an unsupported dimension or on a foreign row where the next profile needs an entry |
| `VectorConnection.Connection.SynchronizeVectorIndex` | src/embed.rs:1472-1505 | the cheap pass and its fallback keep every state sound; on success the profile is ready, except that a marked profile keeps an obsolete table unless a repair was asked for |
| `VectorConnection.Connection.MaterializeCachedEmbeddings` | src/embed.rs:1672-1702 | indexing-time materialization leaves no listed profile with a missing or ineligible occurrence, keeps every state sound and is undone as a whole on failure |
| `VectorConnection.Connection.DeleteFile` | src/embed.rs:2100-2147 | deleting a file removes its chunks and entries and exactly its rows from the tables of all profiles; a table that was obsolete is made anew; it succeeds exactly if all dimensions are supported |
| `VectorConnection.Connection.ResetSnapshot` | src/embed.rs:2149-2163 | a reset empties every occurrence, keeps the cache and leaves usable markers standing |
| `VectorConnection.RetagKeepsKeysIff` | src/dependency.rs:172-178 | retagging keeps readiness, and keeps partition keys right exactly if the origin is the same or nothing of the file is indexed |
| `VectorConnection.RetagLosesKeys` | src/dependency.rs:172-178 | a concrete audited profile stays ready with a wrong partition key |
| `Embedding.StoreBatch` | src/embed.rs:873-915 | a batch is stored whole or not at all, a new hash gets the vector at its own position, and a stored vector is never replaced |
| `Embedding.EmbedMissing` | src/embed.rs:808-933 | however a run ends it has stored whole requests only, and every vector gained is the one answered for that hash at its position in its request; the missing hashes are listed once each; reused plus missing is what is eligible; each error has its cause; a completed run leaves nothing missing and the profile ready, or with the obsolete table it had |
| `Embedding.CommittedBatchShrinksMissing` | src/embed.rs:840-928 | each committed batch lowers the missing set by exactly its hashes |
| `VectorSearch.CollectsMore` | src/embed.rs:2034-2098 | taking the k nearest of one more partition keeps every row that could still matter |
| `VectorSearch.ExactVectorSearch` | src/embed.rs:2034-2098 | the merged answer is a global top-k of all rows in scope |
| `VectorSearch.ScopeIsEveryMatchingChunk` | src/embed.rs:2019-2098 | for a ready profile with matching keys the scope is every eligible cached chunk of the requested origin, format and path |
| `VectorRuns.Run` | src/embed.rs:808-933 | over any sound database, each operation of a sequence of indexing, embedding, repair, retagging, reset and table-losing operations does what it says or is refused for a stated reason; in every state on the way a profile reported ready is exhaustive, and no cached vector has changed |
| `Decimal.WidthByPowers` | src/compact.rs:447-465 | a counter takes at most d digits exactly if it is below the d-th power of ten |
| `Decimal.WidthIsTextLength` | src/compact.rs:447-465 | the digit count is the length of the decimal text that is written |
| `Decimal.TextRoundTrip` | src/compact.rs:447-465 | the decimal text reads back as the number and has no leading zero |
| `Settle.SettlesWithinTwo` | src/compact.rs:1151-1186 | inside the window every round leads to, two rounds settle a length |
| `Settle.LeastIsLeast` | src/compact.rs:447-465 | the loop from zero ends on the smallest settled length |
| `Settle.SettledTwice` | src/mcp.rs:2065-2074 | a text has a second settled length exactly if the first is a run of nines |
| `Settle.SettleRendered` | src/mcp.rs:2065-2074 | from any start the loop ends within three rounds by confirming a settled length; the code behind the loop is unreachable |
| `Settle.SettledFromIsSettled` | src/mcp.rs:2065-2074 | a settled start is confirmed, and no settled length lies between the start and the length on which the loop ends |
| `Settle.SettleUnbudgeted` | src/mcp.rs:2050-2063 | with both lengths recorded the loop from zero ends on their common true value |
| `Settle.SettleNested` | src/compact.rs:930-948 | the nested loops end by their break with both recorded lengths exact |
| `WhoUses.ReduceTargets` | src/compact.rs:385-412 | the greatest number of targets whose empty envelope fits, or proof that none does |
| `WhoUses.SearchSites` | src/compact.rs:413-435 | the retained prefix fits and the next longer one was shown not to, without assuming monotone sizes |
| `WhoUses.Render` | src/compact.rs:358-444 | everything is returned exactly if it fits; otherwise the response is within the limit, its numbers are true and add up, and the selection is the best that the two searches can reach; of each target in the answer every usage is shown as often as the query found it, or counted as omitted |
| `WhoUses.EligibleListsUsages` | src/compact.rs:366-412 | the sorted and filtered sites are the usages of the kept targets, each as often as its result lists it, and none of another target |
| `WhoUses.RetainedAreTheMostCertain` | src/compact.rs:366-384 | a usage is only left out for usages at least as certain |
| `Definitions.Shorten` | src/compact.rs:600-622 | each cut removes at least the excess and at most three bytes more, unless nothing is left to cut, ends on a code point and keeps the byte account |
| `Definitions.Render` | src/compact.rs:559-626 | everything is returned exactly if it fits; otherwise pruning terminates, states the full length, fits, is a pruning of the input and conserves source bytes, or nothing more could be dropped; a source was cut from a longer prefix that did not fit, by no more than its excess and three bytes |
| `Utf8.Truncate` | src/compact.rs:779-785 | the longest prefix within the maximum that ends between code points |
| `Neighborhood.LargestFittingPrefix` | src/compact.rs:1033-1061 | the found prefix fits and its successor does not or is known to fail; with monotone sizes it is the greatest |
| `Neighborhood.Render` | src/compact.rs:923-1031 | nothing is omitted exactly if the whole neighborhood fits; otherwise the response fits, is accurate and states the full length, and the next longer selection of its kind was seen to fail, or the minimum does not fit |
| `Neighborhood.PrunedIsClosed` | src/compact.rs:1063-1098 | a pruned selection of a closed graph is closed and keeps the anchor |
| `Neighborhood.SelectionKeepsNodes` | src/compact.rs:1063-1098 | an answer with fewer edges keeps exactly the anchor and the ends of its edges; without edges it keeps a prefix of the nodes and the anchor |
| `Neighborhood.EdgesSurviveIff` | src/compact.rs:853-877 | the graph writer drops no edge exactly if every edge has both ends |
| `Neighborhood.NodesSurviveIff` | src/compact.rs:811-852 | the graph writer overwrites no node exactly if keys are unique |
| `Neighborhood.TuplesAreEdges` | src/compact.rs:853-877 | in a closed graph the tuples are the edges in order, each from the id of its source to the id of its target with its own kind |
| `Neighborhood.RenderedIsFaithful` | src/compact.rs:1219-1252 | for closed neighborhoods with unique keys the anchor stays, shown plus omitted nodes and edges are the originals, and each shown tuple is the edge at its place |
| `BoundedArrays.VerdictDependsOnHistoryIff` | src/mcp.rs:2065-2074 | one text can settle on both sides of a limit exactly if the limit is a run of nines |
| `BoundedArrays.MayExceedIff` | src/mcp.rs:2065-2074 | a text has a settled length above the limit exactly if the smallest one is, or is the limit and the limit is a run of nines |
| `BoundedArrays.VerdictOf` | src/mcp.rs:2029-2074 | a probe succeeds exactly if the text can fit and, when it can also fail, the length before the probe was within the limit |
| `BoundedArrays.RefusalsAreRightIff` | src/mcp.rs:1962-2027 | every refused response is too long even without its items if and only if the limit is not a run of nines |
| `BoundedArrays.FittingResponseIsRefused` | src/mcp.rs:1962-2027 | for each limit that is a run of nines, a response that is refused although its emptied text fits |
| `BoundedArrays.RoomyResponseIsRefused` | src/mcp.rs:1993-2027 | a concrete response of eight items is refused at the limit 999 although five of them fit from whatever length they settle |
| `BoundedArrays.RenderingEnds` | src/mcp.rs:1962-2027 | the full text is returned if it fits; otherwise some cut text fits for sure and one is returned with all items accounted for, or the emptied text does not fit, or one just fits a run of nines |
| `BoundedArrays.RenderingCutsInOrder` | src/mcp.rs:1993-2027 | arrays are cut in their listed order: before the array cut last all are empty, behind it all are whole, and one more item of it may exceed the limit |
| `BoundedArrays.TotalOfPrefixes` | src/mcp.rs:2029-2048 | prefixes hold fewer items in total exactly if one of them is proper |
| `BoundedArrays.AfterSearch` | src/mcp.rs:2029-2048 | a searched array leaves prefixes everywhere and retained plus omitted items equal to the original count |
| `BoundedArrays.Response.SearchField` | src/mcp.rs:1993-2019 | at every limit the search over one array ends on a prefix whose text records its own length and whose successor may exceed the limit; if it is too long it is empty and does not fit, or just fits a run of nines |
| `BoundedArrays.Response.Render` | src/mcp.rs:1962-2027 | the loops compute the specified rendering: the full text exactly if it fits, and otherwise a cut text within the limit that records its exact length and accounts for all items, or an error for one of the two reasons above |
| `Ancestry.Suppressed` | src/recon.rs:362-388 | the walk ends on every chain, cyclic or not, and finds a definite ancestor exactly if there is one |
| `Ancestry.CoveredIffNoCycle` | src/recon.rs:362-388 | a topmost definite ancestor exists exactly if no definite ancestor is on a cycle |
| `Recon.SelectCurrent` | src/recon.rs:331-361 | each subject is represented by its newest exact match; selection fails exactly if evidence that is still wanted cannot be read |
| `Recon.LastIsMaximum` | src/recon.rs:389-397 | in ascending order the last entry containing a file is its maximum |
| `Recon.LastWinsProjects` | src/recon.rs:459-487 | last write wins over the sorted entries gives every file its maximum by specificity, depth and id |
| `Recon.SuppressionIsSound` | src/recon.rs:362-388 | a suppressed subject has an active definite ancestor exactly if no definite subject above it is on a cycle |
| `Recon.ReconciledUnique` | src/recon.rs:284-503 | candidates, evidence and roles leave one possible result for both policy tables |
| `Scopes.NestedScopeIsAbove` | src/recon.rs:46-57 | a scope around another one comes out above it exactly if it is one name up, only it is limited to direct files, and its subject is deeper, or as deep with no smaller id; otherwise the inner scope is above |
| `Scopes.SameScopeOrder` | src/recon.rs:389-397 | in one scope the selector of direct files is above the other, and then depth and id decide |
| `Scopes.ProjectIsLeast` | src/recon.rs:46-57 | a project is below every area that names a directory or is limited to direct files |
| `Scopes.NestedScopeDecides` | src/recon.rs:389-487 | if two classifications apply to a file and one scope is inside the other, the outer one does not decide the row of the file, unless the inner scope names the file itself |
| `Scopes.FileScopeMayLose` | src/recon.rs:46-57 | a scope that is the file itself loses to the direct files of its directory if its subject is less deep |
| `Scopes.InactiveIff` | src/recon.rs:362-388 | a current subject is suppressed exactly if a chain of parents leads from it to a likely classification with a deciding role |
| `Scopes.PolicyRowExistsIff` | src/recon.rs:459-487 | a file has a policy row exactly if an active deciding classification has it among its members |
| `Scopes.PolicyRowsAreTrue` | src/recon.rs:459-487 | a policy row names an active deciding classification with its own role and depth, the hash of the file, and the effective role that tests, fixtures and generated files keep |
| `Scopes.CurrentRowsAreTrue` | src/recon.rs:414-458 | exactly the unsuppressed current subjects have a row, with the number of their members and of the members that overrule their role |
| `Recon.Connection.Reconcile` | src/recon.rs:284-503 | the answer follows from which statement fails first, of a number that the input fixes; success commits the one result, failure leaves the committed tables alone; the transaction stays open exactly if COMMIT failed, or a statement and then ROLLBACK |
| `Recon.CommitIsFixed` | src/recon.rs:284-503 | candidates and evidence determine which statement is the COMMIT, in whatever order entries are listed |
| `Recon.Connection.ReconcileAfterIndex` | src/recon.rs:505-522 | after an error the tables are cleared exactly if the two clearing statements succeed, and what is committed is empty then unless the transaction stayed open |
| `Recon.PolicyStaysOpen` | src/recon.rs:486-522 | a concrete fault schedule: COMMIT fails, clearing succeeds, and the old tables stay committed |
| `IndexRun.IndexAndReconcile` | src/indexer.rs:1111-1143 | after a successful invocation the policy tables are reconciled with exactly the committed index, or cleared, or one of two listed failures is named; a run that begins in an open transaction changes nothing |
| `Chunking.CutPoint` | src/chunk.rs:497-518 | a full budget is cut behind its last newline, or else within three bytes of the budget, always on a code point |
| `Chunking.SplitByLines` | src/chunk.rs:493-522 | a span is partitioned into non-empty pieces of at most 4800 bytes on code points; a piece that ends elsewhere holds no newline |
| `Chunking.UnitToChunks` | src/chunk.rs:460-490 | the chunks of a unit partition it, stay within the token limit and state the right lines |
| `Chunking.LineIndex.Line` | src/chunk.rs:50-63 | the line of an offset is one more than the newlines before it |
| `Chunking.MergedHolds` | src/chunk.rs:404-457 | every unit lies inside one merged unit, and named declarations stay as they are |
| `Chunking.MergedIsGrouped` | src/chunk.rs:404-457 | neighbours end in one merged unit exactly as long as they may be joined within the budget, and where a cut lies they may not |
| `Chunking.MergedSymbols` | src/chunk.rs:404-457 | merging keeps every symbol, in order |
| `Chunking.UnitsAreAccounted` | src/chunk.rs:404-490 | no byte of any unit is lost and a declaration that fits is a chunk of its own |
| `Chunking.ChunksAreWellFormed` | src/chunk.rs:404-490 | every chunk is within the token limit and states its content and lines truly |
| `Chunking.MergeUnits` | src/chunk.rs:404-457 | the accumulator loop computes the merged units; chunking accounts for every unit and every symbol and yields well-formed chunks only |

## Left out

- Indexer.Attempt: does not model the outcome counters and rejection reports, the documentation inventory and blame cache, the vector and documentation-retrieval rows written inside the transaction (each is a statement that may fail), or the savepoint of the edge resolver.
- IndexState.PublicationUnique: says nothing about row ids and checker batches, which two runs may well assign differently.
- FirstPartyRows.IndexCodeFile: does not model paths with backslashes, which the edition lookup normalizes on other platforms.
- Tables.ResolutionStreamInjective: does not tell NULL from the empty text in edge columns, because the code writes both as empty text.
- Tables.ContextStreamInjective: does not model the component-wise order of paths that the program hashes in; it uses byte order, and any fixed order serves.
- DependencyFiles.IndexDependencies: does not model two package roots whose hashes agree in eight hexadecimal digits; display paths are assumed to tell roots apart.
- Tables.ProjectionShows: counts Rust files among those that a projection shows, although the structural projection reads JavaScript and TypeScript only; a projection may ignore any of its arguments.
- IndexState.SkipIsSound: does not model a projection that reads the canonical root of a package; the code reads it only through module edges.
- Dependency.SynchronizeInstances: keys instances by canonical root, which is unique in the schema, instead of by row id.
- PackagePlan.PlanPackage: does not model reading the manifest, entry-point discovery and directory walking.
- Checker.Rebind: does not model the items of a batch one by one; whether all of them map is one answer of the world.
- Recon.CurrentRowFor: does not model the explanatory columns and JSON counts of the current classifications.
- Embedding.StoreBatch: does not model that a failed COMMIT leaves its transaction open on the connection; the database is taken as others see it.
- Chunking.SplitByLines: does not model the 32-bit wrap of an offset within 4800 bytes of 4 GiB.
- Chunking.UnitsAreAccounted: says nothing about how units come out of a syntax tree, or about leading comments.
- WhoUses.RetainedAreTheMostCertain: leaves out the tie-breaks behind confidence and target, which no budget property depends on.
- VectorSearch.ExactVectorSearch: expects the origin and format lists to be free of duplicates, as the code does.
- VectorConnection.Connection.SyncVectorIndex: does not model statements that fail for reasons of their own, only those that the stored rows cause; every failure restores the savepoint.
- VectorSearch.ExactVectorSearch: requires a row to have an entry inside the partition query even without a path filter, where the code joins after taking the k nearest; for a ready profile every row has one.
- Tagging.DeepestPackageOwnsIff: does not model platforms whose path separator is a backslash, or paths that are not UTF-8.
- Recon.Connection.Reconcile: takes a failed COMMIT to keep its transaction; SQLite itself may roll back after some errors, such as a full disk.
- IndexRun.IndexAndReconcile: does not model classifications that are deleted with their scout run; what reconciliation reads is an arbitrary function of the committed index.
- Semantic vector search filters after taking the k nearest, so no exactness is claimed for it and it is not modelled.
- SQLite, FTS5 and sqlite-vec internals: tables are maps, a transaction is a snapshot, a statement fails or not.
- Extraction, projection, resolution and Git blame: deterministic functions or captured answers of the world.
- The MCP protocol, command line, configuration, progress output and provider HTTP code: they carry no state of these components.

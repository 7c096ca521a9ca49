# Verification of the repository chat agent

A Dafny model of the parts of this system whose correctness does not show in any one function, with
proofs about them:

- **the incremental indexer**: the repository job, the graph, vector, manifest and job stores it
  drives, its locks and claims, over whole histories of completed, failed and interrupted jobs, of
  several repositories at the same time;
- **extraction and resolution**: the syntax-tree visitor, local and repository-wide reference
  resolution, relative imports;
- **shared state under concurrency**: the Redis optimistic loops of the job store and of the
  conversation memory, and the interleavings of index requests;
- **orchestration**: plan execution, the response cache, conversation memory;
- **two kernels**: answer chunking and reciprocal rank fusion.

Each store is a class whose methods are proved against functions on values; the job, the visitor and
the passes are methods with the loops of the program, proved against a specification of the same
calls; the results are lemmas about the specifications.  `dafny verify dfyconfig.toml` checks
everything.

## How to read it

| files | subject |
|---|---|
| `Contracts`, `IndexStores`, `IndexJobs` | records; the effect of each store call; the calls of one job as a function of the state |
| `GraphRepository`, `IndexerStores`, `IndexerService` | the stores and the service as classes, every call possibly raising before or after its effect |
| `GraphInvariants`, `JobInvariants`, `PinnedRevisions`, `CompletedJobs`, `ExactIndex`, `IncrementalRefinesFull`, `JobHistories` | the invariant at every cut of a job, what completed jobs leave, incremental equals full, the main theorem `IndexAfterAnyHistory` |
| `ExactDocuments`, `ExactEdges`, `CompletedEdges`, `LatestRevisions`, `RemovedFiles`, `RevisionSnapshots` | the documents, edges, symbols, latest revisions and snapshots a job leaves, and what it takes away |
| `PreservedHistory`, `RenameMatching`, `JobTotals` | other revisions untouched, rename detection, the totals of a completed job |
| `JobAccounting`, `JobLives` | the job record at every call, and from its creation to its end through errors, locks, crashes and restarts |
| `JobSteps` | the task of a job as it decides each read and call from the stores as they are |
| `RepositoryFrames`, `OwnRelationships`, `ConcurrentJobs` | jobs of different repositories interleaved read by read and call by call |
| `IndexLimits`, `FailingInputs` | where a promise fails, exactly when it holds, and inputs on which it fails |
| `OptimisticTransactions`, `RedisJobStore`, `Conversations`, `Coordination` | concurrency as state machines over explicit steps |
| `DottedNames`, `AstParser`, `ExtractionTree`, `ExtractionComplete` | names, the visitor, what it emits: a tree, and of every node of the syntax tree exactly what it stands for |
| `Resolution`, `ResolutionProperties`, `ReferenceTargets`, `ImportBindings` | the two resolution passes, their properties, where each reference goes, and what each import binds |
| `PlanExecution`, `QueryTexts`, `ResponseCaching`, `AnswerChunks`, `RankFusion` | orchestration and the kernels |

Terms used throughout:

- An `Op` is one call on a store; `Run` applies calls in order; `JobOps` is every call of a repository
  job when none raises.  A job one of whose calls raises performs a prefix.
- A file is *torn* when a job stopped between its graph call and its manifest call and no job has
  written the file to its manifest since (`TornBy`); it is *broken* when its manifest no longer tells
  the truth about the graph (`Broken`).  Only torn files can be broken, and not all are.
- A job *skips* a file whose manifest has its hash and the present analysis version (`Skips`).
- `Content` says which files, with which hashes, a revision of a repository names; a history is
  *possible* when every job indexes the files its revision names.
- An `Analyzer` gives the parse and the document texts of a (path, hash); `ParserIsAValidAnalyzer`
  shows the parser of this project is one.

Hypotheses the program needs, and where they appear: a revision names the same files whenever it is
indexed (`PossibleHistory`; without it `RewrittenExactly`); the job skips no broken file (`SkipsWhole`;
without it `SkippedHoldsExactly`, `TornFileLosesEntities`; files it writes may be broken and are healed);
vectors are complete for every file of at most 1,000 chunks (`Fits`; without it
`CarriedWholeExactly`); relationships stay within their repository (`FilesWithin`, proved of the parser
and the resolver by `ParsedWithin` and `ResolvedWithin`); no process starts beside a running task
(`JobLives.Alone`; without it `EndedStaysExactly`, `RestartIsUndone`); digests are injective
(identities are the digested tuples) and no two revisions share a node
(`RevisionNodesCollideExactly` says when they would).

Findings, each with its exact condition:

- a file with more than 1,000 chunks loses the rest when its vectors are carried (`CarriedWholeExactly`, `OnePointIsLost`);
- a new analysis version re-writes the graph of an unchanged file but copies its old documents (`EmbeddedExactly`, `OldDocumentStays`);
- a file torn by an interrupted job can be skipped later although the graph lost it (`SkippedHoldsExactly`, `TornFileLosesEntities`);
- re-indexing a revision with other content removes nothing stale (`RewrittenExactly`, `StaleEntityStays`);
- the snapshot of a revision without files is silently lost (`SnapshotExactly`, `EmptySnapshotIsLost`);
- a process that starts beside a running task fails its job, and the task then reopens and ends it (`EndedStaysExactly`, `RestartIsUndone`);
- revision nodes of two repositories coincide when one id extends the other at a colon (`RevisionNodesCollideExactly`);
- a blank docstring stops the parser with an IndexError, and with it the whole job (`ParseRaisesExactly`);
- Redis drops the deleted and renamed counts, which are not fields of the job record (`RedisRefinesMemory`, `CountsAreDropped`);
- the cache guard folds case where the analysis lowers it, so a query can be cached although its analysis depends on the conversation (`GuardSoundExactly`, `GuardMissesAReference`);
- an answer chunk can be one character longer than the maximum (`WithinMaximumExactly`, `MaximumIsExceeded`);
- `from m import x`, without dots and without an alias, binds the first part of `m` to itself instead of `x`, so a call of `x` can stay open although the import names its target (`BindsAsPythonExactly`, `ImportIsPassedOver`);
- relative imports beyond the top package are taken from the top instead of failing (`LevelBeyondPackage`; up to it `RelativeImportRoundTrip`).

## Model

| member | source | states |
|---|---|---|
| JobHistories.IndexAfterAnyHistory | src/repo_chat/indexing/service.py:212-419 | main theorem: after any history of jobs over pinned revisions, completed, failed or cut anywhere, the next job that completes leaves at its revision exactly its files' entities and documents of its files only, all of them for every file of one page, provided no file it skips is broken; and an incremental job leaves graph, vectors and manifests as the full job would |
| IncrementalRefinesFull.IncrementalIsFull | src/repo_chat/indexing/service.py:264-344 | on any state satisfying the invariant in which no file the job skips is torn, an incremental job and a full job over the same files leave the same graph (nodes, edges, symbols, revisions, snapshots), vectors and manifests |
| IncrementalRefinesFull.FinalBatchDecides | src/repo_chat/indexing/service.py:345 | two graphs that differ only in edges and symbols the final relationships decide are equal after the final batch: why skipping a file's own relationship write loses no edge |
| IncrementalRefinesFull.FileInStep | src/repo_chat/indexing/service.py:256-344 | one file handled by an incremental and by a full job keeps the two runs equal up to the edges of the final batch, torn or not unless it is skipped |
| IncrementalRefinesFull.SkipVectorsLikeWrite | src/repo_chat/indexing/service.py:277-294 | the skip path with its second backfill and the write path leave the same vectors |
| GraphInvariants.CarryIsWriteExactly | src/repo_chat/graph/repository.py:64-99 | carry_forward_file leaves exactly the nodes write_parsed_file would if and only if every entity of the parse is stored with that parse's row at the source revision |
| GraphInvariants.WriteKeeps | src/repo_chat/graph/repository.py:171-251 | writing a file keeps the graph sound, makes the file hold at its revision, and breaks no other file's manifest |
| GraphInvariants.CarryKeeps | src/repo_chat/graph/repository.py:64-99 | carrying a file keeps soundness and every manifest's truth |
| GraphInvariants.RemoveKeeps | src/repo_chat/graph/repository.py:101-129 | removing a file keeps soundness: every remaining entity has a revision and its latest revision is one of them |
| JobInvariants.JobKeepsThroughout | src/repo_chat/indexing/service.py:226-419 | wherever a job of either mode is cut, every node is a row of some parse with its latest revision among its revisions, and every manifest tells the truth except for files torn before and not written since, and at most the one whose write was unfinished |
| JobInvariants.FilePrefixKeeps | src/repo_chat/indexing/service.py:256-344 | cutting one file's calls anywhere tears at most that file, and only between its graph call and its manifest |
| JobInvariants.CarriedHolds | src/repo_chat/indexing/service.py:264-303 | an incremental skip of an untorn file leaves the graph holding the parse at the target revision, and equal to a write |
| JobHistories.CompletedGraphIsExact | src/repo_chat/indexing/service.py:226-402 | a completed job leaves at its revision exactly the entities of its files, row for row, in both directions |
| LatestRevisions.LatestIsIndexed | src/repo_chat/graph/repository.py:64-99 | after a completed job the latest revision of every entity of its files is the job's, whether the file was written or carried |
| JobHistories.CompletedVectorsAreExact | src/repo_chat/semantic/store.py:155-204 | a completed job leaves at its revision documents of its files only, and all of those of each file that has no more than one page of chunks, whatever other files have |
| ExactDocuments.DocumentsAreExact | src/repo_chat/semantic/store.py:252-276 | after a completed job, for each of its files of at most 1,000 classes, functions and methods: the point of an entity is stored at the job's revision if and only if the parse has it and it is a class, a function or a method; its document is its last such row with that row's text; and there are as many points of the file as such entities |
| ExactDocuments.DocumentsAfterAnyHistory | src/repo_chat/indexing/service.py:212-419 | the same after any history of jobs, completed, failed or cut anywhere |
| JobHistories.ManifestsExact | src/repo_chat/indexing/service.py:295-303 | after a completed job the repository's manifests name exactly its files, with their hashes, at its revision |
| JobHistories.HistoryKeeps | src/repo_chat/indexing/service.py:212-419 | every history keeps the invariant up to the files left torn, which every write heals and among which are all broken ones, stores only what its revisions name, and keeps each file's vectors complete or absent |
| CompletedEdges.FinalRowsAreEdges | src/repo_chat/indexing/service.py:345-402 | after a job that was not cut every final relationship whose ends are still stored is an edge with the properties of its last row; the cleanup removes edges of deleted entities only |
| ExactEdges.EdgesExactly | src/repo_chat/graph/repository.py:290-331 | after a job's final batch, on any graph: an edge is there if and only if a relationship of a file that parses joins its stored ends, or it was there before the job and does not run to an external symbol from the source, kind, file and line of a relationship resolved now; the last relationship for it gives its properties, an edge from before keeps its own |
| ExactEdges.SymbolsAfter | src/repo_chat/graph/repository.py:268-287 | the external symbols are those from before and the targets of open relationships |
| ExactEdges.CleanupTakesEdgesOfDeleted | src/repo_chat/graph/repository.py:101-129 | the cleanup takes away exactly the edges of the entities it deletes |
| RemovedFiles.RemovedAreCleared | src/repo_chat/indexing/service.py:353-368 | on any stores, a completed job leaves at its revision no entity and, with a semantic store, no vector of a path that had a manifest and is not among its files |
| RemovedFiles.FailedJobRemovesNothing | src/repo_chat/indexing/service.py:346-352 | a job with a file that does not parse takes no membership and no other path's manifest away |
| RevisionSnapshots.SnapshotExactly | src/repo_chat/graph/repository.py:131-168 | a completed job records the snapshot of its revision, with its provenance, if and only if it had a file or the revision had a node before; every other snapshot stays |
| CompletedJobs.FileOutcome | src/repo_chat/indexing/service.py:256-344 | a file either fails, leaving only the failure count, or ends with a manifest of its hash at the job's revision |
| CompletedJobs.LoopOutcome | src/repo_chat/indexing/service.py:256-344 | unless some file failed, the loop records every file and touches no other path's manifest |
| CompletedJobs.LoopHeals | src/repo_chat/indexing/service.py:314-336 | without failures the loop of a job of either mode repairs every torn file it writes |
| CompletedJobs.CleanupOutcome | src/repo_chat/indexing/service.py:353-368 | the cleanup deletes the manifests of exactly the removed paths |
| PinnedRevisions.JobStoresNothingForeign | src/repo_chat/indexing/service.py:212-419 | at every cut of a job only entities, vectors and manifests of the named files are stored |
| PinnedRevisions.CarryCompletes | src/repo_chat/semantic/store.py:175-204 | carrying a complete file of at most a page completes it at the target; carrying nothing changes nothing |
| PinnedRevisions.UpsertCompletes | src/repo_chat/semantic/store.py:155-173 | indexing a file's documents completes it and leaves every other file's points alone |
| PinnedRevisions.CallKeepsAllOrNothing | src/repo_chat/semantic/store.py:155-212 | every call keeps each file's vectors complete or absent |
| ExactIndex.FileVectorsComplete | src/repo_chat/indexing/service.py:277-326 | after either path for a file its vectors at the job's revision are complete, backfill included |
| ExactIndex.LoopVectorsComplete | src/repo_chat/indexing/service.py:256-344 | after a loop without failures every file's vectors are complete, and later files do not undo it |
| PreservedHistory.HistoryIsPreserved | src/repo_chat/indexing/service.py:212-419 | at every cut of any job, failing ones included, memberships and vectors of every other revision and repository, and other repositories' manifests, are as before |
| PreservedHistory.RemoveTouchesTarget | src/repo_chat/graph/repository.py:101-129 | removing a file, even deleting entities, changes memberships of the one revision only |
| JobAccounting.AccountingAlways | src/repo_chat/indexing/service.py:226-402 | while no call raises: after every call processed = skipped + failed + written for the leading files handled and processed is at most discovered; pending only before the first call, ended exactly after the last, then with every file processed, failed exactly if a file failed |
| JobAccounting.LoopProgress | src/repo_chat/indexing/service.py:304-343 | wherever the loop is cut the record accounts for a number of leading files |
| JobTotals.CompletedRecord | src/repo_chat/indexing/service.py:226-402 | the whole record of a completed job from its files and the stores before it: every file processed; skipped, an incremental job's files with an unchanged hash and analysis version 2; entities and relationships, those of the files written; chunks, of unchanged content those carried, up to 1,000, and otherwise the classes, functions and methods; deleted and renamed, the removed paths apart |
| JobLives.AccountsAllItsLife | src/repo_chat/indexing/service.py:212-434 | in every state of a job, through a held lock, errors, crashes and restarts, even restarts beside its running task, the record accounts for a number of leading files, processed is at most discovered, and completed means every call made, every file processed and none failed |
| JobLives.StatusInOrder | src/repo_chat/indexing/service.py:218-230 | unless a process starts beside a running task, the status only goes from pending to running to one terminal status, or from pending to failed, and a record that has ended never changes again |
| JobLives.EndedStaysExactly | src/repo_chat/indexing/service.py:427-434 | a record that has ended stays as it is if and only if its task is over; a task still running then has had a process start beside it |
| JobLives.RestartIsUndone | src/repo_chat/indexing/service.py:427-434 | in every job: a process that starts after its first call fails it, and its task, which goes on, ends it with the status its calls give |
| JobLives.TaskIsALife | src/repo_chat/indexing/service.py:212-419 | what the service's task does to its record is one of these lives, with no restart in it |
| JobLives.TaskAccounts | src/repo_chat/indexing/service.py:403-419 | the record the task leaves, by its last call, an error or the held lock, has ended and accounts for the job; completed only if every call was made |
| JobLives.ActiveThroughLife | src/repo_chat/indexing/redis_job_store.py:49-65 | the commands of such a life, with reads, expiry and the clearing of expired ids in between, keep the active list exact: a stored job is listed if and only if it has not ended |
| JobSteps.NextIsPlanned | src/repo_chat/indexing/service.py:226-402 | the read or call a task decides next from the stores as they are (the manifest of the file, the carried count, the failure count) is the next of what it would do if nobody else touched them |
| JobSteps.RestIsThePlan | src/repo_chat/indexing/service.py:226-402 | and the whole of what it would do is JobOps |
| ConcurrentJobs.InterleavingsAreHistories | src/repo_chat/indexing/service.py:212-419 | however the reads and calls of jobs of different repositories interleave, each deciding from the shared stores as it finds them, each repository's part of every store is what its own jobs, one at a time, would have left, and each job has made, and has left, the calls it would make alone |
| ConcurrentJobs.IndexAmongOthers | src/repo_chat/indexing/service.py:212-419 | the main theorem for a job that ends among interleaved jobs of other repositories: exact graph and vectors at its revision when it completes, and an incremental job leaves its repository's part of every store as the full job would |
| ConcurrentJobs.MoveSame | src/repo_chat/indexing/service.py:226-402 | what a task reads and calls next is a function of its repository's part of the stores |
| ConcurrentJobs.NoneWaits | src/repo_chat/indexing/service.py:226-402 | a job under way can always go on, whatever other repositories' jobs do |
| ConcurrentJobs.JobSame | src/repo_chat/indexing/service.py:226-402 | the calls a job makes are a function of its repository's part of the stores |
| RepositoryFrames.CallOutside | src/repo_chat/graph/repository.py:64-331 | a call for one repository changes nothing of another: nodes, edges, symbols, revisions, snapshots, vectors and manifests |
| RepositoryFrames.CallInside | src/repo_chat/graph/repository.py:64-331 | a call for a repository does the same to stores that agree on that repository |
| OwnRelationships.ParsedWithin | src/repo_chat/indexing/ast_parser.py:134-200 | both ends of every relationship the parser emits are in the file's repository |
| OwnRelationships.ResolvedWithin | src/repo_chat/graph/resolution.py:80-133 | the repository-wide resolution keeps both ends of every relationship in the repository |
| RenameMatching.RenamesAreAMaximumMatching | src/repo_chat/indexing/service.py:250-263 | the detected renames pair distinct removed paths with distinct new files of equal hash, no pairing is larger, and deleted plus renamed is the number of removed paths |
| RenameMatching.RenamesPerHash | src/repo_chat/indexing/service.py:250-263 | per hash the number of renames is the smaller of the removed and the new files with it |
| IndexLimits.CarriedWholeExactly | src/repo_chat/semantic/store.py:184-204 | vectors arrive whole at an empty target if and only if they fit one page of 1,000; otherwise exactly a page arrives |
| IndexLimits.EmbeddedExactly | src/repo_chat/indexing/service.py:277-326 | a file of one page that the revision does not have yet ends up stored there with the current analyzer's documents if and only if its content changed, or the manifest's revision has none of it, or has exactly the current ones: an analysis-version change makes no difference |
| IndexLimits.StoredAfter | src/repo_chat/indexing/service.py:277-326 | what is stored of a file after its calls, for any number of points and any earlier contents: the current documents, or those there overlaid with the page carried |
| FailingInputs.OnePointIsLost | src/repo_chat/semantic/store.py:184-204 | of a file with 1,001 points 1,000 arrive |
| FailingInputs.OldDocumentStays | src/repo_chat/indexing/service.py:314-326 | a file of an older analysis version with a differing old document: its graph is re-written, the old document is what the new revision gets |
| FailingInputs.StaleEntityStays | src/repo_chat/indexing/service.py:314-336 | a revision indexed twice with different content keeps the entity of the first |
| FailingInputs.EmptySnapshotIsLost | src/repo_chat/graph/repository.py:147-150 | the first job over a repository without files completes and records no snapshot |
| IndexLimits.SkippedHoldsExactly | src/repo_chat/indexing/service.py:264-276 | after a skip the target revision holds the file if and only if every entity of the parse was still stored with its row at the source or the target |
| IndexLimits.TornFileLosesEntities | src/repo_chat/indexing/service.py:314-336 | every job interrupted between the graph write and the manifest, followed by an incremental job over the old content, loses the entities both contents share while recording the file |
| IndexLimits.RewrittenExactly | src/repo_chat/graph/repository.py:227-243 | writing a file leaves its revision with exactly its entities if and only if the revision had no others of that path |
| IndexLimits.RevisionNodesCollideExactly | src/repo_chat/graph/repository.py:74-75 | two revisions share a node id if and only if they are equal or one repository id extends the other at a colon accordingly |
| IndexLimits.RevisionNodesCollide | src/repo_chat/graph/repository.py:74-75 | two distinct revisions with the same node id |
| IndexerServices.RenameCount | src/repo_chat/indexing/service.py:250-263 | the counts do not depend on the order in which the set of removed paths is enumerated |
| IndexerServices.IndexerService.RunRepositoryJob | src/repo_chat/indexing/service.py:212-419 | a job without the lock fails and touches nothing else; one with it makes all calls of JobOps, or, when something raises, a proper prefix of them and then fails with the error; the locks end as they were and no other job's record changes |
| IndexerServices.IndexerService.IndexUnderLock | src/repo_chat/indexing/service.py:226-402 | the try block: stage by stage the stores are those after a prefix of JobOps, the whole of it when nothing raised, and otherwise without its last call |
| IndexerServices.IndexerService.IndexOrFail | src/repo_chat/indexing/service.py:403-415 | something raising before the last call, the first update included, turns the job into a failed one with the error's message and leaves the stores where they were |
| IndexerServices.IndexerService.IndexFiles | src/repo_chat/indexing/service.py:256-344 | the loop over the files makes the calls of LoopOps and takes rename candidates against the manifests the job started from |
| IndexerServices.IndexerService.FindRemoved | src/repo_chat/indexing/service.py:247-254 | the removed paths and removed_by_hash |
| IndexerServices.IndexerService.ProcessFile | src/repo_chat/indexing/service.py:256-344 | one file: skip, fail or write, as its manifest, hash and parse decide |
| IndexerServices.IndexerService.SkipFile | src/repo_chat/indexing/service.py:264-310 | an unchanged file: carry the graph, carry or backfill the vectors, manifest, progress |
| IndexerServices.IndexerService.WriteOneFile | src/repo_chat/indexing/service.py:314-343 | a changed file: write the graph, carry or index the vectors, manifest, progress |
| IndexerServices.IndexerService.CollectByHash | src/repo_chat/indexing/service.py:251-254 | removed_by_hash |
| IndexerServices.IndexerService.Finish | src/repo_chat/indexing/service.py:346-402 | fail the job, or clean up, count and complete it |
| IndexerServices.IndexerService.CleanUp | src/repo_chat/indexing/service.py:354-368 | the removed paths' graph, vector and manifest calls |
| IndexerServices.IndexerService.IndexRepository | src/repo_chat/indexing/service.py:158-193 | the request that wins its claim creates one pending job and starts a task; any other returns the claimed job, or raises when it is not registered |
| IndexerServices.IndexerService.EnsureJobStoreReady | src/repo_chat/indexing/service.py:427-434 | jobs left by a previous process are failed once |
| IndexerServices.IndexerService.GetIndexStatus | src/repo_chat/indexing/service.py:195-204 | the job, or an error for an unknown id |
| GraphRepositories.GraphRepository.WriteParsedFile | src/repo_chat/graph/repository.py:171-214 | entities batch by batch per kind, symbols, then relationships per kind leave what one write of all rows in order leaves, or nothing if the transaction did not commit |
| GraphRepositories.GraphRepository.WriteEntityBatch | src/repo_chat/graph/repository.py:217-251 | the last row for an id wins, and memberships gain the revision |
| GraphRepositories.GraphRepository.WriteRelationshipRows | src/repo_chat/graph/repository.py:202-214 | grouping by kind changes nothing: the edges are those of all rows at once |
| GraphRepositories.GraphRepository.WriteExternalSymbols | src/repo_chat/graph/repository.py:268-287 | every unresolved target becomes a symbol |
| GraphRepositories.GraphRepository.WriteRelationshipBatch | src/repo_chat/graph/repository.py:290-331 | the edges to external symbols from the source, kind, file and line of a resolved row go, and no others; rows with both ends stored are merged, the last for an edge winning |
| GraphRepositories.GraphRepository.WriteRepositoryRelationships | src/repo_chat/graph/repository.py:35-62 | filters the files with a fatal issue and writes the relationships of the others in one transaction |
| GraphRepositories.GraphRepository.CarryForwardFile | src/repo_chat/graph/repository.py:64-99 | the target revision gets a node, and exactly the matched entities join it |
| GraphRepositories.GraphRepository.RemoveFileFromRevision | src/repo_chat/graph/repository.py:101-129 | memberships go, orphans go with their edges, others get a latest revision they still have |
| GraphRepositories.GraphRepository.RecordRevisionSnapshot | src/repo_chat/graph/repository.py:131-168 | the provenance of a revision with a node is recorded; of one without nothing is |
| GraphRepositories.GroupBy | src/repo_chat/graph/repository.py:189-191 | a dictionary of lists filled in one pass holds each key's items in order |
| IndexerStores.QdrantSemanticStore.IndexFile | src/repo_chat/semantic/store.py:155-173 | the file's points are replaced by its documents'; a raise leaves the points before, after the delete, or after the upsert |
| IndexerStores.QdrantSemanticStore.CarryForwardFile | src/repo_chat/semantic/store.py:175-204 | one page of the file's points again under the target revision, counted |
| IndexerStores.QdrantSemanticStore.DeleteFile | src/repo_chat/semantic/store.py:206-212 | the file's points at the revision go |
| IndexerStores.CopyPage | src/repo_chat/semantic/store.py:191-203 | each point of the page is copied with the target's key |
| IndexerStores.InMemoryIndexManifestStore.Get | src/repo_chat/indexing/manifest.py:38-41 | the path's manifest or none |
| IndexerStores.InMemoryIndexManifestStore.Put | src/repo_chat/indexing/manifest.py:43-45 | replaces one path's manifest |
| IndexerStores.InMemoryIndexManifestStore.List | src/repo_chat/indexing/manifest.py:47-53 | the repository's manifests by path |
| IndexerStores.InMemoryIndexManifestStore.Delete | src/repo_chat/indexing/manifest.py:55-57 | removes one path's manifest |
| IndexerStores.InMemoryIndexJobStore.Create | src/repo_chat/indexing/job_store.py:31-34 | the job is stored under its id |
| IndexerStores.InMemoryIndexJobStore.Get | src/repo_chat/indexing/job_store.py:36-39 | the job or none |
| IndexerStores.InMemoryIndexJobStore.Update | src/repo_chat/indexing/job_store.py:41-56 | the change or increments on one job; an unknown one is an error |
| IndexerStores.InMemoryIndexJobStore.FailInterrupted | src/repo_chat/indexing/job_store.py:58-71 | exactly the unfinished jobs fail, and are counted |
| IndexerStores.InterruptedExactly | src/repo_chat/indexing/job_store.py:58-71 | a pending or running job fails with the reason; one that has ended stays as it is |
| IndexerStores.InMemoryIndexCoordination.ClaimIdempotency | src/repo_chat/indexing/coordination.py:21-23 | the first claim of an identity stays |
| IndexerStores.InMemoryIndexCoordination.AcquireRepositoryLock | src/repo_chat/indexing/coordination.py:25-30 | a lock is taken if and only if it is free |
| IndexerStores.InMemoryIndexCoordination.ReleaseRepositoryLock | src/repo_chat/indexing/coordination.py:32-35 | only the matching token releases |
| OptimisticTransactions.CommitsRunOneAtATime | src/repo_chat/indexing/redis_job_store.py:67-99 | for every interleaving of WATCH/GET/MULTI/EXEC loops, spurious aborts and commands beside the watched key allowed, the stored values are those of the committed operations one at a time in commit order, each commit appears once, and each caller got what its own commit left |
| OptimisticTransactions.AbortHasCause | src/repo_chat/indexing/redis_job_store.py:98-99 | an attempt that is not aborted spuriously failed because others touched the watched key itself since its WATCH |
| OptimisticTransactions.FailuresBounded | src/repo_chat/indexing/redis_job_store.py:76-99 | a client fails no more often than the watched key was touched |
| RedisIndexJobStores.RedisRefinesMemory | src/repo_chat/indexing/redis_job_store.py:67-99 | the stored job is the in-memory store's after the same calls in commit order, and identical exactly when the two counts JSON drops are zero |
| RedisIndexJobStores.NoLostIncrements | src/repo_chat/indexing/redis_job_store.py:46-99 | all six counters equal the sums of the committed increments |
| RedisIndexJobStores.ActiveNeverTerminal | src/repo_chat/indexing/redis_job_store.py:92-95 | a job listed as active and still present has not ended |
| RedisIndexJobStores.ActiveExactly | src/repo_chat/indexing/redis_job_store.py:49-65 | for any log that keeps to a job's life a stored job is listed if and only if it has not ended, so a restart finds precisely those; `JobLives.ActiveThroughLife` shows the service's logs do |
| RedisIndexJobStores.CountsAreDropped | src/repo_chat/indexing/service.py:369-373 | a concrete run whose deleted and renamed counts Redis loses |
| Coordination.JobsExcludeEachOther | src/repo_chat/indexing/service.py:169-193 | over every interleaving without expiry: one job and task per identity, every caller that returns has its id, one running job per repository, a locked-out job writes nothing, and jobs of a repository write one after the other |
| Coordination.FreeWhenNoneRuns | src/repo_chat/indexing/coordination.py:61-81 | a repository is locked if and only if one of its jobs is running |
| Coordination.FollowersEnd | src/repo_chat/indexing/service.py:174-179 | a request that lost the claim returns when the job is registered and raises after twenty looks |
| Coordination.StoreStaysSound | src/repo_chat/indexing/service.py:214-225 | a write by a running job keeps the writes of each repository serial |
| Conversations.MemoryIsOfTheHistory | src/repo_chat/orchestration/memory.py:55-93 | after any appends the context is a function of the whole history: the last N turns, the last twenty names by last mention without duplicates, the last non-empty repository and revision |
| Conversations.MentionKeepsSuffix | src/repo_chat/orchestration/memory.py:76-81 | trimming to twenty never loses a name that matters later |
| Conversations.RecentSnoc | src/repo_chat/orchestration/memory.py:76-81 | one more mention moves the name to the end of the recency list |
| Conversations.InMemoryConversationMemory.AppendTurn | src/repo_chat/orchestration/memory.py:55-93 | appends to the one session, trimmed, others unchanged |
| Conversations.InMemoryConversationMemory.GetContext | src/repo_chat/orchestration/memory.py:44-53 | reading changes no context |
| Conversations.RedisMemoryIsOfTheHistory | src/repo_chat/orchestration/redis_memory.py:62-86 | under concurrent appenders the stored context is that same function of all committed appends in commit order |
| DottedNames.RelativeImportRoundTrip | src/repo_chat/graph/resolution.py:157-164 | for every level the package allows, encoding a from-import in its name and decoding it gives the package with level-1 parts dropped, then module, then name (section 5.7 of The Python Language Reference) |
| DottedNames.AbsoluteImportUnchanged | src/repo_chat/graph/resolution.py:158-160 | level zero leaves the name as it is |
| DottedNames.LevelBeyondPackage | src/repo_chat/graph/resolution.py:163 | at every level beyond the package, for a package or a top-level file, with or without a module, for a name or a star, the import is taken from the top |
| DottedNames.SplitJoin | src/repo_chat/graph/resolution.py:162-164 | splitting a joined name gives its parts back |
| DottedNames.ParentOf | src/repo_chat/graph/resolution.py:141 | rpartition takes the last part off a module's name |
| DottedNames.BeforeExactly | src/repo_chat/graph/resolution.py:173 | the module is read off an import's qualified name if and only if the marker does not begin inside it |
| ExtractionTree.ModuleImportsResolve | src/repo_chat/graph/resolution.py:167-181 | a from-import parsed at the top of a module is looked up under its absolute name |
| ExtractionTree.ExtractionIsATree | src/repo_chat/indexing/ast_parser.py:91-118 | for every tree, each entity but the file has exactly one incoming structural edge, in order, from an entity emitted before; METHOD exactly in a class scope; qualified names extend the parent's; every other edge is an open reference from a class, function or method |
| ExtractionCompleteness.ExtractionIsComplete | src/repo_chat/indexing/ast_parser.py:91-413 | for every tree, kind by kind and in order, exactly the entities and rows its nodes stand for: a class, function or method per definition at any depth, a decorator, docstring and import entity for each there is, a parameter for each with its kind, annotation and own default, each hung below its own definition; an open base per base; and an open call, with its text and line, per call whose nearest definition is a function or method, from that definition, and none for any other call |
| ExtractionCompleteness.FatalExactly | src/repo_chat/indexing/ast_parser.py:71-89 | a file is fatal if and only if it does not parse, and then has no entities and no relationships |
| ExtractionCompleteness.DigitsRead | src/repo_chat/indexing/ast_parser.py:237 | positions in names read back as the number they were |
| ExtractionTree.ParseRaisesExactly | src/repo_chat/indexing/ast_parser.py:208-220 | parsing accepted source raises if and only if some docstring is blank |
| ExtractionTree.EmptyDocstringRaises | src/repo_chat/indexing/ast_parser.py:219 | a function with an empty docstring stops the parse |
| ExtractionTree.ParserIsAValidAnalyzer | src/repo_chat/indexing/ast_parser.py:134-163 | every emitted entity is identified by file, kind and name and carries path and hash, as the indexer's results assume |
| ExtractionTree.DefinitionParented | src/repo_chat/indexing/ast_parser.py:336-347 | a definition hangs below its scope, a method exactly below a class, its name extending the scope's |
| PythonAstParsers.PythonAstParser.Parse | src/repo_chat/indexing/ast_parser.py:69-128 | the parsed file is the specified extraction, a fatal file, or an exception |
| PythonAstParsers.PythonAstParser.Visit | src/repo_chat/indexing/ast_parser.py:297-413 | visiting appends the node's extraction and restores the scope stack |
| PythonAstParsers.PythonAstParser.VisitDefinition | src/repo_chat/indexing/ast_parser.py:297-356 | pushes the definition's scope for its body and pops it |
| PythonAstParsers.PythonAstParser.AddHead | src/repo_chat/indexing/ast_parser.py:297-319 | entity, containment, bases, decorators, parameters, docstring in that order |
| PythonAstParsers.PythonAstParser.AddParameters | src/repo_chat/indexing/ast_parser.py:251-295 | every parameter in signature order with its place, position, kind, annotation and default |
| PythonAstParsers.PythonAstParser.Slots | src/repo_chat/indexing/ast_parser.py:256-272 | the parameters with their kinds, defaults aligned with the last positional ones |
| PythonAstParsers.PythonAstParser.AddDecorators | src/repo_chat/indexing/ast_parser.py:230-249 | decorators in order with their places |
| PythonAstParsers.PythonAstParser.AddImports | src/repo_chat/indexing/ast_parser.py:358-400 | one import entity per alias, relative names encoded with dots |
| PythonAstParsers.PythonAstParser.AddDocstring | src/repo_chat/indexing/ast_parser.py:203-228 | a docstring entity, or an exception for a blank one |
| PythonAstParsers.PythonAstParser.AddCall | src/repo_chat/indexing/ast_parser.py:402-412 | one open call from the scope exactly when it is a function or a method |
| Resolutions.ResolveLocalRelationships | src/repo_chat/graph/resolution.py:25-77 | the local pass with its dictionaries computes ResolveLocal |
| Resolutions.ResolveOneLocally | src/repo_chat/graph/resolution.py:36-74 | one relationship of the local pass |
| Resolutions.UniqueTarget | src/repo_chat/graph/resolution.py:58-66 | candidates of the expected kinds sharing one identity |
| Resolutions.ResolveRepositoryRelationships | src/repo_chat/graph/resolution.py:80-133 | the repository pass computes ResolveRepository |
| Resolutions.RewriteOne | src/repo_chat/graph/resolution.py:96-131 | one relationship of the repository pass |
| Resolutions.FindTarget | src/repo_chat/graph/resolution.py:184-220 | the search through names with their confidences, simple names last |
| Resolutions.FindImport | src/repo_chat/graph/resolution.py:167-181 | an import's target when its absolute name is unique |
| Resolutions.ImportAliases | src/repo_chat/graph/resolution.py:136-154 | bindings of a file's imports, the last winning |
| ResolutionProperties.OrderIndependent | src/repo_chat/graph/resolution.py:80-133 | permuting the files permutes the outputs and changes no target, strategy or confidence |
| ResolutionProperties.LocalResolutionExactly | src/repo_chat/graph/resolution.py:36-74 | an open call or base is resolved within its file if and only if the entities that may answer it share one identity; its target is one of them; those are, of the kinds wanted, the ones with the name itself, undotted also with that of the module's or, in a method, the class's member, or undotted the simple name if none of these is there |
| ResolutionProperties.RepositorySound | src/repo_chat/graph/resolution.py:91-133 | every edge the repository pass adds or resolves points to the only candidate in the repository, of the expected kind, with a listed confidence |
| ReferenceTargets.ReferencesGo | src/repo_chat/graph/resolution.py:80-133 | relationship by relationship, in place: an open call or base goes to the only entity of the wanted kinds with the first of its names that has exactly one (on self or cls in a method, the class's member; what the last import of the file binding its first part means, with the rest of the reference; itself; the module's member) or, undotted, to the only one with its simple name, with that strategy and confidence; it stays open if and only if none has; an import is followed by a dependency if and only if exactly one entity has its absolute name; everything else is unchanged |
| ReferenceTargets.TargetGoes | src/repo_chat/graph/resolution.py:184-220 | the search through the dictionaries finds where a reference goes, and nothing when it goes nowhere |
| ReferenceTargets.GoesOnce | src/repo_chat/graph/resolution.py:184-220 | there is only one place to go |
| ReferenceTargets.AliasesExactly | src/repo_chat/graph/resolution.py:136-154 | a name is bound exactly as the last import entity that binds it binds it |
| ImportBindings.ClauseBinds | src/repo_chat/graph/resolution.py:143-153 | which one name each form of import binds and to what: an alias to what is imported; without dots and alias the first part of the path to itself; with dots the last part to what is imported |
| ImportBindings.BindsAsPythonExactly | src/repo_chat/graph/resolution.py:149-152 | the program binds what Python binds (section 7.11 of The Python Language Reference) if and only if the import is a plain one, has an alias, or has dots |
| ImportBindings.ImportIsPassedOver | src/repo_chat/graph/resolution.py:149-152 | a concrete repository in which a from-import names exactly one entity and the call of it stays open |
| ImportBindings.PackageIs | src/repo_chat/graph/resolution.py:138-142 | relative imports start from the module itself in a package's __init__.py and from the package around it in any other file |
| ResolutionProperties.RepositoryConserves | src/repo_chat/graph/resolution.py:91-133 | without the dependencies the output is the input edge for edge, resolved and other edges exactly as they were; what the local pass resolved the repository pass leaves |
| ResolutionProperties.SecondPassAddsOnlyRepeats | src/repo_chat/graph/resolution.py:80-133 | a second pass repeats dependencies already there and nothing else |
| ResolutionProperties.LocalAfterRepository | src/repo_chat/graph/repository.py:29-33 | the local pass write_parsed_file repeats changes nothing on the repository pass's output |
| PlanExecution.ExecutePlan | src/repo_chat/orchestration/service.py:878-889 | exactly the groups up to and including the first that wholly failed run, in ascending order, each task seeing earlier groups' outputs only |
| PlanExecution.ExecutedOnce | src/repo_chat/orchestration/service.py:878-889 | the plan and the executor determine the outputs |
| PlanExecution.FailPlan | src/repo_chat/orchestration/service.py:867-876 | without an executor every task fails and the answer is partial |
| PlanExecution.PartialExactly | src/repo_chat/orchestration/service.py:297-331 | for every plan and executor the answer is not partial if and only if the plan has a task and every task ran and succeeded (without an executor it always is: `FailPlan`) |
| PlanExecution.DependenciesSucceeded | src/repo_chat/orchestration/service.py:118-264 | in a routed plan every agent a run task depends on has succeeded before |
| PlanExecution.RoutedPlansAreChains | src/repo_chat/orchestration/service.py:118-264 | every routed plan has one to three tasks, numbered in order, each depending on the one before |
| PlanExecution.RoutesByIntent | src/repo_chat/orchestration/service.py:118-280 | which agents are asked for what: the indexer exactly for indexing, dependencies exactly for a traversal that names an entity, a search by meaning exactly for what names nothing or is general and named by a capital letter only, the source for everything but indexing and direct lookups, and the analyst's operation by intent |
| PlanExecution.TaskSucceedsExactly | src/repo_chat/orchestration/service.py:891-909 | a task succeeds only if its agent answers in time and says so; a time-out and an exception are reported in its name |
| PlanExecution.SortedSequences | src/repo_chat/orchestration/service.py:881 | the distinct sequence numbers ascending |
| ResponseCaching.OrchestratorService.Orchestrate | src/repo_chat/orchestration/service.py:624-727 | every cache entry is a complete response of an earlier miss; a hit returns, with one more warning, the complete answer of an earlier miss with the same repository, revision and preferences whose casefolded query has the same words and no reference, and leaves the cache alone; a miss runs the plan, names each agent that succeeded once and passes on every warning and error; both turns are remembered |
| ResponseCaching.OrchestratorService.GetCachedResponse | src/repo_chat/orchestration/service.py:759-780 | only queries without a reference read; what is read answered the same question before; a failing store reads as a miss |
| ResponseCaching.OrchestratorService.PutCachedResponse | src/repo_chat/orchestration/service.py:782-804 | only complete responses of queries without a reference are entered, and no other question's entry changes |
| ResponseCaching.KeysExactly | src/repo_chat/orchestration/operational_state.py:151-168 | two questions share a key if and only if repository, revision and preferences are the same and the casefolded queries have the same words |
| QueryTexts.WordsExactly | src/repo_chat/orchestration/operational_state.py:154 | two texts are normalized alike if and only if they have the same sequence of maximal runs without blanks |
| ResponseCaching.TakenFromConversation | src/repo_chat/orchestration/service.py:81-89 | a query keeps the entities it names; a reference without any takes the last three names remembered, in order |
| ResponseCaching.EveryReference | src/repo_chat/orchestration/service.py:965-966 | where letters are word characters, the seven phrases are references |
| ResponseCaching.GuardSoundExactly | src/repo_chat/orchestration/service.py:767-797 | when lower() and casefold() agree on a query's characters, and its blanks are no word characters, a query passing the guard is analyzed independently of the conversation; in general it is if and only if it names entities, or has no reference as the analysis reads it, or has one as the guard reads it |
| ResponseCaching.IndependentExactly | src/repo_chat/orchestration/service.py:76-89 | an analysis is independent of the conversation exactly without a reference or with explicit entities |
| ResponseCaching.GuardMissesAReference | src/repo_chat/orchestration/service.py:767-774 | with what the Unicode database has on four characters, and entities named as the analysis names them: a query with an iota subscript that is cached although its analysis depends on the conversation |
| AnswerChunking.AnswerChunks | src/repo_chat/gateway/app.py:61-73 | the loop ends; chunks concatenate to the answer, are cut at the last late space or the maximum, have at most maximum+1 and, but the last, at least min(m, m/2+2) characters, and at most maximum if and only if no text still to be cut has a space at maximum |
| AnswerChunking.WithinMaximumExactly | src/repo_chat/gateway/app.py:66-70 | the maximum bounds all chunks if and only if no text still to be cut has a space right after it |
| AnswerChunking.MaximumIsExceeded | src/repo_chat/gateway/app.py:68-70 | the first chunk of "ab c" for a maximum of two has three characters |
| RankFusion.HybridSearch | src/repo_chat/graph/query_service.py:97-150 | distinct hits, at most the limit, falling scores, nothing left out outscores a hit, nothing missing while there is room; each hit lists a source once per match, the exact ones in scope first, and shows its last match |
| RankFusion.SortedByScore | src/repo_chat/graph/query_service.py:139 | a permutation by falling score |
| RankFusion.BothListsWin | src/repo_chat/graph/query_service.py:114-117 | without repeats, an id ranked below 62 in both lists strictly outscores every single-list id |
| RankFusion.BothBeatOneExactly | src/repo_chat/graph/query_service.py:116 | rank r in both lists beats rank one in one exactly for r below 62 |

## Left out

- Rows across revisions: an entity has one row, which a later revision overwrites; what is preserved for other revisions is the memberships and the vectors, as the program has it.
- IndexerServices.IndexerService.RunRepositoryJob: one job at a time; interleavings of several repositories are `ConcurrentJobs`, and that jobs of one repository do not interleave is `Coordination.JobsExcludeEachOther`, on an abstraction of their store calls. The sorted order of the cleanup is any order, as is the order of the removed set.
- Job-store calls after the first do not raise in the model of a job; a failing update inside the except branch is not modelled.
- OptimisticTransactions.CommitsRunOneAtATime: connection errors are not modelled; a retry loop may go on for ever under spurious aborts.
- Coordination.JobsExcludeEachOther: no claim or lock expires and one process runs; what a second process's start does to a live job is `JobLives`.
- JobLives.ActiveThroughLife: restarts are one at a time, so that no two processes fail the same job from one reading of it.
- ExtractionTree.ParseRaisesExactly: exceptions of `ast.unparse` and of the recursion depth on deeply nested source.
- index_file, which takes no repository lock.
- Analyzer upgrades between the jobs of a history: `IndexLimits.EmbeddedExactly` says what one upgrade does to vectors.
- ExtractionTree.ModuleImportsResolve: imports inside functions and classes, for which the program derives a longer package.
- PythonAstParsers.PythonAstParser.Parse: expressions are given as text, of nodes only what the visitor reads is kept, and metadata other than that of imports and parameters is opaque; module_name_from_path is a parameter.
- Digests: SHA-256 and uuid5 are injective here; identities are the digested tuples, so a separator inside a path or repository id is only examined for revision nodes.
- ResponseCaching.OrchestratorService.Orchestrate: one call at a time, preferences are the text they serialize to, rendering, intent, explicit entities and the Unicode database are parameters, final sigma is lowered like any letter, TTLs are left out.
- RankFusion.HybridSearch: the lists come as found and reranked; reals instead of floats; equal scores in any order.
- Routing audit, episodic memory, preferences, evidence deduplication and answer rendering: text plumbing.
- Drivers and transport (Neo4j, Qdrant, Redis protocol, MCP, FastAPI, WebSocket), Git acquisition, security filters, settings, logging, user interface and evaluation scripts.
- The MCP retry loop, latency percentiles and graph statistics: easy members.
- Shallow graph queries (traversals, Cypher execution, path deduplication): each is one query or one pass.

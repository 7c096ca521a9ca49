/** Job records, and the store calls one repository job issues, as a function of the state. */
module IndexJobs {
  import opened Contracts
  import opened IndexStores

  // ---------------------------------------------------------------- job records

  datatype IndexMode = Full | Incremental

  datatype JobStatus = Pending | Running | Completed | Failed

  datatype IndexJob = IndexJob(
    id: string,
    repository: string,
    revision: string,
    mode: IndexMode,
    status: JobStatus,
    discovered: nat,
    processed: nat,
    skipped: nat,
    failed: nat,
    entities: nat,
    relationships: nat,
    chunks: nat,
    deleted: nat,
    renamed: nat,
    error: Option<string>)

  function NewJob(id: string, repository: string, revision: string, mode: IndexMode): IndexJob {
    IndexJob(id, repository, revision, mode, Pending, 0, 0, 0, 0, 0, 0, 0, 0, 0, None)
  }

  predicate Terminal(status: JobStatus) {
    status == Completed || status == Failed
  }

  /** The keyword arguments of update() and increment() that the indexer uses. */
  datatype JobChange =
    | SetStatus(status: JobStatus, error: Option<string>)
    | Start
    | SetDiscovered(count: nat)
    | SetRemoved(deleted: nat, renamed: nat)
    | Add(processed: nat, skipped: nat, failed: nat, entities: nat, relationships: nat, chunks: nat)

  function Changed(job: IndexJob, c: JobChange): IndexJob {
    match c
    case SetStatus(status, error) => job.(status := status, error := error)
    case Start => job.(status := Running)
    case SetDiscovered(count) => job.(discovered := count)
    case SetRemoved(deleted, renamed) => job.(deleted := deleted, renamed := renamed)
    case Add(processed, skipped, failed, entities, relationships, chunks) =>
      job.(processed := job.processed + processed,
           skipped := job.skipped + skipped,
           failed := job.failed + failed,
           entities := job.entities + entities,
           relationships := job.relationships + relationships,
           chunks := job.chunks + chunks)
  }

  // ---------------------------------------------------------------- inputs

  /** Parsing and document text are functions of the file's path and content hash; a parse
      with a fatal issue is None. */
  datatype Analyzer = Analyzer(
    parse: (string, string, string) -> Option<seq<CodeEntity>>,
    text: (string, CodeEntity) -> string)

  const ANALYSIS_VERSION: nat := 2

  /** One discovered file with the relationships the repository-wide resolution gave it. */
  datatype SourceFile = SourceFile(path: string, hash: string, relationships: seq<CodeRelationship>)

  /** What a job is asked for, whether a semantic store is configured, the servers' choices, and
      what its snapshot will say. */
  datatype Request = Request(repository: string, revision: string, mode: IndexMode, semantic: bool, server: Server,
                             provenance: Provenance)

  function Entities(a: Analyzer, repository: string, path: string, hash: string): seq<CodeEntity> {
    match a.parse(repository, path, hash)
    case None => []
    case Some(entities) => entities
  }

  predicate Fatal(a: Analyzer, repository: string, path: string, hash: string) {
    a.parse(repository, path, hash).None?
  }

  predicate Searchable(kind: EntityKind) {
    kind in {Class, Function, Method}
  }

  function DocumentsOf(a: Analyzer, hash: string, entities: seq<CodeEntity>): seq<SemanticDocument> {
    if entities == [] then []
    else
      var last := entities[|entities| - 1];
      var before := DocumentsOf(a, hash, entities[..|entities| - 1]);
      if Searchable(last.kind) then before + [SemanticDocument(last, a.text(hash, last))] else before
  }

  function Documents(a: Analyzer, repository: string, path: string, hash: string): seq<SemanticDocument> {
    DocumentsOf(a, hash, Entities(a, repository, path, hash))
  }

  ghost predicate ValidAnalyzer(a: Analyzer) {
    forall repository, path, hash, e ::
      e in Entities(a, repository, path, hash) ==> EntityOfFile(e, repository, path, hash)
  }

  // ---------------------------------------------------------------- store calls

  /** One call on a store.  Indexing a file's vectors is a delete and an upsert. */
  datatype Op =
    | WriteGraph(repository: string, revision: string, path: string, entities: seq<CodeEntity>,
                 rows: seq<CodeRelationship>)
    | CarryGraph(repository: string, source: string, target: string, path: string, hash: string)
    | DropVectors(repository: string, revision: string, path: string)
    | UpsertVectors(repository: string, revision: string, path: string, documents: seq<SemanticDocument>)
    | CarryVectors(server: Server, repository: string, source: string, target: string, path: string)
    | PutManifest(repository: string, path: string, manifest: Manifest)
    | WriteRows(rows: seq<CodeRelationship>)
    | RemoveGraph(server: Server, repository: string, revision: string, path: string)
    | DeleteManifest(repository: string, path: string)
    | RecordSnapshot(repository: string, revision: string, provenance: Provenance)
    | Job(change: JobChange)

  datatype World = World(graph: Graph, points: Points, manifests: Manifests, job: IndexJob)

  ghost function Apply(w: World, op: Op): World {
    match op
    case WriteGraph(repository, revision, path, entities, rows) =>
      w.(graph := WriteFile(w.graph, repository, revision, entities, rows))
    case CarryGraph(repository, source, target, path, hash) =>
      w.(graph := CarryFile(w.graph, repository, source, target, path, hash))
    case DropVectors(repository, revision, path) =>
      w.(points := DropPoints(w.points, repository, revision, path))
    case UpsertVectors(repository, revision, path, documents) =>
      w.(points := w.points + DocumentMap(repository, revision, documents))
    case CarryVectors(server, repository, source, target, path) =>
      w.(points := CarryPoints(server, w.points, repository, source, target, path))
    case PutManifest(repository, path, manifest) =>
      w.(manifests := w.manifests[(repository, path) := manifest])
    case WriteRows(rows) =>
      w.(graph := WriteRelationships(w.graph, rows))
    case RemoveGraph(server, repository, revision, path) =>
      w.(graph := RemoveFile(server, w.graph, repository, revision, path))
    case DeleteManifest(repository, path) =>
      w.(manifests := w.manifests - {(repository, path)})
    case RecordSnapshot(repository, revision, provenance) =>
      w.(graph := RecordRevision(w.graph, repository, revision, provenance))
    case Job(change) =>
      w.(job := Changed(w.job, change))
  }

  ghost function Run(w: World, ops: seq<Op>): World {
    if ops == [] then w else Apply(Run(w, ops[..|ops| - 1]), ops[|ops| - 1])
  }

  lemma {:induction false} RunConcat(w: World, first: seq<Op>, second: seq<Op>)
    ensures Run(w, first + second) == Run(Run(w, first), second)
    decreases |second|
  {
    hide Apply;
    if second == [] {
      assert first + second == first;
    } else {
      var init := second[..|second| - 1];
      RunConcat(w, first, init);
      assert (first + second)[..|first + second| - 1] == first + init;
    }
  }

  // ---------------------------------------------------------------- one file

  function Previous(manifests: Manifests, repository: string, path: string): Option<Manifest> {
    if (repository, path) in manifests then Some(manifests[(repository, path)]) else None
  }

  predicate SameContent(previous: Option<Manifest>, hash: string) {
    previous.Some? && previous.value.contentHash == hash
  }

  /** Unchanged content already analyzed by this version, in an incremental job. */
  predicate Skippable(mode: IndexMode, previous: Option<Manifest>, hash: string) {
    mode == Incremental && SameContent(previous, hash) && previous.value.version == ANALYSIS_VERSION
  }

  function IndexVectors(q: Request, path: string, documents: seq<SemanticDocument>): seq<Op> {
    [DropVectors(q.repository, q.revision, path)]
    + if documents == [] then [] else [UpsertVectors(q.repository, q.revision, path, documents)]
  }

  /** Copy the vectors of the previous revision, or index the file when there was nothing to copy. */
  ghost function CarryOrIndex(points: Points, q: Request, source: string, path: string,
                              documents: seq<SemanticDocument>): seq<Op> {
    [CarryVectors(q.server, q.repository, source, q.revision, path)]
    + if CarryCount(q.server, points, q.repository, source, path) == 0 then IndexVectors(q, path, documents) else []
  }

  ghost function ChunkCount(points: Points, q: Request, source: Option<string>, path: string,
                            documents: seq<SemanticDocument>): nat {
    if !q.semantic then 0
    else if source.Some? && CarryCount(q.server, points, q.repository, source.value, path) != 0
    then CarryCount(q.server, points, q.repository, source.value, path)
    else |documents|
  }

  /** An unchanged file: its second backfill runs when the first one indexed nothing. */
  ghost function SkipVectors(points: Points, q: Request, source: string, path: string,
                             documents: seq<SemanticDocument>): seq<Op> {
    if !q.semantic then []
    else
      CarryOrIndex(points, q, source, path, documents)
      + if CarryCount(q.server, points, q.repository, source, path) == 0 && documents == []
        then IndexVectors(q, path, documents) else []
  }

  /** A written file: vectors are still copied when the content has not changed. */
  ghost function WriteVectors(points: Points, q: Request, source: Option<string>, path: string,
                              documents: seq<SemanticDocument>): seq<Op> {
    if !q.semantic then []
    else if source.Some? then CarryOrIndex(points, q, source.value, path, documents)
    else IndexVectors(q, path, documents)
  }

  function VectorSource(previous: Option<Manifest>, hash: string): Option<string> {
    if SameContent(previous, hash) then Some(previous.value.revision) else None
  }

  /** The body of the loop over the discovered files: a graph call, the vector calls, the
      manifest and the progress of the job. */
  ghost function FileOps(a: Analyzer, w: World, q: Request, f: SourceFile): seq<Op> {
    var previous := Previous(w.manifests, q.repository, f.path);
    var source := VectorSource(previous, f.hash);
    var entities := Entities(a, q.repository, f.path, f.hash);
    var documents := Documents(a, q.repository, f.path, f.hash);
    var chunks := ChunkCount(w.points, q, source, f.path, documents);
    var done := PutManifest(q.repository, f.path, Manifest(f.hash, q.revision, ANALYSIS_VERSION));
    if Skippable(q.mode, previous, f.hash) then
      [CarryGraph(q.repository, source.value, q.revision, f.path, f.hash)]
      + SkipVectors(w.points, q, source.value, f.path, documents)
      + [done, Job(Add(1, 1, 0, 0, 0, chunks))]
    else if Fatal(a, q.repository, f.path, f.hash) then
      [Job(Add(1, 0, 1, 0, 0, 0))]
    else
      [WriteGraph(q.repository, q.revision, f.path, entities, f.relationships)]
      + WriteVectors(w.points, q, source, f.path, documents)
      + [done, Job(Add(1, 0, 0, |entities|, |f.relationships|, chunks))]
  }

  ghost function LoopOps(a: Analyzer, w: World, q: Request, files: seq<SourceFile>): seq<Op> {
    if files == [] then []
    else
      var before := LoopOps(a, w, q, files[..|files| - 1]);
      before + FileOps(a, Run(w, before), q, files[|files| - 1])
  }

  // ---------------------------------------------------------------- renames

  /** Removed paths still available as rename sources, by content hash, and those used. */
  datatype Renames = Renames(byHash: map<string, seq<string>>, renamed: set<string>)

  function AddRemoved(byHash: map<string, seq<string>>, hash: string, path: string): map<string, seq<string>> {
    byHash[hash := (if hash in byHash then byHash[hash] else []) + [path]]
  }

  /** removed_by_hash after the removed paths have been enumerated in the order given. */
  function RemovedByHash(manifests: Manifests, repository: string, listing: seq<string>): map<string, seq<string>>
    requires forall p :: p in listing ==> (repository, p) in manifests
  {
    if listing == [] then map[]
    else
      var last := listing[|listing| - 1];
      AddRemoved(RemovedByHash(manifests, repository, listing[..|listing| - 1]),
                 manifests[(repository, last)].contentHash, last)
  }

  /** A file without a manifest takes the last candidate with its hash. */
  function TakeRename(r: Renames, isNew: bool, hash: string): Renames {
    if isNew && hash in r.byHash && r.byHash[hash] != [] then
      var candidates := r.byHash[hash];
      Renames(r.byHash[hash := candidates[..|candidates| - 1]],
              r.renamed + {candidates[|candidates| - 1]})
    else r
  }

  function TakeRenames(r: Renames, manifests: Manifests, repository: string, files: seq<SourceFile>): Renames {
    if files == [] then r
    else
      var last := files[|files| - 1];
      TakeRename(TakeRenames(r, manifests, repository, files[..|files| - 1]),
                 Previous(manifests, repository, last.path).None?, last.hash)
  }

  function Paths(files: seq<SourceFile>): set<string> {
    set i | 0 <= i < |files| :: files[i].path
  }

  function Removed(manifests: Manifests, repository: string, files: seq<SourceFile>): set<string> {
    (set k | k in manifests && k.0 == repository :: k.1) - Paths(files)
  }

  /** The order in which the set of removed paths is enumerated; nothing depends on which. */
  ghost predicate Lists(listing: seq<string>, paths: set<string>) {
    && (forall p :: p in listing <==> p in paths)
    && forall i, j :: 0 <= i < j < |listing| ==> listing[i] != listing[j]
  }

  ghost function RenamedPaths(manifests: Manifests, repository: string, files: seq<SourceFile>,
                              listing: seq<string>): set<string>
    requires Lists(listing, Removed(manifests, repository, files))
  {
    TakeRenames(Renames(RemovedByHash(manifests, repository, listing), {}), manifests, repository, files).renamed
  }

  // ---------------------------------------------------------------- the whole job

  ghost function CleanupOps(q: Request, listing: seq<string>): seq<Op> {
    if listing == [] then []
    else
      var last := listing[|listing| - 1];
      CleanupOps(q, listing[..|listing| - 1])
      + [RemoveGraph(q.server, q.repository, q.revision, last)]
      + (if q.semantic then [DropVectors(q.repository, q.revision, last)] else [])
      + [DeleteManifest(q.repository, last)]
  }

  function FinalRows(a: Analyzer, repository: string, files: seq<SourceFile>): seq<CodeRelationship> {
    if files == [] then []
    else
      var last := files[|files| - 1];
      FinalRows(a, repository, files[..|files| - 1])
      + if Fatal(a, repository, last.path, last.hash) then [] else last.relationships
  }

  const PARSE_FAILURE := Some("One or more discovered Python files failed to parse")

  function StartOps(files: seq<SourceFile>): seq<Op> {
    [Job(Start), Job(SetDiscovered(|files|))]
  }

  ghost function IndexOps(a: Analyzer, w: World, q: Request, files: seq<SourceFile>): seq<Op> {
    StartOps(files)
    + LoopOps(a, Run(w, StartOps(files)), q, files)
    + [WriteRows(FinalRows(a, q.repository, files))]
  }

  ghost function FinishOps(w: World, q: Request, files: seq<SourceFile>, listing: seq<string>,
                           failed: bool): seq<Op>
    requires Lists(listing, Removed(w.manifests, q.repository, files))
  {
    if failed then [Job(SetStatus(Failed, PARSE_FAILURE))]
    else
      var renamed := RenamedPaths(w.manifests, q.repository, files, listing);
      CleanupOps(q, listing)
      + [Job(SetRemoved(|Removed(w.manifests, q.repository, files) - renamed|, |renamed|)),
         RecordSnapshot(q.repository, q.revision, q.provenance),
         Job(SetStatus(Completed, None))]
  }

  /** Every store call of _run_repository_job when none of them raises.  A job whose n-th call
      raises performs a prefix of these. */
  ghost function JobOps(a: Analyzer, w: World, q: Request, files: seq<SourceFile>, listing: seq<string>): seq<Op>
    requires Lists(listing, Removed(w.manifests, q.repository, files))
  {
    var index := IndexOps(a, w, q, files);
    index + FinishOps(w, q, files, listing, Run(w, index).job.failed > 0)
  }

  /** rglob yields each path once. */
  ghost predicate DistinctPaths(files: seq<SourceFile>) {
    forall i, j :: 0 <= i < j < |files| ==> files[i].path != files[j].path
  }
}

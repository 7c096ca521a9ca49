/** The repository job as the service runs it, call by call, over the stores. */
module IndexerServices {
  import opened Contracts
  import opened IndexStores
  import opened IndexJobs
  import opened JobInvariants
  import opened CompletedJobs
  import opened JobAccounting
  import opened RenameMatching
  import opened JobHistories
  import opened GraphRepositories
  import opened IndexerStores

  lemma RunSnoc(w: World, done: seq<Op>, op: Op)
    ensures Run(w, done + [op]) == Apply(Run(w, done), op)
  {
    RunConcat(w, done, [op]);
    RunOne(Run(w, done), op);
  }

  ghost predicate VectorCalls(ops: seq<Op>) {
    forall n :: 0 <= n < |ops| ==> ops[n].DropVectors? || ops[n].UpsertVectors? || ops[n].CarryVectors?
  }

  /** The points after some vector calls. */
  ghost function VectorRun(points: Points, ops: seq<Op>): Points {
    Run(World(Graph(map[], map[], map[], {}, map[]), points, map[], NewJob("", "", "", Full)), ops).points
  }

  lemma {:induction false} VectorsOnly(w: World, ops: seq<Op>)
    requires VectorCalls(ops)
    ensures Run(w, ops) == w.(points := VectorRun(w.points, ops))
  {
    hide PageOf, CarryPoints;
    if ops != [] {
      var init, last := ops[..|ops| - 1], ops[|ops| - 1];
      VectorsOnly(w, init);
      assert last.DropVectors? || last.UpsertVectors? || last.CarryVectors?;
    }
  }

  lemma VectorRunConcat(points: Points, first: seq<Op>, second: seq<Op>)
    requires VectorCalls(first)
    ensures VectorRun(points, first + second) == VectorRun(VectorRun(points, first), second)
  {
    hide Run, Apply;
    var w := World(Graph(map[], map[], map[], {}, map[]), points, map[], NewJob("", "", "", Full));
    RunConcat(w, first, second);
    VectorsOnly(w, first);
  }

  lemma IndexRun(points: Points, q: Request, path: string, documents: seq<SemanticDocument>, done: seq<Op>)
    requires done <= IndexVectors(q, path, documents)
    ensures VectorCalls(done)
    ensures VectorRun(points, done)
            == if done == [] then points
               else if |done| == 1 then DropPoints(points, q.repository, q.revision, path)
               else
                 DropPoints(points, q.repository, q.revision, path)
                 + DocumentMap(q.repository, q.revision, documents)
  {
    var w := World(Graph(map[], map[], map[], {}, map[]), points, map[], NewJob("", "", "", Full));
    var drop := DropVectors(q.repository, q.revision, path);
    var upsert := UpsertVectors(q.repository, q.revision, path, documents);
    RunOne(w, drop);
    RunOne(Apply(w, drop), upsert);
    RunConcat(w, [drop], [upsert]);
    assert done == [] || done == [drop] || done == [drop] + [upsert];
  }

  lemma CarryRun(points: Points, q: Request, source: string, path: string)
    ensures var carry := CarryVectors(q.server, q.repository, source, q.revision, path);
            VectorRun(points, [carry]) == CarryPoints(q.server, points, q.repository, source, q.revision, path)
  {
    hide CarryPoints, PageOf;
    var w := World(Graph(map[], map[], map[], {}, map[]), points, map[], NewJob("", "", "", Full));
    RunOne(w, CarryVectors(q.server, q.repository, source, q.revision, path));
  }

  /** The set a Python set of paths is enumerated from, in whatever order comes. */
  method Enumerate(paths: set<string>) returns (listing: seq<string>)
    ensures Lists(listing, paths)
  {
    listing := [];
    var pending := paths;
    while pending != {}
      invariant pending <= paths
      invariant Lists(listing, paths - pending)
      decreases |pending|
    {
      var p :| p in pending;
      listing, pending := listing + [p], pending - {p};
    }
    assert paths - {} == paths;
  }

  ghost predicate Advanced(w: World, v: World, done: seq<Op>, planned: seq<Op>, ok: bool) {
    done <= planned && v == Run(w, done) && (ok ==> done == planned)
  }

  lemma AdvancedConcat(w: World, v: World, x: World, first: seq<Op>, second: seq<Op>, done: seq<Op>, ok: bool)
    requires v == Run(w, first)
    requires Advanced(v, x, done, second, ok)
    ensures Advanced(w, x, first + done, first + second, ok)
  {
    hide Run;
    RunConcat(w, first, done);
    assert (first + second)[..|first + done|] == first + done;
  }

  /** A run touches its own job record and no other. */
  ghost predicate OnlyJob(before: map<string, IndexJob>, after: map<string, IndexJob>, id: string) {
    after.Keys == before.Keys && forall j :: j in before && j != id ==> after[j] == before[j]
  }

  lemma RenameCount(manifests: Manifests, repository: string, files: seq<SourceFile>, seen: seq<string>,
                    order: seq<string>)
    requires Lists(seen, Removed(manifests, repository, files)) && Lists(order, Removed(manifests, repository, files))
    ensures var removed := Removed(manifests, repository, files);
            var r, s := RenamedPaths(manifests, repository, files, seen),
                        RenamedPaths(manifests, repository, files, order);
            |r| == |s| && |removed - r| == |removed - s|
  {
    hide RenamedPaths;
    var none: map<string, nat> := map[];
    RenamesAreAMaximumMatching(manifests, repository, files, seen, none);
    RenamesAreAMaximumMatching(manifests, repository, files, order, none);
    var pairs :| Pairing(manifests, repository, files, pairs)
                 && pairs.Keys == RenamedPaths(manifests, repository, files, seen);
    RenamesAreAMaximumMatching(manifests, repository, files, order, pairs);
    pairs :| Pairing(manifests, repository, files, pairs)
             && pairs.Keys == RenamedPaths(manifests, repository, files, order);
    RenamesAreAMaximumMatching(manifests, repository, files, seen, pairs);
  }

  lemma {:induction false} LoopPrefix(a: Analyzer, w: World, q: Request, files: seq<SourceFile>, n: nat)
    requires n <= |files|
    ensures LoopOps(a, w, q, files[..n]) <= LoopOps(a, w, q, files)
    decreases |files|
  {
    hide Run, FileOps;
    if n == |files| {
      assert files[..n] == files;
    } else {
      var init := files[..|files| - 1];
      assert init[..n] == files[..n];
      LoopPrefix(a, w, q, init, n);
      FileCallsCount(a, w, q, files);
    }
  }

  lemma EndedByError(w: World, v: World, done: seq<Op>, planned: seq<Op>, message: string)
    requires Advanced(w, v, done, planned, false) && |done| < |planned|
    ensures Ended(w, v.(job := Changed(v.job, SetStatus(JobStatus.Failed, Some(message)))), done, planned)
  {
    hide Run;
    assert v == Run(w, done);
  }

  /** How the task of a job that found its repository locked, or free, ends. */
  ghost predicate TaskOutcome(a: Analyzer, w: World, v: World, q: Request, files: seq<SourceFile>, locked: bool,
                              done: seq<Op>, order: seq<string>) {
    if locked then v == w.(job := Changed(w.job, SetStatus(JobStatus.Failed, LOCK_HELD)))
    else Lists(order, Removed(w.manifests, q.repository, files)) && Ended(w, v, done, JobOps(a, w, q, files, order))
  }

  const LOCK_HELD := Some("Another indexing job holds the repository lock")

  function RequestOf(job: IndexJob, withSemantic: bool, server: Server, acquisition: Acquisition): Request {
    Request(job.repository, job.revision, job.mode, withSemantic, server, Provenance(job.id, acquisition))
  }

  /** Every planned call was made, or something raised before the last and ended the job with its
      error. */
  ghost predicate Ended(w: World, v: World, done: seq<Op>, planned: seq<Op>) {
    && done <= planned
    && ((done == planned && v == Run(w, planned))
        || (|done| < |planned|
            && exists message ::
                 v == Run(w, done).(job := Changed(Run(w, done).job, SetStatus(JobStatus.Failed, Some(message))))))
  }

  class IndexerService {
    const graph: GraphRepository
    const semantic: QdrantSemanticStore
    const manifests: InMemoryIndexManifestStore
    const jobs: InMemoryIndexJobStore
    const coordination: InMemoryIndexCoordination

    /** Whether the jobs a previous process left have been failed. */
    var ready: bool

    constructor (graph: GraphRepository, semantic: QdrantSemanticStore, manifests: InMemoryIndexManifestStore,
                 jobs: InMemoryIndexJobStore, coordination: InMemoryIndexCoordination)
      ensures this.graph == graph && this.semantic == semantic && this.manifests == manifests
      ensures this.jobs == jobs && this.coordination == coordination && !ready
    {
      this.graph, this.semantic, this.manifests := graph, semantic, manifests;
      this.jobs, this.coordination, ready := jobs, coordination, false;
    }

    ghost function Worlds(id: string): World
      requires id in jobs.jobs
      reads graph, semantic, manifests, jobs
    {
      World(graph.State(), semantic.points, manifests.items, jobs.jobs[id])
    }

    /** Copy the previous revision's vectors, or index the file when nothing was copied. */
    method CarryOrIndexFile(q: Request, source: string, path: string, documents: seq<SemanticDocument>)
        returns (ok: bool, count: nat, ghost done: seq<Op>)
      modifies semantic
      ensures done <= CarryOrIndex(old(semantic.points), q, source, path, documents)
      ensures ok ==> done == CarryOrIndex(old(semantic.points), q, source, path, documents)
                     && count == if CarryCount(q.server, old(semantic.points), q.repository, source, path) != 0
                                 then CarryCount(q.server, old(semantic.points), q.repository, source, path)
                                 else |documents|
      ensures VectorCalls(done) && semantic.points == VectorRun(old(semantic.points), done)
    {
      hide PageOf, CarryPoints, Run, DocumentMap, DropPoints;
      ghost var start := semantic.points;
      CarryRun(start, q, source, path);
      EmptyRun(start);
      ok, count, done := semantic.CarryForwardFile(q, source, path);
      if !ok || count != 0 { return; }
      ghost var index: seq<Op>;
      ghost var middle := semantic.points;
      ok, count, index := semantic.IndexFile(q, path, documents);
      IndexRun(middle, q, path, documents, index);
      VectorRunConcat(start, done, index);
      done := done + index;
    }

    lemma EmptyRun(points: Points)
      ensures VectorRun(points, []) == points
    {
    }

    /** An unchanged file's vectors, with the second backfill. */
    method SkipFileVectors(q: Request, source: string, path: string, documents: seq<SemanticDocument>)
        returns (ok: bool, count: nat, ghost done: seq<Op>)
      modifies semantic
      ensures done <= SkipVectors(old(semantic.points), q, source, path, documents)
      ensures ok ==> done == SkipVectors(old(semantic.points), q, source, path, documents)
                     && count == ChunkCount(old(semantic.points), q, Some(source), path, documents)
      ensures VectorCalls(done) && semantic.points == VectorRun(old(semantic.points), done)
    {
      hide PageOf, CarryPoints, Run, DocumentMap, DropPoints;
      ok, count, done := true, 0, [];
      EmptyRun(semantic.points);
      if !q.semantic { return; }
      ghost var start := semantic.points;
      ok, count, done := CarryOrIndexFile(q, source, path, documents);
      if !ok || count != 0 { return; }
      ghost var index: seq<Op>;
      ghost var middle := semantic.points;
      ok, count, index := semantic.IndexFile(q, path, documents);
      IndexRun(middle, q, path, documents, index);
      VectorRunConcat(start, done, index);
      done := done + index;
    }

    /** A written file's vectors. */
    method WriteFileVectors(q: Request, source: Option<string>, path: string, documents: seq<SemanticDocument>)
        returns (ok: bool, count: nat, ghost done: seq<Op>)
      modifies semantic
      ensures done <= WriteVectors(old(semantic.points), q, source, path, documents)
      ensures ok ==> done == WriteVectors(old(semantic.points), q, source, path, documents)
                     && count == ChunkCount(old(semantic.points), q, source, path, documents)
      ensures VectorCalls(done) && semantic.points == VectorRun(old(semantic.points), done)
    {
      hide PageOf, CarryPoints, Run, DocumentMap, DropPoints;
      ok, count, done := true, 0, [];
      EmptyRun(semantic.points);
      if !q.semantic { return; }
      if source.Some? {
        ok, count, done := CarryOrIndexFile(q, source.value, path, documents);
      } else {
        ghost var start := semantic.points;
        ok, count, done := semantic.IndexFile(q, path, documents);
        IndexRun(start, q, path, documents, done);
      }
    }

    /** The manifest and the progress that close a file's calls. */
    method CloseFile(id: string, q: Request, path: string, m: Manifest, add: JobChange)
        returns (ok: bool, ghost done: seq<Op>)
      requires id in jobs.jobs
      modifies manifests, jobs
      ensures OnlyJob(old(jobs.jobs), jobs.jobs, id)
      ensures Advanced(old(Worlds(id)), Worlds(id), done, [PutManifest(q.repository, path, m), Job(add)], ok)
    {
      hide PageOf;
      ghost var w := Worlds(id);
      ghost var effect;
      ghost var put := PutManifest(q.repository, path, m);
      RunOne(w, put);
      RunSnoc(w, [put], Job(add));
      assert [put] + [Job(add)] == [put, Job(add)];
      done := [];
      ok, effect := manifests.Put(q.repository, path, m);
      if effect { done := [put]; }
      if !ok { return; }
      var job := jobs.Update(id, add);
      done := [put, Job(add)];
    }

    /** The body of the loop over the discovered files. */
    method ProcessFile(a: Analyzer, id: string, q: Request, f: SourceFile) returns (ok: bool, ghost done: seq<Op>)
      requires ValidAnalyzer(a) && id in jobs.jobs
      modifies graph, semantic, manifests, jobs
      ensures OnlyJob(old(jobs.jobs), jobs.jobs, id)
      ensures Advanced(old(Worlds(id)), Worlds(id), done, FileOps(a, old(Worlds(id)), q, f), ok)
    {
      hide PageOf, CarryPoints, Run, Apply, WriteNodes, CarryNodes, WriteRelationships;
      ghost var w := Worlds(id);
      var previous := manifests.Get(q.repository, f.path);
      var m := Manifest(f.hash, q.revision, ANALYSIS_VERSION);
      var documents := Documents(a, q.repository, f.path, f.hash);
      var source := VectorSource(previous, f.hash);
      if Skippable(q.mode, previous, f.hash) {
        ok, done := SkipFile(a, id, q, f, previous.value);
      } else if Fatal(a, q.repository, f.path, f.hash) {
        RunOne(w, Job(Add(1, 0, 1, 0, 0, 0)));
        JobCallEffect(w, Add(1, 0, 1, 0, 0, 0));
        var job := jobs.Update(id, Add(1, 0, 1, 0, 0, 0));
        ok, done := true, [Job(Add(1, 0, 1, 0, 0, 0))];
      } else {
        ok, done := WriteOneFile(a, id, q, f, previous);
      }
    }

    lemma JobCallEffect(w: World, change: JobChange)
      ensures Apply(w, Job(change)) == w.(job := Changed(w.job, change))
    {
    }

    method SkipFile(a: Analyzer, id: string, q: Request, f: SourceFile, previous: Manifest)
        returns (ok: bool, ghost done: seq<Op>)
      requires id in jobs.jobs
      requires Previous(manifests.items, q.repository, f.path) == Some(previous)
               && Skippable(q.mode, Some(previous), f.hash)
      modifies graph, semantic, manifests, jobs
      ensures OnlyJob(old(jobs.jobs), jobs.jobs, id)
      ensures Advanced(old(Worlds(id)), Worlds(id), done, FileOps(a, old(Worlds(id)), q, f), ok)
    {
      hide PageOf, CarryPoints, Run, CarryNodes;
      ghost var w := Worlds(id);
      var documents := Documents(a, q.repository, f.path, f.hash);
      var m := Manifest(f.hash, q.revision, ANALYSIS_VERSION);
      ghost var g := CarryGraph(q.repository, previous.revision, q.revision, f.path, f.hash);
      ghost var vectors := SkipVectors(semantic.points, q, previous.revision, f.path, documents);
      ghost var planned := FileOps(a, w, q, f);
      ghost var tail := planned[|vectors| + 1..];
      assert planned == ([g] + vectors) + tail;
      ghost var effect, calls;
      done := [];
      NoneRun(w);
      RunOne(w, g);
      ok, effect := graph.CarryForwardFile(q.repository, previous.revision, q.revision, f.path, f.hash);
      if effect { done := [g]; }
      if !ok { return; }
      ghost var v := Worlds(id);
      var count;
      ok, count, calls := SkipFileVectors(q, previous.revision, f.path, documents);
      VectorsOnly(v, calls);
      AdvancedConcat(w, v, Worlds(id), [g], vectors, calls, ok);
      done := [g] + calls;
      if !ok { return; }
      assert tail == [PutManifest(q.repository, f.path, m), Job(Add(1, 1, 0, 0, 0, count))];
      ghost var u := Worlds(id);
      ok, calls := CloseFile(id, q, f.path, m, Add(1, 1, 0, 0, 0, count));
      AdvancedConcat(w, u, Worlds(id), [g] + vectors, tail, calls, ok);
      done := [g] + vectors + calls;
    }

    lemma NoneRun(w: World)
      ensures Run(w, []) == w
    {
    }

    method WriteOneFile(a: Analyzer, id: string, q: Request, f: SourceFile, previous: Option<Manifest>)
        returns (ok: bool, ghost done: seq<Op>)
      requires ValidAnalyzer(a) && id in jobs.jobs
      requires Previous(manifests.items, q.repository, f.path) == previous && !Skippable(q.mode, previous, f.hash)
      requires !Fatal(a, q.repository, f.path, f.hash)
      modifies graph, semantic, manifests, jobs
      ensures OnlyJob(old(jobs.jobs), jobs.jobs, id)
      ensures Advanced(old(Worlds(id)), Worlds(id), done, FileOps(a, old(Worlds(id)), q, f), ok)
    {
      hide PageOf, CarryPoints, Run, WriteNodes, WriteRelationships;
      ghost var w := Worlds(id);
      var entities := Entities(a, q.repository, f.path, f.hash);
      var documents := Documents(a, q.repository, f.path, f.hash);
      var source := VectorSource(previous, f.hash);
      var m := Manifest(f.hash, q.revision, ANALYSIS_VERSION);
      ghost var g := WriteGraph(q.repository, q.revision, f.path, entities, f.relationships);
      ghost var vectors := WriteVectors(semantic.points, q, source, f.path, documents);
      ghost var planned := FileOps(a, w, q, f);
      ghost var tail := planned[|vectors| + 1..];
      assert planned == ([g] + vectors) + tail;
      ghost var effect, calls;
      done := [];
      NoneRun(w);
      RunOne(w, g);
      assert KindsByIdentity(entities) by {
        forall e | e in entities ensures EntityOfFile(e, q.repository, f.path, f.hash) { }
      }
      ok, effect := graph.WriteParsedFile(q.repository, q.revision, entities, f.relationships);
      if effect { done := [g]; }
      if !ok { return; }
      ghost var v := Worlds(id);
      var count;
      ok, count, calls := WriteFileVectors(q, source, f.path, documents);
      VectorsOnly(v, calls);
      AdvancedConcat(w, v, Worlds(id), [g], vectors, calls, ok);
      done := [g] + calls;
      if !ok { return; }
      assert tail == [PutManifest(q.repository, f.path, m), Job(Add(1, 0, 0, |entities|, |f.relationships|, count))];
      ghost var u := Worlds(id);
      ok, calls := CloseFile(id, q, f.path, m, Add(1, 0, 0, |entities|, |f.relationships|, count));
      AdvancedConcat(w, u, Worlds(id), [g] + vectors, tail, calls, ok);
      done := [g] + vectors + calls;
    }

    /** The loop over the discovered files; a file without a manifest takes a rename candidate. */
    method IndexFiles(a: Analyzer, id: string, q: Request, files: seq<SourceFile>, candidates: Renames)
        returns (ok: bool, r: Renames, ghost done: seq<Op>)
      requires ValidAnalyzer(a) && id in jobs.jobs && DistinctPaths(files)
      modifies graph, semantic, manifests, jobs
      ensures OnlyJob(old(jobs.jobs), jobs.jobs, id)
      ensures Advanced(old(Worlds(id)), Worlds(id), done, LoopOps(a, old(Worlds(id)), q, files), ok)
      ensures ok ==> r == TakeRenames(candidates, old(manifests.items), q.repository, files)
    {
      hide PageOf, CarryPoints, Run, Apply, FileOps, SameElsewhere;
      ghost var w := Worlds(id);
      ok, r, done := true, candidates, [];
      NoneRun(w);
      for i := 0 to |files|
        invariant ok && OnlyJob(old(jobs.jobs), jobs.jobs, id)
        invariant done == LoopOps(a, w, q, files[..i]) && Worlds(id) == Run(w, done)
        invariant r == TakeRenames(candidates, w.manifests, q.repository, files[..i])
      {
        ghost var v := Worlds(id);
        ghost var calls;
        ghost var more := files[..i + 1];
        assert more[..i] == files[..i];
        StillUnseen(a, w, q, files, i);
        var previous := manifests.Get(q.repository, files[i].path);
        r := TakeRename(r, previous.None?, files[i].hash);
        ok, calls := ProcessFile(a, id, q, files[i]);
        FileCallsCount(a, w, q, more);
        AdvancedConcat(w, v, Worlds(id), done, FileOps(a, v, q, files[i]), calls, ok);
        LoopPrefix(a, w, q, files, i + 1);
        done := done + calls;
        if !ok { return; }
      }
      assert files[..|files|] == files;
    }

    /** The files before it have not touched a file's manifest. */
    lemma StillUnseen(a: Analyzer, w: World, q: Request, files: seq<SourceFile>, i: nat)
      requires i < |files| && DistinctPaths(files)
      ensures Previous(Run(w, LoopOps(a, w, q, files[..i])).manifests, q.repository, files[i].path)
              == Previous(w.manifests, q.repository, files[i].path)
    {
      hide Run, LoopOps;
      LoopOutcome(a, w, q, files[..i]);
      forall n | 0 <= n < i
        ensures files[..i][n].path != files[i].path
      {
      }
      assert files[i].path !in Paths(files[..i]);
    }

    /** Removed paths under their hashes, in the order the set is enumerated. */
    method CollectByHash(repository: string, removed: seq<string>, previous: map<string, Manifest>)
        returns (byHash: map<string, seq<string>>)
      requires forall p :: p in removed ==>
        (repository, p) in manifests.items && p in previous && previous[p] == manifests.items[(repository, p)]
      ensures byHash == RemovedByHash(manifests.items, repository, removed)
    {
      byHash := map[];
      for i := 0 to |removed|
        invariant byHash == RemovedByHash(manifests.items, repository, removed[..i])
      {
        assert removed[..i + 1][..i] == removed[..i];
        var hash := previous[removed[i]].contentHash;
        var candidates := if hash in byHash then byHash[hash] else [];
        byHash := byHash[hash := candidates + [removed[i]]];
      }
      assert removed[..|removed|] == removed;
    }

    /** The calls for one removed path. */
    method CleanUpOne(id: string, q: Request, path: string) returns (ok: bool, ghost done: seq<Op>)
      requires id in jobs.jobs
      modifies graph, semantic, manifests
      ensures Advanced(old(Worlds(id)), Worlds(id), done, CleanupOne(q, path), ok)
    {
      hide Run, RemoveFile, DropPoints;
      ghost var w := Worlds(id);
      ghost var g, d := RemoveGraph(q.server, q.repository, q.revision, path),
                        DropVectors(q.repository, q.revision, path);
      ghost var m := DeleteManifest(q.repository, path);
      ghost var planned := CleanupOne(q, path);
      ghost var effect;
      NoneRun(w);
      done := [];
      ok, effect := graph.RemoveFileFromRevision(q.server, q.repository, q.revision, path);
      RunOne(w, g);
      if effect { done := [g]; }
      if !ok { return; }
      if q.semantic {
        ghost var calls;
        RunSnoc(w, [g], d);
        ok, calls := semantic.DeleteFile(q, path);
        done := done + calls;
        assert done == [g] || done == [g] + [d];
        if !ok { return; }
      }
      RunSnoc(w, done, m);
      ok, effect := manifests.Delete(q.repository, path);
      if effect { done := done + [m]; }
      assert ok ==> done == planned;
    }

    method CleanUp(id: string, q: Request, order: seq<string>) returns (ok: bool, ghost done: seq<Op>)
      requires id in jobs.jobs
      modifies graph, semantic, manifests
      ensures Advanced(old(Worlds(id)), Worlds(id), done, CleanupOps(q, order), ok)
    {
      hide Run, Apply;
      ghost var w := Worlds(id);
      ok, done := true, [];
      NoneRun(w);
      for i := 0 to |order|
        invariant ok && done == CleanupOps(q, order[..i]) && Worlds(id) == Run(w, done)
      {
        ghost var v := Worlds(id);
        ghost var calls;
        ok, calls := CleanUpOne(id, q, order[i]);
        AdvancedConcat(w, v, Worlds(id), done, CleanupOne(q, order[i]), calls, ok);
        assert order[..i + 1][..i] == order[..i];
        CleanupPrefix(q, order, i + 1);
        done := done + calls;
        if !ok { return; }
      }
      assert order[..|order|] == order;
    }

    lemma CleanupPrefix(q: Request, order: seq<string>, n: nat)
      requires n <= |order|
      ensures CleanupOps(q, order[..n]) <= CleanupOps(q, order)
      ensures 0 < n ==> CleanupOps(q, order[..n]) == CleanupOps(q, order[..n - 1]) + CleanupOne(q, order[n - 1])
    {
      hide CleanupOps, CleanupOne;
      assert order == order[..n] + order[n..];
      CleanupConcat(q, order[..n], order[n..]);
      if 0 < n {
        assert order[..n] == order[..n - 1] + [order[n - 1]];
        CleanupConcat(q, order[..n - 1], [order[n - 1]]);
        OnePath(q, order[n - 1]);
      }
    }

    lemma OnePath(q: Request, path: string)
      ensures CleanupOps(q, [path]) == CleanupOne(q, path)
    {
      assert [path][..0] == [];
    }

    /** Closing a completed job: what was removed, the snapshot, the status. */
    method Complete(id: string, q: Request, deleted: nat, renamed: nat) returns (ok: bool, ghost done: seq<Op>)
      requires id in jobs.jobs
      modifies graph, jobs
      ensures OnlyJob(old(jobs.jobs), jobs.jobs, id)
      ensures Advanced(old(Worlds(id)), Worlds(id), done,
                       [Job(SetRemoved(deleted, renamed)), RecordSnapshot(q.repository, q.revision, q.provenance),
                        Job(SetStatus(Completed, None))], ok)
      ensures !ok ==> |done| < 3
    {
      hide Run;
      ghost var w := Worlds(id);
      ghost var effect;
      ghost var s, f := Job(SetRemoved(deleted, renamed)), Job(SetStatus(Completed, None));
      ghost var r := RecordSnapshot(q.repository, q.revision, q.provenance);
      RunOne(w, s);
      RunSnoc(w, [s], r);
      RunSnoc(w, [s, r], f);
      assert [s] + [r] == [s, r] && [s, r] + [f] == [s, r, f];
      var job := jobs.Update(id, SetRemoved(deleted, renamed));
      done := [s];
      ok, effect := graph.RecordRevisionSnapshot(q.repository, q.revision, q.provenance);
      if effect { done := [s, r]; }
      if !ok { return; }
      job := jobs.Update(id, SetStatus(Completed, None));
      done := [s, r, f];
    }

    /** The calls after the final rows: fail the job, or clean up and complete it. */
    method Finish(id: string, q: Request, files: seq<SourceFile>, removed: set<string>, renamed: set<string>,
                  ghost w: World, ghost seen: seq<string>)
        returns (ok: bool, ghost done: seq<Op>, ghost order: seq<string>)
      requires id in jobs.jobs
      requires removed == Removed(w.manifests, q.repository, files) && Lists(seen, removed)
      requires renamed == RenamedPaths(w.manifests, q.repository, files, seen)
      modifies graph, semantic, manifests, jobs
      ensures OnlyJob(old(jobs.jobs), jobs.jobs, id)
      ensures Lists(order, removed)
      ensures Advanced(old(Worlds(id)), Worlds(id), done,
                       FinishOps(w, q, files, order, old(jobs.jobs)[id].failed > 0), ok)
      ensures !ok ==> |done| < |FinishOps(w, q, files, order, old(jobs.jobs)[id].failed > 0)|
    {
      hide Run, Apply, RenamedPaths, Removed, CleanupOps, Lists;
      ghost var v := Worlds(id);
      if jobs.jobs[id].failed > 0 {
        RunOne(v, Job(SetStatus(JobStatus.Failed, PARSE_FAILURE)));
        JobCallEffect(v, SetStatus(JobStatus.Failed, PARSE_FAILURE));
        var job := jobs.Update(id, SetStatus(JobStatus.Failed, PARSE_FAILURE));
        ok, done, order := true, [Job(SetStatus(JobStatus.Failed, PARSE_FAILURE))], seen;
        return;
      }
      var names := Enumerate(removed);
      order := names;
      RenameCount(w.manifests, q.repository, files, seen, order);
      ok, done := CleanUp(id, q, names);
      if !ok { return; }
      ghost var calls;
      ghost var x := Worlds(id);
      ok, calls := Complete(id, q, |removed - renamed|, |renamed|);
      ghost var closing := [Job(SetRemoved(|removed - renamed|, |renamed|)),
                            RecordSnapshot(q.repository, q.revision, q.provenance),
                            Job(SetStatus(Completed, None))];
      AdvancedConcat(v, x, Worlds(id), done, closing, calls, ok);
      done := done + calls;
    }

    method StartJob(id: string, files: seq<SourceFile>) returns (ok: bool, ghost done: seq<Op>)
      requires id in jobs.jobs
      modifies jobs
      ensures OnlyJob(old(jobs.jobs), jobs.jobs, id)
      ensures Advanced(old(Worlds(id)), Worlds(id), done, StartOps(files), ok)
    {
      hide Run;
      ghost var w := Worlds(id);
      RunOne(w, Job(Start));
      RunSnoc(w, [Job(Start)], Job(SetDiscovered(|files|)));
      assert [Job(Start)] + [Job(SetDiscovered(|files|))] == StartOps(files);
      NoneRun(w);
      // The first update may raise,
      ok, done := *, [];
      if !ok { return; }
      var job := jobs.Update(id, Start);
      done := [Job(Start)];
      // ensure_schema and the discovery of files here,
      ok := *;
      if !ok { return; }
      job := jobs.Update(id, SetDiscovered(|files|));
      done := StartOps(files);
      // the parsing and the resolution of the files here.
      ok := *;
    }

    method WriteRepositoryRows(a: Analyzer, id: string, q: Request, files: seq<SourceFile>)
        returns (ok: bool, ghost done: seq<Op>)
      requires id in jobs.jobs
      modifies graph
      ensures Advanced(old(Worlds(id)), Worlds(id), done, [WriteRows(FinalRows(a, q.repository, files))], ok)
    {
      hide Run, WriteRelationships, FinalRows;
      ghost var rows := FinalRows(a, q.repository, files);
      ghost var w := Worlds(id);
      ghost var effect;
      NoneRun(w);
      RunOne(w, WriteRows(rows));
      ok, effect := graph.WriteRepositoryRelationships(a, q.repository, files);
      done := if effect then [WriteRows(rows)] else [];
    }

    /** The calls of a job up to each of its stages. */
    lemma JobStages(a: Analyzer, w: World, q: Request, files: seq<SourceFile>, order: seq<string>)
      requires Lists(order, Removed(w.manifests, q.repository, files))
      ensures var v := Run(w, StartOps(files));
              var index := IndexOps(a, w, q, files);
              var all := JobOps(a, w, q, files, order);
              && StartOps(files) <= all && StartOps(files) + LoopOps(a, v, q, files) <= all && index <= all
              && |index| < |all|
              && index == (StartOps(files) + LoopOps(a, v, q, files)) + [WriteRows(FinalRows(a, q.repository, files))]
              && all == index + FinishOps(w, q, files, order, Run(w, index).job.failed > 0)
    {
      hide Run, LoopOps, FinishOps, StartOps, FinalRows;
      FinishCalls(w, q, files, order, Run(w, IndexOps(a, w, q, files)).job.failed > 0);
    }

    lemma Stopped(w: World, v: World, done: seq<Op>, stage: seq<Op>, all: seq<Op>, ok: bool)
      requires Advanced(w, v, done, stage, ok) && stage <= all
      ensures Advanced(w, v, done, all, false) && |done| <= |stage|
    {
      hide Run;
    }

    /** The paths with a manifest and no file any more, as they are enumerated, by content hash. */
    method FindRemoved(q: Request, files: seq<SourceFile>)
        returns (removed: set<string>, seen: seq<string>, byHash: map<string, seq<string>>)
      ensures removed == Removed(manifests.items, q.repository, files) && Lists(seen, removed)
      ensures byHash == RemovedByHash(manifests.items, q.repository, seen)
    {
      var previous := manifests.List(q.repository);
      var paths := set i | 0 <= i < |files| :: files[i].path;
      removed := previous.Keys - paths;
      seen := Enumerate(removed);
      byHash := CollectByHash(q.repository, seen, previous);
    }

    /** The try block: every call it makes, until one raises, is the next one of JobOps. */
    method IndexUnderLock(a: Analyzer, id: string, q: Request, files: seq<SourceFile>)
        returns (ok: bool, ghost done: seq<Op>, ghost order: seq<string>)
      requires ValidAnalyzer(a) && id in jobs.jobs && DistinctPaths(files)
      modifies graph, semantic, manifests, jobs
      ensures OnlyJob(old(jobs.jobs), jobs.jobs, id)
      ensures Lists(order, Removed(old(manifests.items), q.repository, files))
      ensures Advanced(old(Worlds(id)), Worlds(id), done, JobOps(a, old(Worlds(id)), q, files, order), ok)
      ensures !ok ==> |done| < |JobOps(a, old(Worlds(id)), q, files, order)|
    {
      hide Run, Apply, LoopOps, FinishOps, FinalRows, TakeRenames, RemovedByHash, Advanced, JobOps, IndexOps, StartOps;
      ghost var w := Worlds(id);
      ghost var rows := [WriteRows(FinalRows(a, q.repository, files))];
      ghost var calls;
      order := SomeListing(Removed(w.manifests, q.repository, files));
      JobStages(a, w, q, files, order);
      ok, done := StartJob(id, files);
      Stopped(w, Worlds(id), done, StartOps(files), JobOps(a, w, q, files, order), ok);
      if !ok { return; }
      ghost var v := Worlds(id);
      ghost var loop := LoopOps(a, v, q, files);
      AdvancedFully(w, v, done, StartOps(files));
      assert v.manifests == w.manifests by {
        var x := StartShape(w, files);
      }
      var removed, seen, byHash := FindRemoved(q, files);
      var renames;
      ok, renames, calls := IndexFiles(a, id, q, files, Renames(byHash, {}));
      AdvancedConcat(w, v, Worlds(id), StartOps(files), loop, calls, ok);
      done := done + calls;
      Stopped(w, Worlds(id), done, StartOps(files) + loop, JobOps(a, w, q, files, order), ok);
      if !ok { return; }
      ghost var l := Worlds(id);
      AdvancedFully(w, l, done, StartOps(files) + loop);
      ok, calls := WriteRepositoryRows(a, id, q, files);
      AdvancedConcat(w, l, Worlds(id), StartOps(files) + loop, rows, calls, ok);
      done := done + calls;
      Stopped(w, Worlds(id), done, IndexOps(a, w, q, files), JobOps(a, w, q, files, order), ok);
      if !ok { return; }
      ghost var i := Worlds(id);
      AdvancedFully(w, i, done, IndexOps(a, w, q, files));
      ok, calls, order := Finish(id, q, files, removed, renames.renamed, w, seen);
      JobStages(a, w, q, files, order);
      AdvancedConcat(w, i, Worlds(id), done, FinishOps(w, q, files, order, i.job.failed > 0), calls, ok);
      done := done + calls;
    }

    lemma AdvancedFully(w: World, v: World, done: seq<Op>, planned: seq<Op>)
      requires Advanced(w, v, done, planned, true)
      ensures done == planned && v == Run(w, planned)
    {
      hide Run;
    }

    lemma {:induction false} SomeListing(paths: set<string>) returns (listing: seq<string>)
      ensures Lists(listing, paths)
      decreases |paths|
    {
      listing := [];
      if paths != {} {
        var p :| p in paths;
        var rest := SomeListing(paths - {p});
        listing := [p] + rest;
      }
    }

    /** The try block with its except branch: a job whose call raised fails with the error. */
    method IndexOrFail(a: Analyzer, id: string, q: Request, files: seq<SourceFile>)
        returns (ghost done: seq<Op>, ghost order: seq<string>)
      requires ValidAnalyzer(a) && id in jobs.jobs && DistinctPaths(files)
      modifies graph, semantic, manifests, jobs
      ensures OnlyJob(old(jobs.jobs), jobs.jobs, id)
      ensures Lists(order, Removed(old(manifests.items), q.repository, files))
      ensures Ended(old(Worlds(id)), Worlds(id), done, JobOps(a, old(Worlds(id)), q, files, order))
    {
      hide Run, JobOps, Changed, Lists, Removed;
      ghost var w := Worlds(id);
      var ok;
      ok, done, order := IndexUnderLock(a, id, q, files);
      if !ok {
        ghost var v := Worlds(id);
        var message: string := *;
        var job := jobs.Update(id, SetStatus(JobStatus.Failed, Some(message)));
        assert Worlds(id) == v.(job := Changed(v.job, SetStatus(JobStatus.Failed, Some(message))));
        EndedByError(w, v, done, JobOps(a, w, q, files, order), message);
      }
    }

    /** The body of a job's task.  A job that does not get the repository's lock fails and touches
        nothing; one that does makes a prefix of the calls of JobOps, all of them unless one
        raised, in which case it fails with the error; the lock is free again either way. */
    method RunRepositoryJob(a: Analyzer, id: string, files: seq<SourceFile>, withSemantic: bool, server: Server,
                            acquisition: Acquisition, token: string)
        returns (ghost done: seq<Op>, ghost order: seq<string>)
      requires ValidAnalyzer(a) && DistinctPaths(files)
      modifies graph, semantic, manifests, jobs, coordination`locks
      ensures coordination.locks == old(coordination.locks)
      ensures id !in old(jobs.jobs) ==>
                unchanged(graph) && unchanged(semantic) && unchanged(manifests) && unchanged(jobs)
      ensures id in old(jobs.jobs) ==>
        var w := old(Worlds(id));
        && OnlyJob(old(jobs.jobs), jobs.jobs, id)
        && TaskOutcome(a, w, Worlds(id), RequestOf(w.job, withSemantic, server, acquisition), files,
                       w.job.repository in old(coordination.locks), done, order)
    {
      hide Run, JobOps, Changed, Lists, Removed, Ended, Apply, Advanced;
      done, order := [], [];
      var initial := jobs.Get(id);
      if initial.None? { return; }
      ghost var w := Worlds(id);
      var repository := initial.value.repository;
      var q := RequestOf(initial.value, withSemantic, server, acquisition);
      var acquired := coordination.AcquireRepositoryLock(repository, token);
      if !acquired {
        var job := jobs.Update(id, SetStatus(JobStatus.Failed, LOCK_HELD));
        return;
      }
      done, order := IndexOrFail(a, id, q, files);
      coordination.ReleaseRepositoryLock(repository, token);
      assert coordination.locks == old(coordination.locks);
    }

    // ---------------------------------------------------------------- requests

    /** Jobs left by a previous process are failed once, before anything else is done. */
    method EnsureJobStoreReady()
      modifies this`ready, jobs
      ensures ready
      ensures jobs.jobs.Keys == old(jobs.jobs).Keys
      ensures forall id :: id in jobs.jobs ==>
                jobs.jobs[id] == if old(ready) then old(jobs.jobs)[id] else Interrupted(old(jobs.jobs)[id])
    {
      if !ready {
        var count := jobs.FailInterrupted();
        ready := true;
      }
    }

    /** index_repository: the request that wins its identity's claim creates a pending job and has
        its task started; any other returns the job of the claim, or raises (None) when that job
        is still not registered after the last look. */
    method IndexRepository(identity: string, id: string, repository: string, revision: string, mode: IndexMode)
        returns (job: Option<IndexJob>, spawned: bool)
      requires id !in jobs.jobs && forall i :: i in coordination.claims ==> coordination.claims[i] != id
      modifies this`ready, jobs, coordination`claims
      ensures coordination.claims == Claim(old(coordination.claims), identity, id)
      ensures spawned <==> identity !in old(coordination.claims)
      ensures spawned ==>
              job == Some(NewJob(id, repository, revision, mode)) && id in jobs.jobs && jobs.jobs[id] == job.value
      ensures jobs.jobs.Keys == old(jobs.jobs).Keys + if spawned then {id} else {}
      ensures forall j :: j in old(jobs.jobs) ==>
                jobs.jobs[j] == if old(ready) then old(jobs.jobs)[j] else Interrupted(old(jobs.jobs)[j])
      ensures !spawned ==> var claimed := coordination.claims[identity];
                           job == if claimed in jobs.jobs then Some(jobs.jobs[claimed]) else None
    {
      hide Interrupted;
      EnsureJobStoreReady();
      var claimed := coordination.ClaimIdempotency(identity, id);
      if claimed != id {
        spawned := false;
        job := None;
        for n := 0 to 20
          invariant job.None? && (n > 0 ==> claimed !in jobs.jobs)
          modifies {}
        {
          job := jobs.Get(claimed);
          if job.Some? { return; }
        }
        return;
      }
      spawned := true;
      var created := jobs.Create(NewJob(id, repository, revision, mode));
      job := Some(created);
    }

    /** get_index_status: an unknown job is an EntityNotFoundError. */
    method GetIndexStatus(id: string) returns (job: Option<IndexJob>)
      modifies this`ready, jobs
      ensures ready && jobs.jobs.Keys == old(jobs.jobs).Keys
      ensures job == if id in old(jobs.jobs)
                     then Some(if old(ready) then old(jobs.jobs)[id] else Interrupted(old(jobs.jobs)[id])) else None
    {
      EnsureJobStoreReady();
      job := jobs.Get(id);
    }
  }
}

/** Inputs on which the promises of IndexLimits fail. */
module FailingInputs {
  import opened Contracts
  import opened IndexStores
  import opened IndexJobs
  import opened GraphInvariants
  import opened JobInvariants
  import opened IncrementalRefinesFull
  import opened CompletedJobs
  import opened JobAccounting
  import opened JobHistories
  import opened RevisionSnapshots
  import opened IndexLimits

  /** A function of the file f.py named after the file's content. */
  function SampleEntity(repository: string, path: string, hash: string): CodeEntity {
    CodeEntity(EntityNode(repository, path, Function, hash), Function, hash, hash, path, 1, 1, hash, NoMetadata)
  }

  const SAMPLE := Analyzer((repository: string, path: string, hash: string) =>
                             Some([SampleEntity(repository, path, hash)]),
                           (hash: string, e: CodeEntity) => "new")

  lemma SampleEntities(repository: string, path: string, hash: string)
    ensures ValidAnalyzer(SAMPLE) && !Fatal(SAMPLE, repository, path, hash)
    ensures Entities(SAMPLE, repository, path, hash) == [SampleEntity(repository, path, hash)]
    ensures Rows(SAMPLE, repository, path, hash)
            == map[SampleEntity(repository, path, hash).id := SampleEntity(repository, path, hash)]
    ensures Documents(SAMPLE, repository, path, hash) == [SemanticDocument(SampleEntity(repository, path, hash), "new")]
  {
    var e := SampleEntity(repository, path, hash);
    assert Entities(SAMPLE, repository, path, hash) == [e];
    OneEntity(SAMPLE, hash, e);
  }

  lemma OneEntity(a: Analyzer, hash: string, e: CodeEntity)
    requires Searchable(e.kind)
    ensures RowMap([e]) == map[e.id := e]
    ensures DocumentsOf(a, hash, [e]) == [SemanticDocument(e, a.text(hash, e))]
  {
    assert [e][..0] == [];
  }

  const NOTHING_KNOWN := Provenance("1", Acquisition("/r", "", "", None, None, None))

  // ---------------------------------------------------------------- more than a page

  function Name(n: nat): (s: string)
    ensures |s| == n
  {
    if n == 0 then "" else Name(n - 1) + "x"
  }

  function ManyPoints(n: nat): Points {
    if n == 0 then map[]
    else
      var e := SampleEntity("r", "f.py", Name(n));
      ManyPoints(n - 1)[PointKey("r", "s", e.id) := SemanticDocument(e, "")]
  }

  lemma {:induction false} ManyPointsCount(n: nat)
    ensures FilePoints(ManyPoints(n), "r", "s", "f.py") == ManyPoints(n).Keys && |ManyPoints(n).Keys| == n
    ensures FilePoints(ManyPoints(n), "r", "t", "f.py") == {}
    ensures forall k :: k in ManyPoints(n) ==> k.entity.EntityNode? && |k.entity.qualifiedName| <= n
  {
    if n > 0 {
      ManyPointsCount(n - 1);
      var e := SampleEntity("r", "f.py", Name(n));
      assert ManyPoints(n).Keys == ManyPoints(n - 1).Keys + {PointKey("r", "s", e.id)};
    }
  }

  /** Of a file with 1,001 points, 1,000 arrive. */
  lemma OnePointIsLost(server: Server)
    ensures var points := ManyPoints(1001);
            && |FilePoints(points, "r", "s", "f.py")| == 1001
            && |FilePoints(CarryPoints(server, points, "r", "s", "t", "f.py"), "r", "t", "f.py")| == 1000
  {
    hide CarryPoints, FilePoints, ManyPoints;
    ManyPointsCount(1001);
    CarriedWholeExactly(server, ManyPoints(1001), "r", "s", "t", "f.py");
  }

  // ---------------------------------------------------------------- an older analysis version

  const OLD := Manifest("h", "s", 1)

  /** The file as an earlier analysis version left it, its document worded as that version did. */
  function OldPoints(): Points {
    map[PointKey("r", "s", SampleEntity("r", "f.py", "h").id) :=
        SemanticDocument(SampleEntity("r", "f.py", "h"), "old")]
  }

  /** Although a new version re-writes the unchanged file, the new revision gets the old document. */
  lemma OldDocumentStays(server: Server, graph: Graph, job: IndexJob)
    ensures var w := World(graph, OldPoints(), map[("r", "f.py") := OLD], job);
            var q, f := Request("r", "t", Incremental, true, server, NOTHING_KNOWN), SourceFile("f.py", "h", []);
            && FileOps(SAMPLE, w, q, f) != [] && FileOps(SAMPLE, w, q, f)[0].WriteGraph?
            && FileAt(Run(w, FileOps(SAMPLE, w, q, f)).points, "r", "t", "f.py") != Current(SAMPLE, q, f)
  {
    hide Run, FileOps, CarryPoints, PageOf;
    var w := World(graph, OldPoints(), map[("r", "f.py") := OLD], job);
    var q, f := Request("r", "t", Incremental, true, server, NOTHING_KNOWN), SourceFile("f.py", "h", []);
    SampleEntities("r", "f.py", "h");
    WritesFirst(SAMPLE, w, q, f);
    OldPointsStored();
    CurrentSample("s");
    EmbeddedExactly(SAMPLE, w, q, f);
  }

  lemma WritesFirst(a: Analyzer, w: World, q: Request, f: SourceFile)
    requires !Skippable(q.mode, Previous(w.manifests, q.repository, f.path), f.hash)
    requires !Fatal(a, q.repository, f.path, f.hash)
    ensures FileOps(a, w, q, f) != []
    ensures FileOps(a, w, q, f)[0]
            == WriteGraph(q.repository, q.revision, f.path, Entities(a, q.repository, f.path, f.hash), f.relationships)
  {
  }

  lemma OldPointsStored()
    ensures FilePoints(OldPoints(), "r", "t", "f.py") == {}
    ensures |FilePoints(OldPoints(), "r", "s", "f.py")| == 1
    ensures FileAt(OldPoints(), "r", "s", "f.py") == OldPoints()
  {
    assert "s" != "t";
    var k := PointKey("r", "s", SampleEntity("r", "f.py", "h").id);
    assert FilePoints(OldPoints(), "r", "s", "f.py") == {k};
  }

  lemma CurrentSample(revision: string)
    ensures var e := SampleEntity("r", "f.py", "h");
            DocumentMap("r", revision, Documents(SAMPLE, "r", "f.py", "h"))
            == map[PointKey("r", revision, e.id) := SemanticDocument(e, "new")]
  {
    SampleEntities("r", "f.py", "h");
    var documents := Documents(SAMPLE, "r", "f.py", "h");
    assert documents[..0] == [];
  }

  // ---------------------------------------------------------------- a revision indexed twice

  lemma WrittenNodes(a: Analyzer, w: World, q: Request, f: SourceFile)
    requires !Skippable(q.mode, Previous(w.manifests, q.repository, f.path), f.hash)
    requires !Fatal(a, q.repository, f.path, f.hash)
    ensures Run(w, FileOps(a, w, q, f)).graph.nodes
            == WriteNodes(w.graph.nodes, q.repository, q.revision, Entities(a, q.repository, f.path, f.hash))
  {
    hide Run, Apply, PageOf, WriteNodes, WriteRelationships, CarryPoints, Documents, Entities, AllQuiet, CarryCount,
         ChunkCount;
    var ops := FileOps(a, w, q, f);
    var previous := Previous(w.manifests, q.repository, f.path);
    RunConcat(w, [ops[0]], ops[1..]);
    RunOne(w, ops[0]);
    assert ops == [ops[0]] + ops[1..];
    VectorCallsQuiet(w.points, q, VectorSource(previous, f.hash), f.path, Documents(a, q.repository, f.path, f.hash));
    assert forall n :: 1 <= n < |ops| ==> !ops[n].WriteGraph? && !ops[n].CarryGraph? && !ops[n].RemoveGraph?;
    NodesUntouched(Apply(w, ops[0]), ops[1..]);
    WriteAppliesNodes(w, ops[0]);
  }

  lemma WriteAppliesNodes(w: World, op: Op)
    requires op.WriteGraph?
    ensures Apply(w, op).graph.nodes == WriteNodes(w.graph.nodes, op.repository, op.revision, op.entities)
  {
  }

  lemma WriteThenWrite(nodes: Nodes, repository: string, revision: string, e: CodeEntity, d: CodeEntity)
    requires e.id != d.id
    ensures var twice := WriteNodes(WriteNodes(nodes, repository, revision, [e]), repository, revision, [d]);
            e.id in twice && InFileAt(twice[e.id], repository, revision, e.filePath)
  {
    assert [e][..0] == [] && [d][..0] == [];
    assert RowMap([e]) == map[e.id := e] && RowMap([d]) == map[d.id := d];
  }

  /** A full job over new content at the same revision leaves the entity of the old content there. */
  lemma StaleEntityStays(w: World, q: Request)
    requires q.mode == Full
    ensures var f, g := SourceFile("f.py", "h", []), SourceFile("f.py", "g", []);
            var once := Run(w, FileOps(SAMPLE, w, q, f));
            var twice := Run(once, FileOps(SAMPLE, once, q, g));
            && SampleEntity(q.repository, "f.py", "h").id
               in FileMembers(twice.graph.nodes, q.repository, q.revision, "f.py")
            && SampleEntity(q.repository, "f.py", "h").id !in Rows(SAMPLE, q.repository, "f.py", "g")
  {
    hide Run, FileOps, WriteNodes, Entities, Rows, RowMap, Fatal;
    var f, g := SourceFile("f.py", "h", []), SourceFile("f.py", "g", []);
    var once := Run(w, FileOps(SAMPLE, w, q, f));
    assert "g"[0] != "h"[0];
    WriteThenWrite(w.graph.nodes, q.repository, q.revision, SampleEntity(q.repository, "f.py", "h"),
                   SampleEntity(q.repository, "f.py", "g"));
    SampleEntities(q.repository, "f.py", "h");
    SampleEntities(q.repository, "f.py", "g");
    WrittenNodes(SAMPLE, w, q, f);
    WrittenNodes(SAMPLE, once, q, g);
  }

  // ---------------------------------------------------------------- a revision without files

  /** A job over a repository that has no file completes. */
  lemma EmptyJobCompletes(a: Analyzer, w: World, q: Request)
    requires w.job.failed == 0 && w.manifests == map[]
    ensures Lists([], Removed(w.manifests, q.repository, []))
    ensures Completes(a, w, q, [], []) && Run(w, JobOps(a, w, q, [], [])).job.status == Completed
  {
    hide Run, Apply, LoopOps, FinishOps, JobOps, WriteRelationships;
    assert Removed(w.manifests, q.repository, []) == {};
    var v := StartShape(w, []);
    var l := Run(v, LoopOps(a, v, q, []));
    NoCalls(a, v, q);
    var i := Run(w, IndexOps(a, w, q, []));
    RunIndex(a, w, q, []);
    RowsShape(l, FinalRows(a, q.repository, []));
    EmptyFinish(w, i, q);
    RunConcat(w, IndexOps(a, w, q, []), FinishOps(w, q, [], [], false));
    JobOpsNotFailed(a, w, q);
  }

  lemma JobOpsNotFailed(a: Analyzer, w: World, q: Request)
    requires Lists([], Removed(w.manifests, q.repository, []))
    requires Run(w, IndexOps(a, w, q, [])).job.failed == 0
    ensures JobOps(a, w, q, [], []) == IndexOps(a, w, q, []) + FinishOps(w, q, [], [], false)
  {
    hide Run, IndexOps, FinishOps;
  }

  lemma EmptyFinish(w: World, i: World, q: Request)
    requires Lists([], Removed(w.manifests, q.repository, []))
    ensures var done := Run(i, FinishOps(w, q, [], [], false));
            done.job.failed == i.job.failed && done.job.status == Completed
  {
    hide Run, Apply, FinishOps;
    FinishShape(w, i, q, [], []);
    NoCleanup(i, q);
  }

  /** The first job over a repository without files completes, and records no snapshot. */
  lemma EmptySnapshotIsLost(a: Analyzer, q: Request, job: IndexJob)
    requires ValidAnalyzer(a) && job.failed == 0
    ensures var w := World(EMPTY, map[], map[], job);
            && Lists([], Removed(w.manifests, q.repository, []))
            && Run(w, JobOps(a, w, q, [], [])).job.status == Completed
            && Run(w, JobOps(a, w, q, [], [])).graph.snapshots == map[]
  {
    hide Run, JobOps, Completes;
    var w := World(EMPTY, map[], map[], job);
    EmptyJobCompletes(a, w, q);
    SnapshotExactly(a, w, q, [], []);
  }
}

/** The latest revision of an entity is the one indexed last. */
module LatestRevisions {
  import opened Contracts
  import opened IndexStores
  import opened IndexJobs
  import opened GraphInvariants
  import opened JobInvariants
  import opened IncrementalRefinesFull
  import opened CompletedJobs
  import opened CompletedEdges
  import opened ExactIndex
  import opened JobHistories
  import opened ExactEdges

  ghost predicate LatestIs(nodes: Nodes, id: NodeId, revision: string) {
    id in nodes && nodes[id].latest == revision
  }

  /** A write sets it, and so does the carry that stands for one. */
  lemma WriteIsLatest(nodes: Nodes, repository: string, revision: string, entities: seq<CodeEntity>, id: NodeId)
    requires id in RowMap(entities)
    ensures LatestIs(WriteNodes(nodes, repository, revision, entities), id, revision)
  {
  }

  lemma FileIsLatest(a: Analyzer, w: World, q: Request, f: SourceFile, torn: set<FileKey>, id: NodeId)
    requires ValidAnalyzer(a) && Invariant(a, w, torn) && !FileFails(a, w, q, f)
    requires Skips(q, w.manifests, f) ==> (q.repository, f.path) !in torn
    requires id in Rows(a, q.repository, f.path, f.hash)
    ensures LatestIs(Run(w, FileOps(a, w, q, f)).graph.nodes, id, q.revision)
  {
    hide Run, Apply, FileOps, Invariant, RowMap, WriteNodes, CarryNodes, LatestIs;
    var g, rest := FileParts(a, w, q, f);
    RunConcat(w, [g], rest);
    RunOne(w, g);
    CallsKeepGraph(Apply(w, g), rest);
    GraphCallNodes(w, g);
    WriteIsLatest(w.graph.nodes, q.repository, q.revision, Entities(a, q.repository, f.path, f.hash), id);
    if g.CarryGraph? {
      CarriedHolds(a, w, q.repository, q.revision, f.path, f.hash, torn);
    }
  }

  lemma GraphCallNodes(w: World, g: Op)
    ensures g.CarryGraph? ==>
              Apply(w, g).graph.nodes == CarryNodes(w.graph.nodes, g.repository, g.source, g.target, g.path, g.hash)
    ensures g.WriteGraph? ==>
              Apply(w, g).graph.nodes == WriteNodes(w.graph.nodes, g.repository, g.revision, g.entities)
  {
  }

  /** A graph call for another file leaves an entity's node alone. */
  lemma OtherCallLeaves(a: Analyzer, w: World, op: Op, id: NodeId, path: string, hash: string)
    requires ValidAnalyzer(a) && GraphSound(a, w.graph.nodes) && id.EntityNode? && id.path != path
    requires || (op.WriteGraph? && op.entities == Entities(a, op.repository, path, hash))
             || (op.CarryGraph? && op.path == path)
             || (op.RemoveGraph? && op.path == path)
    ensures forall revision :: LatestIs(w.graph.nodes, id, revision) ==>
              LatestIs(Apply(w, op).graph.nodes, id, revision)
  {
    if id in w.graph.nodes {
      NodeOfFile(a, w.graph.nodes, id);
    }
    if op.WriteGraph? && id in RowMap(op.entities) {
      RowOfFile(a, op.repository, path, hash, id);
    }
  }

  lemma OtherFileLeaves(a: Analyzer, w: World, q: Request, f: SourceFile, id: NodeId, revision: string)
    requires ValidAnalyzer(a) && GraphSound(a, w.graph.nodes) && id.EntityNode? && id.path != f.path
    requires LatestIs(w.graph.nodes, id, revision)
    ensures LatestIs(Run(w, FileOps(a, w, q, f)).graph.nodes, id, revision)
  {
    hide Run, Apply, FileOps, FileFails, GraphSound, LatestIs;
    if FileFails(a, w, q, f) {
      FailedFile(a, w, q, f);
    } else {
      var g, rest := FileParts(a, w, q, f);
      RunConcat(w, [g], rest);
      RunOne(w, g);
      CallsKeepGraph(Apply(w, g), rest);
      OtherCallLeaves(a, w, g, id, f.path, f.hash);
    }
  }

  lemma InvariantIsSound(a: Analyzer, w: World, torn: set<FileKey>)
    requires Invariant(a, w, torn)
    ensures GraphSound(a, w.graph.nodes)
  {
  }

  lemma {:induction false} LoopIsLatest(a: Analyzer, v: World, q: Request, files: seq<SourceFile>, torn: set<FileKey>,
                                        n: nat, id: NodeId)
    requires ValidAnalyzer(a) && Invariant(a, v, torn) && SkipsWhole(q, files, v.manifests, torn)
    requires DistinctPaths(files) && Run(v, LoopOps(a, v, q, files)).job.failed == v.job.failed
    requires n < |files| && id in Rows(a, q.repository, files[n].path, files[n].hash)
    ensures LatestIs(Run(v, LoopOps(a, v, q, files)).graph.nodes, id, q.revision)
    decreases |files|
  {
    hide Run, LoopOps, FileOps, FileFails, Invariant, Rows, LatestIs, Open, Closed, GraphSound, Recorded, AllRecorded,
         Skips;
    var init, last := files[..|files| - 1], files[|files| - 1];
    var before := LoopOps(a, v, q, init);
    var u := Run(v, before);
    NoneFailed(a, v, q, files);
    var after := LoopStep(a, v, q, files);
    LoopThroughout(a, v, q, init, torn);
    AtEnd(a, v, before, torn);
    LoopOutcome(a, v, q, init);
    if n == |init| {
      ManifestUntouched(q, v.manifests, u.manifests, init, last);
      FileIsLatest(a, u, q, last, torn - Closed({}, before), id);
    } else {
      assert init[n] == files[n];
      SkipsWholeInit(q, files, v.manifests, torn);
      LoopIsLatest(a, v, q, init, torn, n, id);
      RowOfFile(a, q.repository, files[n].path, files[n].hash, id);
      InvariantIsSound(a, u, torn - Closed({}, before));
      OtherFileLeaves(a, u, q, last, id, q.revision);
    }
  }

  lemma SkipsWholeInit(q: Request, files: seq<SourceFile>, manifests: Manifests, torn: set<FileKey>)
    requires SkipsWhole(q, files, manifests, torn) && files != []
    ensures SkipsWhole(q, files[..|files| - 1], manifests, torn)
  {
  }

  lemma ManifestUntouched(q: Request, before: Manifests, after: Manifests, init: seq<SourceFile>, last: SourceFile)
    requires SameElsewhere(q, before, after, Paths(init)) && DistinctPaths(init + [last])
    ensures Skips(q, after, last) <==> Skips(q, before, last)
  {
    assert (init + [last])[|init|] == last;
    forall i | 0 <= i < |init|
      ensures init[i].path != last.path
    {
      assert (init + [last])[i] == init[i];
    }
  }

  lemma {:induction false} CleanupLeaves(a: Analyzer, w: World, q: Request, listing: seq<string>, id: NodeId,
                                         revision: string, torn: set<FileKey>)
    requires ValidAnalyzer(a) && Invariant(a, w, torn) && id.EntityNode? && id.path !in listing
    requires LatestIs(w.graph.nodes, id, revision)
    ensures LatestIs(Run(w, CleanupOps(q, listing)).graph.nodes, id, revision)
    ensures GraphSound(a, Run(w, CleanupOps(q, listing)).graph.nodes)
    decreases |listing|
  {
    hide Run, Apply, CleanupOps, CleanupOne, LatestIs, GraphSound, Invariant;
    if listing == [] {
      NoCleanup(w, q);
      InvariantIsSound(a, w, torn);
    } else {
      var init, last := listing[..|listing| - 1], listing[|listing| - 1];
      assert listing == init + [last];
      CleanupLeaves(a, w, q, init, id, revision, torn);
      CleanupSnoc(w, q, init, last);
      OnePathLeaves(a, Run(w, CleanupOps(q, init)), q, last, id, revision);
    }
  }

  lemma OnePathLeaves(a: Analyzer, w: World, q: Request, path: string, id: NodeId, revision: string)
    requires ValidAnalyzer(a) && GraphSound(a, w.graph.nodes) && id.EntityNode? && id.path != path
    requires LatestIs(w.graph.nodes, id, revision)
    ensures LatestIs(Run(w, CleanupOne(q, path)).graph.nodes, id, revision)
    ensures GraphSound(a, Run(w, CleanupOne(q, path)).graph.nodes)
  {
    hide Run, Apply, LatestIs, GraphSound;
    var ops := CleanupOne(q, path);
    var g, rest := ops[0], ops[1..];
    assert ops == [g] + rest;
    RunConcat(w, [g], rest);
    RunOne(w, g);
    CallsKeepNodes(Apply(w, g), rest);
    OtherCallLeaves(a, w, g, id, path, "");
    RemovalIsSound(a, w, q, path);
  }

  lemma RemovalIsSound(a: Analyzer, w: World, q: Request, path: string)
    requires ValidAnalyzer(a) && GraphSound(a, w.graph.nodes)
    ensures GraphSound(a, Apply(w, RemoveGraph(q.server, q.repository, q.revision, path)).graph.nodes)
  {
    RemoveKeeps(q.server, a, w.graph.nodes, map[], q.repository, q.revision, path, {});
  }

  lemma {:induction false} CallsKeepNodes(w: World, ops: seq<Op>)
    requires forall n :: 0 <= n < |ops| ==> ops[n].DropVectors? || ops[n].DeleteManifest?
    ensures Run(w, ops).graph.nodes == w.graph.nodes
    decreases |ops|
  {
    if ops != [] {
      CallsKeepNodes(w, ops[..|ops| - 1]);
    }
  }

  /** After a completed job the latest revision of every entity of its files is the job's, whether
      the file was written or carried. */
  lemma LatestIsIndexed(a: Analyzer, w: World, q: Request, files: seq<SourceFile>, listing: seq<string>,
                        torn: set<FileKey>, n: nat, id: NodeId)
    requires ValidAnalyzer(a) && Invariant(a, w, torn) && SkipsWhole(q, files, w.manifests, torn)
    requires Lists(listing, Removed(w.manifests, q.repository, files))
    requires DistinctPaths(files) && Completes(a, w, q, files, listing)
    requires n < |files| && id in Rows(a, q.repository, files[n].path, files[n].hash)
    ensures LatestIs(Run(w, JobOps(a, w, q, files, listing)).graph.nodes, id, q.revision)
  {
    hide Run, Apply, JobOps, LoopOps, CleanupOps, IndexOps, LatestIs, Rows, GraphSound, Invariant, SkipsWhole, Open,
         Closed;
    var v, l, i, x := CompletedShape(a, w, q, files, listing);
    SameInvariant(a, w, v, torn);
    LoopIsLatest(a, v, q, files, torn, n, id);
    RowOfFile(a, q.repository, files[n].path, files[n].hash, id);
    assert files[n].path in Paths(files);
    LoopThroughout(a, v, q, files, torn);
    AtEnd(a, v, LoopOps(a, v, q, files), torn);
    SameInvariant(a, l, i, torn - Closed({}, LoopOps(a, v, q, files)));
    CleanupLeaves(a, i, q, listing, id, q.revision, torn - Closed({}, LoopOps(a, v, q, files)));
  }

  lemma SameInvariant(a: Analyzer, w: World, v: World, torn: set<FileKey>)
    requires SameIndex(w, v) || SameIndex(v, w)
    requires Invariant(a, w, torn)
    ensures Invariant(a, v, torn)
  {
  }
}

/** A job touches one revision of one repository, wherever it stops. */
module PreservedHistory {
  import opened Contracts
  import opened IndexStores
  import opened IndexJobs
  import opened GraphInvariants

  ghost function Members(nodes: Nodes, repository: string, revision: string): set<NodeId> {
    set id | id in nodes && nodes[id].repository == repository && revision in nodes[id].revisions
  }

  ghost function PointsAt(points: Points, repository: string, revision: string): Points {
    map k | k in points && k.repository == repository && k.revision == revision :: points[k]
  }

  ghost function ManifestsOf(manifests: Manifests, repository: string): Manifests {
    map k | k in manifests && k.0 == repository :: manifests[k]
  }

  /** A node belongs to the repository its identity was digested from. */
  ghost predicate Owned(nodes: Nodes) {
    forall id :: id in nodes ==> id.EntityNode? && id.repository == nodes[id].repository
  }

  /** The call names the repository and, where it names one, the revision of the job. */
  ghost predicate OnTarget(q: Request, op: Op) {
    match op
    case WriteGraph(repository, revision, _, entities, _) =>
      && repository == q.repository && revision == q.revision
      && forall e :: e in entities ==> e.id.EntityNode? && e.id.repository == q.repository
    case CarryGraph(repository, _, target, _, _) => repository == q.repository && target == q.revision
    case CarryVectors(_, repository, _, target, _) => repository == q.repository && target == q.revision
    case DropVectors(repository, revision, _) => repository == q.repository && revision == q.revision
    case UpsertVectors(repository, revision, _, _) => repository == q.repository && revision == q.revision
    case RemoveGraph(_, repository, revision, _) => repository == q.repository && revision == q.revision
    case PutManifest(repository, _, _) => repository == q.repository
    case DeleteManifest(repository, _) => repository == q.repository
    case RecordSnapshot(repository, revision, _) => repository == q.repository && revision == q.revision
    case _ => true
  }

  /** Everything stored for another revision, and every manifest of another repository. */
  ghost predicate Untouched(w: World, v: World, q: Request) {
    && (forall repository, revision :: (repository, revision) != (q.repository, q.revision) ==>
          && Members(v.graph.nodes, repository, revision) == Members(w.graph.nodes, repository, revision)
          && PointsAt(v.points, repository, revision) == PointsAt(w.points, repository, revision))
    && (forall repository :: repository != q.repository ==>
          ManifestsOf(v.manifests, repository) == ManifestsOf(w.manifests, repository))
  }

  lemma WriteTouchesTarget(nodes: Nodes, repository: string, revision: string, entities: seq<CodeEntity>)
    requires Owned(nodes)
    requires forall e :: e in entities ==> e.id.EntityNode? && e.id.repository == repository
    ensures var after := WriteNodes(nodes, repository, revision, entities);
            Owned(after) && forall r, s :: (r, s) != (repository, revision) ==>
              Members(after, r, s) == Members(nodes, r, s)
  {
    var after := WriteNodes(nodes, repository, revision, entities);
    forall id | id in RowMap(entities)
      ensures id.EntityNode? && id.repository == repository
    {
      RowMapKeys(entities, id);
    }
    forall r, s, id | (r, s) != (repository, revision)
      ensures id in Members(after, r, s) <==> id in Members(nodes, r, s)
    {
    }
  }

  lemma {:induction false} DocumentMapKeys(repository: string, revision: string, documents: seq<SemanticDocument>)
    ensures forall k :: k in DocumentMap(repository, revision, documents) ==>
              k.repository == repository && k.revision == revision
  {
    if documents != [] {
      DocumentMapKeys(repository, revision, documents[..|documents| - 1]);
    }
  }

  ghost predicate NodesUntouched(nodes: Nodes, after: Nodes, repository: string, revision: string) {
    && Owned(after)
    && forall r, s :: (r, s) != (repository, revision) ==> Members(after, r, s) == Members(nodes, r, s)
  }

  lemma CarryTouchesTarget(nodes: Nodes, repository: string, source: string, target: string, path: string, hash: string)
    requires Owned(nodes)
    ensures NodesUntouched(nodes, CarryNodes(nodes, repository, source, target, path, hash), repository, target)
  {
    var after := CarryNodes(nodes, repository, source, target, path, hash);
    forall r, s, id | (r, s) != (repository, target)
      ensures id in Members(after, r, s) <==> id in Members(nodes, r, s)
    {
    }
  }

  lemma RemoveTouchesTarget(server: Server, nodes: Nodes, repository: string, revision: string, path: string)
    requires Owned(nodes)
    ensures NodesUntouched(nodes, RemoveNodes(server, nodes, repository, revision, path), repository, revision)
  {
    hide PageOf;
    var after := RemoveNodes(server, nodes, repository, revision, path);
    forall r, s, id | (r, s) != (repository, revision)
      ensures id in Members(after, r, s) <==> id in Members(nodes, r, s)
    {
      if id in Members(nodes, r, s) && InFileAt(nodes[id], repository, revision, path) {
        assert s in nodes[id].revisions - {revision};
      }
    }
  }

  ghost predicate PointsUntouched(points: Points, after: Points, repository: string, revision: string) {
    forall k: PointKey :: !(k.repository == repository && k.revision == revision) ==>
      (k in after <==> k in points) && (k in after ==> after[k] == points[k])
  }

  lemma PointsAtUntouched(points: Points, after: Points, repository: string, revision: string)
    requires PointsUntouched(points, after, repository, revision)
    ensures forall r, s :: (r, s) != (repository, revision) ==> PointsAt(after, r, s) == PointsAt(points, r, s)
  {
  }

  lemma VectorCallTouchesTarget(w: World, q: Request, op: Op)
    requires OnTarget(q, op)
    requires op.CarryVectors? || op.DropVectors? || op.UpsertVectors?
    ensures PointsUntouched(w.points, Apply(w, op).points, q.repository, q.revision)
    ensures Apply(w, op) == w.(points := Apply(w, op).points)
  {
    hide PageOf, DocumentMap, CarryPoints, FilePoints;
    if op.UpsertVectors? {
      DocumentMapKeys(op.repository, op.revision, op.documents);
    } else if op.CarryVectors? {
      CarryTouchesPoints(op.server, w.points, op.repository, op.source, op.target, op.path);
    }
  }

  lemma CarryTouchesPoints(server: Server, points: Points, repository: string, source: string, target: string,
                           path: string)
    ensures PointsUntouched(points, CarryPoints(server, points, repository, source, target, path), repository, target)
  {
    hide PageOf;
    PageWithin(server, FilePoints(points, repository, source, path));
  }

  lemma CallTouchesTarget(w: World, q: Request, op: Op)
    requires Owned(w.graph.nodes) && OnTarget(q, op)
    ensures Owned(Apply(w, op).graph.nodes) && Untouched(w, Apply(w, op), q)
  {
    if op.CarryVectors? || op.DropVectors? || op.UpsertVectors? {
      VectorCallStaysOnTarget(w, q, op);
    } else {
      GraphCallStaysOnTarget(w, q, op);
    }
  }

  lemma VectorCallStaysOnTarget(w: World, q: Request, op: Op)
    requires Owned(w.graph.nodes) && OnTarget(q, op)
    requires op.CarryVectors? || op.DropVectors? || op.UpsertVectors?
    ensures Owned(Apply(w, op).graph.nodes) && Untouched(w, Apply(w, op), q)
  {
    hide Apply;
    VectorCallTouchesTarget(w, q, op);
    PointsAtUntouched(w.points, Apply(w, op).points, q.repository, q.revision);
  }

  lemma GraphCallStaysOnTarget(w: World, q: Request, op: Op)
    requires Owned(w.graph.nodes) && OnTarget(q, op)
    requires !(op.CarryVectors? || op.DropVectors? || op.UpsertVectors?)
    ensures Owned(Apply(w, op).graph.nodes) && Untouched(w, Apply(w, op), q)
  {
    hide WriteNodes, CarryNodes, RemoveNodes, WriteRelationships;
    if op.WriteGraph? {
      WriteTouchesTarget(w.graph.nodes, op.repository, op.revision, op.entities);
      var nodes := WriteNodes(w.graph.nodes, op.repository, op.revision, op.entities);
      RelationshipsKeepNodes(w.graph.(nodes := nodes, known := w.graph.known + {(op.repository, op.revision)}),
                             op.rows);
    } else if op.CarryGraph? {
      CarryTouchesTarget(w.graph.nodes, op.repository, op.source, op.target, op.path, op.hash);
    } else if op.RemoveGraph? {
      RemoveTouchesTarget(op.server, w.graph.nodes, op.repository, op.revision, op.path);
    } else if op.WriteRows? {
      RelationshipsKeepNodes(w.graph, op.rows);
    }
  }

  lemma RelationshipsKeepNodes(g: Graph, rows: seq<CodeRelationship>)
    ensures WriteRelationships(g, rows).nodes == g.nodes
  {
  }

  ghost predicate AllOnTarget(q: Request, ops: seq<Op>) {
    forall n :: 0 <= n < |ops| ==> OnTarget(q, ops[n])
  }

  lemma UntouchedTrans(w: World, v: World, u: World, q: Request)
    requires Untouched(w, v, q) && Untouched(v, u, q)
    ensures Untouched(w, u, q)
  {
  }

  lemma {:induction false} CallsTouchTarget(w: World, q: Request, ops: seq<Op>)
    requires Owned(w.graph.nodes) && AllOnTarget(q, ops)
    ensures Owned(Run(w, ops).graph.nodes) && Untouched(w, Run(w, ops), q)
  {
    hide Apply, Untouched, Owned;
    if ops != [] {
      var init := ops[..|ops| - 1];
      CallsTouchTarget(w, q, init);
      CallTouchesTarget(Run(w, init), q, ops[|ops| - 1]);
      UntouchedTrans(w, Run(w, init), Run(w, ops), q);
    } else {
      UntouchedRefl(w, q);
    }
  }

  lemma UntouchedRefl(w: World, q: Request)
    ensures Untouched(w, w, q)
  {
  }

  lemma VectorsOnTarget(points: Points, q: Request, source: Option<string>, path: string,
                        documents: seq<SemanticDocument>)
    ensures AllOnTarget(q, WriteVectors(points, q, source, path, documents))
    ensures source.Some? ==> AllOnTarget(q, SkipVectors(points, q, source.value, path, documents))
  {
    hide CarryCount;
    assert AllOnTarget(q, IndexVectors(q, path, documents));
    if source.Some? {
      assert AllOnTarget(q, CarryOrIndex(points, q, source.value, path, documents));
    }
  }

  lemma FileOnTarget(a: Analyzer, w: World, q: Request, f: SourceFile)
    requires ValidAnalyzer(a)
    ensures AllOnTarget(q, FileOps(a, w, q, f))
  {
    hide Apply, Run, WriteVectors, SkipVectors, ChunkCount, Documents, Entities, PageOf;
    var previous := Previous(w.manifests, q.repository, f.path);
    var source := VectorSource(previous, f.hash);
    var documents := Documents(a, q.repository, f.path, f.hash);
    var ops := FileOps(a, w, q, f);
    VectorsOnTarget(w.points, q, source, f.path, documents);
    if !Skippable(q.mode, previous, f.hash) && !Fatal(a, q.repository, f.path, f.hash) {
      forall e | e in Entities(a, q.repository, f.path, f.hash)
        ensures EntityOfFile(e, q.repository, f.path, f.hash)
      {
      }
      assert ops == [ops[0]] + WriteVectors(w.points, q, source, f.path, documents) + ops[|ops| - 2..];
    } else if Skippable(q.mode, previous, f.hash) {
      assert ops == [ops[0]] + SkipVectors(w.points, q, source.value, f.path, documents) + ops[|ops| - 2..];
    }
  }

  lemma {:induction false} LoopOnTarget(a: Analyzer, w: World, q: Request, files: seq<SourceFile>)
    requires ValidAnalyzer(a)
    ensures AllOnTarget(q, LoopOps(a, w, q, files))
    decreases |files|
  {
    hide Apply, Run, FileOps;
    if files != [] {
      LoopOnTarget(a, w, q, files[..|files| - 1]);
      FileOnTarget(a, Run(w, LoopOps(a, w, q, files[..|files| - 1])), q, files[|files| - 1]);
    }
  }

  lemma {:induction false} CleanupOnTarget(q: Request, listing: seq<string>)
    ensures AllOnTarget(q, CleanupOps(q, listing))
  {
    if listing != [] {
      CleanupOnTarget(q, listing[..|listing| - 1]);
    }
  }

  /** At every point of every job - also one that fails, is interrupted, or deletes entities -
      the memberships and vectors of every other revision and every other repository, and the
      manifests of every other repository, are what they were. */
  lemma HistoryIsPreserved(a: Analyzer, w: World, q: Request, files: seq<SourceFile>, listing: seq<string>, k: nat)
    requires ValidAnalyzer(a) && Owned(w.graph.nodes)
    requires Lists(listing, Removed(w.manifests, q.repository, files))
    requires k <= |JobOps(a, w, q, files, listing)|
    ensures Untouched(w, Run(w, JobOps(a, w, q, files, listing)[..k]), q)
  {
    hide Apply, Run, JobOps, Untouched;
    JobOnTarget(a, w, q, files, listing);
    CallsTouchTarget(w, q, JobOps(a, w, q, files, listing)[..k]);
  }

  lemma JobOnTarget(a: Analyzer, w: World, q: Request, files: seq<SourceFile>, listing: seq<string>)
    requires ValidAnalyzer(a)
    requires Lists(listing, Removed(w.manifests, q.repository, files))
    ensures AllOnTarget(q, JobOps(a, w, q, files, listing))
  {
    hide Apply, Run, LoopOps, CleanupOps, RenamedPaths, FinalRows, Removed;
    LoopOnTarget(a, Run(w, StartOps(files)), q, files);
    CleanupOnTarget(q, listing);
  }
}

/** The relationships a completed job guarantees. */
module CompletedEdges {
  import opened Contracts
  import opened IndexStores
  import opened IndexJobs
  import opened GraphInvariants
  import opened JobInvariants
  import opened IncrementalRefinesFull

  /** The last of some rows for an edge. */
  function LastRow(rows: seq<CodeRelationship>, k: EdgeKey): Option<CodeRelationship> {
    if rows == [] then None
    else if KeyOf(rows[|rows| - 1]) == k then Some(rows[|rows| - 1])
    else LastRow(rows[..|rows| - 1], k)
  }

  lemma {:induction false} EdgeOfLastRow(nodes: Nodes, symbols: Symbols, rows: seq<CodeRelationship>,
                                         r: CodeRelationship)
    requires r in rows && Endpoints(nodes, symbols, r)
    ensures var edges, last := EdgeRows(nodes, symbols, rows), LastRow(rows, KeyOf(r));
            last.Some? && KeyOf(r) in edges && edges[KeyOf(r)] == PropertiesOf(last.value)
    decreases |rows|
  {
    var init, last := rows[..|rows| - 1], rows[|rows| - 1];
    assert rows == init + [last];
    if KeyOf(last) != KeyOf(r) {
      EdgeOfLastRow(nodes, symbols, init, r);
    }
  }

  /** Calls a job makes after its final rows. */
  predicate Closing(op: Op) {
    op.RemoveGraph? || op.DropVectors? || op.DeleteManifest? || op.RecordSnapshot? || op.Job?
  }

  /** An edge survives as long as the entities it joins do; symbols always stay. */
  ghost predicate EdgeSurvives(g: Graph, after: Graph, k: EdgeKey) {
    && after.symbols == g.symbols && after.nodes.Keys <= g.nodes.Keys
    && (k in g.edges && k.source in after.nodes && (k.target in g.nodes ==> k.target in after.nodes) ==>
          k in after.edges && after.edges[k] == g.edges[k])
  }

  lemma {:induction false} ClosingKeepsEdge(w: World, ops: seq<Op>, k: EdgeKey)
    requires forall n :: 0 <= n < |ops| ==> Closing(ops[n])
    ensures EdgeSurvives(w.graph, Run(w, ops).graph, k)
    decreases |ops|
  {
    hide RemoveNodes;
    if ops != [] {
      var init, last := ops[..|ops| - 1], ops[|ops| - 1];
      ClosingKeepsEdge(w, init, k);
      assert Closing(last);
      OneClosingKeepsEdge(Run(w, init), last, k);
    }
  }

  lemma OneClosingKeepsEdge(w: World, op: Op, k: EdgeKey)
    requires Closing(op)
    ensures EdgeSurvives(w.graph, Apply(w, op).graph, k)
  {
  }

  lemma {:induction false} FinishIsClosing(w: World, q: Request, files: seq<SourceFile>, listing: seq<string>,
                                           failed: bool)
    requires Lists(listing, Removed(w.manifests, q.repository, files))
    ensures forall n :: 0 <= n < |FinishOps(w, q, files, listing, failed)| ==>
              Closing(FinishOps(w, q, files, listing, failed)[n])
  {
    CleanupIsClosing(q, listing);
  }

  lemma {:induction false} CleanupIsClosing(q: Request, listing: seq<string>)
    ensures forall n :: 0 <= n < |CleanupOps(q, listing)| ==> Closing(CleanupOps(q, listing)[n])
  {
    if listing != [] {
      CleanupIsClosing(q, listing[..|listing| - 1]);
    }
  }

  /** A row's target at the end: an entity still stored, or a symbol. */
  predicate StillStored(g: Graph, r: CodeRelationship) {
    r.sourceId in g.nodes && (r.targetId in g.nodes || (r.targetId in g.symbols && r.targetId.SymbolNode?))
  }

  /** After a completed job every final relationship whose ends are stored is an edge, with the
      properties of the last row for it. */
  lemma FinalRowsAreEdges(a: Analyzer, w: World, q: Request, files: seq<SourceFile>, listing: seq<string>,
                          torn: set<FileKey>, r: CodeRelationship)
    requires ValidAnalyzer(a) && Invariant(a, w, torn)
    requires Lists(listing, Removed(w.manifests, q.repository, files))
    requires r in FinalRows(a, q.repository, files)
    requires StillStored(Run(w, JobOps(a, w, q, files, listing)).graph, r)
    ensures var edges := Run(w, JobOps(a, w, q, files, listing)).graph.edges;
            var last := LastRow(FinalRows(a, q.repository, files), KeyOf(r));
            last.Some? && KeyOf(r) in edges && edges[KeyOf(r)] == PropertiesOf(last.value)
  {
    hide Run, Apply, IndexOps, FinishOps, FinalRows, Invariant, EdgeRows, KeepEdges;
    var index := IndexOps(a, w, q, files);
    var i := Run(w, index);
    var rows := FinalRows(a, q.repository, files);
    var v := Run(w, StartOps(files));
    var finish := FinishOps(w, q, files, listing, i.job.failed > 0);
    RunIndex(a, w, q, files);
    FinalGraph(Run(v, LoopOps(a, v, q, files)), rows);
    RunConcat(w, index, finish);
    FinishIsClosing(w, q, files, listing, i.job.failed > 0);
    ClosingKeepsEdge(i, finish, KeyOf(r));
    IndexThroughout(a, w, q, files, torn);
    AtEnd(a, w, index, torn);
    NodesAreEntities(a, i, torn - Closed({}, index));
    EdgeOfLastRow(i.graph.nodes, i.graph.symbols, rows, r);
  }

  lemma FinalGraph(l: World, rows: seq<CodeRelationship>)
    ensures var g := Apply(l, WriteRows(rows)).graph;
            g.edges == KeepEdges(l.graph.edges, g.symbols, rows) + EdgeRows(g.nodes, g.symbols, rows)
  {
    hide KeepEdges, EdgeRows;
  }

  lemma NodesAreEntities(a: Analyzer, w: World, torn: set<FileKey>)
    requires ValidAnalyzer(a) && Invariant(a, w, torn)
    ensures forall id :: id in w.graph.nodes ==> id.EntityNode?
  {
    forall id | id in w.graph.nodes
      ensures id.EntityNode?
    {
      NodeOfFile(a, w.graph.nodes, id);
    }
  }
}

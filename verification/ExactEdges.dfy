/** The edges and the external symbols after a job, from those before it and its relationships. */
module ExactEdges {
  import opened Contracts
  import opened IndexStores
  import opened IndexJobs
  import opened GraphInvariants
  import opened JobInvariants
  import opened IncrementalRefinesFull
  import opened CompletedJobs
  import opened CompletedEdges

  // ---------------------------------------------------------------- one batch

  /** A row from one end to another over a kind of edge. */
  ghost predicate Joins(r: CodeRelationship, k: EdgeKey) {
    r.sourceId == k.source && r.kind == k.kind && r.targetId == k.target
  }

  ghost predicate EndsStored(nodes: Nodes, symbols: Symbols, k: EdgeKey) {
    k.source in nodes && (k.target in nodes || k.target in symbols)
  }

  /** A resolved row from where an edge comes from: same source, kind, file and line. */
  ghost predicate ResolvedThere(r: CodeRelationship, k: EdgeKey, p: EdgeProperties) {
    r.resolved && r.sourceId == k.source && r.kind == k.kind && r.filePath == p.filePath && r.line == p.line
  }

  ghost predicate Says(p: EdgeProperties, r: CodeRelationship) {
    p.resolved == r.resolved && p.filePath == r.filePath && p.line == r.line && p.resolution == r.resolution
  }

  /** The last of some rows that joins two ends. */
  ghost predicate LastJoining(rows: seq<CodeRelationship>, k: EdgeKey, r: CodeRelationship) {
    exists i :: 0 <= i < |rows| && rows[i] == r && Joins(r, k) && forall j :: i < j < |rows| ==> !Joins(rows[j], k)
  }

  lemma {:induction false} LastJoins(nodes: Nodes, symbols: Symbols, rows: seq<CodeRelationship>, k: EdgeKey)
    ensures k in EdgeRows(nodes, symbols, rows) ==>
              exists r :: LastJoining(rows, k, r) && Says(EdgeRows(nodes, symbols, rows)[k], r)
    ensures k in EdgeRows(nodes, symbols, rows) <==>
              EndsStored(nodes, symbols, k) && exists r :: r in rows && Joins(r, k)
    decreases |rows|
  {
    if rows != [] {
      var init, last := rows[..|rows| - 1], rows[|rows| - 1];
      assert rows == init + [last];
      LastJoins(nodes, symbols, init, k);
      if Joins(last, k) {
        assert rows[|init|] == last && LastJoining(rows, k, last);
      } else {
        if r :| LastJoining(init, k, r) && k in EdgeRows(nodes, symbols, init)
                && Says(EdgeRows(nodes, symbols, init)[k], r) {
          JoinsStill(init, last, k, r);
        }
        if r :| r in rows && Joins(r, k) {
          assert r in init;
        }
        if r :| r in init && Joins(r, k) {
          assert r in rows;
        }
      }
    }
  }

  lemma JoinsStill(init: seq<CodeRelationship>, last: CodeRelationship, k: EdgeKey, r: CodeRelationship)
    requires LastJoining(init, k, r) && !Joins(last, k)
    ensures LastJoining(init + [last], k, r)
  {
    var rows := init + [last];
    var i :| 0 <= i < |init| && init[i] == r && Joins(r, k) && forall j :: i < j < |init| ==> !Joins(init[j], k);
    assert rows[i] == r;
    forall j | i < j < |rows|
      ensures !Joins(rows[j], k)
    {
      assert j < |init| ==> rows[j] == init[j];
    }
  }

  /** After a batch an edge is there if and only if a row joins its stored ends, or it was there
      before and is no edge to an external symbol from where a resolved row comes from. */
  ghost predicate BatchLeaves(edges: Edges, after: Edges, nodes: Nodes, symbols: Symbols, rows: seq<CodeRelationship>,
                              k: EdgeKey)
  {
    var joined := EndsStored(nodes, symbols, k) && exists r :: r in rows && Joins(r, k);
    && (k in after <==>
          joined || (k in edges && !(k.target in symbols && exists r :: r in rows && ResolvedThere(r, k, edges[k]))))
    && (joined ==> exists r :: LastJoining(rows, k, r) && Says(after[k], r))
    && (k in after && !joined ==> after[k] == edges[k])
  }

  lemma BatchExactly(edges: Edges, nodes: Nodes, symbols: Symbols, rows: seq<CodeRelationship>, k: EdgeKey)
    ensures BatchLeaves(edges, WriteEdges(edges, nodes, symbols, rows), nodes, symbols, rows, k)
  {
    hide EdgeRows;
    LastJoins(nodes, symbols, rows, k);
    if k in edges {
      if Superseded(symbols, k, edges[k], rows) {
        var i :| 0 <= i < |rows| && rows[i].resolved && rows[i].sourceId == k.source && rows[i].kind == k.kind
                 && rows[i].filePath == edges[k].filePath && rows[i].line == edges[k].line;
        assert rows[i] in rows && ResolvedThere(rows[i], k, edges[k]);
      }
      if r :| r in rows && ResolvedThere(r, k, edges[k]) {
        var i :| 0 <= i < |rows| && rows[i] == r;
      }
    }
  }

  /** A symbol is there if and only if an open row has it as its target, or it was there before; its
      name is that of the last such row. */
  lemma {:induction false} SymbolsExactly(symbols: Symbols, rows: seq<CodeRelationship>, id: NodeId)
    ensures var after := WriteSymbols(symbols, rows);
            && (id in after <==> id in symbols || exists r :: r in rows && !r.resolved && r.targetId == id)
            && (id in after ==>
                  if exists r :: r in rows && !r.resolved && r.targetId == id
                  then exists r :: LastOpen(rows, id, r) && after[id] == r.targetName
                  else after[id] == symbols[id])
    decreases |rows|
  {
    if rows != [] {
      var init, last := rows[..|rows| - 1], rows[|rows| - 1];
      assert rows == init + [last];
      SymbolsExactly(symbols, init, id);
      if !last.resolved && last.targetId == id {
        assert last in rows && rows[|init|] == last;
        assert LastOpen(rows, id, last);
      } else {
        assert forall r :: r in rows && !r.resolved && r.targetId == id ==> r in init;
        assert forall r :: r in init ==> r in rows;
        if r :| LastOpen(init, id, r) && id in WriteSymbols(symbols, init)
                && WriteSymbols(symbols, init)[id] == r.targetName {
          OpenStill(init, last, id, r);
        }
      }
    }
  }

  ghost predicate LastOpen(rows: seq<CodeRelationship>, id: NodeId, r: CodeRelationship) {
    exists i :: 0 <= i < |rows| && rows[i] == r && !r.resolved && r.targetId == id
      && forall j :: i < j < |rows| ==> rows[j].resolved || rows[j].targetId != id
  }

  lemma OpenStill(init: seq<CodeRelationship>, last: CodeRelationship, id: NodeId, r: CodeRelationship)
    requires LastOpen(init, id, r) && (last.resolved || last.targetId != id)
    ensures LastOpen(init + [last], id, r)
  {
    var rows := init + [last];
    var i :| 0 <= i < |init| && init[i] == r && !r.resolved && r.targetId == id
             && forall j :: i < j < |init| ==> init[j].resolved || init[j].targetId != id;
    assert rows[i] == r;
    forall j | i < j < |rows|
      ensures rows[j].resolved || rows[j].targetId != id
    {
      assert j < |init| ==> rows[j] == init[j];
    }
  }

  // ---------------------------------------------------------------- the rows of a job

  /** The relationships of every file that parses, file by file. */
  ghost predicate Listed(a: Analyzer, q: Request, files: seq<SourceFile>, r: CodeRelationship) {
    exists n :: 0 <= n < |files| && a.parse(q.repository, files[n].path, files[n].hash).Some?
                && r in files[n].relationships
  }

  lemma {:induction false} FinalRowsExactly(a: Analyzer, q: Request, files: seq<SourceFile>, r: CodeRelationship)
    ensures r in FinalRows(a, q.repository, files) <==> Listed(a, q, files, r)
    decreases |files|
  {
    if files != [] {
      var init, last := files[..|files| - 1], files[|files| - 1];
      assert files == init + [last] && files[|init|] == last;
      FinalRowsExactly(a, q, init, r);
      if n :| 0 <= n < |init| && a.parse(q.repository, init[n].path, init[n].hash).Some? && r in init[n].relationships {
        assert files[n] == init[n];
      }
      if n :| 0 <= n < |files| && a.parse(q.repository, files[n].path, files[n].hash).Some?
              && r in files[n].relationships {
        assert n < |init| ==> init[n] == files[n];
      }
    }
  }

  ghost predicate NoneJoin(rows: seq<CodeRelationship>, k: EdgeKey) {
    forall r :: r in rows ==> !Joins(r, k)
  }

  /** Of the rows that join two ends, the last in the order of the files and within a file decides. */
  ghost predicate LastListed(a: Analyzer, q: Request, files: seq<SourceFile>, k: EdgeKey, r: CodeRelationship) {
    exists n :: 0 <= n < |files| && a.parse(q.repository, files[n].path, files[n].hash).Some?
      && LastJoining(files[n].relationships, k, r)
      && forall m :: n < m < |files| && a.parse(q.repository, files[m].path, files[m].hash).Some? ==>
           NoneJoin(files[m].relationships, k)
  }

  lemma LastConcat(first: seq<CodeRelationship>, second: seq<CodeRelationship>, k: EdgeKey, r: CodeRelationship)
    ensures LastJoining(first + second, k, r) <==>
              LastJoining(second, k, r) || (LastJoining(first, k, r) && NoneJoin(second, k))
  {
    var rows := first + second;
    if LastJoining(rows, k, r) {
      var i :| 0 <= i < |rows| && rows[i] == r && Joins(r, k) && forall j :: i < j < |rows| ==> !Joins(rows[j], k);
      if i < |first| {
        assert first[i] == r;
        assert forall j :: i < j < |first| ==> first[j] == rows[j];
        forall s | s in second
          ensures !Joins(s, k)
        {
          var j :| 0 <= j < |second| && second[j] == s;
          assert rows[|first| + j] == s;
        }
      } else {
        assert second[i - |first|] == r;
        assert forall j :: i - |first| < j < |second| ==> second[j] == rows[|first| + j];
      }
    }
    if LastJoining(second, k, r) {
      var i :| 0 <= i < |second| && second[i] == r && Joins(r, k)
               && forall j :: i < j < |second| ==> !Joins(second[j], k);
      assert rows[|first| + i] == r;
      assert forall j :: |first| + i < j < |rows| ==> rows[j] == second[j - |first|];
    } else if LastJoining(first, k, r) && NoneJoin(second, k) {
      var i :| 0 <= i < |first| && first[i] == r && Joins(r, k) && forall j :: i < j < |first| ==> !Joins(first[j], k);
      assert rows[i] == r;
      forall j | i < j < |rows|
        ensures !Joins(rows[j], k)
      {
        assert if j < |first| then rows[j] == first[j] else rows[j] == second[j - |first|];
      }
    }
  }

  lemma {:induction false} LastOfFinalRows(a: Analyzer, q: Request, files: seq<SourceFile>, k: EdgeKey,
                                           r: CodeRelationship)
    ensures LastJoining(FinalRows(a, q.repository, files), k, r) <==> LastListed(a, q, files, k, r)
    decreases |files|
  {
    hide LastJoining;
    if files == [] {
      NoneJoins(k, r);
    } else {
      var init, last := files[..|files| - 1], files[|files| - 1];
      assert files == init + [last];
      LastOfFinalRows(a, q, init, k, r);
      var more := if a.parse(q.repository, last.path, last.hash).Some? then last.relationships else [];
      assert FinalRows(a, q.repository, files) == FinalRows(a, q.repository, init) + more;
      LastConcat(FinalRows(a, q.repository, init), more, k, r);
      LastListedSnoc(a, q, init, last, k, r);
      NoneJoins(k, r);
    }
  }

  lemma NoneJoins(k: EdgeKey, r: CodeRelationship)
    ensures !LastJoining([], k, r)
  {
  }

  lemma LastListedSnoc(a: Analyzer, q: Request, init: seq<SourceFile>, last: SourceFile, k: EdgeKey,
                       r: CodeRelationship)
    ensures var more := if a.parse(q.repository, last.path, last.hash).Some? then last.relationships else [];
            LastListed(a, q, init + [last], k, r) <==>
              LastJoining(more, k, r) || (LastListed(a, q, init, k, r) && NoneJoin(more, k))
  {
    hide LastJoining;
    NoneJoins(k, r);
    var files := init + [last];
    var more := if a.parse(q.repository, last.path, last.hash).Some? then last.relationships else [];
    assert files[|init|] == last;
    if LastListed(a, q, files, k, r) {
      var n :| 0 <= n < |files| && a.parse(q.repository, files[n].path, files[n].hash).Some?
               && LastJoining(files[n].relationships, k, r)
               && forall m :: n < m < |files| && a.parse(q.repository, files[m].path, files[m].hash).Some? ==>
                    NoneJoin(files[m].relationships, k);
      if n < |init| {
        assert init[n] == files[n];
        assert forall m :: n < m < |init| ==> init[m] == files[m];
      }
    }
    if LastListed(a, q, init, k, r) && NoneJoin(more, k) {
      var n :| 0 <= n < |init| && a.parse(q.repository, init[n].path, init[n].hash).Some?
               && LastJoining(init[n].relationships, k, r)
               && forall m :: n < m < |init| && a.parse(q.repository, init[m].path, init[m].hash).Some? ==>
                    NoneJoin(init[m].relationships, k);
      assert files[n] == init[n];
      assert forall m :: n < m < |init| ==> init[m] == files[m];
    }
  }

  // ---------------------------------------------------------------- what the loop has written before

  /** The graph as it would be had no file's relationships been written yet. */
  ghost function Unwritten(g: Graph, before: Graph): Graph {
    g.(edges := before.edges, symbols := before.symbols)
  }

  lemma AgreesAtFirst(g: Graph, rows: seq<CodeRelationship>)
    ensures AgreeUpTo(g, Unwritten(g, g), rows)
  {
  }

  /** A file's calls: one on the graph, then none. */
  lemma FileParts(a: Analyzer, w: World, q: Request, f: SourceFile) returns (g: Op, rest: seq<Op>)
    requires !FileFails(a, w, q, f)
    ensures FileOps(a, w, q, f) == [g] + rest && forall n :: 0 <= n < |rest| ==> KeepsGraph(rest[n])
    ensures g.CarryGraph?
            || (g.WriteGraph? && g.rows == f.relationships && a.parse(q.repository, f.path, f.hash).Some?)
    ensures g.WriteGraph? ==> g == WriteGraph(q.repository, q.revision, f.path,
                                              Entities(a, q.repository, f.path, f.hash), f.relationships)
    ensures g.CarryGraph? ==>
              Skips(q, w.manifests, f)
              && g == CarryGraph(q.repository, w.manifests[(q.repository, f.path)].revision, q.revision, f.path, f.hash)
  {
    hide Run, CarryCount, ChunkCount;
    var previous := Previous(w.manifests, q.repository, f.path);
    var source := VectorSource(previous, f.hash);
    var documents := Documents(a, q.repository, f.path, f.hash);
    VectorsKeepGraph(w.points, q, source, f.path, documents);
    var skips := Skippable(q.mode, previous, f.hash);
    var vectors := if skips then SkipVectors(w.points, q, source.value, f.path, documents)
                   else WriteVectors(w.points, q, source, f.path, documents);
    var ops := FileOps(a, w, q, f);
    g, rest := ops[0], ops[1..];
    assert rest == vectors + ops[1 + |vectors|..];
    assert ops == [g] + rest;
  }

  lemma VectorsKeepGraph(points: Points, q: Request, source: Option<string>, path: string,
                         documents: seq<SemanticDocument>)
    ensures forall n :: 0 <= n < |WriteVectors(points, q, source, path, documents)| ==>
              KeepsGraph(WriteVectors(points, q, source, path, documents)[n])
    ensures source.Some? ==> forall n :: 0 <= n < |SkipVectors(points, q, source.value, path, documents)| ==>
              KeepsGraph(SkipVectors(points, q, source.value, path, documents)[n])
  {
    hide CarryCount;
  }

  lemma FileLeftAgrees(a: Analyzer, w: World, q: Request, f: SourceFile, before: Graph, rows: seq<CodeRelationship>)
    requires AgreeUpTo(w.graph, Unwritten(w.graph, before), rows)
    requires a.parse(q.repository, f.path, f.hash).Some? ==> Among(f.relationships, rows)
    ensures var v := Run(w, FileOps(a, w, q, f)); AgreeUpTo(v.graph, Unwritten(v.graph, before), rows)
  {
    hide Run, Apply, AgreeUpTo, FileOps;
    if FileFails(a, w, q, f) {
      FailedFile(a, w, q, f);
    } else {
      var g, rest := FileParts(a, w, q, f);
      RunConcat(w, [g], rest);
      RunOne(w, g);
      CallsKeepGraph(Apply(w, g), rest);
      GraphCallLeftAgrees(w, f, g, before, rows);
    }
  }

  lemma FailedFile(a: Analyzer, w: World, q: Request, f: SourceFile)
    requires FileFails(a, w, q, f)
    ensures Run(w, FileOps(a, w, q, f)).graph == w.graph
  {
    var op := Job(Add(1, 0, 1, 0, 0, 0));
    assert FileOps(a, w, q, f) == [op];
    RunOne(w, op);
  }

  lemma {:induction false} CallsKeepGraph(w: World, ops: seq<Op>)
    requires forall n :: 0 <= n < |ops| ==> KeepsGraph(ops[n])
    ensures Run(w, ops).graph == w.graph
    decreases |ops|
  {
    hide DropPoints, DocumentMap, CarryPoints;
    if ops != [] {
      CallsKeepGraph(w, ops[..|ops| - 1]);
      assert KeepsGraph(ops[|ops| - 1]);
    }
  }

  predicate KeepsGraph(op: Op) {
    op.DropVectors? || op.UpsertVectors? || op.CarryVectors? || op.PutManifest? || op.Job?
  }

  lemma GraphCallLeftAgrees(w: World, f: SourceFile, g: Op, before: Graph, rows: seq<CodeRelationship>)
    requires AgreeUpTo(w.graph, Unwritten(w.graph, before), rows)
    requires g.CarryGraph? || (g.WriteGraph? && g.rows == f.relationships && Among(f.relationships, rows))
    ensures var v := Apply(w, g); AgreeUpTo(v.graph, Unwritten(v.graph, before), rows)
  {
    hide AgreeUpTo, WriteRelationships, WriteNodes, CarryNodes;
    if g.CarryGraph? {
      CarryLeftAgrees(w.graph, before, g, rows);
    } else {
      var nodes := WriteNodes(w.graph.nodes, g.repository, g.revision, g.entities);
      var known := w.graph.known + {(g.repository, g.revision)};
      NodesGrow(w.graph.nodes, g.repository, g.revision, g.entities);
      KnownLeftAgrees(w.graph, Unwritten(w.graph, before), known, rows);
      WriteLeftAgrees(w.graph.(known := known), Unwritten(w.graph, before).(known := known), nodes, g.rows, rows);
      WriteKeepsRest(w.graph.(known := known, nodes := nodes), g.rows);
    }
  }

  lemma NodesGrow(nodes: Nodes, repository: string, revision: string, entities: seq<CodeEntity>)
    ensures nodes.Keys <= WriteNodes(nodes, repository, revision, entities).Keys
  {
  }

  lemma WriteKeepsRest(g: Graph, rows: seq<CodeRelationship>)
    ensures var h := WriteRelationships(g, rows);
            h.nodes == g.nodes && h.known == g.known && h.snapshots == g.snapshots
  {
  }

  lemma KnownLeftAgrees(f: Graph, i: Graph, known: set<(string, string)>, rows: seq<CodeRelationship>)
    requires AgreeUpTo(f, i, rows)
    ensures AgreeUpTo(f.(known := known), i.(known := known), rows)
  {
  }

  lemma CarryLeftAgrees(g: Graph, before: Graph, op: Op, rows: seq<CodeRelationship>)
    requires op.CarryGraph? && AgreeUpTo(g, Unwritten(g, before), rows)
    ensures var h := CarryFile(g, op.repository, op.source, op.target, op.path, op.hash);
            AgreeUpTo(h, Unwritten(h, before), rows)
  {
    var h := CarryFile(g, op.repository, op.source, op.target, op.path, op.hash);
    assert h.nodes.Keys == g.nodes.Keys;
    assert forall k :: RowFor(h.nodes, h.symbols, rows, k) <==> RowFor(g.nodes, g.symbols, rows, k);
  }

  lemma {:induction false} LoopLeftAgrees(a: Analyzer, v: World, q: Request, files: seq<SourceFile>,
                                          rows: seq<CodeRelationship>)
    requires forall r :: Listed(a, q, files, r) ==> r in rows
    ensures var l := Run(v, LoopOps(a, v, q, files)); AgreeUpTo(l.graph, Unwritten(l.graph, v.graph), rows)
    decreases |files|
  {
    hide Run, Apply, AgreeUpTo, FileOps;
    if files == [] {
      NoFilesRun(a, v, q);
      AgreesAtFirst(v.graph, rows);
    } else {
      var init, last := files[..|files| - 1], files[|files| - 1];
      ListedInit(a, q, init, last, rows);
      assert files == init + [last];
      LoopLeftAgrees(a, v, q, init, rows);
      var before := LoopOps(a, v, q, init);
      RunConcat(v, before, FileOps(a, Run(v, before), q, last));
      FileLeftAgrees(a, Run(v, before), q, last, v.graph, rows);
    }
  }

  lemma NoFilesRun(a: Analyzer, v: World, q: Request)
    ensures Run(v, LoopOps(a, v, q, [])) == v
  {
  }

  lemma ListedInit(a: Analyzer, q: Request, init: seq<SourceFile>, last: SourceFile, rows: seq<CodeRelationship>)
    requires forall r :: Listed(a, q, init + [last], r) ==> r in rows
    ensures forall r :: Listed(a, q, init, r) ==> r in rows
    ensures a.parse(q.repository, last.path, last.hash).Some? ==> Among(last.relationships, rows)
  {
    var files := init + [last];
    assert files[|init|] == last;
    forall r | Listed(a, q, init, r)
      ensures r in rows
    {
      var n :| 0 <= n < |init| && a.parse(q.repository, init[n].path, init[n].hash).Some? && r in init[n].relationships;
      assert files[n] == init[n];
      assert Listed(a, q, files, r);
    }
    if a.parse(q.repository, last.path, last.hash).Some? {
      forall r | r in last.relationships
        ensures r in rows
      {
        assert Listed(a, q, files, r);
      }
    }
  }

  // ---------------------------------------------------------------- after the final batch

  /** The final batch leaves what it would have left on the graph from before the job. */
  lemma FromBefore(a: Analyzer, w: World, q: Request, files: seq<SourceFile>)
    ensures var g, rows := Run(w, IndexOps(a, w, q, files)).graph, FinalRows(a, q.repository, files);
            && g.symbols == WriteSymbols(w.graph.symbols, rows)
            && g.edges == WriteEdges(w.graph.edges, g.nodes, g.symbols, rows)
  {
    hide Run, Apply, IndexOps, FinalRows, AgreeUpTo, WriteEdges, WriteSymbols, LoopOps;
    var rows := FinalRows(a, q.repository, files);
    var v := Run(w, StartOps(files));
    var l := Run(v, LoopOps(a, v, q, files));
    StartKeepsGraph(w, files);
    RunIndex(a, w, q, files);
    forall r | Listed(a, q, files, r)
      ensures r in rows
    {
      FinalRowsExactly(a, q, files, r);
    }
    LoopLeftAgrees(a, v, q, files, rows);
    FinalBatchDecides(l.graph, Unwritten(l.graph, w.graph), rows);
    RowsApply(l, rows);
  }

  lemma StartKeepsGraph(w: World, files: seq<SourceFile>)
    ensures Run(w, StartOps(files)).graph == w.graph
  {
    CallsKeepGraph(w, StartOps(files));
  }

  lemma RowsApply(l: World, rows: seq<CodeRelationship>)
    ensures Apply(l, WriteRows(rows)).graph == WriteRelationships(l.graph, rows)
  {
  }

  /** After a job's final batch, over any graph and whatever was skipped or fails: an edge is there if
      and only if a relationship of a file that parses joins its two stored ends, or it was there
      before the job and is no edge to an external symbol from the source, kind, file and line of a
      relationship that is resolved now.  The last relationship for an edge gives its properties;
      an edge from before keeps its own. */
  lemma EdgesExactly(a: Analyzer, w: World, q: Request, files: seq<SourceFile>, k: EdgeKey)
    ensures var g := Run(w, IndexOps(a, w, q, files)).graph;
            var joined := EndsStored(g.nodes, g.symbols, k) && exists r :: Listed(a, q, files, r) && Joins(r, k);
            && (k in g.edges <==>
                  joined
                  || (k in w.graph.edges
                      && !(k.target in g.symbols
                           && exists r :: Listed(a, q, files, r) && ResolvedThere(r, k, w.graph.edges[k]))))
            && (joined ==> exists r :: LastListed(a, q, files, k, r) && Says(g.edges[k], r))
            && (k in g.edges && !joined ==> g.edges[k] == w.graph.edges[k])
  {
    hide Run, IndexOps, FinalRows, WriteEdges, Joins, ResolvedThere, LastJoining, LastListed, Listed;
    var g, rows := Run(w, IndexOps(a, w, q, files)).graph, FinalRows(a, q.repository, files);
    FromBefore(a, w, q, files);
    BatchExactly(w.graph.edges, g.nodes, g.symbols, rows, k);
    forall r
      ensures r in rows <==> Listed(a, q, files, r)
      ensures LastJoining(rows, k, r) <==> LastListed(a, q, files, k, r)
    {
      FinalRowsExactly(a, q, files, r);
      LastOfFinalRows(a, q, files, k, r);
    }
  }

  /** The external symbols after it: those from before and the targets of open relationships. */
  lemma SymbolsAfter(a: Analyzer, w: World, q: Request, files: seq<SourceFile>, id: NodeId)
    ensures id in Run(w, IndexOps(a, w, q, files)).graph.symbols <==>
              id in w.graph.symbols || exists r :: Listed(a, q, files, r) && !r.resolved && r.targetId == id
  {
    hide Run, IndexOps, FinalRows, Listed;
    var rows := FinalRows(a, q.repository, files);
    FromBefore(a, w, q, files);
    SymbolsExactly(w.graph.symbols, rows, id);
    forall r
      ensures r in rows <==> Listed(a, q, files, r)
    {
      FinalRowsExactly(a, q, files, r);
    }
  }

  // ---------------------------------------------------------------- after the job

  /** An end that was an entity is one still. */
  ghost predicate EndsLeft(g: Graph, after: Graph, k: EdgeKey) {
    && (k.source in g.nodes ==> k.source in after.nodes)
    && (k.target in g.nodes ==> k.target in after.nodes)
  }

  ghost predicate SameButGone(g: Graph, after: Graph, k: EdgeKey) {
    && after.symbols == g.symbols && after.nodes.Keys <= g.nodes.Keys
    && (k in after.edges <==> k in g.edges && EndsLeft(g, after, k))
    && (k in after.edges ==> after.edges[k] == g.edges[k])
  }

  lemma OneClosingExactly(w: World, op: Op, k: EdgeKey)
    requires Closing(op)
    ensures SameButGone(w.graph, Apply(w, op).graph, k)
  {
  }

  lemma {:induction false} ClosingExactly(w: World, ops: seq<Op>, k: EdgeKey)
    requires forall n :: 0 <= n < |ops| ==> Closing(ops[n])
    ensures SameButGone(w.graph, Run(w, ops).graph, k)
    decreases |ops|
  {
    hide Apply;
    if ops != [] {
      var init, last := ops[..|ops| - 1], ops[|ops| - 1];
      ClosingExactly(w, init, k);
      assert Closing(last);
      OneClosingExactly(Run(w, init), last, k);
    }
  }

  /** The cleanup then takes away the edges of the entities it deletes, and nothing else. */
  lemma CleanupTakesEdgesOfDeleted(a: Analyzer, w: World, q: Request, files: seq<SourceFile>, listing: seq<string>,
                                   k: EdgeKey)
    requires Lists(listing, Removed(w.manifests, q.repository, files))
    ensures SameButGone(Run(w, IndexOps(a, w, q, files)).graph, Run(w, JobOps(a, w, q, files, listing)).graph, k)
  {
    hide Run, IndexOps, FinishOps, SameButGone;
    var index := IndexOps(a, w, q, files);
    var i := Run(w, index);
    var finish := FinishOps(w, q, files, listing, i.job.failed > 0);
    RunConcat(w, index, finish);
    FinishIsClosing(w, q, files, listing, i.job.failed > 0);
    ClosingExactly(i, finish, k);
  }
}

/** An incremental job leaves the graph, the vectors and the manifests a full job would leave. */
module IncrementalRefinesFull {
  import opened Contracts
  import opened IndexStores
  import opened IndexJobs
  import opened GraphInvariants
  import opened JobInvariants

  // ---------------------------------------------------------------- edges

  ghost predicate RowFor(nodes: Nodes, symbols: Symbols, rows: seq<CodeRelationship>, k: EdgeKey) {
    exists i :: 0 <= i < |rows| && KeyOf(rows[i]) == k && Endpoints(nodes, symbols, rows[i])
  }

  lemma {:induction false} EdgeRowsKeys(nodes: Nodes, symbols: Symbols, rows: seq<CodeRelationship>, k: EdgeKey)
    ensures k in EdgeRows(nodes, symbols, rows) <==> RowFor(nodes, symbols, rows, k)
  {
    if rows != [] {
      var init, last := rows[..|rows| - 1], rows[|rows| - 1];
      EdgeRowsKeys(nodes, symbols, init, k);
      if RowFor(nodes, symbols, init, k) {
        var i :| 0 <= i < |init| && KeyOf(init[i]) == k && Endpoints(nodes, symbols, init[i]);
        assert rows[i] == init[i];
      }
      if RowFor(nodes, symbols, rows, k) {
        var i :| 0 <= i < |rows| && KeyOf(rows[i]) == k && Endpoints(nodes, symbols, rows[i]);
        if i < |init| {
          assert init[i] == rows[i];
        }
      }
    }
  }

  ghost predicate Unresolved(rows: seq<CodeRelationship>, id: NodeId) {
    exists i :: 0 <= i < |rows| && !rows[i].resolved && rows[i].targetId == id
  }

  lemma UnresolvedSnoc(rows: seq<CodeRelationship>, id: NodeId)
    requires rows != []
    ensures var init, last := rows[..|rows| - 1], rows[|rows| - 1];
            Unresolved(rows, id) <==> Unresolved(init, id) || (!last.resolved && last.targetId == id)
  {
    var init, last := rows[..|rows| - 1], rows[|rows| - 1];
    if Unresolved(init, id) {
      var i :| 0 <= i < |init| && !init[i].resolved && init[i].targetId == id;
      assert rows[i] == init[i];
    }
    if Unresolved(rows, id) {
      var i :| 0 <= i < |rows| && !rows[i].resolved && rows[i].targetId == id;
      assert i < |init| ==> init[i] == rows[i];
    }
  }

  lemma {:induction false} SymbolsWritten(symbols: Symbols, rows: seq<CodeRelationship>)
    ensures WriteSymbols(symbols, rows) == symbols + WriteSymbols(map[], rows)
    ensures forall id :: id in WriteSymbols(map[], rows) <==> Unresolved(rows, id)
  {
    if rows != [] {
      SymbolsWritten(symbols, rows[..|rows| - 1]);
      forall id
        ensures Unresolved(rows, id)
                <==> Unresolved(rows[..|rows| - 1], id)
                     || (!rows[|rows| - 1].resolved && rows[|rows| - 1].targetId == id)
      {
        UnresolvedSnoc(rows, id);
      }
    }
  }

  ghost predicate Among(some: seq<CodeRelationship>, rows: seq<CodeRelationship>) {
    forall r :: r in some ==> r in rows
  }

  /** f has also had some of the final rows written file by file; i has not.  They differ in no
      node, and in symbols and edges only where the final batch decides. */
  ghost predicate AgreeUpTo(f: Graph, i: Graph, rows: seq<CodeRelationship>) {
    && f.nodes == i.nodes
    && f.known == i.known && f.snapshots == i.snapshots
    && i.symbols.Keys <= f.symbols.Keys
    && (forall s :: s in f.symbols && !Unresolved(rows, s) ==> s in i.symbols && i.symbols[s] == f.symbols[s])
    && (forall k :: k in f.edges && !RowFor(f.nodes, f.symbols, rows, k) ==> k in i.edges && i.edges[k] == f.edges[k])
    && (forall k :: k in i.edges && k !in f.edges && !RowFor(f.nodes, f.symbols, rows, k) ==>
          Superseded(f.symbols, k, i.edges[k], rows))
  }

  lemma RowForGrows(nodes: Nodes, symbols: Symbols, some: seq<CodeRelationship>,
                    nodes': Nodes, symbols': Symbols, rows: seq<CodeRelationship>, k: EdgeKey)
    requires RowFor(nodes, symbols, some, k) && Among(some, rows)
    requires nodes.Keys <= nodes'.Keys && symbols.Keys <= symbols'.Keys
    ensures RowFor(nodes', symbols', rows, k)
  {
    var i :| 0 <= i < |some| && KeyOf(some[i]) == k && Endpoints(nodes, symbols, some[i]);
    assert some[i] in rows;
    var j :| 0 <= j < |rows| && rows[j] == some[i];
  }

  lemma SupersededGrows(symbols: Symbols, k: EdgeKey, p: EdgeProperties, some: seq<CodeRelationship>,
                        symbols': Symbols, rows: seq<CodeRelationship>)
    requires Superseded(symbols, k, p, some) && Among(some, rows)
    requires symbols.Keys <= symbols'.Keys
    ensures Superseded(symbols', k, p, rows)
  {
    var i :| 0 <= i < |some| && some[i].resolved && some[i].sourceId == k.source && some[i].kind == k.kind
             && some[i].filePath == p.filePath && some[i].line == p.line;
    assert some[i] in rows;
    var j :| 0 <= j < |rows| && rows[j] == some[i];
  }

  lemma UnresolvedGrows(some: seq<CodeRelationship>, rows: seq<CodeRelationship>, id: NodeId)
    requires Unresolved(some, id) && Among(some, rows)
    ensures Unresolved(rows, id)
  {
    var i :| 0 <= i < |some| && !some[i].resolved && some[i].targetId == id;
    assert some[i] in rows;
    var j :| 0 <= j < |rows| && rows[j] == some[i];
  }

  /** Writing a file's rows on the left alone keeps the agreement. */
  lemma WriteLeftAgrees(f: Graph, i: Graph, nodes: Nodes, some: seq<CodeRelationship>, rows: seq<CodeRelationship>)
    requires AgreeUpTo(f, i, rows) && Among(some, rows)
    requires f.nodes.Keys <= nodes.Keys
    ensures AgreeUpTo(WriteRelationships(f.(nodes := nodes), some), i.(nodes := nodes), rows)
  {
    var f' := WriteRelationships(f.(nodes := nodes), some);
    SymbolsWritten(f.symbols, some);
    forall s | s in f'.symbols && !Unresolved(rows, s)
      ensures s in i.symbols && i.symbols[s] == f'.symbols[s]
    {
      if Unresolved(some, s) {
        UnresolvedGrows(some, rows, s);
      }
    }
    forall k | k in f'.edges && !RowFor(nodes, f'.symbols, rows, k)
      ensures k in i.edges && i.edges[k] == f'.edges[k]
    {
      EdgeRowsKeys(nodes, f'.symbols, some, k);
      if RowFor(nodes, f'.symbols, some, k) {
        RowForGrows(nodes, f'.symbols, some, nodes, f'.symbols, rows, k);
      }
      if RowFor(f.nodes, f.symbols, rows, k) {
        RowForGrows(f.nodes, f.symbols, rows, nodes, f'.symbols, rows, k);
      }
    }
    forall k | k in i.edges && k !in f'.edges && !RowFor(nodes, f'.symbols, rows, k)
      ensures Superseded(f'.symbols, k, i.edges[k], rows)
    {
      if RowFor(f.nodes, f.symbols, rows, k) {
        RowForGrows(f.nodes, f.symbols, rows, nodes, f'.symbols, rows, k);
      }
      if k in f.edges {
        SupersededGrows(f'.symbols, k, f.edges[k], some, f'.symbols, rows);
      } else {
        SupersededGrows(f.symbols, k, i.edges[k], rows, f'.symbols, rows);
      }
    }
  }

  /** Then writing the same rows on the right keeps it too. */
  lemma WriteRightAgrees(f: Graph, i: Graph, some: seq<CodeRelationship>, rows: seq<CodeRelationship>)
    requires AgreeUpTo(f, i, rows) && Among(some, rows)
    requires forall s :: Unresolved(some, s) ==> s in f.symbols
    requires forall k :: k in f.edges && Superseded(f.symbols, k, f.edges[k], some) ==>
               RowFor(f.nodes, f.symbols, rows, k)
    ensures AgreeUpTo(f, WriteRelationships(i, some), rows)
  {
    var i' := WriteRelationships(i, some);
    SymbolsWritten(i.symbols, some);
    forall s | s in f.symbols && !Unresolved(rows, s)
      ensures s in i'.symbols && i'.symbols[s] == f.symbols[s]
    {
      if Unresolved(some, s) {
        UnresolvedGrows(some, rows, s);
      }
    }
    forall k | !RowFor(f.nodes, f.symbols, rows, k)
      ensures k in f.edges ==> k in i'.edges && i'.edges[k] == f.edges[k]
      ensures k in i'.edges && k !in f.edges ==> Superseded(f.symbols, k, i'.edges[k], rows)
    {
      EdgeRowsKeys(i.nodes, i'.symbols, some, k);
      if RowFor(i.nodes, i'.symbols, some, k) {
        RowForGrows(i.nodes, i'.symbols, some, f.nodes, f.symbols, rows, k);
      }
      if k in f.edges && Superseded(i'.symbols, k, i.edges[k], some) {
        SupersededGrows(i'.symbols, k, f.edges[k], some, f.symbols, some);
      }
    }
  }

  lemma FinalEdge(f: Graph, i: Graph, rows: seq<CodeRelationship>, symbols: Symbols, k: EdgeKey)
    requires AgreeUpTo(f, i, rows) && f.symbols.Keys <= symbols.Keys
    ensures var fs, gs := WriteEdges(f.edges, f.nodes, symbols, rows), WriteEdges(i.edges, i.nodes, symbols, rows);
            (k in fs <==> k in gs) && (k in fs ==> fs[k] == gs[k])
  {
    EdgeRowsKeys(f.nodes, symbols, rows, k);
    if RowFor(f.nodes, f.symbols, rows, k) {
      RowForGrows(f.nodes, f.symbols, rows, f.nodes, symbols, rows, k);
    } else if k in i.edges && k !in f.edges {
      SupersededGrows(f.symbols, k, i.edges[k], rows, symbols, rows);
    }
  }

  lemma FinalSymbols(f: Graph, i: Graph, rows: seq<CodeRelationship>)
    requires AgreeUpTo(f, i, rows)
    ensures WriteSymbols(f.symbols, rows) == WriteSymbols(i.symbols, rows)
    ensures f.symbols.Keys <= WriteSymbols(f.symbols, rows).Keys
  {
    SymbolsWritten(f.symbols, rows);
    SymbolsWritten(i.symbols, rows);
  }

  lemma FinalEdges(f: Graph, i: Graph, rows: seq<CodeRelationship>, symbols: Symbols)
    requires AgreeUpTo(f, i, rows) && f.symbols.Keys <= symbols.Keys
    ensures WriteEdges(f.edges, f.nodes, symbols, rows) == WriteEdges(i.edges, i.nodes, symbols, rows)
  {
    var fs, gs := WriteEdges(f.edges, f.nodes, symbols, rows), WriteEdges(i.edges, i.nodes, symbols, rows);
    forall k
      ensures (k in fs <==> k in gs) && (k in fs ==> fs[k] == gs[k])
    {
      FinalEdge(f, i, rows, symbols, k);
    }
    assert fs == gs;
  }

  /** The final batch removes every remaining difference. */
  lemma FinalBatchDecides(f: Graph, i: Graph, rows: seq<CodeRelationship>)
    requires AgreeUpTo(f, i, rows)
    ensures WriteRelationships(f, rows) == WriteRelationships(i, rows)
  {
    FinalSymbols(f, i, rows);
    FinalEdges(f, i, rows, WriteSymbols(f.symbols, rows));
  }

  // ---------------------------------------------------------------- one file

  /** The states of a full and of an incremental job over the same files, in step. */
  ghost predicate InStep(f: World, i: World, rows: seq<CodeRelationship>) {
    && AgreeUpTo(f.graph, i.graph, rows)
    && f.points == i.points
    && f.manifests == i.manifests
    && f.job.failed == i.job.failed
  }

  /** Calls that touch neither the graph nor the count of failed files. */
  ghost predicate Plain(op: Op) {
    op.DropVectors? || op.UpsertVectors? || op.CarryVectors? || op.PutManifest?
    || (op.Job? && (op.change.Add? ==> op.change.failed == 0))
  }

  lemma {:induction false} PlainInStep(f: World, i: World, ops: seq<Op>, rows: seq<CodeRelationship>)
    requires InStep(f, i, rows)
    requires forall n :: 0 <= n < |ops| ==> Plain(ops[n])
    ensures InStep(Run(f, ops), Run(i, ops), rows)
    ensures Run(f, ops).graph == f.graph && Run(i, ops).graph == i.graph
    decreases |ops|
  {
    hide PageOf, AgreeUpTo;
    if ops != [] {
      PlainInStep(f, i, ops[..|ops| - 1], rows);
      assert Plain(ops[|ops| - 1]);
    }
  }

  lemma RunThree(w: World, g: Op, vectors: seq<Op>, rest: seq<Op>)
    ensures Run(w, [g] + vectors + rest) == Run(Run(Apply(w, g), vectors), rest)
  {
    RunConcat(w, [g] + vectors, rest);
    RunConcat(w, [g], vectors);
    RunOne(w, g);
  }

  /** Dropping a file's vectors a second time changes nothing. */
  lemma SkipVectorsLikeWrite(w: World, q: Request, source: string, path: string, documents: seq<SemanticDocument>)
    ensures Run(w, SkipVectors(w.points, q, source, path, documents))
            == Run(w, WriteVectors(w.points, q, Some(source), path, documents))
  {
    hide Run, PageOf;
    if q.semantic && CarryCount(q.server, w.points, q.repository, source, path) == 0 && documents == [] {
      var drop := DropVectors(q.repository, q.revision, path);
      var ops := WriteVectors(w.points, q, Some(source), path, documents);
      assert IndexVectors(q, path, documents) == [drop];
      assert ops == [CarryVectors(q.server, q.repository, source, q.revision, path), drop];
      assert SkipVectors(w.points, q, source, path, documents) == ops + [drop];
      RunConcat(w, ops[..1], [drop]);
      assert ops == ops[..1] + [drop];
      RunConcat(w, ops, [drop]);
      var v := Run(w, ops[..1]);
      RunOne(v, drop);
      RunOne(Apply(v, drop), drop);
      var once := DropPoints(v.points, q.repository, q.revision, path);
      assert DropPoints(once, q.repository, q.revision, path) == once;
    } else if q.semantic {
      assert SkipVectors(w.points, q, source, path, documents)
             == WriteVectors(w.points, q, Some(source), path, documents);
    }
  }

  ghost predicate InFull(q: Request, p: Request) {
    q.mode == Incremental && p == q.(mode := Full)
  }

  lemma WriteInStep(a: Analyzer, f: World, i: World, repository: string, revision: string, file: SourceFile,
                    rows: seq<CodeRelationship>)
    requires InStep(f, i, rows) && Among(file.relationships, rows)
    ensures var g := WriteGraph(repository, revision, file.path, Entities(a, repository, file.path, file.hash),
                                file.relationships);
            InStep(Apply(f, g), Apply(i, g), rows)
  {
    var some := file.relationships;
    var nodes := WriteNodes(f.graph.nodes, repository, revision, Entities(a, repository, file.path, file.hash));
    var f' := WriteRelationships(f.graph.(nodes := nodes), some);
    WriteLeftAgrees(f.graph, i.graph, nodes, some, rows);
    SymbolsWritten(f.graph.symbols, some);
    forall k | k in f'.edges && Superseded(f'.symbols, k, f'.edges[k], some)
      ensures RowFor(f'.nodes, f'.symbols, rows, k)
    {
      EdgeRowsKeys(f'.nodes, f'.symbols, some, k);
      RowForGrows(f'.nodes, f'.symbols, some, f'.nodes, f'.symbols, rows, k);
    }
    WriteRightAgrees(f', i.graph.(nodes := nodes), some, rows);
  }

  /** Where the carry is a write, writing on the left and carrying on the right keep step. */
  lemma SkipGraphInStep(a: Analyzer, f: World, i: World, q: Request, w: Op, c: Op, file: SourceFile,
                        rows: seq<CodeRelationship>)
    requires InStep(f, i, rows) && Among(file.relationships, rows)
    requires w == WriteGraph(q.repository, q.revision, file.path, Entities(a, q.repository, file.path, file.hash),
                             file.relationships)
    requires c.CarryGraph? && c.repository == q.repository && c.target == q.revision
    requires Apply(i, c).graph.nodes
             == WriteNodes(i.graph.nodes, q.repository, q.revision, Entities(a, q.repository, file.path, file.hash))
    ensures InStep(Apply(f, w), Apply(i, c), rows)
    ensures Apply(f, w).points == f.points && Apply(i, c).points == i.points
  {
    var nodes := WriteNodes(f.graph.nodes, q.repository, q.revision, Entities(a, q.repository, file.path, file.hash));
    WriteLeftAgrees(f.graph, i.graph, nodes, file.relationships, rows);
  }

  lemma SkipInStep(a: Analyzer, f: World, i: World, q: Request, p: Request, file: SourceFile,
                   rows: seq<CodeRelationship>, torn: set<FileKey>)
    requires ValidAnalyzer(a) && InFull(q, p) && InStep(f, i, rows) && Among(file.relationships, rows)
    requires Invariant(a, i, torn) && (q.repository, file.path) !in torn
    requires Skippable(q.mode, Previous(i.manifests, q.repository, file.path), file.hash)
    ensures InStep(Run(f, FileOps(a, f, p, file)), Run(i, FileOps(a, i, q, file)), rows)
  {
    hide Run, Apply, PageOf, FileOps, AgreeUpTo, WriteNodes, CarryNodes;
    var source := i.manifests[(q.repository, file.path)].revision;
    var documents := Documents(a, q.repository, file.path, file.hash);
    CarriedHolds(a, i, q.repository, q.revision, file.path, file.hash, torn);
    var w, c, put, add, skip := SkipShapes(a, f, i, q, p, file);
    var written := WriteVectors(i.points, q, Some(source), file.path, documents);
    var skipped := SkipVectors(i.points, q, source, file.path, documents);
    RunThree(f, w, written, [put, add]);
    RunThree(i, c, skipped, [put, skip]);
    CarryCall(i, c);
    SkipGraphInStep(a, f, i, q, w, c, file, rows);
    SkipVectorsLikeWrite(Apply(i, c), q, source, file.path, documents);
    PlainVectors(i.points, q, source, file.path, documents);
    PlainInStep(Apply(f, w), Apply(i, c), written, rows);
    LastTwo(Run(Apply(f, w), written), Run(Apply(i, c), skipped), put, add, skip, rows);
  }

  lemma CarryCall(w: World, c: Op)
    requires c.CarryGraph?
    ensures Apply(w, c).graph.nodes == CarryNodes(w.graph.nodes, c.repository, c.source, c.target, c.path, c.hash)
  {
  }

  lemma PlainVectors(points: Points, q: Request, source: string, path: string, documents: seq<SemanticDocument>)
    ensures var ops := WriteVectors(points, q, Some(source), path, documents);
            forall n :: 0 <= n < |ops| ==> Plain(ops[n])
  {
  }

  /** A skipped file's calls in an incremental job beside the same file's in a full job. */
  lemma SkipShapes(a: Analyzer, f: World, i: World, q: Request, p: Request, file: SourceFile)
      returns (w: Op, c: Op, put: Op, add: Op, skip: Op)
    requires InFull(q, p) && f.points == i.points && f.manifests == i.manifests
    requires Skippable(q.mode, Previous(i.manifests, q.repository, file.path), file.hash)
    requires !Fatal(a, q.repository, file.path, file.hash)
    ensures var source := i.manifests[(q.repository, file.path)].revision;
            var documents := Documents(a, q.repository, file.path, file.hash);
            && FileOps(a, f, p, file)
               == [w] + WriteVectors(i.points, q, Some(source), file.path, documents) + [put, add]
            && FileOps(a, i, q, file) == [c] + SkipVectors(i.points, q, source, file.path, documents) + [put, skip]
            && w == WriteGraph(q.repository, q.revision, file.path, Entities(a, q.repository, file.path, file.hash),
                               file.relationships)
            && c == CarryGraph(q.repository, source, q.revision, file.path, file.hash)
    ensures put.PutManifest? && add.Job? && add.change.Add? && skip.Job? && skip.change.Add?
    ensures add.change.failed == 0 == skip.change.failed
  {
    var source := i.manifests[(q.repository, file.path)].revision;
    var documents := Documents(a, q.repository, file.path, file.hash);
    var full, incremental := FileOps(a, f, p, file), FileOps(a, i, q, file);
    w, c := full[0], incremental[0];
    put, add, skip := full[|full| - 2], full[|full| - 1], incremental[|incremental| - 1];
    assert WriteVectors(f.points, p, Some(source), file.path, documents)
           == WriteVectors(i.points, q, Some(source), file.path, documents);
  }

  lemma LastTwo(f: World, i: World, put: Op, p: Op, q: Op, rows: seq<CodeRelationship>)
    requires InStep(f, i, rows) && put.PutManifest?
    requires p.Job? && p.change.Add? && q.Job? && q.change.Add? && p.change.failed == q.change.failed
    ensures InStep(Run(f, [put, p]), Run(i, [put, q]), rows)
  {
    RunConcat(f, [put], [p]);
    RunConcat(i, [put], [q]);
    RunOne(f, put);
    RunOne(i, put);
    RunOne(Apply(f, put), p);
    RunOne(Apply(i, put), q);
    assert [put] + [p] == [put, p] && [put] + [q] == [put, q];
  }

  lemma FileInStep(a: Analyzer, f: World, i: World, q: Request, p: Request, file: SourceFile,
                   rows: seq<CodeRelationship>, torn: set<FileKey>)
    requires ValidAnalyzer(a) && InFull(q, p) && InStep(f, i, rows)
    requires !Fatal(a, q.repository, file.path, file.hash) ==> Among(file.relationships, rows)
    requires Invariant(a, i, torn)
    requires Skippable(q.mode, Previous(i.manifests, q.repository, file.path), file.hash) ==>
      (q.repository, file.path) !in torn
    ensures InStep(Run(f, FileOps(a, f, p, file)), Run(i, FileOps(a, i, q, file)), rows)
  {
    var previous := Previous(i.manifests, q.repository, file.path);
    if Skippable(q.mode, previous, file.hash) {
      CarriedHolds(a, i, q.repository, q.revision, file.path, file.hash, torn);
      SkipInStep(a, f, i, q, p, file, rows, torn);
    } else if Fatal(a, q.repository, file.path, file.hash) {
      var failed := Job(Add(1, 0, 1, 0, 0, 0));
      assert FileOps(a, f, p, file) == [failed] == FileOps(a, i, q, file);
      RunOne(f, failed);
      RunOne(i, failed);
    } else {
      WriteCaseInStep(a, f, i, q, p, file, rows);
    }
  }

  lemma WriteCaseInStep(a: Analyzer, f: World, i: World, q: Request, p: Request, file: SourceFile,
                        rows: seq<CodeRelationship>)
    requires InFull(q, p) && InStep(f, i, rows) && Among(file.relationships, rows)
    requires !Fatal(a, q.repository, file.path, file.hash)
    requires !Skippable(q.mode, Previous(i.manifests, q.repository, file.path), file.hash)
    ensures InStep(Run(f, FileOps(a, f, p, file)), Run(i, FileOps(a, i, q, file)), rows)
  {
    hide Run, Apply, PageOf, AgreeUpTo;
    var source := VectorSource(Previous(i.manifests, q.repository, file.path), file.hash);
    var documents := Documents(a, q.repository, file.path, file.hash);
    var ops := FileOps(a, f, p, file);
    assert ops == FileOps(a, i, q, file);
    assert ops == [ops[0]] + ops[1..];
    RunConcat(f, [ops[0]], ops[1..]);
    RunConcat(i, [ops[0]], ops[1..]);
    RunOne(f, ops[0]);
    RunOne(i, ops[0]);
    WriteInStep(a, f, i, q.repository, q.revision, file, rows);
    PlainInStep(Apply(f, ops[0]), Apply(i, ops[0]), ops[1..], rows);
  }

  // ---------------------------------------------------------------- the job

  /** No torn file is one the job, starting from these manifests, would skip. */
  ghost predicate SkipsWhole(q: Request, files: seq<SourceFile>, manifests: Manifests, torn: set<FileKey>) {
    forall n :: 0 <= n < |files| && Skips(q, manifests, files[n]) ==> (q.repository, files[n].path) !in torn
  }

  predicate Skips(q: Request, manifests: Manifests, f: SourceFile) {
    Skippable(q.mode, Previous(manifests, q.repository, f.path), f.hash)
  }

  lemma {:induction false} CallsKeepManifest(w: World, ops: seq<Op>, key: FileKey)
    requires forall n :: 0 <= n < |ops| ==>
      !ops[n].DeleteManifest? && (ops[n].PutManifest? ==> (ops[n].repository, ops[n].path) != key)
    ensures Previous(Run(w, ops).manifests, key.0, key.1) == Previous(w.manifests, key.0, key.1)
  {
    hide PageOf, CarryPoints;
    if ops != [] {
      CallsKeepManifest(w, ops[..|ops| - 1], key);
      assert !ops[|ops| - 1].DeleteManifest?;
    }
  }

  lemma FileManifestCalls(a: Analyzer, w: World, q: Request, f: SourceFile)
    ensures forall n :: 0 <= n < |FileOps(a, w, q, f)| ==>
      var op := FileOps(a, w, q, f)[n];
      !op.DeleteManifest? && (op.PutManifest? ==> op.repository == q.repository && op.path == f.path)
  {
    hide Documents, Entities, CarryCount, ChunkCount;
  }

  /** A file's manifest is as the job found it until the job comes to the file. */
  lemma {:induction false} LoopKeepsManifest(a: Analyzer, w: World, q: Request, files: seq<SourceFile>, path: string)
    requires forall n :: 0 <= n < |files| ==> files[n].path != path
    ensures Previous(Run(w, LoopOps(a, w, q, files)).manifests, q.repository, path)
            == Previous(w.manifests, q.repository, path)
    decreases |files|
  {
    hide Run, FileOps;
    if files == [] {
      NothingRun(w, {});
    } else {
      var init, last := files[..|files| - 1], files[|files| - 1];
      LoopKeepsManifest(a, w, q, init, path);
      var before := LoopOps(a, w, q, init);
      var v := Run(w, before);
      FileManifestCalls(a, v, q, last);
      CallsKeepManifest(v, FileOps(a, v, q, last), (q.repository, path));
      RunConcat(w, before, FileOps(a, v, q, last));
    }
  }

  lemma {:induction false} LoopInStep(a: Analyzer, f: World, i: World, q: Request, p: Request, files: seq<SourceFile>,
                                      rows: seq<CodeRelationship>, torn: set<FileKey>)
    requires ValidAnalyzer(a) && InFull(q, p) && InStep(f, i, rows) && DistinctPaths(files)
    requires Among(FinalRows(a, q.repository, files), rows)
    requires Invariant(a, i, torn) && SkipsWhole(q, files, i.manifests, torn)
    ensures InStep(Run(f, LoopOps(a, f, p, files)), Run(i, LoopOps(a, i, q, files)), rows)
    decreases |files|
  {
    hide Run, FileOps, Invariant, InStep, Closed, Open, TornBy, KeepsThroughout;
    if files == [] {
      NothingRun(f, {});
      NothingRun(i, {});
    } else {
      var init, last := files[..|files| - 1], files[|files| - 1];
      assert forall n :: 0 <= n < |init| ==> init[n] == files[n];
      LoopInStep(a, f, i, q, p, init, rows, torn);
      var full, incremental := LoopOps(a, f, p, init), LoopOps(a, i, q, init);
      LoopThroughout(a, i, q, init, torn);
      AtEnd(a, i, incremental, torn);
      LoopKeepsManifest(a, i, q, init, last.path);
      FileInStep(a, Run(f, full), Run(i, incremental), q, p, last, rows, torn - Closed({}, incremental));
      RunConcat(f, full, FileOps(a, Run(f, full), p, last));
      RunConcat(i, incremental, FileOps(a, Run(i, incremental), q, last));
    }
  }

  ghost predicate SameStores(w: World, v: World) {
    w.graph == v.graph && w.points == v.points && w.manifests == v.manifests
  }

  lemma SameStoresApply(w: World, v: World, op: Op)
    requires SameStores(w, v)
    ensures SameStores(Apply(w, op), Apply(v, op))
  {
    assert w == v.(job := w.job);
  }

  lemma {:induction false} SameStoresRun(w: World, v: World, ops: seq<Op>)
    requires SameStores(w, v)
    ensures SameStores(Run(w, ops), Run(v, ops))
    decreases |ops|
  {
    if ops != [] {
      var init, last := ops[..|ops| - 1], ops[|ops| - 1];
      SameStoresRun(w, v, init);
      SameStoresApply(Run(w, init), Run(v, init), last);
    }
  }

  lemma RunIndex(a: Analyzer, w: World, q: Request, files: seq<SourceFile>)
    ensures var v := Run(w, StartOps(files));
            var loop := Run(v, LoopOps(a, v, q, files));
            Run(w, IndexOps(a, w, q, files)) == Apply(loop, WriteRows(FinalRows(a, q.repository, files)))
  {
    var v := Run(w, StartOps(files));
    var loop := LoopOps(a, v, q, files);
    RunThreeParts(w, StartOps(files), loop, WriteRows(FinalRows(a, q.repository, files)));
  }

  lemma RunThreeParts(w: World, first: seq<Op>, second: seq<Op>, last: Op)
    ensures Run(w, first + second + [last]) == Apply(Run(Run(w, first), second), last)
  {
    RunConcat(w, first + second, [last]);
    RunConcat(w, first, second);
    RunOne(Run(Run(w, first), second), last);
  }

  lemma FinalInStep(f: World, i: World, rows: seq<CodeRelationship>)
    requires InStep(f, i, rows)
    ensures var f', i' := Apply(f, WriteRows(rows)), Apply(i, WriteRows(rows));
            SameStores(f', i') && f'.job.failed == i'.job.failed
  {
    FinalBatchDecides(f.graph, i.graph, rows);
  }

  lemma AgreeRefl(g: Graph, rows: seq<CodeRelationship>)
    ensures AgreeUpTo(g, g, rows)
  {
  }

  lemma IndexInStep(a: Analyzer, w: World, q: Request, p: Request, files: seq<SourceFile>, torn: set<FileKey>)
    requires ValidAnalyzer(a) && InFull(q, p)
    requires Invariant(a, w, torn) && SkipsWhole(q, files, w.manifests, torn) && DistinctPaths(files)
    ensures var f, i := Run(w, IndexOps(a, w, p, files)), Run(w, IndexOps(a, w, q, files));
            SameStores(f, i) && f.job.failed == i.job.failed
  {
    var rows := FinalRows(a, q.repository, files);
    var v := Run(w, StartOps(files));
    QuietKeeps(w, StartOps(files), {});
    SameInvariant(a, w, v, torn);
    AgreeRefl(v.graph, rows);
    assert InStep(v, v, rows);
    LoopInStep(a, v, v, q, p, files, rows, torn);
    FinalInStep(Run(v, LoopOps(a, v, p, files)), Run(v, LoopOps(a, v, q, files)), rows);
    RunIndex(a, w, p, files);
    RunIndex(a, w, q, files);
  }

  /** From any state whose manifests are true of the files the job would skip, an incremental job
      leaves graph (memberships, rows, edges and symbols), vectors and manifests exactly as a full job
      over the same files does, and fails exactly when the full job fails. */
  lemma IncrementalIsFull(a: Analyzer, w: World, q: Request, p: Request, files: seq<SourceFile>, listing: seq<string>,
                          torn: set<FileKey>)
    requires ValidAnalyzer(a) && InFull(q, p)
    requires Invariant(a, w, torn) && SkipsWhole(q, files, w.manifests, torn) && DistinctPaths(files)
    requires Lists(listing, Removed(w.manifests, q.repository, files))
    ensures var f, i := Run(w, JobOps(a, w, p, files, listing)), Run(w, JobOps(a, w, q, files, listing));
            SameStores(f, i) && f.job.failed == i.job.failed
  {
    hide Run, Apply, IndexOps, FinishOps, Invariant, SkipsWhole, Lists, Removed, SameStores;
    IndexInStep(a, w, q, p, files, torn);
    var full, incremental := IndexOps(a, w, p, files), IndexOps(a, w, q, files);
    var failed := Run(w, full).job.failed > 0;
    var finish := FinishOps(w, q, files, listing, failed);
    FinishSame(w, q, p, files, listing, failed);
    RunConcat(w, full, finish);
    RunConcat(w, incremental, finish);
    SameStoresRun(Run(w, full), Run(w, incremental), finish);
    FinishKeepsFailed(Run(w, full), finish);
    FinishKeepsFailed(Run(w, incremental), finish);
  }

  lemma {:induction false} CleanupSame(q: Request, p: Request, listing: seq<string>)
    requires InFull(q, p)
    ensures CleanupOps(q, listing) == CleanupOps(p, listing)
    ensures forall n :: 0 <= n < |CleanupOps(q, listing)| ==> !CleanupOps(q, listing)[n].Job?
  {
    if listing != [] {
      CleanupSame(q, p, listing[..|listing| - 1]);
    }
  }

  /** What follows the final rows does not depend on the mode, and counts no file. */
  lemma FinishSame(w: World, q: Request, p: Request, files: seq<SourceFile>, listing: seq<string>, failed: bool)
    requires InFull(q, p) && Lists(listing, Removed(w.manifests, q.repository, files))
    ensures var finish := FinishOps(w, q, files, listing, failed);
            && finish == FinishOps(w, p, files, listing, failed)
            && forall n :: 0 <= n < |finish| ==> finish[n].Job? ==> !finish[n].change.Add?
  {
    CleanupSame(q, p, listing);
  }

  lemma {:induction false} FinishKeepsFailed(w: World, ops: seq<Op>)
    requires forall n :: 0 <= n < |ops| ==> ops[n].Job? ==> !ops[n].change.Add?
    ensures Run(w, ops).job.failed == w.job.failed
  {
    if ops != [] {
      FinishKeepsFailed(w, ops[..|ops| - 1]);
      assert ops[|ops| - 1].Job? ==> !ops[|ops| - 1].change.Add?;
    }
  }
}

/** The part of the stores that belongs to one repository: what calls for it read and write. */
module RepositoryFrames {
  import opened Contracts
  import opened IndexStores
  import opened IndexJobs
  import opened GraphInvariants
  import opened IncrementalRefinesFull
  import opened PreservedHistory

  ghost predicate SameNodes(r: string, nodes: Nodes, other: Nodes) {
    forall id: NodeId :: id.repository == r ==>
      (id in nodes <==> id in other) && (id in nodes ==> nodes[id] == other[id])
  }

  predicate EdgeOf(r: string, k: EdgeKey) {
    k.source.repository == r && k.target.repository == r
  }

  ghost predicate SameEdges(r: string, edges: Edges, other: Edges) {
    forall k :: EdgeOf(r, k) ==> (k in edges <==> k in other) && (k in edges ==> edges[k] == other[k])
  }

  ghost predicate SameSymbols(r: string, symbols: Symbols, other: Symbols) {
    forall id: NodeId :: id.repository == r ==>
      (id in symbols <==> id in other) && (id in symbols ==> symbols[id] == other[id])
  }

  ghost predicate SamePairs(r: string, some: set<(string, string)>, other: set<(string, string)>) {
    forall revision :: (r, revision) in some <==> (r, revision) in other
  }

  ghost predicate SameSnapshots(r: string, some: Snapshots, other: Snapshots) {
    forall revision :: ((r, revision) in some <==> (r, revision) in other)
                       && ((r, revision) in some ==> some[(r, revision)] == other[(r, revision)])
  }

  ghost predicate SamePoints(r: string, points: Points, other: Points) {
    forall k: PointKey :: k.repository == r ==>
      (k in points <==> k in other) && (k in points ==> points[k] == other[k])
  }

  ghost predicate SameManifests(r: string, manifests: Manifests, other: Manifests) {
    forall path :: ((r, path) in manifests <==> (r, path) in other)
                   && ((r, path) in manifests ==> manifests[(r, path)] == other[(r, path)])
  }

  ghost predicate SameGraph(r: string, g: Graph, other: Graph) {
    && SameNodes(r, g.nodes, other.nodes) && SameEdges(r, g.edges, other.edges)
    && SameSymbols(r, g.symbols, other.symbols)
    && SamePairs(r, g.known, other.known) && SameSnapshots(r, g.snapshots, other.snapshots)
  }

  /** The stores agree on everything of the repository. */
  ghost predicate SameFor(r: string, w: World, v: World) {
    SameGraph(r, w.graph, v.graph) && SamePoints(r, w.points, v.points) && SameManifests(r, w.manifests, v.manifests)
  }

  /** Relationships whose ends are in the repository, as every parsed file's are. */
  predicate RowsWithin(r: string, rows: seq<CodeRelationship>) {
    forall n :: 0 <= n < |rows| ==> rows[n].sourceId.repository == r && rows[n].targetId.repository == r
  }

  /** A call of the repository's job. */
  ghost predicate CallWithin(q: Request, op: Op) {
    OnTarget(q, op) && (op.WriteGraph? || op.WriteRows? ==> RowsWithin(q.repository, op.rows))
  }

  // ---------------------------------------------------------------- relationships

  lemma {:induction false} SymbolsWithin(r: string, symbols: Symbols, other: Symbols, rows: seq<CodeRelationship>)
    requires SameSymbols(r, symbols, other)
    ensures SameSymbols(r, WriteSymbols(symbols, rows), WriteSymbols(other, rows))
  {
    if rows != [] {
      SymbolsWithin(r, symbols, other, rows[..|rows| - 1]);
    }
  }

  lemma {:induction false} SymbolsElsewhere(r: string, q: string, symbols: Symbols, rows: seq<CodeRelationship>)
    requires RowsWithin(q, rows) && q != r
    ensures SameSymbols(r, symbols, WriteSymbols(symbols, rows))
  {
    if rows != [] {
      SymbolsElsewhere(r, q, symbols, rows[..|rows| - 1]);
    }
  }

  lemma {:induction false} EdgeRowsWithin(r: string, nodes: Nodes, other: Nodes, symbols: Symbols, others: Symbols,
                                          rows: seq<CodeRelationship>)
    requires SameNodes(r, nodes, other) && SameSymbols(r, symbols, others) && RowsWithin(r, rows)
    ensures EdgeRows(nodes, symbols, rows) == EdgeRows(other, others, rows)
  {
    if rows != [] {
      EdgeRowsWithin(r, nodes, other, symbols, others, rows[..|rows| - 1]);
      var last := rows[|rows| - 1];
      assert Endpoints(nodes, symbols, last) == Endpoints(other, others, last);
    }
  }

  lemma KeptWithin(r: string, edges: Edges, other: Edges, symbols: Symbols, others: Symbols,
                   rows: seq<CodeRelationship>)
    requires SameEdges(r, edges, other) && SameSymbols(r, symbols, others)
    ensures SameEdges(r, KeepEdges(edges, symbols, rows), KeepEdges(other, others, rows))
  {
    forall k | EdgeOf(r, k) && k in edges
      ensures Superseded(symbols, k, edges[k], rows) == Superseded(others, k, edges[k], rows)
    {
    }
  }

  lemma AddedWithin(r: string, edges: Edges, other: Edges, more: Edges)
    requires SameEdges(r, edges, other)
    ensures SameEdges(r, edges + more, other + more)
  {
  }

  lemma RelationshipsWithin(r: string, g: Graph, other: Graph, rows: seq<CodeRelationship>)
    requires SameGraph(r, g, other) && RowsWithin(r, rows)
    ensures SameGraph(r, WriteRelationships(g, rows), WriteRelationships(other, rows))
  {
    hide EdgeRows, KeepEdges, WriteSymbols, SameNodes, SameEdges, SameSymbols, SameSnapshots, SamePairs, RowsWithin;
    SymbolsWithin(r, g.symbols, other.symbols, rows);
    var symbols, others := WriteSymbols(g.symbols, rows), WriteSymbols(other.symbols, rows);
    EdgeRowsWithin(r, g.nodes, other.nodes, symbols, others, rows);
    KeptWithin(r, g.edges, other.edges, symbols, others, rows);
    AddedWithin(r, KeepEdges(g.edges, symbols, rows), KeepEdges(other.edges, others, rows),
                EdgeRows(g.nodes, symbols, rows));
  }

  lemma RelationshipsElsewhere(r: string, q: string, g: Graph, rows: seq<CodeRelationship>)
    requires RowsWithin(q, rows) && q != r
    ensures SameGraph(r, g, WriteRelationships(g, rows))
  {
    hide EdgeRows, WriteSymbols;
    SymbolsElsewhere(r, q, g.symbols, rows);
    var symbols := WriteSymbols(g.symbols, rows);
    forall k | EdgeOf(r, k)
      ensures k !in EdgeRows(g.nodes, symbols, rows)
      ensures k in g.edges ==> !Superseded(symbols, k, g.edges[k], rows)
    {
      EdgeRowsKeys(g.nodes, symbols, rows, k);
    }
  }

  // ---------------------------------------------------------------- one call of the repository's own job

  lemma NodesWithin(r: string, nodes: Nodes, other: Nodes, repository: string, revision: string,
                    entities: seq<CodeEntity>)
    requires SameNodes(r, nodes, other)
    ensures SameNodes(r, WriteNodes(nodes, repository, revision, entities),
                      WriteNodes(other, repository, revision, entities))
  {
  }

  lemma CarryWithin(r: string, nodes: Nodes, other: Nodes, repository: string, source: string, target: string,
                    path: string, hash: string)
    requires SameNodes(r, nodes, other)
    ensures SameNodes(r, CarryNodes(nodes, repository, source, target, path, hash),
                      CarryNodes(other, repository, source, target, path, hash))
  {
  }

  lemma RemoveWithin(r: string, server: Server, g: Graph, other: Graph, repository: string, revision: string,
                     path: string)
    requires SameGraph(r, g, other)
    ensures SameGraph(r, RemoveFile(server, g, repository, revision, path),
                      RemoveFile(server, other, repository, revision, path))
  {
    hide SameSymbols, SameSnapshots, SamePairs, RemoveNodes, SameNodes;
    var nodes, others := RemoveNodes(server, g.nodes, repository, revision, path),
                         RemoveNodes(server, other.nodes, repository, revision, path);
    RemoveNodesWithin(r, server, g.nodes, other.nodes, repository, revision, path);
    SameKeys(r, g.nodes, other.nodes);
    SameKeys(r, nodes, others);
  }

  lemma RemoveNodesWithin(r: string, server: Server, nodes: Nodes, other: Nodes, repository: string, revision: string,
                          path: string)
    requires SameNodes(r, nodes, other)
    ensures SameNodes(r, RemoveNodes(server, nodes, repository, revision, path),
                      RemoveNodes(server, other, repository, revision, path))
  {
  }

  lemma SameKeys(r: string, nodes: Nodes, other: Nodes)
    requires SameNodes(r, nodes, other)
    ensures forall id: NodeId :: id.repository == r ==> (id in nodes <==> id in other)
  {
  }

  lemma FilePointsWithin(r: string, points: Points, other: Points, revision: string, path: string)
    requires SamePoints(r, points, other)
    ensures FilePoints(points, r, revision, path) == FilePoints(other, r, revision, path)
  {
  }

  lemma FilePointsOf(points: Points, r: string, revision: string, path: string)
    ensures forall k :: k in FilePoints(points, r, revision, path) ==>
              k in points && k.repository == r && k.revision == revision
  {
  }

  lemma CarryPointsWithin(server: Server, points: Points, other: Points, r: string, source: string, target: string,
                          path: string)
    requires SamePoints(r, points, other)
    ensures SamePoints(r, CarryPoints(server, points, r, source, target, path),
                       CarryPoints(server, other, r, source, target, path))
  {
    hide PageOf, FilePoints;
    FilePointsWithin(r, points, other, source, path);
    FilePointsOf(points, r, source, path);
    FilePointsOf(other, r, source, path);
    var page := server.page(FilePoints(points, r, source, path));
    PageWithin(server, FilePoints(points, r, source, path));
    forall k | k in set p | p in page :: p.(revision := target)
      ensures k.repository == r && k.(revision := source) in points && k.(revision := source) in other
      ensures points[k.(revision := source)] == other[k.(revision := source)]
    {
      var p :| p in page && k == p.(revision := target);
      assert k.(revision := source) == p;
    }
  }

  lemma GraphCallInside(q: Request, w: World, v: World, op: Op)
    requires CallWithin(q, op) && SameGraph(q.repository, w.graph, v.graph)
    requires op.WriteGraph? || op.CarryGraph? || op.WriteRows? || op.RemoveGraph?
    ensures SameGraph(q.repository, Apply(w, op).graph, Apply(v, op).graph)
  {
    hide SameNodes, SameEdges, SameSymbols, WriteNodes, CarryNodes, RemoveFile, WriteRelationships, RowsWithin, PageOf;
    var r := q.repository;
    match op
    case WriteGraph(repository, revision, path, entities, rows) =>
      NodesWithin(r, w.graph.nodes, v.graph.nodes, repository, revision, entities);
      var key := {(repository, revision)};
      var nodes, others := WriteNodes(w.graph.nodes, repository, revision, entities),
                           WriteNodes(v.graph.nodes, repository, revision, entities);
      RelationshipsWithin(r, w.graph.(nodes := nodes, known := w.graph.known + key),
                          v.graph.(nodes := others, known := v.graph.known + key), rows);
    case CarryGraph(repository, source, target, path, hash) =>
      CarryWithin(r, w.graph.nodes, v.graph.nodes, repository, source, target, path, hash);
    case WriteRows(rows) => RelationshipsWithin(r, w.graph, v.graph, rows);
    case RemoveGraph(server, repository, revision, path) =>
      RemoveWithin(r, server, w.graph, v.graph, repository, revision, path);
  }

  lemma OnlyGraph(w: World, op: Op)
    requires op.WriteGraph? || op.CarryGraph? || op.WriteRows? || op.RemoveGraph?
    ensures Apply(w, op) == w.(graph := Apply(w, op).graph)
  {
    hide WriteFile, CarryFile, RemoveFile, WriteRelationships;
  }

  lemma OtherCallInside(q: Request, w: World, v: World, op: Op)
    requires CallWithin(q, op) && SameFor(q.repository, w, v) && w.job == v.job
    requires !(op.WriteGraph? || op.CarryGraph? || op.WriteRows? || op.RemoveGraph?)
    ensures SameFor(q.repository, Apply(w, op), Apply(v, op)) && Apply(w, op).job == Apply(v, op).job
  {
    hide Changed, SameNodes, SameEdges, SameSymbols, CarryPoints, DropPoints, DocumentMap, SamePoints, RowsWithin,
         PageOf;
    match op
    case CarryVectors(server, repository, source, target, path) =>
      CarryPointsWithin(server, w.points, v.points, q.repository, source, target, path);
    case DropVectors(repository, revision, path) =>
      DropWithin(q.repository, w.points, v.points, repository, revision, path);
    case UpsertVectors(_, _, _, _) =>
      UpsertWithin(q.repository, w.points, v.points, DocumentMap(op.repository, op.revision, op.documents));
    case _ =>
  }

  lemma DropWithin(r: string, points: Points, other: Points, repository: string, revision: string, path: string)
    requires SamePoints(r, points, other)
    ensures SamePoints(r, DropPoints(points, repository, revision, path), DropPoints(other, repository, revision, path))
  {
  }

  lemma UpsertWithin(r: string, points: Points, other: Points, more: Points)
    requires SamePoints(r, points, other)
    ensures SamePoints(r, points + more, other + more)
  {
  }

  /** A call for the repository does the same to stores that agree on it. */
  lemma CallInside(q: Request, w: World, v: World, op: Op)
    requires CallWithin(q, op) && SameFor(q.repository, w, v) && w.job == v.job
    ensures SameFor(q.repository, Apply(w, op), Apply(v, op)) && Apply(w, op).job == Apply(v, op).job
  {
    hide Apply, SameGraph, SamePoints, SameManifests, CallWithin;
    if op.WriteGraph? || op.CarryGraph? || op.WriteRows? || op.RemoveGraph? {
      GraphCallInside(q, w, v, op);
      OnlyGraph(w, op);
      OnlyGraph(v, op);
    } else {
      OtherCallInside(q, w, v, op);
    }
  }

  // ---------------------------------------------------------------- one call of another repository's job

  lemma NodesElsewhere(r: string, nodes: Nodes, repository: string, revision: string, entities: seq<CodeEntity>)
    requires forall e :: e in entities ==> e.id.EntityNode? && e.id.repository == repository
    requires repository != r
    ensures SameNodes(r, nodes, WriteNodes(nodes, repository, revision, entities))
  {
    forall id | id in RowMap(entities)
      ensures id.repository == repository
    {
      RowMapKeys(entities, id);
    }
  }

  lemma CarryElsewhere(r: string, nodes: Nodes, repository: string, source: string, target: string, path: string,
                       hash: string)
    requires Owned(nodes) && repository != r
    ensures SameNodes(r, nodes, CarryNodes(nodes, repository, source, target, path, hash))
  {
  }

  lemma RemoveElsewhere(r: string, server: Server, g: Graph, repository: string, revision: string, path: string)
    requires Owned(g.nodes) && repository != r
    ensures SameGraph(r, g, RemoveFile(server, g, repository, revision, path))
  {
    hide PageOf;
  }

  lemma VectorsElsewhere(r: string, q: Request, w: World, op: Op)
    requires OnTarget(q, op) && q.repository != r
    requires op.CarryVectors? || op.DropVectors? || op.UpsertVectors?
    ensures SameFor(r, w, Apply(w, op))
  {
    hide Apply, OnTarget;
    VectorCallTouchesTarget(w, q, op);
  }

  /** A call for one repository leaves the part of every other as it is. */
  lemma CallOutside(r: string, q: Request, w: World, op: Op)
    requires CallWithin(q, op) && Owned(w.graph.nodes) && q.repository != r
    ensures SameFor(r, w, Apply(w, op))
  {
    hide SameNodes, SameEdges, SameSymbols, WriteNodes, CarryNodes, CarryPoints, RemoveFile, WriteRelationships,
         RowsWithin, PageOf, Owned;
    match op
    case WriteGraph(repository, revision, path, entities, rows) =>
      NodesElsewhere(r, w.graph.nodes, repository, revision, entities);
      var g := w.graph.(nodes := WriteNodes(w.graph.nodes, repository, revision, entities),
                        known := w.graph.known + {(repository, revision)});
      SameSelf(r, w);
      RelationshipsElsewhere(r, q.repository, g, rows);
      SameGraphTrans(r, w.graph, g, WriteRelationships(g, rows));
    case CarryGraph(repository, source, target, path, hash) =>
      SameSelf(r, w);
      CarryElsewhere(r, w.graph.nodes, repository, source, target, path, hash);
    case WriteRows(rows) =>
      RelationshipsElsewhere(r, q.repository, w.graph, rows);
    case RemoveGraph(server, repository, revision, path) =>
      RemoveElsewhere(r, server, w.graph, repository, revision, path);
    case CarryVectors(_, _, _, _, _) => VectorsElsewhere(r, q, w, op);
    case DropVectors(_, _, _) => VectorsElsewhere(r, q, w, op);
    case UpsertVectors(_, _, _, _) => VectorsElsewhere(r, q, w, op);
    case _ => SameSelf(r, w);
  }

  lemma SameSelf(r: string, w: World)
    ensures SameFor(r, w, w)
  {
  }

  lemma SameGraphTrans(r: string, g: Graph, h: Graph, k: Graph)
    requires SameGraph(r, g, h) && SameGraph(r, h, k)
    ensures SameGraph(r, g, k)
  {
  }

  lemma SameTrans(r: string, w: World, v: World, u: World)
    requires SameFor(r, w, v) && SameFor(r, v, u)
    ensures SameFor(r, w, u)
  {
    SameGraphTrans(r, w.graph, v.graph, u.graph);
  }

  lemma SameSym(r: string, w: World, v: World)
    requires SameFor(r, w, v)
    ensures SameFor(r, v, w)
  {
  }
}

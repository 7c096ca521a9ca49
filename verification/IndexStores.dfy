/** The durable state the indexer drives, and the effect of each store call on it. */
module IndexStores {
  import opened Contracts

  /** An :Entity node with its AT_REVISION memberships. */
  datatype GraphNode = GraphNode(row: CodeEntity, repository: string, latest: string, revisions: set<string>)

  datatype EdgeKey = EdgeKey(source: NodeId, kind: RelationshipKind, target: NodeId)
  datatype EdgeProperties = EdgeProperties(resolved: bool, filePath: string, line: nat, resolution: Resolution)

  type Nodes = map<NodeId, GraphNode>
  type Edges = map<EdgeKey, EdgeProperties>
  type Symbols = map<NodeId, string>

  /** Where a checkout came from and when it was captured and indexed, as the acquisition and the
      clock give it. */
  datatype Acquisition = Acquisition(source: string, capturedAt: string, indexedAt: string, remoteUrl: Option<string>,
                                     commitTimestamp: Option<string>, branchOrTag: Option<string>)

  /** What a snapshot says of the job that indexed its revision. */
  datatype Provenance = Provenance(job: string, acquisition: Acquisition)

  type Snapshots = map<(string, string), Provenance>

  /** Revision nodes are pairs of a repository and a revision; some have a snapshot. */
  datatype Graph = Graph(nodes: Nodes, edges: Edges, symbols: Symbols,
                         known: set<(string, string)>, snapshots: Snapshots)

  /** A point's id is digested from repository, revision and entity, and its payload repeats
      the three, so here they live in the key and the document holds the rest of the payload. */
  datatype PointKey = PointKey(repository: string, revision: string, entity: NodeId)

  datatype SemanticDocument = SemanticDocument(entity: CodeEntity, text: string)

  type Points = map<PointKey, SemanticDocument>

  datatype Manifest = Manifest(contentHash: string, revision: string, version: nat)

  type Manifests = map<(string, string), Manifest>

  // ---------------------------------------------------------------- servers

  const SCROLL_LIMIT: nat := 1000

  /** One page of a scroll: everything when it fits, otherwise 1,000 of the points. */
  ghost predicate PageOf(page: set<PointKey>, s: set<PointKey>) {
    page <= s && |page| == if |s| <= SCROLL_LIMIT then |s| else SCROLL_LIMIT
  }

  lemma SubsetOfSize<T>(s: set<T>, n: nat) returns (t: set<T>)
    requires n <= |s|
    ensures t <= s && |t| == n
  {
    if |s| == n {
      t := s;
    } else {
      var x :| x in s;
      t := SubsetOfSize(s - {x}, n);
    }
  }

  ghost function SomePage(s: set<PointKey>): (page: set<PointKey>)
    ensures PageOf(page, s)
  {
    var n := if |s| <= SCROLL_LIMIT then |s| else SCROLL_LIMIT;
    assert exists page :: PageOf(page, s) by {
      var page := SubsetOfSize(s, n);
      assert PageOf(page, s);
    }
    var page :| PageOf(page, s);
    page
  }

  ghost function SomeMember(s: set<string>): (r: string)
    ensures s != {} ==> r in s
  {
    if s == {} then "" else var r :| r in s; r
  }

  type Pager = f: set<PointKey> -> set<PointKey> | forall s :: PageOf(f(s), s) ghost witness s => SomePage(s)
  type Picker = f: set<string> -> string | forall s :: s != {} ==> f(s) in s ghost witness s => SomeMember(s)

  /** What the stores leave open: which points a scroll's first page holds, and which of a
      node's revisions Cypher's collect() lists first. */
  datatype Server = Server(page: Pager, pick: Picker)

  lemma WholePage(server: Server, s: set<PointKey>)
    requires |s| <= SCROLL_LIMIT
    ensures server.page(s) == s
  {
    var page := server.page(s);
    assert PageOf(page, s);
    assert s == page + (s - page);
  }

  lemma PageWithin(server: Server, s: set<PointKey>)
    ensures server.page(s) <= s
  {
    assert PageOf(server.page(s), s);
  }

  lemma SomeOnPage(server: Server, s: set<PointKey>)
    ensures server.page(s) == {} <==> s == {}
  {
    assert PageOf(server.page(s), s);
    if s != {} {
      var x :| x in s;
      assert s == {x} + (s - {x});
    }
  }

  // ---------------------------------------------------------------- graph

  /** The rows an UNWIND ... MERGE ... SET leaves: the last row for an id wins. */
  ghost function RowMap(entities: seq<CodeEntity>): map<NodeId, CodeEntity> {
    if entities == [] then map[]
    else
      var last := entities[|entities| - 1];
      RowMap(entities[..|entities| - 1])[last.id := last]
  }

  function RevisionsOf(nodes: Nodes, id: NodeId): set<string> {
    if id in nodes then nodes[id].revisions else {}
  }

  ghost function WriteNodes(nodes: Nodes, repository: string, revision: string, entities: seq<CodeEntity>): Nodes {
    var rows := RowMap(entities);
    map id | id in nodes.Keys + rows.Keys ::
      if id in rows
      then GraphNode(rows[id], repository, revision, RevisionsOf(nodes, id) + {revision})
      else nodes[id]
  }

  /** The MATCH ... WHERE of carry_forward_file. */
  predicate Carried(n: GraphNode, repository: string, source: string, path: string, hash: string) {
    && source in n.revisions
    && n.repository == repository
    && n.row.filePath == path
    && n.row.contentHash == hash
  }

  ghost function CarryNodes(nodes: Nodes, repository: string, source: string, target: string,
                            path: string, hash: string): Nodes {
    map id | id in nodes ::
      if Carried(nodes[id], repository, source, path, hash)
      then nodes[id].(latest := target, revisions := nodes[id].revisions + {target})
      else nodes[id]
  }

  predicate InFileAt(n: GraphNode, repository: string, revision: string, path: string) {
    revision in n.revisions && n.repository == repository && n.row.filePath == path
  }

  /** The membership goes; an entity with none left is deleted. */
  ghost function RemoveNodes(server: Server, nodes: Nodes, repository: string, revision: string, path: string): Nodes {
    map id | id in nodes
             && (InFileAt(nodes[id], repository, revision, path) ==> nodes[id].revisions - {revision} != {}) ::
      if InFileAt(nodes[id], repository, revision, path)
      then nodes[id].(latest := server.pick(nodes[id].revisions - {revision}),
                      revisions := nodes[id].revisions - {revision})
      else nodes[id]
  }

  function KeyOf(r: CodeRelationship): EdgeKey {
    EdgeKey(r.sourceId, r.kind, r.targetId)
  }

  function PropertiesOf(r: CodeRelationship): EdgeProperties {
    EdgeProperties(r.resolved, r.filePath, r.line, r.resolution)
  }

  /** Both endpoints of a row are matched before the edge is merged. */
  predicate Endpoints(nodes: Nodes, symbols: Symbols, r: CodeRelationship) {
    r.sourceId in nodes && (r.targetId in nodes || r.targetId in symbols)
  }

  ghost function WriteSymbols(symbols: Symbols, rows: seq<CodeRelationship>): Symbols {
    if rows == [] then symbols
    else
      var r := rows[|rows| - 1];
      var before := WriteSymbols(symbols, rows[..|rows| - 1]);
      if r.resolved then before else before[r.targetId := r.targetName]
  }

  /** An edge to an external symbol that a resolved row at the same place supersedes. */
  predicate Superseded(symbols: Symbols, k: EdgeKey, p: EdgeProperties, rows: seq<CodeRelationship>) {
    && k.target in symbols
    && exists i :: 0 <= i < |rows| && rows[i].resolved && rows[i].sourceId == k.source && rows[i].kind == k.kind
         && rows[i].filePath == p.filePath && rows[i].line == p.line
  }

  /** The edges rows merge, the last row for a key winning. */
  ghost function EdgeRows(nodes: Nodes, symbols: Symbols, rows: seq<CodeRelationship>): Edges {
    if rows == [] then map[]
    else
      var r := rows[|rows| - 1];
      var before := EdgeRows(nodes, symbols, rows[..|rows| - 1]);
      if Endpoints(nodes, symbols, r) then before[KeyOf(r) := PropertiesOf(r)] else before
  }

  ghost function KeepEdges(edges: Edges, symbols: Symbols, rows: seq<CodeRelationship>): Edges {
    map k | k in edges && !Superseded(symbols, k, edges[k], rows) :: edges[k]
  }

  /** Superseded edges go, then every row whose endpoints exist is merged. */
  ghost function WriteEdges(edges: Edges, nodes: Nodes, symbols: Symbols, rows: seq<CodeRelationship>): Edges {
    KeepEdges(edges, symbols, rows) + EdgeRows(nodes, symbols, rows)
  }

  ghost function WriteFile(g: Graph, repository: string, revision: string, entities: seq<CodeEntity>,
                           rows: seq<CodeRelationship>): Graph {
    var nodes := WriteNodes(g.nodes, repository, revision, entities);
    WriteRelationships(g.(nodes := nodes, known := g.known + {(repository, revision)}), rows)
  }

  /** The MERGE of the target revision, then the memberships. */
  ghost function CarryFile(g: Graph, repository: string, source: string, target: string, path: string,
                           hash: string): Graph {
    g.(nodes := CarryNodes(g.nodes, repository, source, target, path, hash), known := g.known + {(repository, target)})
  }

  /** The MATCH of the revision: one without a node is passed over. */
  ghost function RecordRevision(g: Graph, repository: string, revision: string, p: Provenance): Graph {
    if (repository, revision) in g.known then g.(snapshots := g.snapshots[(repository, revision) := p]) else g
  }

  ghost function WriteRelationships(g: Graph, rows: seq<CodeRelationship>): Graph {
    var symbols := WriteSymbols(g.symbols, rows);
    g.(symbols := symbols, edges := WriteEdges(g.edges, g.nodes, symbols, rows))
  }

  /** DETACH DELETE takes the edges of a deleted entity along. */
  ghost function RemoveFile(server: Server, g: Graph, repository: string, revision: string, path: string): Graph {
    var nodes := RemoveNodes(server, g.nodes, repository, revision, path);
    var gone := g.nodes.Keys - nodes.Keys;
    g.(nodes := nodes, edges := map k | k in g.edges && k.source !in gone && k.target !in gone :: g.edges[k])
  }

  // ---------------------------------------------------------------- vectors

  /** The repository, revision and file filter of a scroll or a delete. */
  predicate PointOf(k: PointKey, d: SemanticDocument, repository: string, revision: string, path: string) {
    k.repository == repository && k.revision == revision && d.entity.filePath == path
  }

  function FilePoints(points: Points, repository: string, revision: string, path: string): set<PointKey> {
    set k | k in points && PointOf(k, points[k], repository, revision, path)
  }

  /** The points an upsert of one file's documents writes; the last one for an id wins. */
  ghost function DocumentMap(repository: string, revision: string, documents: seq<SemanticDocument>): Points {
    if documents == [] then map[]
    else
      var last := documents[|documents| - 1];
      DocumentMap(repository, revision, documents[..|documents| - 1])
        [PointKey(repository, revision, last.entity.id) := last]
  }

  ghost function CarryPoints(server: Server, points: Points, repository: string, source: string, target: string,
                             path: string): Points {
    var page := server.page(FilePoints(points, repository, source, path));
    points + (map k | k in (set p | p in page :: p.(revision := target)) :: points[k.(revision := source)])
  }

  ghost function CarryCount(server: Server, points: Points, repository: string, source: string, path: string): nat {
    |server.page(FilePoints(points, repository, source, path))|
  }

  ghost function DropPoints(points: Points, repository: string, revision: string, path: string): Points {
    map k | k in points && !PointOf(k, points[k], repository, revision, path) :: points[k]
  }
}

/** Histories in which a revision always names the same files: what the index then holds. */
module PinnedRevisions {
  import opened Contracts
  import opened IndexStores
  import opened IndexJobs
  import opened GraphInvariants

  /** The files, with their hashes, that each revision of each repository names. */
  type Content = (string, string) -> map<string, string>

  ghost function ContentRows(a: Analyzer, c: Content, repository: string, revision: string,
                             path: string): map<NodeId, CodeEntity>
    requires path in c(repository, revision)
  {
    Rows(a, repository, path, c(repository, revision)[path])
  }

  ghost function ContentPoints(a: Analyzer, c: Content, repository: string, revision: string, path: string): Points
    requires path in c(repository, revision)
  {
    DocumentMap(repository, revision, Documents(a, repository, path, c(repository, revision)[path]))
  }

  // ---------------------------------------------------------------- nothing foreign is stored

  ghost predicate MembershipPinned(a: Analyzer, c: Content, id: NodeId, n: GraphNode, revision: string) {
    && n.row.filePath in c(n.repository, revision)
    && id in ContentRows(a, c, n.repository, revision, n.row.filePath)
  }

  ghost predicate NodesPinned(a: Analyzer, c: Content, nodes: Nodes) {
    forall id, revision :: id in nodes && revision in nodes[id].revisions ==>
      MembershipPinned(a, c, id, nodes[id], revision)
  }

  ghost predicate PointPinned(a: Analyzer, c: Content, k: PointKey, d: SemanticDocument) {
    && d.entity.filePath in c(k.repository, k.revision)
    && k in ContentPoints(a, c, k.repository, k.revision, d.entity.filePath)
    && ContentPoints(a, c, k.repository, k.revision, d.entity.filePath)[k] == d
  }

  ghost predicate PointsPinned(a: Analyzer, c: Content, points: Points) {
    forall k :: k in points ==> PointPinned(a, c, k, points[k])
  }

  ghost predicate ManifestsPinned(c: Content, manifests: Manifests) {
    forall k :: k in manifests ==>
      var files := c(k.0, manifests[k].revision);
      k.1 in files && files[k.1] == manifests[k].contentHash
  }

  ghost predicate Pinned(a: Analyzer, c: Content, w: World) {
    && GraphSound(a, w.graph.nodes)
    && NodesPinned(a, c, w.graph.nodes)
    && PointsPinned(a, c, w.points)
    && ManifestsPinned(c, w.manifests)
  }

  /** A call a job for revision t of a repository makes when t names the content c(repository, t). */
  ghost predicate CallPinned(a: Analyzer, c: Content, q: Request, op: Op) {
    var files := c(q.repository, q.revision);
    match op
    case WriteGraph(repository, revision, path, entities, _) =>
      && repository == q.repository && revision == q.revision && path in files
      && entities == Entities(a, repository, path, files[path])
    case CarryGraph(repository, _, target, path, hash) =>
      repository == q.repository && target == q.revision && path in files && hash == files[path]
    case DropVectors(repository, revision, _) =>
      repository == q.repository && revision == q.revision
    case UpsertVectors(repository, revision, path, documents) =>
      && repository == q.repository && revision == q.revision && path in files
      && documents == Documents(a, repository, path, files[path])
    case CarryVectors(server, repository, source, target, path) =>
      && repository == q.repository && target == q.revision && path in files
      && path in c(repository, source) && c(repository, source)[path] == files[path]
    case PutManifest(repository, path, manifest) =>
      repository == q.repository && path in files && manifest == Manifest(files[path], q.revision, ANALYSIS_VERSION)
    case RemoveGraph(server, repository, revision, path) =>
      repository == q.repository && revision == q.revision
    case _ => true
  }

  lemma {:induction false} DocumentKeys(a: Analyzer, repository: string, revision: string, hash: string,
                                        entities: seq<CodeEntity>, k: PointKey)
    ensures var m := DocumentMap(repository, revision, DocumentsOf(a, hash, entities));
            k in m ==> k.repository == repository && k.revision == revision && m[k].entity.id == k.entity
                       && m[k].entity in entities
  {
    if entities != [] {
      var init, last := entities[..|entities| - 1], entities[|entities| - 1];
      DocumentKeys(a, repository, revision, hash, init, k);
      if Searchable(last.kind) {
        var before := DocumentsOf(a, hash, init);
        var after := DocumentsOf(a, hash, entities);
        assert after[..|after| - 1] == before;
      }
    }
  }

  /** A point of a file's documents names the file in its payload and in its identity. */
  lemma PointOfFile(a: Analyzer, repository: string, revision: string, path: string, hash: string, k: PointKey)
    requires ValidAnalyzer(a)
    requires k in DocumentMap(repository, revision, Documents(a, repository, path, hash))
    ensures k.repository == repository && k.revision == revision
    ensures k.entity.EntityNode? && k.entity.path == path
    ensures DocumentMap(repository, revision, Documents(a, repository, path, hash))[k].entity.filePath == path
  {
    DocumentKeys(a, repository, revision, hash, Entities(a, repository, path, hash), k);
  }

  /** The documents of one content at two revisions differ in the revision alone. */
  lemma {:induction false} DocumentsMove(repository: string, source: string, target: string,
                                         documents: seq<SemanticDocument>, k: PointKey)
    ensures var from, to := DocumentMap(repository, source, documents), DocumentMap(repository, target, documents);
            && (k in from ==>
                k.revision == source && k.(revision := target) in to && to[k.(revision := target)] == from[k])
            && (k in to ==> k.revision == target && k.(revision := source) in from)
  {
    if documents != [] {
      DocumentsMove(repository, source, target, documents[..|documents| - 1], k);
    }
  }

  lemma WrittenMember(a: Analyzer, c: Content, nodes: Nodes, repository: string, revision: string, path: string,
                      id: NodeId, r: string)
    requires ValidAnalyzer(a) && GraphSound(a, nodes) && NodesPinned(a, c, nodes)
    requires path in c(repository, revision)
    requires var after := WriteNodes(nodes, repository, revision,
                                     Entities(a, repository, path, c(repository, revision)[path]));
             id in after && r in after[id].revisions
    ensures var after := WriteNodes(nodes, repository, revision,
                                    Entities(a, repository, path, c(repository, revision)[path]));
            MembershipPinned(a, c, id, after[id], r)
  {
    if id in Rows(a, repository, path, c(repository, revision)[path]) {
      RowOfFile(a, repository, path, c(repository, revision)[path], id);
      if id in nodes && r in nodes[id].revisions {
        NodeOfFile(a, nodes, id);
        assert MembershipPinned(a, c, id, nodes[id], r);
      }
    } else {
      assert MembershipPinned(a, c, id, nodes[id], r);
    }
  }

  lemma WriteStaysPinned(a: Analyzer, c: Content, nodes: Nodes, repository: string, revision: string, path: string)
    requires ValidAnalyzer(a) && GraphSound(a, nodes) && NodesPinned(a, c, nodes)
    requires path in c(repository, revision)
    ensures var after := WriteNodes(nodes, repository, revision,
                                    Entities(a, repository, path, c(repository, revision)[path]));
            GraphSound(a, after) && NodesPinned(a, c, after)
  {
    hide WriteNodes, MembershipPinned, GraphSound, ValidAnalyzer;
    var hash := c(repository, revision)[path];
    var after := WriteNodes(nodes, repository, revision, Entities(a, repository, path, hash));
    WriteKeeps(a, nodes, map[], repository, revision, path, hash, {});
    forall id, r | id in after && r in after[id].revisions
      ensures MembershipPinned(a, c, id, after[id], r)
    {
      WrittenMember(a, c, nodes, repository, revision, path, id, r);
    }
  }

  lemma CarryStaysPinned(a: Analyzer, c: Content, nodes: Nodes, repository: string, source: string, target: string,
                         path: string)
    requires GraphSound(a, nodes) && NodesPinned(a, c, nodes)
    requires path in c(repository, target)
    ensures var after := CarryNodes(nodes, repository, source, target, path, c(repository, target)[path]);
            GraphSound(a, after) && NodesPinned(a, c, after)
  {
    var hash := c(repository, target)[path];
    var after := CarryNodes(nodes, repository, source, target, path, hash);
    CarryKeeps(a, nodes, map[], {}, repository, source, target, path, hash);
    forall id, r | id in after && r in after[id].revisions
      ensures MembershipPinned(a, c, id, after[id], r)
    {
      if r in nodes[id].revisions {
        assert MembershipPinned(a, c, id, nodes[id], r);
      } else {
        assert NodeSound(a, id, nodes[id]);
      }
    }
  }

  lemma RemoveStaysPinned(server: Server, a: Analyzer, c: Content, nodes: Nodes, repository: string, revision: string,
                          path: string)
    requires ValidAnalyzer(a) && GraphSound(a, nodes) && NodesPinned(a, c, nodes)
    ensures var after := RemoveNodes(server, nodes, repository, revision, path);
            GraphSound(a, after) && NodesPinned(a, c, after)
  {
    var after := RemoveNodes(server, nodes, repository, revision, path);
    RemoveKeeps(server, a, nodes, map[], repository, revision, path, {});
    forall id, r | id in after && r in after[id].revisions
      ensures MembershipPinned(a, c, id, after[id], r)
    {
      assert MembershipPinned(a, c, id, nodes[id], r);
    }
  }

  lemma UpsertStaysPinned(a: Analyzer, c: Content, points: Points, repository: string, revision: string, path: string)
    requires ValidAnalyzer(a) && PointsPinned(a, c, points) && path in c(repository, revision)
    ensures PointsPinned(a, c, points + ContentPoints(a, c, repository, revision, path))
  {
    var more := ContentPoints(a, c, repository, revision, path);
    forall k | k in points + more
      ensures PointPinned(a, c, k, (points + more)[k])
    {
      if k in more {
        PointOfFile(a, repository, revision, path, c(repository, revision)[path], k);
      } else {
        assert PointPinned(a, c, k, points[k]);
      }
    }
  }

  lemma CarriedPoint(a: Analyzer, c: Content, points: Points, repository: string, source: string, target: string,
                     path: string, k: PointKey)
    requires ValidAnalyzer(a) && PointsPinned(a, c, points)
    requires path in c(repository, target) && path in c(repository, source)
    requires c(repository, source)[path] == c(repository, target)[path]
    requires k in FilePoints(points, repository, source, path)
    ensures var moved := k.(revision := target);
            && PointPinned(a, c, moved, points[k])
            && moved in ContentPoints(a, c, repository, target, path)
            && ContentPoints(a, c, repository, target, path)[moved] == points[k]
  {
    assert PointPinned(a, c, k, points[k]);
    DocumentsMove(repository, source, target, Documents(a, repository, path, c(repository, target)[path]), k);
  }

  lemma CarryPointsStayPinned(server: Server, a: Analyzer, c: Content, points: Points, repository: string,
                              source: string, target: string, path: string)
    requires ValidAnalyzer(a) && PointsPinned(a, c, points)
    requires path in c(repository, target) && path in c(repository, source)
    requires c(repository, source)[path] == c(repository, target)[path]
    ensures PointsPinned(a, c, CarryPoints(server, points, repository, source, target, path))
  {
    hide PageOf, PointPinned, FilePoints, CarryPoints;
    var after := CarryPoints(server, points, repository, source, target, path);
    forall k | k in after
      ensures PointPinned(a, c, k, after[k])
    {
      CarriedKey(server, points, repository, source, target, path, k);
      if k in points && after[k] == points[k] {
        assert PointPinned(a, c, k, points[k]);
      } else {
        CarriedPoint(a, c, points, repository, source, target, path, k.(revision := source));
      }
    }
  }

  /** A point after a carry is as it was, or a copy of one of the file's at the source. */
  lemma CarriedKey(server: Server, points: Points, repository: string, source: string, target: string, path: string,
                   k: PointKey)
    ensures var after := CarryPoints(server, points, repository, source, target, path);
            var from := k.(revision := source);
            k in after ==>
              || (k in points && after[k] == points[k])
              || (k.revision == target && from in FilePoints(points, repository, source, path) && from in points
                  && after[k] == points[from] && k == from.(revision := target))
  {
    hide PageOf;
    var page := server.page(FilePoints(points, repository, source, path));
    PageWithin(server, FilePoints(points, repository, source, path));
    if k in set p | p in page :: p.(revision := target) {
      var p :| p in page && k == p.(revision := target);
      assert k.(revision := source) == p;
    }
  }

  /** Carrying a file's points changes no other file's. */
  lemma CarryTouchesOwnFile(server: Server, a: Analyzer, c: Content, points: Points, repository: string, source: string,
                            target: string, path: string, r: string, s: string, p: string)
    requires ValidAnalyzer(a) && PointsPinned(a, c, points)
    requires path in c(repository, target) && path in c(repository, source)
    requires c(repository, source)[path] == c(repository, target)[path]
    requires (r, s, p) != (repository, target, path)
    ensures FilePoints(CarryPoints(server, points, repository, source, target, path), r, s, p)
            == FilePoints(points, r, s, p)
  {
    hide CarryPoints, PageOf;
    var after := CarryPoints(server, points, repository, source, target, path);
    CarryPointsStayPinned(server, a, c, points, repository, source, target, path);
    CarryKeepsKeys(server, points, repository, source, target, path);
    forall k
      ensures k in FilePoints(after, r, s, p) <==> k in FilePoints(points, r, s, p)
    {
      CarriedKey(server, points, repository, source, target, path, k);
      if k in points {
        SamePathOfKey(a, c, points, after, k);
      }
    }
  }

  lemma CarryKeepsKeys(server: Server, points: Points, repository: string, source: string, target: string, path: string)
    ensures points.Keys <= CarryPoints(server, points, repository, source, target, path).Keys
  {
  }

  /** A pinned point's key gives away its file. */
  lemma SamePathOfKey(a: Analyzer, c: Content, points: Points, after: Points, k: PointKey)
    requires ValidAnalyzer(a) && PointsPinned(a, c, points) && PointsPinned(a, c, after)
    requires k in points && k in after
    ensures points[k].entity.filePath == after[k].entity.filePath
  {
    assert PointPinned(a, c, k, points[k]) && PointPinned(a, c, k, after[k]);
    var named := c(k.repository, k.revision);
    PointOfFile(a, k.repository, k.revision, points[k].entity.filePath, named[points[k].entity.filePath], k);
    PointOfFile(a, k.repository, k.revision, after[k].entity.filePath, named[after[k].entity.filePath], k);
  }

  lemma CallKeepsPinned(a: Analyzer, c: Content, q: Request, w: World, op: Op)
    requires ValidAnalyzer(a) && Pinned(a, c, w) && CallPinned(a, c, q, op)
    ensures Pinned(a, c, Apply(w, op))
  {
    var nodes := w.graph.nodes;
    match op
    case WriteGraph(repository, revision, path, _, _) =>
      WriteStaysPinned(a, c, nodes, repository, revision, path);
    case CarryGraph(repository, source, target, path, _) =>
      CarryStaysPinned(a, c, nodes, repository, source, target, path);
    case RemoveGraph(server, repository, revision, path) =>
      RemoveStaysPinned(server, a, c, nodes, repository, revision, path);
    case UpsertVectors(repository, revision, path, _) =>
      UpsertStaysPinned(a, c, w.points, repository, revision, path);
    case CarryVectors(server, repository, source, target, path) =>
      CarryPointsStayPinned(server, a, c, w.points, repository, source, target, path);
    case _ =>
  }

  // ---------------------------------------------------------------- jobs over pinned content

  ghost predicate AllPinned(a: Analyzer, c: Content, q: Request, ops: seq<Op>) {
    forall n :: 0 <= n < |ops| ==> CallPinned(a, c, q, ops[n])
  }

  lemma {:induction false} CallsKeepPinned(a: Analyzer, c: Content, q: Request, w: World, ops: seq<Op>)
    requires ValidAnalyzer(a) && Pinned(a, c, w) && AllPinned(a, c, q, ops)
    ensures Pinned(a, c, Run(w, ops))
  {
    if ops != [] {
      CallsKeepPinned(a, c, q, w, ops[..|ops| - 1]);
      CallKeepsPinned(a, c, q, Run(w, ops[..|ops| - 1]), ops[|ops| - 1]);
    }
  }

  /** The discovered files are the ones the revision names. */
  ghost predicate FilesOf(c: Content, q: Request, files: seq<SourceFile>) {
    var named := c(q.repository, q.revision);
    && Paths(files) == named.Keys
    && forall n :: 0 <= n < |files| ==> files[n].path in named && named[files[n].path] == files[n].hash
  }

  ghost predicate FilesAmong(c: Content, q: Request, files: seq<SourceFile>) {
    var named := c(q.repository, q.revision);
    forall n :: 0 <= n < |files| ==> files[n].path in named && named[files[n].path] == files[n].hash
  }

  lemma FileCallsPinned(a: Analyzer, c: Content, q: Request, w: World, f: SourceFile)
    requires ManifestsPinned(c, w.manifests)
    requires f.path in c(q.repository, q.revision) && c(q.repository, q.revision)[f.path] == f.hash
    ensures AllPinned(a, c, q, FileOps(a, w, q, f))
  {
    hide ManifestsPinned, CallPinned, Documents, Entities, SkipVectors, WriteVectors, ChunkCount;
    var previous := Previous(w.manifests, q.repository, f.path);
    var source := VectorSource(previous, f.hash);
    SourcePinned(c, q, w, f);
    VectorCallsPinned(a, c, q, w.points, source, f.path);
    var ops := FileOps(a, w, q, f);
    EndsPinned(a, c, q, w, f);
    if Skippable(q.mode, previous, f.hash) {
      var vectors := SkipVectors(w.points, q, source.value, f.path, Documents(a, q.repository, f.path, f.hash));
      assert ops == [ops[0]] + vectors + [ops[|ops| - 2], ops[|ops| - 1]];
    } else if !Fatal(a, q.repository, f.path, f.hash) {
      var vectors := WriteVectors(w.points, q, source, f.path, Documents(a, q.repository, f.path, f.hash));
      assert ops == [ops[0]] + vectors + [ops[|ops| - 2], ops[|ops| - 1]];
    }
  }

  /** Unchanged content is what the manifest's revision names for the file. */
  lemma SourcePinned(c: Content, q: Request, w: World, f: SourceFile)
    requires ManifestsPinned(c, w.manifests)
    ensures var source := VectorSource(Previous(w.manifests, q.repository, f.path), f.hash);
            source.Some? ==> f.path in c(q.repository, source.value) && c(q.repository, source.value)[f.path] == f.hash
  {
  }

  /** The calls around a file's vector calls. */
  lemma EndsPinned(a: Analyzer, c: Content, q: Request, w: World, f: SourceFile)
    requires f.path in c(q.repository, q.revision) && c(q.repository, q.revision)[f.path] == f.hash
    ensures var ops := FileOps(a, w, q, f);
            && ops != [] && CallPinned(a, c, q, ops[0]) && CallPinned(a, c, q, ops[|ops| - 1])
            && (|ops| > 1 ==> CallPinned(a, c, q, ops[|ops| - 2]))
  {
    hide Documents, Entities, SkipVectors, WriteVectors, ChunkCount;
  }

  lemma VectorCallsPinned(a: Analyzer, c: Content, q: Request, points: Points, source: Option<string>, path: string)
    requires path in c(q.repository, q.revision)
    requires source.Some? ==>
      path in c(q.repository, source.value) && c(q.repository, source.value)[path] == c(q.repository, q.revision)[path]
    ensures var documents := Documents(a, q.repository, path, c(q.repository, q.revision)[path]);
            && AllPinned(a, c, q, WriteVectors(points, q, source, path, documents))
            && (source.Some? ==> AllPinned(a, c, q, SkipVectors(points, q, source.value, path, documents)))
  {
    hide Documents, CarryCount, IndexVectors, CallPinned;
    var documents := Documents(a, q.repository, path, c(q.repository, q.revision)[path]);
    IndexCallsOfFile(a, c, q, path);
    if source.Some? {
      var carry := CarryVectors(q.server, q.repository, source.value, q.revision, path);
      CarryCallPinned(a, c, q, source.value, path);
      assert AllPinned(a, c, q, [carry]);
      assert AllPinned(a, c, q, CarryOrIndex(points, q, source.value, path, documents));
    }
  }

  lemma CarryCallPinned(a: Analyzer, c: Content, q: Request, source: string, path: string)
    requires path in c(q.repository, q.revision)
    requires path in c(q.repository, source) && c(q.repository, source)[path] == c(q.repository, q.revision)[path]
    ensures CallPinned(a, c, q, CarryVectors(q.server, q.repository, source, q.revision, path))
  {
  }

  lemma IndexCallsOfFile(a: Analyzer, c: Content, q: Request, path: string)
    requires path in c(q.repository, q.revision)
    ensures AllPinned(a, c, q, IndexVectors(q, path,
                                            Documents(a, q.repository, path, c(q.repository, q.revision)[path])))
  {
    hide Documents;
  }

  lemma {:induction false} LoopCallsPinned(a: Analyzer, c: Content, q: Request, w: World, files: seq<SourceFile>)
    requires ValidAnalyzer(a) && Pinned(a, c, w) && FilesAmong(c, q, files)
    ensures AllPinned(a, c, q, LoopOps(a, w, q, files))
    decreases |files|
  {
    if files != [] {
      var init, last := files[..|files| - 1], files[|files| - 1];
      LoopCallsPinned(a, c, q, w, init);
      CallsKeepPinned(a, c, q, w, LoopOps(a, w, q, init));
      FileCallsPinned(a, c, q, Run(w, LoopOps(a, w, q, init)), last);
    }
  }

  lemma {:induction false} CleanupCallsPinned(a: Analyzer, c: Content, q: Request, listing: seq<string>)
    ensures AllPinned(a, c, q, CleanupOps(q, listing))
  {
    if listing != [] {
      CleanupCallsPinned(a, c, q, listing[..|listing| - 1]);
    }
  }

  lemma JobCallsPinned(a: Analyzer, c: Content, q: Request, w: World, files: seq<SourceFile>, listing: seq<string>)
    requires ValidAnalyzer(a) && Pinned(a, c, w) && FilesAmong(c, q, files)
    requires Lists(listing, Removed(w.manifests, q.repository, files))
    ensures AllPinned(a, c, q, JobOps(a, w, q, files, listing))
  {
    var start := StartOps(files);
    var v := Run(w, start);
    CallsKeepPinned(a, c, q, w, start);
    LoopCallsPinned(a, c, q, v, files);
    var index := IndexOps(a, w, q, files);
    assert AllPinned(a, c, q, index) by {
      IndexCallsPinned(a, c, q, w, files);
    }
    FinishCallsPinned(a, c, q, w, files, listing, Run(w, index).job.failed > 0);
  }

  lemma IndexCallsPinned(a: Analyzer, c: Content, q: Request, w: World, files: seq<SourceFile>)
    requires AllPinned(a, c, q, LoopOps(a, Run(w, StartOps(files)), q, files))
    ensures AllPinned(a, c, q, IndexOps(a, w, q, files))
  {
  }

  lemma FinishCallsPinned(a: Analyzer, c: Content, q: Request, w: World, files: seq<SourceFile>, listing: seq<string>,
                          failed: bool)
    requires Lists(listing, Removed(w.manifests, q.repository, files))
    ensures AllPinned(a, c, q, FinishOps(w, q, files, listing, failed))
  {
    hide CleanupOps, RenamedPaths, Lists, Removed;
    CleanupCallsPinned(a, c, q, listing);
  }

  /** However far a job gets, only entities and documents of the named files are ever stored. */
  lemma JobStoresNothingForeign(a: Analyzer, c: Content, q: Request, w: World, files: seq<SourceFile>,
                                listing: seq<string>, k: nat)
    requires ValidAnalyzer(a) && Pinned(a, c, w) && FilesAmong(c, q, files)
    requires Lists(listing, Removed(w.manifests, q.repository, files))
    requires k <= |JobOps(a, w, q, files, listing)|
    ensures Pinned(a, c, Run(w, JobOps(a, w, q, files, listing)[..k]))
  {
    JobCallsPinned(a, c, q, w, files, listing);
    CallsKeepPinned(a, c, q, w, JobOps(a, w, q, files, listing)[..k]);
  }

  // ---------------------------------------------------------------- vectors: all of a file's or none

  /** The file never has more chunks than one scroll page. */
  ghost predicate Fits(a: Analyzer, c: Content, repository: string, path: string) {
    forall revision :: path in c(repository, revision) ==>
      |ContentPoints(a, c, repository, revision, path).Keys| <= SCROLL_LIMIT
  }

  ghost predicate FileComplete(a: Analyzer, c: Content, points: Points, repository: string, revision: string,
                               path: string)
    requires path in c(repository, revision)
  {
    FilePoints(points, repository, revision, path) == ContentPoints(a, c, repository, revision, path).Keys
  }

  ghost predicate AllOrNothing(a: Analyzer, c: Content, points: Points) {
    forall repository, revision, path :: path in c(repository, revision) && Fits(a, c, repository, path) ==>
      FilePoints(points, repository, revision, path) == {} || FileComplete(a, c, points, repository, revision, path)
  }

  lemma OnlyContentPoints(a: Analyzer, c: Content, points: Points, repository: string, revision: string, path: string)
    requires ValidAnalyzer(a) && PointsPinned(a, c, points) && path in c(repository, revision)
    ensures FilePoints(points, repository, revision, path) <= ContentPoints(a, c, repository, revision, path).Keys
  {
    forall k | k in FilePoints(points, repository, revision, path)
      ensures k in ContentPoints(a, c, repository, revision, path)
    {
      assert PointPinned(a, c, k, points[k]);
    }
  }

  lemma UpsertCompletes(a: Analyzer, c: Content, points: Points, repository: string, revision: string, path: string)
    requires ValidAnalyzer(a) && PointsPinned(a, c, points) && path in c(repository, revision)
    ensures var after := points + ContentPoints(a, c, repository, revision, path);
            && FileComplete(a, c, after, repository, revision, path)
            && forall r, s, p :: (r, s, p) != (repository, revision, path) ==>
                 FilePoints(after, r, s, p) == FilePoints(points, r, s, p)
  {
    var more := ContentPoints(a, c, repository, revision, path);
    var after := points + more;
    forall k | k in more
      ensures PointOf(k, after[k], repository, revision, path)
      ensures k in points ==> PointOf(k, points[k], repository, revision, path)
    {
      PointOfFile(a, repository, revision, path, c(repository, revision)[path], k);
      if k in points {
        assert PointPinned(a, c, k, points[k]);
        PointOfFile(a, k.repository, k.revision, points[k].entity.filePath,
                    c(k.repository, k.revision)[points[k].entity.filePath], k);
      }
    }
    OnlyContentPoints(a, c, points, repository, revision, path);
    forall r, s, p | (r, s, p) != (repository, revision, path)
      ensures FilePoints(after, r, s, p) == FilePoints(points, r, s, p)
    {
    }
  }

  /** Carrying a complete file completes it at the target; carrying an empty one does nothing. */
  lemma CarryCompletes(server: Server, a: Analyzer, c: Content, points: Points, repository: string, source: string,
                       target: string, path: string)
    requires ValidAnalyzer(a) && PointsPinned(a, c, points) && Fits(a, c, repository, path)
    requires path in c(repository, target) && path in c(repository, source)
    requires c(repository, source)[path] == c(repository, target)[path]
    requires FilePoints(points, repository, source, path) == {} || FileComplete(a, c, points, repository, source, path)
    ensures var after := CarryPoints(server, points, repository, source, target, path);
            if FilePoints(points, repository, source, path) == {} then after == points
            else after == points + ContentPoints(a, c, repository, target, path)
  {
    if FilePoints(points, repository, source, path) == {} {
      CarryNothing(server, points, repository, source, target, path);
    } else {
      MovedPoints(a, c, points, repository, source, target, path);
      CarryWholePage(server, points, repository, source, target, path);
    }
  }

  lemma CarryNothing(server: Server, points: Points, repository: string, source: string, target: string, path: string)
    requires FilePoints(points, repository, source, path) == {}
    ensures CarryPoints(server, points, repository, source, target, path) == points
  {
    hide PageOf;
    var none: set<PointKey> := {};
    SomeOnPage(server, none);
    assert (set p | p in none :: p.(revision := target)) == none;
  }

  lemma CarryWholePage(server: Server, points: Points, repository: string, source: string, target: string, path: string)
    requires |FilePoints(points, repository, source, path)| <= SCROLL_LIMIT
    ensures var page := FilePoints(points, repository, source, path);
            CarryPoints(server, points, repository, source, target, path)
            == points + (map k | k in (set p | p in page :: p.(revision := target)) :: points[k.(revision := source)])
  {
    var page := FilePoints(points, repository, source, path);
    WholePage(server, page);
  }

  lemma MovedPoints(a: Analyzer, c: Content, points: Points, repository: string, source: string, target: string,
                    path: string)
    requires ValidAnalyzer(a) && PointsPinned(a, c, points)
    requires path in c(repository, target) && path in c(repository, source)
    requires c(repository, source)[path] == c(repository, target)[path]
    requires FileComplete(a, c, points, repository, source, path)
    ensures var page := FilePoints(points, repository, source, path);
            (map k | k in (set p | p in page :: p.(revision := target)) :: points[k.(revision := source)])
            == ContentPoints(a, c, repository, target, path)
  {
    var page := FilePoints(points, repository, source, path);
    var to := ContentPoints(a, c, repository, target, path);
    var documents := Documents(a, repository, path, c(repository, target)[path]);
    var moved := set p | p in page :: p.(revision := target);
    forall k | k in moved
      ensures k in to && points[k.(revision := source)] == to[k]
    {
      var p :| p in page && k == p.(revision := target);
      assert k.(revision := source) == p;
      CarriedPoint(a, c, points, repository, source, target, path, p);
    }
    forall k | k in to
      ensures k in moved
    {
      DocumentsMove(repository, source, target, documents, k);
      assert k.(revision := source) in page;
      assert k == k.(revision := source).(revision := target);
    }
    assert moved == to.Keys;
  }

  lemma UpsertKeepsAllOrNothing(a: Analyzer, c: Content, points: Points, repository: string, revision: string,
                                path: string)
    requires ValidAnalyzer(a) && PointsPinned(a, c, points) && path in c(repository, revision)
    requires AllOrNothing(a, c, points)
    ensures AllOrNothing(a, c, points + ContentPoints(a, c, repository, revision, path))
  {
    hide FilePoints, ContentPoints, PointsPinned, ValidAnalyzer, Fits;
    UpsertCompletes(a, c, points, repository, revision, path);
  }

  lemma DropKeepsAllOrNothing(a: Analyzer, c: Content, points: Points, repository: string, revision: string,
                              path: string)
    requires AllOrNothing(a, c, points)
    ensures AllOrNothing(a, c, DropPoints(points, repository, revision, path))
  {
    hide FilePoints, ContentPoints, DropPoints, Fits;
    DropClears(points, repository, revision, path);
  }

  lemma OtherKeepsPoints(w: World, op: Op)
    requires !op.UpsertVectors? && !op.CarryVectors? && !op.DropVectors?
    ensures Apply(w, op).points == w.points
  {
  }

  /** Every call keeps each file's vectors complete or absent, if the file fits a page. */
  lemma CallKeepsAllOrNothing(a: Analyzer, c: Content, q: Request, w: World, op: Op)
    requires ValidAnalyzer(a) && Pinned(a, c, w) && CallPinned(a, c, q, op)
    requires AllOrNothing(a, c, w.points)
    ensures AllOrNothing(a, c, Apply(w, op).points)
  {
    hide PageOf, AllOrNothing, ValidAnalyzer, CarryPoints, DropPoints, PointsPinned, NodesPinned, ManifestsPinned;
    if op.UpsertVectors? {
      UpsertKeepsAllOrNothing(a, c, w.points, op.repository, op.revision, op.path);
    } else if op.CarryVectors? {
      CarryKeepsAllOrNothing(op.server, a, c, w.points, op.repository, op.source, op.target, op.path);
    } else if op.DropVectors? {
      DropKeepsAllOrNothing(a, c, w.points, op.repository, op.revision, op.path);
    } else {
      OtherKeepsPoints(w, op);
    }
  }

  lemma CarryKeepsAllOrNothing(server: Server, a: Analyzer, c: Content, points: Points, repository: string,
                               source: string, target: string, path: string)
    requires ValidAnalyzer(a) && PointsPinned(a, c, points) && AllOrNothing(a, c, points)
    requires path in c(repository, target) && path in c(repository, source)
    requires c(repository, source)[path] == c(repository, target)[path]
    ensures AllOrNothing(a, c, CarryPoints(server, points, repository, source, target, path))
  {
    hide PageOf, CarryPoints, Fits, FilePoints;
    var after := CarryPoints(server, points, repository, source, target, path);
    forall r, s, p | p in c(r, s) && Fits(a, c, r, p)
      ensures FilePoints(after, r, s, p) == {} || FileComplete(a, c, after, r, s, p)
    {
      if (r, s, p) == (repository, target, path) {
        CarryCompletes(server, a, c, points, repository, source, target, path);
        UpsertCompletes(a, c, points, repository, target, path);
      } else {
        CarryTouchesOwnFile(server, a, c, points, repository, source, target, path, r, s, p);
      }
    }
  }

  lemma DropClears(points: Points, repository: string, revision: string, path: string)
    ensures var after := DropPoints(points, repository, revision, path);
            && FilePoints(after, repository, revision, path) == {}
            && forall r, s, p :: (r, s, p) != (repository, revision, path) ==>
                 FilePoints(after, r, s, p) == FilePoints(points, r, s, p)
  {
  }
}

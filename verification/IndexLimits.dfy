/** Where the incremental index stops meeting its promise, and exactly when it does. */
module IndexLimits {
  import opened Contracts
  import opened IndexStores
  import opened IndexJobs
  import opened GraphInvariants
  import opened JobInvariants
  import opened PinnedRevisions
  import opened CompletedJobs
  import opened ExactIndex
  import opened IndexerStores

  // ---------------------------------------------------------------- one page of vectors

  /** A file's vectors arrive complete at a revision that had none of them if and only if they
      fit one scroll page; beyond that exactly a page arrives. */
  lemma CarriedWholeExactly(server: Server, points: Points, repository: string, source: string, target: string,
                            path: string)
    requires source != target && FilePoints(points, repository, target, path) == {}
    ensures var all := FilePoints(points, repository, source, path);
            var copied := FilePoints(CarryPoints(server, points, repository, source, target, path),
                                     repository, target, path);
            && copied <= Moved(all, target)
            && |copied| == (if |all| <= SCROLL_LIMIT then |all| else SCROLL_LIMIT)
            && (copied == Moved(all, target) <==> |all| <= SCROLL_LIMIT)
  {
    hide PageOf, CarryPoints;
    var all := FilePoints(points, repository, source, path);
    var page := server.page(all);
    PageSize(server, all);
    CarriedPage(server, points, repository, source, target, path);
    MovedSize(page, source, target);
    MovedSize(all, source, target);
    assert Moved(page, target) <= Moved(all, target);
    if |all| > SCROLL_LIMIT {
      assert |Moved(page, target)| != |Moved(all, target)|;
    } else {
      WholePage(server, all);
    }
  }

  lemma PageSize(server: Server, s: set<PointKey>)
    ensures server.page(s) <= s && |server.page(s)| == if |s| <= SCROLL_LIMIT then |s| else SCROLL_LIMIT
  {
    assert PageOf(server.page(s), s);
  }

  lemma CarriedPage(server: Server, points: Points, repository: string, source: string, target: string, path: string)
    requires source != target && FilePoints(points, repository, target, path) == {}
    ensures var page := server.page(FilePoints(points, repository, source, path));
            FilePoints(CarryPoints(server, points, repository, source, target, path), repository, target, path)
            == Moved(page, target)
  {
    hide PageOf, CarryPoints, FilePoints, Moved;
    var page := server.page(FilePoints(points, repository, source, path));
    CarryIsCopies(server, points, repository, source, target, path);
    FilePointsStored(points, repository, source, path);
    CopiesAreTheFile(points, page, repository, source, target, path);
    FilePointsOfUnion(points, Copies(points, page, source, target), repository, target, path);
  }

  lemma CopiesAreTheFile(points: Points, page: set<PointKey>, repository: string, source: string, target: string,
                         path: string)
    requires page <= FilePoints(points, repository, source, path)
    requires page <= points.Keys && forall p :: p in page ==> p.revision == source
    ensures FilePoints(Copies(points, page, source, target), repository, target, path) == Moved(page, target)
  {
    var copies := Copies(points, page, source, target);
    forall k | k in Moved(page, target)
      ensures k in FilePoints(copies, repository, target, path)
    {
      var p :| p in page && k == p.(revision := target);
      assert k.(revision := source) == p;
    }
  }

  lemma FilePointsOfUnion(points: Points, more: Points, repository: string, revision: string, path: string)
    requires FilePoints(points, repository, revision, path) == {}
    ensures FilePoints(points + more, repository, revision, path) == FilePoints(more, repository, revision, path)
  {
    forall k | k in points
      ensures !PointOf(k, points[k], repository, revision, path)
    {
      assert k !in FilePoints(points, repository, revision, path);
    }
  }

  lemma {:induction false} MovedSize(some: set<PointKey>, source: string, target: string)
    requires forall p :: p in some ==> p.revision == source
    ensures |Moved(some, target)| == |some|
    decreases |some|
  {
    if some == {} {
      assert Moved(some, target) == {};
    } else {
      var p :| p in some;
      var rest := some - {p};
      MovedSize(rest, source, target);
      MovedOneMore(rest, target, p);
      assert some == rest + {p};
      assert p.(revision := target) !in Moved(rest, target) by {
        forall x | x in rest
          ensures x.(revision := target) != p.(revision := target)
        {
        }
      }
    }
  }

  // ---------------------------------------------------------------- which documents are stored

  /** The documents stored for a file at a revision. */
  ghost function FileAt(points: Points, repository: string, revision: string, path: string): Points {
    map k | k in FilePoints(points, repository, revision, path) :: points[k]
  }

  /** The current analyzer's documents of a file, as stored at the job's revision. */
  ghost function Current(a: Analyzer, q: Request, f: SourceFile): Points {
    DocumentMap(q.repository, q.revision, Documents(a, q.repository, f.path, f.hash))
  }

  /** What was stored for the file already, overlaid with the page carried from the source. */
  ghost function Overlaid(points: Points, q: Request, source: string, path: string): Points {
    FilePointsStored(points, q.repository, source, path);
    PageWithin(q.server, FilePoints(points, q.repository, source, path));
    FileAt(points, q.repository, q.revision, path)
    + Copies(points, q.server.page(FilePoints(points, q.repository, source, path)), source, q.revision)
  }

  lemma IndexedStored(a: Analyzer, points: Points, q: Request, f: SourceFile)
    requires ValidAnalyzer(a)
    ensures FileAt(DropPoints(points, q.repository, q.revision, f.path) + Current(a, q, f),
                   q.repository, q.revision, f.path)
            == Current(a, q, f)
  {
    hide Documents, DocumentMap;
    forall k | k in Current(a, q, f)
      ensures PointOf(k, Current(a, q, f)[k], q.repository, q.revision, f.path)
    {
      PointOfFile(a, q.repository, q.revision, f.path, f.hash, k);
    }
  }

  lemma CarriedStored(points: Points, q: Request, source: string, path: string)
    ensures FileAt(CarryPoints(q.server, points, q.repository, source, q.revision, path),
                   q.repository, q.revision, path)
            == Overlaid(points, q, source, path)
  {
    hide CarryPoints, PageOf, FilePoints, FileAt, Copies;
    CarryIsCopies(q.server, points, q.repository, source, q.revision, path);
    FilePointsStored(points, q.repository, source, path);
    FileAtOfCopies(points, q.server.page(FilePoints(points, q.repository, source, path)), q.repository, source,
                   q.revision, path);
  }

  lemma FileAtOfCopies(points: Points, page: set<PointKey>, repository: string, source: string, target: string,
                       path: string)
    requires page <= FilePoints(points, repository, source, path)
    requires page <= points.Keys && forall p :: p in page ==> p.revision == source
    ensures FileAt(points + Copies(points, page, source, target), repository, target, path)
            == FileAt(points, repository, target, path) + Copies(points, page, source, target)
  {
    forall k | k in Moved(page, target)
      ensures PointOf(k, points[k.(revision := source)], repository, target, path)
    {
      var p :| p in page && k == p.(revision := target);
      assert k.(revision := source) == p;
    }
  }

  lemma IndexRunPoints(w: World, q: Request, path: string, documents: seq<SemanticDocument>)
    ensures Run(w, IndexVectors(q, path, documents)).points
            == DropPoints(w.points, q.repository, q.revision, path) + DocumentMap(q.repository, q.revision, documents)
  {
    hide DropPoints;
    var drop := DropVectors(q.repository, q.revision, path);
    var upsert := UpsertVectors(q.repository, q.revision, path, documents);
    RunOne(w, drop);
    RunOne(Apply(w, drop), upsert);
    RunConcat(w, [drop], [upsert]);
    assert IndexVectors(q, path, documents) == if documents == [] then [drop] else [drop] + [upsert];
  }

  /** What a file's calls leave stored for it: the current documents when its content changed or
      the manifest's revision has none, and otherwise the old ones, carried. */
  lemma StoredAfter(a: Analyzer, w: World, q: Request, f: SourceFile)
    requires ValidAnalyzer(a) && q.semantic && !FileFails(a, w, q, f)
    ensures var source := VectorSource(Previous(w.manifests, q.repository, f.path), f.hash);
            FileAt(Run(w, FileOps(a, w, q, f)).points, q.repository, q.revision, f.path)
            == if source.None? || FilePoints(w.points, q.repository, source.value, f.path) == {} then Current(a, q, f)
               else Overlaid(w.points, q, source.value, f.path)
  {
    hide Run, Apply, FileOps, PageOf, CarryPoints, DropPoints, FileAt, Overlaid, FilePoints, IndexVectors;
    var source := VectorSource(Previous(w.manifests, q.repository, f.path), f.hash);
    var documents := Documents(a, q.repository, f.path, f.hash);
    PointsOfFile(a, w, q, f);
    IndexedStored(a, w.points, q, f);
    IndexRunPoints(w, q, f.path, documents);
    if source.Some? {
      var some := FilePoints(w.points, q.repository, source.value, f.path);
      SomeOnPage(q.server, some);
      if some == {} {
        NothingCarriedRun(w, q, source.value, f.path, documents);
      } else {
        RunCarry(w, q, source.value, f.path, documents);
        CarriedStored(w.points, q, source.value, f.path);
      }
    }
  }

  lemma NothingCarriedRun(w: World, q: Request, source: string, path: string, documents: seq<SemanticDocument>)
    requires FilePoints(w.points, q.repository, source, path) == {}
    ensures Run(w, CarryOrIndex(w.points, q, source, path, documents)).points
            == Run(w, IndexVectors(q, path, documents)).points
  {
    hide Run, CarryPoints, PageOf, IndexVectors, FilePoints;
    var carry := CarryVectors(q.server, q.repository, source, q.revision, path);
    var none: set<PointKey> := {};
    SomeOnPage(q.server, none);
    assert CarryOrIndex(w.points, q, source, path, documents) == [carry] + IndexVectors(q, path, documents);
    RunConcat(w, [carry], IndexVectors(q, path, documents));
    RunOne(w, carry);
    CarryNothing(q.server, w.points, q.repository, source, q.revision, path);
    SamePointsRun(Apply(w, carry), w, IndexVectors(q, path, documents));
  }

  /** A file of one page that the job's revision does not have yet ends up there with the current
      analyzer's documents if and only if its content changed, or the manifest's revision has no
      documents of it, or has exactly the current ones: that the analysis version changed makes no
      difference. */
  lemma EmbeddedExactly(a: Analyzer, w: World, q: Request, f: SourceFile)
    requires ValidAnalyzer(a) && q.semantic && !FileFails(a, w, q, f)
    requires FilePoints(w.points, q.repository, q.revision, f.path) == {}
    requires var previous := Previous(w.manifests, q.repository, f.path);
             previous.Some? ==> |FilePoints(w.points, q.repository, previous.value.revision, f.path)| <= SCROLL_LIMIT
    ensures var previous := Previous(w.manifests, q.repository, f.path);
            FileAt(Run(w, FileOps(a, w, q, f)).points, q.repository, q.revision, f.path) == Current(a, q, f)
            <==> || !SameContent(previous, f.hash)
                 || FileAt(w.points, q.repository, previous.value.revision, f.path) == map[]
                 || FileAt(w.points, q.repository, previous.value.revision, f.path)
                    == DocumentMap(q.repository, previous.value.revision, Documents(a, q.repository, f.path, f.hash))
  {
    hide Run, FileOps, PageOf, DocumentMap, Documents, Overlaid, Copies, FileAt, FilePoints, FileFails;
    StoredAfter(a, w, q, f);
    var previous := Previous(w.manifests, q.repository, f.path);
    if SameContent(previous, f.hash) {
      var source := previous.value.revision;
      StoredExactly(w.points, q.repository, source, f.path);
      if FilePoints(w.points, q.repository, source, f.path) != {} {
        OverlaidAlone(w.points, q, source, f.path);
        FilePointsStored(w.points, q.repository, source, f.path);
        CopiesAreCurrentExactly(a, w.points, q, f, source);
      }
    }
  }

  lemma StoredExactly(points: Points, repository: string, revision: string, path: string)
    ensures FileAt(points, repository, revision, path) == map[]
            <==> FilePoints(points, repository, revision, path) == {}
  {
    assert FileAt(points, repository, revision, path).Keys == FilePoints(points, repository, revision, path);
  }

  lemma OverlaidAlone(points: Points, q: Request, source: string, path: string)
    requires FilePoints(points, q.repository, q.revision, path) == {}
    requires |FilePoints(points, q.repository, source, path)| <= SCROLL_LIMIT
    ensures FilePoints(points, q.repository, source, path) <= points.Keys
    ensures forall p :: p in FilePoints(points, q.repository, source, path) ==> p.revision == source
    ensures Overlaid(points, q, source, path)
            == Copies(points, FilePoints(points, q.repository, source, path), source, q.revision)
  {
    hide PageOf, Copies, FilePoints;
    FilePointsStored(points, q.repository, source, path);
    WholePage(q.server, FilePoints(points, q.repository, source, path));
    StoredExactly(points, q.repository, q.revision, path);
  }

  /** The copies are the current documents if the originals were. */
  lemma CopiesAreCurrentExactly(a: Analyzer, points: Points, q: Request, f: SourceFile, source: string)
    ensures Copies(points, FilePoints(points, q.repository, source, f.path), source, q.revision) == Current(a, q, f)
            <==> FileAt(points, q.repository, source, f.path)
                 == DocumentMap(q.repository, source, Documents(a, q.repository, f.path, f.hash))
  {
    hide DocumentMap, Documents;
    var some := FilePoints(points, q.repository, source, f.path);
    var documents := Documents(a, q.repository, f.path, f.hash);
    var from, to := DocumentMap(q.repository, source, documents), DocumentMap(q.repository, q.revision, documents);
    var stored := FileAt(points, q.repository, source, f.path);
    var copies := Copies(points, some, source, q.revision);
    forall k
      ensures k in from ==>
              k.revision == source && k.(revision := q.revision) in to && to[k.(revision := q.revision)] == from[k]
      ensures k in to ==> k.revision == q.revision && k.(revision := source) in from
      ensures k in copies <==> k.revision == q.revision && k.(revision := source) in stored
    {
      DocumentsMove(q.repository, source, q.revision, documents, k);
      if k.revision == q.revision && k.(revision := source) in stored {
        assert k.(revision := source).(revision := q.revision) == k;
      }
      if k in copies {
        var p :| p in some && k == p.(revision := q.revision);
        assert k.(revision := source) == p;
      }
    }
    if copies == to {
      CopiesBack(stored, from, copies, to, source, q.revision);
    }
    if stored == from {
      forall k | k in to || k in copies
        ensures k in to && k in copies && to[k] == copies[k]
      {
        if k in to {
          assert k.(revision := source).(revision := q.revision) == k;
        }
      }
    }
  }

  lemma CopiesBack(stored: Points, from: Points, copies: Points, to: Points, source: string, target: string)
    requires copies == to
    requires forall k :: k in stored ==> k.revision == source && k.(revision := target) in copies
                                         && copies[k.(revision := target)] == stored[k]
    requires forall k :: k in from ==>
               k.revision == source && k.(revision := target) in to && to[k.(revision := target)] == from[k]
    requires forall k :: k in to ==> k.(revision := source) in from && k.(revision := source) in stored
    ensures stored == from
  {
    forall k
      ensures (k in stored <==> k in from) && (k in stored ==> stored[k] == from[k])
    {
      if k in stored || k in from {
        assert k.(revision := target) in to;
        assert k.(revision := target).(revision := source) == k;
      }
    }
  }

  // ---------------------------------------------------------------- torn files

  /** After an unchanged file has been carried forward, its revision holds the file if and only if
      every entity of the parse was still stored with that parse's row at the manifest's revision
      or at the target. */
  lemma SkippedHoldsExactly(a: Analyzer, w: World, q: Request, f: SourceFile)
    requires ValidAnalyzer(a) && GraphSound(a, w.graph.nodes)
    requires Skippable(q.mode, Previous(w.manifests, q.repository, f.path), f.hash)
    ensures var source := w.manifests[(q.repository, f.path)].revision;
            var rows := Rows(a, q.repository, f.path, f.hash);
            Holds(a, Run(w, FileOps(a, w, q, f)).graph.nodes, q.repository, q.revision, f.path, f.hash)
            <==> forall id :: id in rows ==>
                   && id in w.graph.nodes && w.graph.nodes[id].row == rows[id]
                   && w.graph.nodes[id].repository == q.repository
                   && (source in w.graph.nodes[id].revisions || q.revision in w.graph.nodes[id].revisions)
  {
    hide Run, PageOf;
    var source := w.manifests[(q.repository, f.path)].revision;
    var rows := Rows(a, q.repository, f.path, f.hash);
    SkippedNodes(a, w, q, f);
    forall id | id in rows
      ensures EntityOfFile(rows[id], q.repository, f.path, f.hash)
    {
      RowOfFile(a, q.repository, f.path, f.hash, id);
    }
  }

  lemma SkippedNodes(a: Analyzer, w: World, q: Request, f: SourceFile)
    requires Skippable(q.mode, Previous(w.manifests, q.repository, f.path), f.hash)
    ensures Run(w, FileOps(a, w, q, f)).graph.nodes
            == CarryNodes(w.graph.nodes, q.repository, w.manifests[(q.repository, f.path)].revision,
                          q.revision, f.path, f.hash)
  {
    hide Run, PageOf, CarryNodes, CarryPoints, Documents, Entities, AllQuiet, CarryCount, ChunkCount;
    var ops := FileOps(a, w, q, f);
    RunConcat(w, [ops[0]], ops[1..]);
    RunOne(w, ops[0]);
    assert ops == [ops[0]] + ops[1..];
    VectorCallsQuiet(w.points, q, Some(w.manifests[(q.repository, f.path)].revision), f.path,
                     Documents(a, q.repository, f.path, f.hash));
    assert forall n :: 1 <= n < |ops| ==> !ops[n].WriteGraph? && !ops[n].CarryGraph? && !ops[n].RemoveGraph?;
    NodesUntouched(Apply(w, ops[0]), ops[1..]);
  }

  lemma {:induction false} NodesUntouched(w: World, ops: seq<Op>)
    requires forall n :: 0 <= n < |ops| ==> !ops[n].WriteGraph? && !ops[n].CarryGraph? && !ops[n].RemoveGraph?
    ensures Run(w, ops).graph.nodes == w.graph.nodes
  {
    hide PageOf, CarryPoints;
    if ops != [] {
      NodesUntouched(w, ops[..|ops| - 1]);
      assert !ops[|ops| - 1].WriteGraph?;
    }
  }

  /** The failing family: a job that stopped between writing new content of a file and putting its
      manifest, then an incremental job over the old content.  The second job counts the file as
      skipped and records it, but its revision lacks every entity the two versions share. */
  lemma TornFileLosesEntities(a: Analyzer, w: World, q: Request, f: SourceFile, hash: string, revision: string,
                              rows: seq<CodeRelationship>, id: NodeId)
    requires ValidAnalyzer(a) && f.hash != hash
    requires Skippable(q.mode, Previous(w.manifests, q.repository, f.path), f.hash)
    requires id in Rows(a, q.repository, f.path, f.hash) && id in Rows(a, q.repository, f.path, hash)
    requires q.revision != revision && q.revision !in RevisionsOf(w.graph.nodes, id)
    ensures var torn := Apply(w, WriteGraph(q.repository, revision, f.path,
                                            Entities(a, q.repository, f.path, hash), rows));
            var after := Run(torn, FileOps(a, torn, q, f));
            && Previous(after.manifests, q.repository, f.path) == Some(Recorded(q, f))
            && id in after.graph.nodes && q.revision !in after.graph.nodes[id].revisions
  {
    hide Run, FileOps;
    var torn := Apply(w, WriteGraph(q.repository, revision, f.path, Entities(a, q.repository, f.path, hash), rows));
    FileOutcome(a, torn, q, f);
    SkippedNodes(a, torn, q, f);
    RowOfFile(a, q.repository, f.path, hash, id);
  }

  // ---------------------------------------------------------------- a revision re-indexed with other content

  ghost function FileMembers(nodes: Nodes, repository: string, revision: string, path: string): set<NodeId> {
    set id | id in nodes && InFileAt(nodes[id], repository, revision, path)
  }

  /** Writing a file leaves its revision with exactly the file's entities if and only if the
      revision had no other entity of that path before: nothing stale is removed. */
  lemma RewrittenExactly(a: Analyzer, nodes: Nodes, repository: string, revision: string, path: string, hash: string)
    requires ValidAnalyzer(a) && GraphSound(a, nodes)
    ensures FileMembers(WriteNodes(nodes, repository, revision, Entities(a, repository, path, hash)),
                        repository, revision, path)
            == Rows(a, repository, path, hash).Keys
            <==> FileMembers(nodes, repository, revision, path) <= Rows(a, repository, path, hash).Keys
  {
    var rows := Rows(a, repository, path, hash);
    var after := WriteNodes(nodes, repository, revision, Entities(a, repository, path, hash));
    forall id | id in rows
      ensures id in after && InFileAt(after[id], repository, revision, path)
    {
      RowOfFile(a, repository, path, hash, id);
    }
    assert FileMembers(after, repository, revision, path)
           == FileMembers(nodes, repository, revision, path) + rows.Keys by {
      forall id | id in FileMembers(nodes, repository, revision, path) && id !in rows
        ensures id in FileMembers(after, repository, revision, path)
      {
      }
    }
  }

  // ---------------------------------------------------------------- revision identities

  function RevisionNode(repository: string, revision: string): string {
    repository + ":" + revision
  }

  /** One repository's id is another's followed by a colon and more. */
  ghost predicate Extends(longer: string, rest: string, shorter: string, revision: string) {
    exists x: string :: longer == shorter + ":" + x && revision == x + ":" + rest
  }

  /** Two revisions share a node if and only if they are the same, or one repository's id extends
      the other's at a colon and the revisions make up for it; without colons in repository ids
      revision nodes are never shared. */
  lemma RevisionNodesCollideExactly(r: string, s: string, r': string, s': string)
    ensures RevisionNode(r, s) == RevisionNode(r', s')
            <==> (r == r' && s == s') || Extends(r, s, r', s') || Extends(r', s', r, s)
    ensures ':' !in r && ':' !in r' && RevisionNode(r, s) == RevisionNode(r', s') ==> r == r' && s == s'
  {
    if RevisionNode(r, s) == RevisionNode(r', s') {
      if |r| == |r'| {
        SamePrefix(r, s, r', s');
      } else if |r| > |r'| {
        SplitAtColon(r, s, r', s');
      } else {
        SplitAtColon(r', s', r, s);
      }
    }
    if Extends(r, s, r', s') {
      ExtendsCollides(r, s, r', s');
    }
    if Extends(r', s', r, s) {
      ExtendsCollides(r', s', r, s);
    }
  }

  lemma SamePrefix(r: string, s: string, r': string, s': string)
    requires RevisionNode(r, s) == RevisionNode(r', s') && |r| == |r'|
    ensures r == r' && s == s'
  {
    var node, other := RevisionNode(r, s), RevisionNode(r', s');
    assert r == node[..|r|] == other[..|r'|] == r';
    assert s == node[|r| + 1..] == other[|r'| + 1..] == s';
  }

  lemma SplitAtColon(r: string, s: string, r': string, s': string)
    requires RevisionNode(r, s) == RevisionNode(r', s') && |r| > |r'|
    ensures Extends(r, s, r', s') && ':' in r
  {
    var node, other := RevisionNode(r, s), RevisionNode(r', s');
    var x := r[|r'| + 1..];
    assert r[..|r'|] == node[..|r'|] == other[..|r'|] == r';
    assert r[|r'|] == node[|r'|] == other[|r'|] == ':';
    assert r == r[..|r'|] + [r[|r'|]] + x;
    assert s' == other[|r'| + 1..] == node[|r'| + 1..];
    assert node[|r'| + 1..] == x + ":" + s;
    assert r == r' + ":" + x && s' == x + ":" + s;
  }

  lemma ExtendsCollides(r: string, s: string, r': string, s': string)
    requires Extends(r, s, r', s')
    ensures RevisionNode(r, s) == RevisionNode(r', s')
    ensures ':' in r
  {
    var x: string :| r == r' + ":" + x && s' == x + ":" + s;
    assert (r' + ":" + x) + ":" + s == r' + ":" + (x + ":" + s);
    assert r[|r'|] == ':';
  }

  /** A concrete pair of distinct revisions with one node. */
  lemma RevisionNodesCollide()
    ensures ("a:b", "c") != ("a", "b:c") && RevisionNode("a:b", "c") == RevisionNode("a", "b:c")
  {
    assert "a:b" != "a";
    assert RevisionNode("a:b", "c") == "a:b:c" == RevisionNode("a", "b:c");
  }
}

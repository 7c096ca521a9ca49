/** Which entities a completed job makes searchable, and with what text. */
module ExactDocuments {
  import opened Contracts
  import opened IndexStores
  import opened IndexJobs
  import opened GraphInvariants
  import opened JobInvariants
  import opened IncrementalRefinesFull
  import opened PinnedRevisions
  import opened CompletedJobs
  import opened ExactIndex
  import opened JobHistories

  predicate Embedded(e: CodeEntity) {
    e.kind == Class || e.kind == Function || e.kind == Method
  }

  function Parsed(a: Analyzer, repository: string, path: string, hash: string): seq<CodeEntity> {
    if a.parse(repository, path, hash).Some? then a.parse(repository, path, hash).value else []
  }

  /** The classes, functions and methods of a list, by identity. */
  function EmbeddedIds(entities: seq<CodeEntity>): set<NodeId> {
    set e | e in entities && Embedded(e) :: e.id
  }

  /** The last class, function or method of a list with an identity. */
  ghost predicate LastEmbedded(entities: seq<CodeEntity>, id: NodeId, e: CodeEntity) {
    exists i :: 0 <= i < |entities| && entities[i] == e && e.id == id && Embedded(e)
      && forall j :: i < j < |entities| ==> !(entities[j].id == id && Embedded(entities[j]))
  }

  lemma EmbeddedSnoc(init: seq<CodeEntity>, last: CodeEntity, id: NodeId, e: CodeEntity)
    ensures id in EmbeddedIds(init + [last]) <==> id in EmbeddedIds(init) || (Embedded(last) && last.id == id)
    ensures LastEmbedded(init + [last], id, e) <==>
              if Embedded(last) && last.id == id then e == last else LastEmbedded(init, id, e)
  {
    var entities := init + [last];
    assert entities[|init|] == last;
    forall d
      ensures d in entities <==> d in init || d == last
    {
    }
    if LastEmbedded(init, id, e) && !(Embedded(last) && last.id == id) {
      var i :| 0 <= i < |init| && init[i] == e && e.id == id && Embedded(e)
               && forall j :: i < j < |init| ==> !(init[j].id == id && Embedded(init[j]));
      assert entities[i] == e;
      assert forall j :: i < j < |entities| ==> entities[j] == if j < |init| then init[j] else last;
    }
    if LastEmbedded(entities, id, e) && !(Embedded(last) && last.id == id) {
      var i :| 0 <= i < |entities| && entities[i] == e && e.id == id && Embedded(e)
               && forall j :: i < j < |entities| ==> !(entities[j].id == id && Embedded(entities[j]));
      assert init[i] == e;
      assert forall j :: i < j < |init| ==> init[j] == entities[j];
    }
  }

  /** What is stored of a list of entities: one document for each class, function and method, of
      its last row, with that row's text. */
  lemma {:induction false} DocumentsHold(a: Analyzer, repository: string, revision: string, hash: string,
                                         entities: seq<CodeEntity>, id: NodeId)
    ensures var stored, k := DocumentMap(repository, revision, DocumentsOf(a, hash, entities)),
                             PointKey(repository, revision, id);
            && (k in stored <==> id in EmbeddedIds(entities))
            && (k in stored ==>
                  exists e :: LastEmbedded(entities, id, e) && stored[k] == SemanticDocument(e, a.text(hash, e)))
    decreases |entities|
  {
    hide LastEmbedded, EmbeddedIds, DocumentMap;
    var k := PointKey(repository, revision, id);
    if entities == [] {
      NoDocuments(repository, revision, id);
    } else {
      var init, last := entities[..|entities| - 1], entities[|entities| - 1];
      assert entities == init + [last];
      DocumentsHold(a, repository, revision, hash, init, id);
      EmbeddedSnoc(init, last, id, last);
      var before := DocumentsOf(a, hash, init);
      if Embedded(last) {
        DocumentSnoc(repository, revision, before, SemanticDocument(last, a.text(hash, last)));
      }
      forall e
        ensures LastEmbedded(entities, id, e) <==>
                  if Embedded(last) && last.id == id then e == last else LastEmbedded(init, id, e)
      {
        EmbeddedSnoc(init, last, id, e);
      }
    }
  }

  lemma NoDocuments(repository: string, revision: string, id: NodeId)
    ensures DocumentMap(repository, revision, []) == map[] && EmbeddedIds([]) == {}
  {
  }

  lemma DocumentSnoc(repository: string, revision: string, documents: seq<SemanticDocument>, d: SemanticDocument)
    ensures DocumentMap(repository, revision, documents + [d])
            == DocumentMap(repository, revision, documents)[PointKey(repository, revision, d.entity.id) := d]
  {
    assert (documents + [d])[..|documents|] == documents;
  }

  lemma KeysOfRevision(a: Analyzer, repository: string, revision: string, path: string, hash: string, k: PointKey)
    requires k in DocumentMap(repository, revision, Documents(a, repository, path, hash))
    ensures k.repository == repository && k.revision == revision
  {
    DocumentKeys(a, repository, revision, hash, Entities(a, repository, path, hash), k);
  }

  function Keyed(repository: string, revision: string, ids: set<NodeId>): set<PointKey> {
    set id | id in ids :: PointKey(repository, revision, id)
  }

  lemma {:induction false} AsManyKeys(repository: string, revision: string, ids: set<NodeId>)
    ensures |Keyed(repository, revision, ids)| == |ids|
    decreases |ids|
  {
    if ids == {} {
      assert Keyed(repository, revision, ids) == {};
    } else {
      var id :| id in ids;
      AsManyKeys(repository, revision, ids - {id});
      assert Keyed(repository, revision, ids)
             == Keyed(repository, revision, ids - {id}) + {PointKey(repository, revision, id)};
    }
  }

  /** The keys of a file's documents: one for each of its classes, functions and methods. */
  lemma DocumentKeysAre(a: Analyzer, repository: string, revision: string, path: string, hash: string)
    ensures DocumentMap(repository, revision, Documents(a, repository, path, hash)).Keys
            == Keyed(repository, revision, EmbeddedIds(Parsed(a, repository, path, hash)))
  {
    hide DocumentMap, DocumentsOf, EmbeddedIds;
    var entities := Parsed(a, repository, path, hash);
    var stored := DocumentMap(repository, revision, Documents(a, repository, path, hash));
    forall k
      ensures k in stored <==> k in Keyed(repository, revision, EmbeddedIds(entities))
    {
      if k in stored {
        KeysOfRevision(a, repository, revision, path, hash, k);
      }
      DocumentsHold(a, repository, revision, hash, entities, k.entity);
    }
  }

  /** A file has no more than one page of chunks: no more than 1,000 classes, functions and methods,
      whichever content a revision gives it. */
  ghost predicate OnePage(a: Analyzer, c: Content, repository: string, path: string) {
    forall revision :: path in c(repository, revision) ==>
      |EmbeddedIds(Parsed(a, repository, path, c(repository, revision)[path]))| <= 1000
  }

  lemma OnePageFits(a: Analyzer, c: Content, repository: string, path: string)
    ensures OnePage(a, c, repository, path) <==> Fits(a, c, repository, path)
  {
    hide EmbeddedIds, Keyed;
    forall revision | path in c(repository, revision)
      ensures |ContentPoints(a, c, repository, revision, path).Keys|
              == |EmbeddedIds(Parsed(a, repository, path, c(repository, revision)[path]))|
    {
      var hash := c(repository, revision)[path];
      DocumentKeysAre(a, repository, revision, path, hash);
      AsManyKeys(repository, revision, EmbeddedIds(Parsed(a, repository, path, hash)));
    }
  }

  /** Of a file the points hold exactly its classes, functions and methods, one document each. */
  ghost predicate Searchables(a: Analyzer, points: Points, repository: string, revision: string, path: string,
                              hash: string)
  {
    var entities := Parsed(a, repository, path, hash);
    && (forall id: NodeId :: id.EntityNode? && id.path == path ==>
          (PointKey(repository, revision, id) in points <==> exists e :: e in entities && e.id == id && Embedded(e)))
    && (forall id: NodeId :: id.EntityNode? && id.path == path && PointKey(repository, revision, id) in points ==>
          exists e :: LastEmbedded(entities, id, e)
                      && points[PointKey(repository, revision, id)] == SemanticDocument(e, a.text(hash, e)))
    && |FilePoints(points, repository, revision, path)| == |EmbeddedIds(entities)|
  }

  lemma CompleteFile(a: Analyzer, c: Content, points: Points, repository: string, revision: string, path: string)
    requires ValidAnalyzer(a) && PointsPinned(a, c, points) && path in c(repository, revision)
    requires FileComplete(a, c, points, repository, revision, path)
    ensures Searchables(a, points, repository, revision, path, c(repository, revision)[path])
  {
    hide DocumentMap, DocumentsOf, LastEmbedded, Keyed;
    var hash := c(repository, revision)[path];
    var entities, stored := Parsed(a, repository, path, hash), ContentPoints(a, c, repository, revision, path);
    DocumentKeysAre(a, repository, revision, path, hash);
    AsManyKeys(repository, revision, EmbeddedIds(entities));
    forall id: NodeId | id.EntityNode? && id.path == path
      ensures var k := PointKey(repository, revision, id);
              && (k in points <==> id in EmbeddedIds(entities))
              && (k in points ==> exists e :: LastEmbedded(entities, id, e)
                                              && points[k] == SemanticDocument(e, a.text(hash, e)))
    {
      var k := PointKey(repository, revision, id);
      DocumentsHold(a, repository, revision, hash, entities, id);
      if k in points {
        assert PointPinned(a, c, k, points[k]);
        PointOfFile(a, repository, revision, points[k].entity.filePath,
                    c(repository, revision)[points[k].entity.filePath], k);
      }
      if k in stored {
        assert k in FilePoints(points, repository, revision, path);
        assert PointPinned(a, c, k, points[k]);
      }
    }
  }

  /** A completed job makes of each of its files of at most one page exactly the classes, functions
      and methods searchable, one document each, of its last row in the parse and with its text. */
  lemma DocumentsAreExact(a: Analyzer, c: Content, w: World, q: Request, files: seq<SourceFile>, listing: seq<string>,
                          n: nat)
    requires ValidAnalyzer(a) && VectorsKept(a, c, w) && FilesOf(c, q, files) && DistinctPaths(files)
    requires Lists(listing, Removed(w.manifests, q.repository, files))
    requires Completes(a, w, q, files, listing) && q.semantic
    requires n < |files| && OnePage(a, c, q.repository, files[n].path)
    ensures Searchables(a, Run(w, JobOps(a, w, q, files, listing)).points, q.repository, q.revision, files[n].path,
                        files[n].hash)
  {
    hide Run, JobOps, Completes, Searchables, Fits, OnePage, FileComplete;
    var path := files[n].path;
    OnePageFits(a, c, q.repository, path);
    CompletedFileVectors(a, c, w, q, files, listing, n);
    DonePinned(a, c, w, q, files, listing);
    CompleteFile(a, c, Run(w, JobOps(a, w, q, files, listing)).points, q.repository, q.revision, path);
  }

  /** Whatever jobs came before it, completed, failed or cut anywhere. */
  lemma DocumentsAfterAnyHistory(a: Analyzer, c: Content, history: seq<Attempt>, t: Attempt, n: nat)
    requires ValidAnalyzer(a) && PossibleHistory(a, c, history) && Possible(a, c, After(a, c, history), t)
    requires t.q.semantic && n < |t.files| && OnePage(a, c, t.q.repository, t.files[n].path)
    ensures var w := Begin(After(a, c, history), t);
            var done := Run(w, JobOps(a, w, t.q, t.files, t.listing));
            done.job.failed == 0 ==>
              Searchables(a, done.points, t.q.repository, t.q.revision, t.files[n].path, t.files[n].hash)
  {
    hide Run, JobOps, Pinned, Invariant, AllOrNothing, Searchables, OnePage;
    HistoryKeeps(a, c, history);
    var w := Begin(After(a, c, history), t);
    BeginKeeps(a, c, After(a, c, history), t, Torn(a, c, history));
    if Run(w, JobOps(a, w, t.q, t.files, t.listing)).job.failed == 0 {
      DocumentsAreExact(a, c, w, t.q, t.files, t.listing, n);
    }
  }
}

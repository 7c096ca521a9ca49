/** The whole record of a completed job, from its files and the stores before it. */
module JobTotals {
  import opened Contracts
  import opened IndexStores
  import opened IndexJobs
  import opened GraphInvariants
  import opened JobInvariants
  import opened IncrementalRefinesFull
  import opened PinnedRevisions
  import opened CompletedJobs
  import opened ExactIndex
  import opened JobAccounting
  import opened JobHistories
  import opened ExactDocuments

  /** What the files of a job add up to. */
  datatype Totals = Totals(skipped: nat, entities: nat, relationships: nat, chunks: nat)

  function Plus(s: Totals, t: Totals): Totals {
    Totals(s.skipped + t.skipped, s.entities + t.entities, s.relationships + t.relationships, s.chunks + t.chunks)
  }

  /** A manifest says that this content was indexed before. */
  predicate Unchanged(manifests: Manifests, q: Request, f: SourceFile) {
    (q.repository, f.path) in manifests && manifests[(q.repository, f.path)].contentHash == f.hash
  }

  /** An incremental job passes over unchanged content that the second analysis version indexed. */
  predicate PassedOver(manifests: Manifests, q: Request, f: SourceFile) {
    q.mode == Incremental && Unchanged(manifests, q, f) && manifests[(q.repository, f.path)].version == 2
  }

  function EmbeddedCount(entities: seq<CodeEntity>): nat {
    if entities == [] then 0
    else EmbeddedCount(entities[..|entities| - 1]) + if Embedded(entities[|entities| - 1]) then 1 else 0
  }

  /** A file's chunks: of unchanged content those carried from its last revision, up to 1,000 of
      them; if there are none, and of any other content, its classes, functions and methods. */
  function Chunks(a: Analyzer, w: World, q: Request, f: SourceFile): nat {
    var current := EmbeddedCount(Parsed(a, q.repository, f.path, f.hash));
    if !q.semantic then 0
    else if Unchanged(w.manifests, q, f) then
      var stored := |FilePoints(w.points, q.repository, w.manifests[(q.repository, f.path)].revision, f.path)|;
      if stored == 0 then current else if stored <= 1000 then stored else 1000
    else current
  }

  /** A file passed over adds no entities and no relationships. */
  function FileTotals(a: Analyzer, w: World, q: Request, f: SourceFile): Totals {
    if PassedOver(w.manifests, q, f) then Totals(1, 0, 0, Chunks(a, w, q, f))
    else Totals(0, |Parsed(a, q.repository, f.path, f.hash)|, |f.relationships|, Chunks(a, w, q, f))
  }

  function TotalsOf(a: Analyzer, w: World, q: Request, files: seq<SourceFile>): Totals {
    if files == [] then Totals(0, 0, 0, 0)
    else Plus(TotalsOf(a, w, q, files[..|files| - 1]), FileTotals(a, w, q, files[|files| - 1]))
  }

  function Added(job: IndexJob, n: nat, t: Totals): IndexJob {
    job.(processed := job.processed + n, skipped := job.skipped + t.skipped, entities := job.entities + t.entities,
         relationships := job.relationships + t.relationships, chunks := job.chunks + t.chunks)
  }

  // ---------------------------------------------------------------- one file

  lemma {:induction false} DocumentsCounted(a: Analyzer, hash: string, entities: seq<CodeEntity>)
    ensures |DocumentsOf(a, hash, entities)| == EmbeddedCount(entities)
  {
    if entities != [] {
      DocumentsCounted(a, hash, entities[..|entities| - 1]);
    }
  }

  lemma ChunksCounted(a: Analyzer, w: World, q: Request, f: SourceFile)
    ensures ChunkCount(w.points, q, VectorSource(Previous(w.manifests, q.repository, f.path), f.hash), f.path,
                       Documents(a, q.repository, f.path, f.hash))
            == Chunks(a, w, q, f)
  {
    hide DocumentsOf, EmbeddedCount;
    DocumentsCounted(a, f.hash, Entities(a, q.repository, f.path, f.hash));
    if Unchanged(w.manifests, q, f) {
      var stored := FilePoints(w.points, q.repository, w.manifests[(q.repository, f.path)].revision, f.path);
      assert PageOf(q.server.page(stored), stored);
    }
  }

  lemma LastCall(a: Analyzer, w: World, q: Request, f: SourceFile)
    requires !FileFails(a, w, q, f)
    ensures var ops, t := FileOps(a, w, q, f), FileTotals(a, w, q, f);
            ops != [] && ops[|ops| - 1] == Job(Add(1, t.skipped, 0, t.entities, t.relationships, t.chunks))
  {
    hide ChunkCount, Chunks, SkipVectors, WriteVectors, Documents;
    ChunksCounted(a, w, q, f);
  }

  /** A file's calls add its totals to the job's record and leave the rest of it alone. */
  lemma FileAdds(a: Analyzer, w: World, q: Request, f: SourceFile)
    requires !FileFails(a, w, q, f)
    ensures Run(w, FileOps(a, w, q, f)).job == Added(w.job, 1, FileTotals(a, w, q, f))
  {
    hide Run, Apply, FileOps, FileTotals, FileFails;
    var ops := FileOps(a, w, q, f);
    LastCall(a, w, q, f);
    var init := ops[..|ops| - 1];
    FileCountsLast(a, w, q, f);
    assert ops == init + [ops[|ops| - 1]];
    StoreCallsKeepJob(w, init);
    RunConcat(w, init, [ops[|ops| - 1]]);
    RunOne(Run(w, init), ops[|ops| - 1]);
    JobCallOnly(Run(w, init), ops[|ops| - 1]);
  }

  // ---------------------------------------------------------------- other files in between

  /** Vector calls for one file. */
  ghost predicate ForFile(op: Op, path: string) {
    op.DropVectors? || op.UpsertVectors? || op.CarryVectors? ==> op.path == path
  }

  lemma FileCallsForFile(a: Analyzer, w: World, q: Request, f: SourceFile)
    ensures forall n :: 0 <= n < |FileOps(a, w, q, f)| ==> ForFile(FileOps(a, w, q, f)[n], f.path)
  {
    hide CarryCount, ChunkCount, Documents, SkipVectors, WriteVectors;
    var previous := Previous(w.manifests, q.repository, f.path);
    var source := VectorSource(previous, f.hash);
    VectorCallsForFile(w.points, q, source, f.path, Documents(a, q.repository, f.path, f.hash));
  }

  lemma VectorCallsForFile(points: Points, q: Request, source: Option<string>, path: string,
                           documents: seq<SemanticDocument>)
    ensures forall n :: 0 <= n < |WriteVectors(points, q, source, path, documents)| ==>
              ForFile(WriteVectors(points, q, source, path, documents)[n], path)
    ensures source.Some? ==> forall n :: 0 <= n < |SkipVectors(points, q, source.value, path, documents)| ==>
              ForFile(SkipVectors(points, q, source.value, path, documents)[n], path)
  {
    hide CarryCount;
  }

  lemma CallLeavesOthers(a: Analyzer, c: Content, q: Request, w: World, op: Op, path: string, revision: string,
                         other: string)
    requires ValidAnalyzer(a) && Pinned(a, c, w) && CallPinned(a, c, q, op) && ForFile(op, path) && other != path
    ensures FilePoints(Apply(w, op).points, q.repository, revision, other)
            == FilePoints(w.points, q.repository, revision, other)
  {
    hide PageOf, CarryPoints, DocumentMap;
    match op
    case UpsertVectors(r, s, p, _) => UpsertCompletes(a, c, w.points, r, s, p);
    case CarryVectors(server, r, source, target, p) =>
      CarryTouchesOwnFile(server, a, c, w.points, r, source, target, p, q.repository, revision, other);
    case DropVectors(r, s, p) =>
    case _ =>
  }

  lemma {:induction false} CallsLeaveOthers(a: Analyzer, c: Content, q: Request, w: World, ops: seq<Op>, path: string,
                                            revision: string, other: string)
    requires ValidAnalyzer(a) && Pinned(a, c, w) && AllPinned(a, c, q, ops) && other != path
    requires forall n :: 0 <= n < |ops| ==> ForFile(ops[n], path)
    ensures FilePoints(Run(w, ops).points, q.repository, revision, other)
            == FilePoints(w.points, q.repository, revision, other)
    decreases |ops|
  {
    hide Apply, ForFile, Pinned, CallPinned, FilePoints;
    if ops != [] {
      var init, last := ops[..|ops| - 1], ops[|ops| - 1];
      CallsLeaveOthers(a, c, q, w, init, path, revision, other);
      CallsKeepPinned(a, c, q, w, init);
      CallLeavesOthers(a, c, q, Run(w, init), last, path, revision, other);
    }
  }

  /** The loop has not yet touched a file's manifest or its points when it comes to it. */
  lemma {:induction false} LoopLeavesOthers(a: Analyzer, c: Content, q: Request, v: World, files: seq<SourceFile>,
                                            path: string, revision: string)
    requires ValidAnalyzer(a) && Pinned(a, c, v) && FilesAmong(c, q, files) && path !in Paths(files)
    ensures var l := Run(v, LoopOps(a, v, q, files));
            && Pinned(a, c, l)
            && FilePoints(l.points, q.repository, revision, path) == FilePoints(v.points, q.repository, revision, path)
            && Previous(l.manifests, q.repository, path) == Previous(v.manifests, q.repository, path)
    decreases |files|
  {
    hide Run, LoopOps, FileOps, Pinned, FilePoints, FileFails, Recorded;
    if files == [] {
      NoFiles(a, v, q);
    } else {
      var init, last := files[..|files| - 1], files[|files| - 1];
      PathsSnoc(files);
      FilesAmongInit(c, q, files);
      LoopLeavesOthers(a, c, q, v, init, path, revision);
      var u := Run(v, LoopOps(a, v, q, init));
      var after := LoopStep(a, v, q, files);
      FileCallsPinnedIn(a, c, q, u, last);
      FileCallsForFile(a, u, q, last);
      CallsKeepPinned(a, c, q, u, FileOps(a, u, q, last));
      CallsLeaveOthers(a, c, q, u, FileOps(a, u, q, last), last.path, revision, path);
      FileChanges(a, u, q, last);
    }
  }

  lemma FilesAmongInit(c: Content, q: Request, files: seq<SourceFile>)
    requires FilesAmong(c, q, files) && files != []
    ensures FilesAmong(c, q, files[..|files| - 1])
    ensures var f, named := files[|files| - 1], c(q.repository, q.revision);
            f.path in named && named[f.path] == f.hash
  {
  }

  lemma FileCallsPinnedIn(a: Analyzer, c: Content, q: Request, w: World, f: SourceFile)
    requires Pinned(a, c, w) && f.path in c(q.repository, q.revision) && c(q.repository, q.revision)[f.path] == f.hash
    ensures AllPinned(a, c, q, FileOps(a, w, q, f))
  {
    FileCallsPinned(a, c, q, w, f);
  }

  lemma SameTotals(a: Analyzer, w: World, v: World, q: Request, f: SourceFile)
    requires Previous(v.manifests, q.repository, f.path) == Previous(w.manifests, q.repository, f.path)
    requires Unchanged(w.manifests, q, f) ==>
               var revision := w.manifests[(q.repository, f.path)].revision;
               FilePoints(v.points, q.repository, revision, f.path)
               == FilePoints(w.points, q.repository, revision, f.path)
    ensures FileTotals(a, v, q, f) == FileTotals(a, w, q, f)
  {
  }

  // ---------------------------------------------------------------- the loop

  lemma NothingAdded(job: IndexJob)
    ensures Added(job, 0, Totals(0, 0, 0, 0)) == job
  {
  }

  lemma AddedTwice(job: IndexJob, n: nat, s: Totals, t: Totals)
    ensures Added(Added(job, n, s), 1, t) == Added(job, n + 1, Plus(s, t))
  {
  }

  lemma {:induction false} LoopAdds(a: Analyzer, c: Content, q: Request, v: World, files: seq<SourceFile>)
    requires ValidAnalyzer(a) && VectorsKept(a, c, v) && FilesAmong(c, q, files) && DistinctPaths(files)
    requires Run(v, LoopOps(a, v, q, files)).job.failed == v.job.failed
    ensures Run(v, LoopOps(a, v, q, files)).job == Added(v.job, |files|, TotalsOf(a, v, q, files))
    decreases |files|
  {
    hide Run, LoopOps, FileOps, FileFails, FileTotals, Added, VectorsKept, FilePoints;
    if files == [] {
      NoFiles(a, v, q);
      NothingAdded(v.job);
    } else {
      var init, last := files[..|files| - 1], files[|files| - 1];
      var u := BeforeLast(a, c, q, v, files);
      LoopAdds(a, c, q, v, init);
      assert last.path !in Paths(init);
      FilesAmongInit(c, q, files);
      KeptArePinned(a, c, v);
      LoopLeavesOthers(a, c, q, v, init, last.path,
                       if Unchanged(v.manifests, q, last) then v.manifests[(q.repository, last.path)].revision else "");
      SameTotals(a, v, u, q, last);
      FileAdds(a, u, q, last);
      AddedTwice(v.job, |init|, TotalsOf(a, v, q, init), FileTotals(a, v, q, last));
    }
  }

  lemma KeptArePinned(a: Analyzer, c: Content, w: World)
    requires VectorsKept(a, c, w)
    ensures Pinned(a, c, w)
  {
  }

  // ---------------------------------------------------------------- the job

  lemma StartJob(w: World, files: seq<SourceFile>)
    ensures var v := Run(w, StartOps(files));
            && v.job == w.job.(status := Running, discovered := |files|)
            && v.graph == w.graph && v.points == w.points && v.manifests == w.manifests
  {
    var first, second := Job(Start), Job(SetDiscovered(|files|));
    assert StartOps(files) == [first] + [second];
    RunConcat(w, [first], [second]);
    RunOne(w, first);
    RunOne(Apply(w, first), second);
  }

  lemma ClosingJob(x: World, deleted: nat, renamed: nat, q: Request)
    ensures var closing := [Job(SetRemoved(deleted, renamed)), RecordSnapshot(q.repository, q.revision, q.provenance),
                            Job(SetStatus(Completed, None))];
            Run(x, closing).job == x.job.(deleted := deleted, renamed := renamed, status := Completed, error := None)
  {
    hide Run, Apply;
    var s, r, f := Job(SetRemoved(deleted, renamed)), RecordSnapshot(q.repository, q.revision, q.provenance),
                   Job(SetStatus(Completed, None));
    assert [s, r, f] == [s] + [r] + [f];
    RunThree(x, s, [r], [f]);
    RunOne(Apply(x, s), r);
    RunOne(Apply(Apply(x, s), r), f);
    JobCallOnly(x, s);
    OtherCallKeepsJob(Apply(x, s), r);
    JobCallOnly(Apply(Apply(x, s), r), f);
  }

  lemma FinishJob(w: World, i: World, q: Request, files: seq<SourceFile>, listing: seq<string>)
    requires Lists(listing, Removed(w.manifests, q.repository, files))
    ensures var renamed := RenamedPaths(w.manifests, q.repository, files, listing);
            Run(i, FinishOps(w, q, files, listing, false)).job
            == i.job.(deleted := |Removed(w.manifests, q.repository, files) - renamed|, renamed := |renamed|,
                      status := Completed, error := None)
  {
    hide Run, Apply, CleanupOps;
    var renamed := RenamedPaths(w.manifests, q.repository, files, listing);
    var deleted := |Removed(w.manifests, q.repository, files) - renamed|;
    var closing := [Job(SetRemoved(deleted, |renamed|)), RecordSnapshot(q.repository, q.revision, q.provenance),
                    Job(SetStatus(Completed, None))];
    assert FinishOps(w, q, files, listing, false) == CleanupOps(q, listing) + closing;
    RunConcat(i, CleanupOps(q, listing), closing);
    CleanupOutcome(i, q, listing);
    ClosingJob(Run(i, CleanupOps(q, listing)), deleted, |renamed|, q);
  }

  lemma RowsKeepJob(l: World, rows: seq<CodeRelationship>)
    ensures Apply(l, WriteRows(rows)).job == l.job
  {
  }

  /** The record a completed job leaves: every file processed, its totals those of its files on the
      stores as they were before it, and of the paths removed the renamed ones apart from those
      deleted. */
  lemma CompletedRecord(a: Analyzer, c: Content, w: World, q: Request, files: seq<SourceFile>, listing: seq<string>)
    requires ValidAnalyzer(a) && VectorsKept(a, c, w) && FilesOf(c, q, files) && DistinctPaths(files)
    requires Lists(listing, Removed(w.manifests, q.repository, files))
    requires Completes(a, w, q, files, listing)
    ensures var t := TotalsOf(a, w, q, files);
            var renamed := RenamedPaths(w.manifests, q.repository, files, listing);
            Run(w, JobOps(a, w, q, files, listing)).job
            == w.job.(status := Completed, error := None, discovered := |files|,
                      processed := w.job.processed + |files|, skipped := w.job.skipped + t.skipped,
                      entities := w.job.entities + t.entities, relationships := w.job.relationships + t.relationships,
                      chunks := w.job.chunks + t.chunks,
                      deleted := |Removed(w.manifests, q.repository, files) - renamed|, renamed := |renamed|)
  {
    hide Run, Apply, LoopOps, CleanupOps, FinishOps, IndexOps, TotalsOf, VectorsKept, RenamedPaths, Removed, Lists,
         SameIndex, FilesOf, DistinctPaths, FinalRows, StartOps;
    var v, l, i, x := CompletedShape(a, w, q, files, listing);
    NoneFailedIn(a, w, q, files, v, l, i);
    StartJob(w, files);
    RunIndex(a, w, q, files);
    RowsKeepJob(l, FinalRows(a, q.repository, files));
    StillKept(a, c, w, v);
    AreAmong(c, q, files);
    LoopAdds(a, c, q, v, files);
    TotalsElsewhere(a, w, v, q, files);
    CompletedCalls(a, w, q, files, listing, i);
    FinishJob(w, i, q, files, listing);
  }

  lemma AreAmong(c: Content, q: Request, files: seq<SourceFile>)
    requires FilesOf(c, q, files)
    ensures FilesAmong(c, q, files)
  {
  }

  lemma NoneFailedIn(a: Analyzer, w: World, q: Request, files: seq<SourceFile>, v: World, l: World, i: World)
    requires SameIndex(v, w) && v.job.failed == 0 && SameIndex(i, l) && i.job.failed == 0
    ensures l.job.failed == v.job.failed
  {
  }

  lemma CompletedCalls(a: Analyzer, w: World, q: Request, files: seq<SourceFile>, listing: seq<string>, i: World)
    requires Lists(listing, Removed(w.manifests, q.repository, files))
    requires i == Run(w, IndexOps(a, w, q, files)) && i.job.failed == 0
    ensures Run(w, JobOps(a, w, q, files, listing)) == Run(i, FinishOps(w, q, files, listing, false))
  {
    hide Run, IndexOps, FinishOps;
    RunConcat(w, IndexOps(a, w, q, files), FinishOps(w, q, files, listing, false));
  }

  lemma StillKept(a: Analyzer, c: Content, w: World, v: World)
    requires VectorsKept(a, c, w) && v.graph == w.graph && v.points == w.points && v.manifests == w.manifests
    ensures VectorsKept(a, c, v)
  {
  }

  lemma {:induction false} TotalsElsewhere(a: Analyzer, w: World, v: World, q: Request, files: seq<SourceFile>)
    requires v.points == w.points && v.manifests == w.manifests
    ensures TotalsOf(a, v, q, files) == TotalsOf(a, w, q, files)
  {
    if files != [] {
      TotalsElsewhere(a, w, v, q, files[..|files| - 1]);
    }
  }
}

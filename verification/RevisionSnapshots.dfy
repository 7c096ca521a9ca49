/** When a completed job leaves a snapshot of its revision. */
module RevisionSnapshots {
  import opened Contracts
  import opened IndexStores
  import opened IndexJobs
  import opened JobInvariants
  import opened IncrementalRefinesFull
  import opened CompletedJobs
  import opened ExactIndex
  import opened PreservedHistory
  import opened JobHistories

  predicate MakesKnown(op: Op) {
    op.WriteGraph? || op.CarryGraph?
  }

  /** A job's calls make its own revision known and no other, and only one of them records it. */
  lemma {:induction false} KnownAfter(q: Request, w: World, ops: seq<Op>)
    requires AllOnTarget(q, ops)
    ensures var g := Run(w, ops).graph;
            && w.graph.known <= g.known <= w.graph.known + {(q.repository, q.revision)}
            && ((forall n :: 0 <= n < |ops| ==> !ops[n].RecordSnapshot?) ==> g.snapshots == w.graph.snapshots)
            && ((forall n :: 0 <= n < |ops| ==> !MakesKnown(ops[n])) ==> g.known == w.graph.known)
  {
    hide Apply, OnTarget, MakesKnown;
    if ops != [] {
      var last := ops[|ops| - 1];
      KnownAfter(q, w, ops[..|ops| - 1]);
      assert OnTarget(q, last);
      KnownAfterOne(q, Run(w, ops[..|ops| - 1]), last);
    }
  }

  lemma KnownAfterOne(q: Request, w: World, op: Op)
    requires OnTarget(q, op)
    ensures var g := Apply(w, op).graph;
            && w.graph.known <= g.known <= w.graph.known + {(q.repository, q.revision)}
            && (!op.RecordSnapshot? ==> g.snapshots == w.graph.snapshots)
            && (!MakesKnown(op) ==> g.known == w.graph.known)
  {
    hide PageOf, WriteNodes, CarryNodes, RemoveNodes, WriteSymbols, WriteEdges, CarryPoints, DropPoints, DocumentMap,
         Changed;
  }

  lemma FileMakesKnown(a: Analyzer, w: World, q: Request, f: SourceFile)
    requires ValidAnalyzer(a) && !FileFails(a, w, q, f)
    ensures (q.repository, q.revision) in Run(w, FileOps(a, w, q, f)).graph.known
  {
    hide PageOf, Run, WriteNodes, CarryNodes, WriteRelationships, Documents, Entities, SkipVectors, WriteVectors,
         ChunkCount;
    var ops := FileOps(a, w, q, f);
    assert ops == [ops[0]] + ops[1..];
    RunConcat(w, [ops[0]], ops[1..]);
    RunOne(w, ops[0]);
    FileOnTarget(a, w, q, f);
    assert AllOnTarget(q, ops[1..]) by {
      forall n | 0 <= n < |ops[1..]| ensures OnTarget(q, ops[1..][n]) { assert ops[1..][n] == ops[n + 1]; }
    }
    GraphCallMakesKnown(w, ops[0]);
    KnownAfter(q, Apply(w, ops[0]), ops[1..]);
  }

  lemma GraphCallMakesKnown(w: World, op: Op)
    requires MakesKnown(op)
    ensures (op.repository, if op.WriteGraph? then op.revision else op.target) in Apply(w, op).graph.known
  {
    hide WriteNodes, CarryNodes;
  }

  predicate RecordsNone(ops: seq<Op>) {
    forall n :: 0 <= n < |ops| ==> !ops[n].RecordSnapshot?
  }

  lemma {:induction false} LoopRecordsNone(a: Analyzer, w: World, q: Request, files: seq<SourceFile>)
    ensures RecordsNone(LoopOps(a, w, q, files))
  {
    hide Run, FileOps;
    if files != [] {
      var init := files[..|files| - 1];
      LoopRecordsNone(a, w, q, init);
      FileRecordsNone(a, Run(w, LoopOps(a, w, q, init)), q, files[|files| - 1]);
    }
  }

  lemma FileRecordsNone(a: Analyzer, w: World, q: Request, f: SourceFile)
    ensures RecordsNone(FileOps(a, w, q, f))
  {
    hide Documents, Entities, ChunkCount, PageOf;
  }

  /** The clean-up touches no Revision node. */
  lemma {:induction false} CleanupRecordsNone(q: Request, listing: seq<string>)
    ensures RecordsNone(CleanupOps(q, listing))
    ensures forall n :: 0 <= n < |CleanupOps(q, listing)| ==> !MakesKnown(CleanupOps(q, listing)[n])
  {
    if listing != [] {
      CleanupRecordsNone(q, listing[..|listing| - 1]);
    }
  }

  lemma KnownAfterLoop(a: Analyzer, w: World, q: Request, files: seq<SourceFile>)
    requires ValidAnalyzer(a) && DistinctPaths(files)
    requires Run(w, LoopOps(a, w, q, files)).job.failed == w.job.failed
    ensures var g := Run(w, LoopOps(a, w, q, files)).graph;
            && ((q.repository, q.revision) in g.known <==> files != [] || (q.repository, q.revision) in w.graph.known)
            && g.snapshots == w.graph.snapshots
  {
    hide Run, LoopOps, FileOps, FileFails;
    LoopOnTarget(a, w, q, files);
    LoopRecordsNone(a, w, q, files);
    KnownAfter(q, w, LoopOps(a, w, q, files));
    if files == [] {
      NoFiles(a, w, q);
    } else {
      NoneFailed(a, w, q, files);
      var after := LoopStep(a, w, q, files);
      FileMakesKnown(a, Run(w, LoopOps(a, w, q, files[..|files| - 1])), q, files[|files| - 1]);
    }
  }

  lemma StartKeepsGraph(w: World, files: seq<SourceFile>)
    ensures Run(w, StartOps(files)).graph == w.graph
  {
    var first, second := Job(Start), Job(SetDiscovered(|files|));
    assert StartOps(files) == [first] + [second];
    RunConcat(w, [first], [second]);
    RunOne(w, first);
    RunOne(Apply(w, first), second);
  }

  lemma RowsKeepRevisions(l: World, rows: seq<CodeRelationship>)
    ensures var g := Apply(l, WriteRows(rows)).graph; g.known == l.graph.known && g.snapshots == l.graph.snapshots
  {
    hide WriteSymbols, WriteEdges;
  }

  lemma FinishRecords(a: Analyzer, w: World, q: Request, files: seq<SourceFile>, listing: seq<string>, i: World)
    requires Lists(listing, Removed(w.manifests, q.repository, files))
    requires i == Run(w, IndexOps(a, w, q, files)) && i.job.failed == 0
    ensures Run(w, JobOps(a, w, q, files, listing)).graph
            == RecordRevision(Run(i, CleanupOps(q, listing)).graph, q.repository, q.revision, q.provenance)
  {
    hide Run, IndexOps, CleanupOps, RenamedPaths, Lists, Removed, RecordRevision;
    var x := Run(i, CleanupOps(q, listing));
    var renamed := RenamedPaths(w.manifests, q.repository, files, listing);
    var s := Job(SetRemoved(|Removed(w.manifests, q.repository, files) - renamed|, |renamed|));
    var r, f := RecordSnapshot(q.repository, q.revision, q.provenance), Job(SetStatus(Completed, None));
    assert JobOps(a, w, q, files, listing) == IndexOps(a, w, q, files) + (CleanupOps(q, listing) + [s, r, f]);
    RunConcat(w, IndexOps(a, w, q, files), CleanupOps(q, listing) + [s, r, f]);
    RunConcat(i, CleanupOps(q, listing), [s, r, f]);
    assert [s, r, f] == [s] + [r] + [f];
    RunThree(x, s, [r], [f]);
    RunOne(Apply(x, s), r);
    RunOne(Apply(Apply(x, s), r), f);
  }

  /** A completed job records the snapshot of its revision, with its provenance, if and only if it
      had a file, or the revision had a node before: the snapshot of an empty revision is silently
      lost. */
  lemma SnapshotExactly(a: Analyzer, w: World, q: Request, files: seq<SourceFile>, listing: seq<string>)
    requires ValidAnalyzer(a) && DistinctPaths(files)
    requires Lists(listing, Removed(w.manifests, q.repository, files))
    requires Completes(a, w, q, files, listing)
    ensures var key := (q.repository, q.revision);
            Run(w, JobOps(a, w, q, files, listing)).graph.snapshots
            == if files != [] || key in w.graph.known then w.graph.snapshots[key := q.provenance] else w.graph.snapshots
  {
    hide Run, Apply, JobOps, IndexOps, LoopOps, CleanupOps, FinalRows, Lists, Removed;
    var v, l, i, x := CompletedShape(a, w, q, files, listing);
    StartKeepsGraph(w, files);
    KnownAfterLoop(a, v, q, files);
    RunIndex(a, w, q, files);
    RowsKeepRevisions(l, FinalRows(a, q.repository, files));
    CleanupOnTarget(q, listing);
    CleanupRecordsNone(q, listing);
    KnownAfter(q, i, CleanupOps(q, listing));
    FinishRecords(a, w, q, files, listing, i);
  }
}

/** What is left of removed files: nothing after a completed job, everything after a failed one. */
module RemovedFiles {
  import opened Contracts
  import opened IndexStores
  import opened IndexJobs
  import opened GraphInvariants
  import opened JobInvariants
  import opened IncrementalRefinesFull
  import opened CompletedJobs
  import opened CompletedEdges
  import opened JobHistories
  import opened ExactEdges

  /** No entity and, with a semantic store, no vector of a file is at the revision. */
  ghost predicate NoneLeft(w: World, q: Request, path: string) {
    && (forall id :: id in w.graph.nodes ==>
          !(w.graph.nodes[id].repository == q.repository && q.revision in w.graph.nodes[id].revisions
            && w.graph.nodes[id].row.filePath == path))
    && (q.semantic ==> forall k :: k in w.points ==>
          !(k.repository == q.repository && k.revision == q.revision && w.points[k].entity.filePath == path))
  }

  lemma ClosingAddsNothing(w: World, op: Op, q: Request, path: string)
    requires Closing(op) && NoneLeft(w, q, path)
    ensures NoneLeft(Apply(w, op), q, path)
  {
  }

  lemma {:induction false} ClosingCallsAddNothing(w: World, ops: seq<Op>, q: Request, path: string)
    requires (forall n :: 0 <= n < |ops| ==> Closing(ops[n])) && NoneLeft(w, q, path)
    ensures NoneLeft(Run(w, ops), q, path)
    decreases |ops|
  {
    hide Apply, NoneLeft;
    if ops != [] {
      ClosingCallsAddNothing(w, ops[..|ops| - 1], q, path);
      assert Closing(ops[|ops| - 1]);
      ClosingAddsNothing(Run(w, ops[..|ops| - 1]), ops[|ops| - 1], q, path);
    }
  }

  ghost predicate NoEntityLeft(w: World, q: Request, path: string) {
    forall id :: id in w.graph.nodes ==> !InFileAt(w.graph.nodes[id], q.repository, q.revision, path)
  }

  lemma RemovalClears(w: World, q: Request, path: string)
    ensures NoEntityLeft(Apply(w, RemoveGraph(q.server, q.repository, q.revision, path)), q, path)
  {
  }

  lemma DropKeepsCleared(w: World, q: Request, path: string)
    requires NoEntityLeft(w, q, path)
    ensures var v := Apply(w, DropVectors(q.repository, q.revision, path));
            NoEntityLeft(v, q, path) && NoneLeft(v, q, path)
  {
  }

  lemma UnvectoredIsNone(w: World, q: Request, path: string)
    requires NoEntityLeft(w, q, path) && !q.semantic
    ensures NoneLeft(w, q, path)
  {
  }

  lemma OnePathClears(w: World, q: Request, path: string)
    ensures NoneLeft(Run(w, CleanupOne(q, path)), q, path)
  {
    hide Run, Apply, NoneLeft, NoEntityLeft;
    var g, forget := RemoveGraph(q.server, q.repository, q.revision, path), DeleteManifest(q.repository, path);
    var drop := if q.semantic then [DropVectors(q.repository, q.revision, path)] else [];
    var v := Apply(w, g);
    assert CleanupOne(q, path) == [g] + drop + [forget];
    RunThree(w, g, drop, [forget]);
    RemovalClears(w, q, path);
    if q.semantic {
      RunOne(v, drop[0]);
      DropKeepsCleared(v, q, path);
    } else {
      NothingRun(v, {});
      UnvectoredIsNone(v, q, path);
    }
    RunOne(Run(v, drop), forget);
    ClosingAddsNothing(Run(v, drop), forget, q, path);
  }

  lemma {:induction false} CleanupClears(w: World, q: Request, listing: seq<string>, path: string)
    requires path in listing
    ensures NoneLeft(Run(w, CleanupOps(q, listing)), q, path)
    decreases |listing|
  {
    hide Run, Apply, CleanupOps, CleanupOne, NoneLeft;
    var init, last := listing[..|listing| - 1], listing[|listing| - 1];
    assert listing == init + [last];
    CleanupSnoc(w, q, init, last);
    var v := Run(w, CleanupOps(q, init));
    if path == last {
      OnePathClears(v, q, path);
    } else {
      CleanupClears(w, q, init, path);
      OneIsClosing(q, last);
      ClosingCallsAddNothing(v, CleanupOne(q, last), q, path);
    }
  }

  lemma OneIsClosing(q: Request, path: string)
    ensures forall n :: 0 <= n < |CleanupOne(q, path)| ==> Closing(CleanupOne(q, path)[n])
  {
  }

  lemma SameIndexSameLeft(w: World, v: World, q: Request, path: string)
    requires SameIndex(w, v) && NoneLeft(v, q, path)
    ensures NoneLeft(w, q, path)
  {
  }

  /** A completed job leaves at its revision no entity and no vector of a file that has gone, on any
      stores, also when the revision was indexed with it before. */
  lemma RemovedAreCleared(a: Analyzer, w: World, q: Request, files: seq<SourceFile>, listing: seq<string>, path: string)
    requires Lists(listing, Removed(w.manifests, q.repository, files))
    requires DistinctPaths(files) && Completes(a, w, q, files, listing)
    requires (q.repository, path) in w.manifests && forall n :: 0 <= n < |files| ==> files[n].path != path
    ensures NoneLeft(Run(w, JobOps(a, w, q, files, listing)), q, path)
  {
    hide Run, Apply, JobOps, LoopOps, CleanupOps, SameIndex, NoneLeft, Completes;
    var v, l, i, x := CompletedShape(a, w, q, files, listing);
    PresentOrRemoved(w.manifests, q.repository, files, path);
    CleanupClears(i, q, listing, path);
    SameIndexSameLeft(Run(w, JobOps(a, w, q, files, listing)), x, q, path);
  }

  // ---------------------------------------------------------------- a failed job

  /** Every entity is still there, at every revision it was at. */
  ghost predicate Grown(before: Nodes, after: Nodes) {
    forall id :: id in before ==> id in after && before[id].revisions <= after[id].revisions
  }

  lemma GraphCallGrows(w: World, g: Op)
    requires g.CarryGraph? || g.WriteGraph?
    ensures Grown(w.graph.nodes, Apply(w, g).graph.nodes)
  {
    hide WriteEdges, WriteSymbols;
  }

  lemma FileGrows(a: Analyzer, w: World, q: Request, f: SourceFile)
    ensures Grown(w.graph.nodes, Run(w, FileOps(a, w, q, f)).graph.nodes)
  {
    hide Run, Apply, FileOps, FileFails;
    if FileFails(a, w, q, f) {
      FailedFile(a, w, q, f);
    } else {
      var g, rest := FileParts(a, w, q, f);
      RunConcat(w, [g], rest);
      RunOne(w, g);
      CallsKeepGraph(Apply(w, g), rest);
      GraphCallGrows(w, g);
    }
  }

  lemma {:induction false} LoopGrows(a: Analyzer, v: World, q: Request, files: seq<SourceFile>)
    ensures Grown(v.graph.nodes, Run(v, LoopOps(a, v, q, files)).graph.nodes)
    decreases |files|
  {
    hide Run, Apply, FileOps;
    if files == [] {
      NoFilesRun(a, v, q);
    } else {
      LoopGrows(a, v, q, files[..|files| - 1]);
      var before := LoopOps(a, v, q, files[..|files| - 1]);
      RunConcat(v, before, FileOps(a, Run(v, before), q, files[|files| - 1]));
      FileGrows(a, Run(v, before), q, files[|files| - 1]);
    }
  }

  /** A job with a file that does not parse takes nothing away: every manifest of another path, and
      every entity at every revision, is as it was. */
  lemma FailedJobRemovesNothing(a: Analyzer, w: World, q: Request, files: seq<SourceFile>, listing: seq<string>)
    requires Lists(listing, Removed(w.manifests, q.repository, files)) && DistinctPaths(files)
    requires Run(w, JobOps(a, w, q, files, listing)).job.status == Failed
    ensures var done := Run(w, JobOps(a, w, q, files, listing));
            && Grown(w.graph.nodes, done.graph.nodes)
            && (forall k :: k in w.manifests && !(k.0 == q.repository && k.1 in Paths(files)) ==>
                  k in done.manifests && done.manifests[k] == w.manifests[k])
  {
    hide Run, Apply, LoopOps, CleanupOps, Grown, SameElsewhere;
    var v := StartShape(w, files);
    var l := Run(v, LoopOps(a, v, q, files));
    var i := Run(w, IndexOps(a, w, q, files));
    RunIndex(a, w, q, files);
    RowsShape(l, FinalRows(a, q.repository, files));
    RunConcat(w, IndexOps(a, w, q, files), FinishOps(w, q, files, listing, i.job.failed > 0));
    if i.job.failed > 0 {
      FailedEnd(w, i, q, files, listing);
    } else {
      FinishShape(w, i, q, files, listing);
    }
    LoopGrows(a, v, q, files);
    LoopOutcome(a, v, q, files);
    OthersStay(q, w.manifests, l.manifests, Paths(files));
  }

  lemma FailedEnd(w: World, i: World, q: Request, files: seq<SourceFile>, listing: seq<string>)
    requires Lists(listing, Removed(w.manifests, q.repository, files))
    ensures SameIndex(Run(i, FinishOps(w, q, files, listing, true)), i)
  {
    var failed := Job(SetStatus(Failed, PARSE_FAILURE));
    assert FinishOps(w, q, files, listing, true) == [failed];
    RunOne(i, failed);
  }

  lemma OthersStay(q: Request, before: Manifests, after: Manifests, paths: set<string>)
    requires SameElsewhere(q, before, after, paths)
    ensures forall k :: k in before && !(k.0 == q.repository && k.1 in paths) ==> k in after && after[k] == before[k]
  {
  }
}

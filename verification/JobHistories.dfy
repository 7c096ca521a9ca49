/** The index after a completed job, after any history of jobs. */
module JobHistories {
  import opened Contracts
  import opened IndexStores
  import opened IndexJobs
  import opened GraphInvariants
  import opened JobInvariants
  import opened IncrementalRefinesFull
  import opened PinnedRevisions
  import opened CompletedJobs
  import opened ExactIndex

  // ---------------------------------------------------------------- one completed job

  ghost predicate Completes(a: Analyzer, w: World, q: Request, files: seq<SourceFile>, listing: seq<string>)
    requires Lists(listing, Removed(w.manifests, q.repository, files))
  {
    w.job.failed == 0 && Run(w, JobOps(a, w, q, files, listing)).job.failed == 0
  }

  /** Equal but for the edges, the symbols and the snapshots. */
  ghost predicate SameIndex(w: World, v: World) {
    w.graph.nodes == v.graph.nodes && w.points == v.points && w.manifests == v.manifests && w.job.failed == v.job.failed
  }

  /** A completed job taken apart: the loop, the final rows, the cleanup and the closing calls. */
  lemma CompletedShape(a: Analyzer, w: World, q: Request, files: seq<SourceFile>, listing: seq<string>)
      returns (v: World, l: World, i: World, x: World)
    requires Lists(listing, Removed(w.manifests, q.repository, files))
    requires DistinctPaths(files) && Completes(a, w, q, files, listing)
    ensures v == Run(w, StartOps(files)) && SameIndex(v, w) && v.job.failed == 0
    ensures l == Run(v, LoopOps(a, v, q, files))
    ensures i == Run(w, IndexOps(a, w, q, files)) && SameIndex(i, l) && i.job.failed == 0
    ensures x == Run(i, CleanupOps(q, listing))
    ensures var done := Run(w, JobOps(a, w, q, files, listing));
            SameIndex(done, x) && done.job.status == Completed
  {
    hide LoopOps, CleanupOps, Apply, Run;
    var index := IndexOps(a, w, q, files);
    v := StartShape(w, files);
    l := Run(v, LoopOps(a, v, q, files));
    i := Run(w, index);
    x := Run(i, CleanupOps(q, listing));
    RunIndex(a, w, q, files);
    RowsShape(l, FinalRows(a, q.repository, files));
    RunConcat(w, index, FinishOps(w, q, files, listing, i.job.failed > 0));
    if i.job.failed > 0 {
      FailShape(w, i, q, files, listing);
    }
    FinishShape(w, i, q, files, listing);
  }

  lemma RowsShape(l: World, rows: seq<CodeRelationship>)
    ensures SameIndex(Apply(l, WriteRows(rows)), l)
  {
  }

  lemma FailShape(w: World, i: World, q: Request, files: seq<SourceFile>, listing: seq<string>)
    requires Lists(listing, Removed(w.manifests, q.repository, files))
    ensures Run(i, FinishOps(w, q, files, listing, true)).job.failed == i.job.failed
  {
    var failed := Job(SetStatus(Failed, PARSE_FAILURE));
    assert FinishOps(w, q, files, listing, true) == [failed];
    RunOne(i, failed);
  }

  lemma StartShape(w: World, files: seq<SourceFile>) returns (v: World)
    ensures v == Run(w, StartOps(files)) && SameIndex(v, w)
  {
    var first, second := Job(Start), Job(SetDiscovered(|files|));
    assert StartOps(files) == [first] + [second];
    RunConcat(w, [first], [second]);
    RunOne(w, first);
    RunOne(Apply(w, first), second);
    v := Run(w, StartOps(files));
  }

  lemma ClosingShape(x: World, deleted: nat, renamed: nat, q: Request)
    ensures var closing := [Job(SetRemoved(deleted, renamed)), RecordSnapshot(q.repository, q.revision, q.provenance),
                            Job(SetStatus(Completed, None))];
            SameIndex(Run(x, closing), x) && Run(x, closing).job.status == Completed
  {
    var s, r, f := Job(SetRemoved(deleted, renamed)), RecordSnapshot(q.repository, q.revision, q.provenance),
                   Job(SetStatus(Completed, None));
    assert [s, r, f] == [s] + [r] + [f];
    RunThree(x, s, [r], [f]);
    RunOne(Apply(x, s), r);
    RunOne(Apply(Apply(x, s), r), f);
  }

  lemma FinishShape(w: World, i: World, q: Request, files: seq<SourceFile>, listing: seq<string>)
    requires Lists(listing, Removed(w.manifests, q.repository, files))
    ensures var x := Run(i, CleanupOps(q, listing));
            var done := Run(i, FinishOps(w, q, files, listing, false));
            SameIndex(done, x) && done.job.status == Completed
  {
    hide Run, Apply, CleanupOps;
    var renamed := RenamedPaths(w.manifests, q.repository, files, listing);
    var deleted := |Removed(w.manifests, q.repository, files) - renamed|;
    var closing := [Job(SetRemoved(deleted, |renamed|)), RecordSnapshot(q.repository, q.revision, q.provenance),
                    Job(SetStatus(Completed, None))];
    assert FinishOps(w, q, files, listing, false) == CleanupOps(q, listing) + closing;
    RunConcat(i, CleanupOps(q, listing), closing);
    ClosingShape(Run(i, CleanupOps(q, listing)), deleted, |renamed|, q);
  }

  /** The manifests of a completed job's repository: its files, at its revision, and no others. */
  lemma ManifestsExact(a: Analyzer, w: World, q: Request, files: seq<SourceFile>, listing: seq<string>)
    requires Lists(listing, Removed(w.manifests, q.repository, files))
    requires DistinctPaths(files) && Completes(a, w, q, files, listing)
    ensures var after := Run(w, JobOps(a, w, q, files, listing)).manifests;
            && AllRecorded(q, after, files)
            && (forall p :: (q.repository, p) in after ==> p in Paths(files))
  {
    hide Run, Apply, JobOps, LoopOps, CleanupOps;
    var v, l, i, x := CompletedShape(a, w, q, files, listing);
    LoopOutcome(a, v, q, files);
    CleanupOutcome(i, q, listing);
    forall n | 0 <= n < |files|
      ensures files[n].path in Paths(files) && files[n].path !in listing
    {
    }
    forall p | (q.repository, p) in x.manifests
      ensures p in Paths(files)
    {
      if (q.repository, p) in w.manifests {
        PresentOrRemoved(w.manifests, q.repository, files, p);
      }
    }
  }

  lemma PresentOrRemoved(manifests: Manifests, repository: string, files: seq<SourceFile>, p: string)
    requires (repository, p) in manifests
    ensures p in Paths(files) || p in Removed(manifests, repository, files)
  {
    assert (repository, p).1 == p;
  }

  /** The graph holds revision t of the repository exactly when some named file's parse has it. */
  ghost predicate GraphExact(a: Analyzer, c: Content, nodes: Nodes, repository: string, revision: string) {
    var named := c(repository, revision);
    && (forall path, id :: path in named && id in ContentRows(a, c, repository, revision, path) ==>
          && id in nodes && nodes[id].repository == repository && revision in nodes[id].revisions
          && nodes[id].row == ContentRows(a, c, repository, revision, path)[id])
    && (forall id :: id in nodes && nodes[id].repository == repository && revision in nodes[id].revisions ==>
          exists path :: path in named && id in ContentRows(a, c, repository, revision, path))
  }

  /** The vectors of revision t are documents of the named files, and all of those of every file
      that fits a page. */
  ghost predicate VectorsExact(a: Analyzer, c: Content, points: Points, repository: string, revision: string) {
    var named := c(repository, revision);
    && (forall path, k ::
          path in named && Fits(a, c, repository, path) && k in ContentPoints(a, c, repository, revision, path) ==>
            k in points && points[k] == ContentPoints(a, c, repository, revision, path)[k])
    && (forall k :: k in points && k.repository == repository && k.revision == revision ==>
          exists path :: path in named && k in ContentPoints(a, c, repository, revision, path)
                         && points[k] == ContentPoints(a, c, repository, revision, path)[k])
  }

  /** What a completed job leaves torn: none of the files it wrote and, if it skipped none that
      was torn, none of its files. */
  lemma InvariantAfter(a: Analyzer, w: World, q: Request, files: seq<SourceFile>, listing: seq<string>,
                       torn: set<FileKey>)
      returns (rest: set<FileKey>)
    requires ValidAnalyzer(a) && Invariant(a, w, torn)
    requires Lists(listing, Removed(w.manifests, q.repository, files))
    requires DistinctPaths(files) && Completes(a, w, q, files, listing)
    ensures Invariant(a, Run(w, JobOps(a, w, q, files, listing)), rest)
    ensures rest == TornBy(torn, JobOps(a, w, q, files, listing)) <= torn - Rewritten(q, w.manifests, files)
  {
    hide Run, Apply, JobOps, LoopOps, CleanupOps, Open, Closed, Rewritten, Invariant;
    var ops := JobOps(a, w, q, files, listing);
    var v, l, i, x := CompletedShape(a, w, q, files, listing);
    JobKeepsThroughout(a, w, q, files, listing, torn);
    AtEnd(a, w, ops, torn);
    LoopCloses(a, v, q, files);
    JobCloses(a, w, v, q, files, listing);
    rest := torn - Closed({}, ops);
    assert (torn - Closed({}, ops)) + {} == rest;
  }

  lemma JobCloses(a: Analyzer, w: World, v: World, q: Request, files: seq<SourceFile>, listing: seq<string>)
    requires Lists(listing, Removed(w.manifests, q.repository, files))
    requires v == Run(w, StartOps(files))
    ensures Closed({}, LoopOps(a, v, q, files)) <= Closed({}, JobOps(a, w, q, files, listing))
  {
    hide Run, Apply, LoopOps, FinishOps, Open, Closed;
    var start, loop := StartOps(files), LoopOps(a, v, q, files);
    var rows := [WriteRows(FinalRows(a, q.repository, files))];
    var index := IndexOps(a, w, q, files);
    assert AllQuiet(start);
    QuietKeeps(w, start, {});
    ClosedConcat({}, start, loop);
    ClosedConcat({}, start + loop, rows);
    assert index == start + loop + rows;
    ClosedConcat({}, index, FinishOps(w, q, files, listing, Run(w, index).job.failed > 0));
  }

  /** No file of the job is left torn when it skipped none that was. */
  lemma NoneLeftTorn(q: Request, files: seq<SourceFile>, manifests: Manifests, torn: set<FileKey>, rest: set<FileKey>)
    requires SkipsWhole(q, files, manifests, torn) && rest <= torn - Rewritten(q, manifests, files)
    ensures NoneTorn(q, files, rest)
  {
    forall n | 0 <= n < |files|
      ensures (q.repository, files[n].path) !in rest
    {
      if !Skips(q, manifests, files[n]) {
        assert (q.repository, files[n].path) in Rewritten(q, manifests, files);
      }
    }
  }

  ghost predicate NoneTorn(q: Request, files: seq<SourceFile>, torn: set<FileKey>) {
    forall n :: 0 <= n < |files| ==> (q.repository, files[n].path) !in torn
  }

  lemma DonePinned(a: Analyzer, c: Content, w: World, q: Request, files: seq<SourceFile>, listing: seq<string>)
    requires ValidAnalyzer(a) && Pinned(a, c, w) && FilesOf(c, q, files)
    requires Lists(listing, Removed(w.manifests, q.repository, files))
    ensures Pinned(a, c, Run(w, JobOps(a, w, q, files, listing)))
  {
    hide Run, JobOps, Pinned;
    JobCallsPinned(a, c, q, w, files, listing);
    CallsKeepPinned(a, c, q, w, JobOps(a, w, q, files, listing));
  }

  /** The main result: a completed job leaves the graph at its revision holding exactly the
      entities of its files, row for row. */
  lemma CompletedGraphIsExact(a: Analyzer, c: Content, w: World, q: Request, files: seq<SourceFile>,
                              listing: seq<string>, torn: set<FileKey>)
    requires ValidAnalyzer(a) && Pinned(a, c, w) && FilesOf(c, q, files) && DistinctPaths(files)
    requires Invariant(a, w, torn) && SkipsWhole(q, files, w.manifests, torn)
    requires Lists(listing, Removed(w.manifests, q.repository, files))
    requires Completes(a, w, q, files, listing)
    ensures GraphExact(a, c, Run(w, JobOps(a, w, q, files, listing)).graph.nodes, q.repository, q.revision)
  {
    hide Run, JobOps, Apply, Invariant, AllRecorded, NoneTorn, ContentRows, Completes, SkipsWhole, Rewritten, TornBy;
    var done := Run(w, JobOps(a, w, q, files, listing));
    var rest := InvariantAfter(a, w, q, files, listing, torn);
    NoneLeftTorn(q, files, w.manifests, torn, rest);
    ManifestsExact(a, w, q, files, listing);
    DonePinned(a, c, w, q, files, listing);
    HoldsEverywhere(a, c, done, q, files, rest);
    forall id | id in done.graph.nodes && done.graph.nodes[id].repository == q.repository
                && q.revision in done.graph.nodes[id].revisions
      ensures exists path ::
                path in c(q.repository, q.revision) && id in ContentRows(a, c, q.repository, q.revision, path)
    {
      assert MembershipPinned(a, c, id, done.graph.nodes[id], q.revision);
    }
  }

  lemma HoldsEverywhere(a: Analyzer, c: Content, w: World, q: Request, files: seq<SourceFile>, torn: set<FileKey>)
    requires Invariant(a, w, torn) && NoneTorn(q, files, torn) && FilesOf(c, q, files)
    requires AllRecorded(q, w.manifests, files)
    ensures forall path, id ::
              path in c(q.repository, q.revision) && id in ContentRows(a, c, q.repository, q.revision, path) ==>
                && id in w.graph.nodes && w.graph.nodes[id].repository == q.repository
                && q.revision in w.graph.nodes[id].revisions
                && w.graph.nodes[id].row == ContentRows(a, c, q.repository, q.revision, path)[id]
  {
    forall path | path in c(q.repository, q.revision)
      ensures Holds(a, w.graph.nodes, q.repository, q.revision, path, c(q.repository, q.revision)[path])
    {
      assert path in Paths(files);
      var n :| 0 <= n < |files| && files[n].path == path;
      assert (q.repository, files[n].path) !in torn;
      assert ManifestHolds(a, w.graph.nodes, q.repository, path, w.manifests[(q.repository, path)]);
    }
  }

  /** And its vectors are documents of its files, all of them for every file whose chunks fit one
      scroll page. */
  lemma CompletedVectorsAreExact(a: Analyzer, c: Content, w: World, q: Request, files: seq<SourceFile>,
                                 listing: seq<string>)
    requires ValidAnalyzer(a) && VectorsKept(a, c, w) && FilesOf(c, q, files) && DistinctPaths(files)
    requires Lists(listing, Removed(w.manifests, q.repository, files))
    requires Completes(a, w, q, files, listing) && q.semantic
    ensures VectorsExact(a, c, Run(w, JobOps(a, w, q, files, listing)).points, q.repository, q.revision)
  {
    var done := Run(w, JobOps(a, w, q, files, listing));
    DonePinned(a, c, w, q, files, listing);
    var v, l, i, x := CompletedShape(a, w, q, files, listing);
    forall path | path in c(q.repository, q.revision) && Fits(a, c, q.repository, path)
      ensures FileComplete(a, c, done.points, q.repository, q.revision, path)
    {
      assert path in Paths(files);
      var n :| 0 <= n < |files| && files[n].path == path;
      CompletedFileVectors(a, c, w, q, files, listing, n);
    }
    CompleteIsExact(a, c, done.points, q.repository, q.revision);
  }

  lemma CompletedFileVectors(a: Analyzer, c: Content, w: World, q: Request, files: seq<SourceFile>,
                             listing: seq<string>, n: nat)
    requires ValidAnalyzer(a) && VectorsKept(a, c, w) && FilesOf(c, q, files) && DistinctPaths(files)
    requires Lists(listing, Removed(w.manifests, q.repository, files))
    requires Completes(a, w, q, files, listing) && q.semantic
    requires n < |files| && Fits(a, c, q.repository, files[n].path)
    ensures FileComplete(a, c, Run(w, JobOps(a, w, q, files, listing)).points, q.repository, q.revision, files[n].path)
  {
    hide Run, Apply, JobOps, LoopOps, CleanupOps;
    var v, l, i, x := CompletedShape(a, w, q, files, listing);
    var path := files[n].path;
    assert VectorsKept(a, c, v);
    LoopVectorsComplete(a, c, q, v, files, n);
    assert VectorsKept(a, c, l) by {
      LoopCallsPinned(a, c, q, v, files);
      CallsKeepVectors(a, c, q, v, LoopOps(a, v, q, files));
    }
    CleanupCallsPinned(a, c, q, listing);
    assert path in Paths(files);
    CleanupDropsListed(q, listing, path);
    CallsKeepComplete(a, c, q, i, CleanupOps(q, listing), path);
  }

  lemma {:induction false} CleanupDropsListed(q: Request, listing: seq<string>, path: string)
    requires path !in listing
    ensures DropsNot(CleanupOps(q, listing), path)
  {
    if listing != [] {
      CleanupDropsListed(q, listing[..|listing| - 1], path);
    }
  }

  lemma CompleteIsExact(a: Analyzer, c: Content, points: Points, repository: string, revision: string)
    requires PointsPinned(a, c, points)
    requires forall path :: path in c(repository, revision) && Fits(a, c, repository, path) ==>
               FileComplete(a, c, points, repository, revision, path)
    ensures VectorsExact(a, c, points, repository, revision)
  {
    hide Fits;
    forall path, k | path in c(repository, revision) && Fits(a, c, repository, path)
                     && k in ContentPoints(a, c, repository, revision, path)
      ensures k in points && points[k] == ContentPoints(a, c, repository, revision, path)[k]
    {
      assert FileComplete(a, c, points, repository, revision, path);
      assert k in FilePoints(points, repository, revision, path);
      assert PointPinned(a, c, k, points[k]);
    }
    forall k | k in points && k.repository == repository && k.revision == revision
      ensures exists path :: path in c(repository, revision) && k in ContentPoints(a, c, repository, revision, path)
                             && points[k] == ContentPoints(a, c, repository, revision, path)[k]
    {
      assert PointPinned(a, c, k, points[k]);
    }
  }

  // ---------------------------------------------------------------- histories

  /** One job of a history; it stops after the given number of store calls. */
  datatype Attempt = Attempt(id: string, q: Request, files: seq<SourceFile>, listing: seq<string>, calls: nat)

  const EMPTY := Graph(map[], map[], map[], {}, map[])

  ghost function Begin(w: World, t: Attempt): World {
    w.(job := NewJob(t.id, t.q.repository, t.q.revision, t.q.mode))
  }

  ghost predicate Possible(a: Analyzer, c: Content, w: World, t: Attempt) {
    && Lists(t.listing, Removed(w.manifests, t.q.repository, t.files))
    && DistinctPaths(t.files) && FilesOf(c, t.q, t.files)
    && t.calls <= |JobOps(a, Begin(w, t), t.q, t.files, t.listing)|
  }

  ghost predicate PossibleHistory(a: Analyzer, c: Content, history: seq<Attempt>)
    decreases |history|, 0
  {
    history == [] || (PossibleHistory(a, c, history[..|history| - 1])
                      && Possible(a, c, After(a, c, history[..|history| - 1]), history[|history| - 1]))
  }

  ghost function After(a: Analyzer, c: Content, history: seq<Attempt>): World
    requires PossibleHistory(a, c, history)
    decreases |history|, 1
  {
    if history == [] then World(EMPTY, map[], map[], NewJob("", "", "", Full))
    else
      var w := After(a, c, history[..|history| - 1]);
      var t := history[|history| - 1];
      Run(Begin(w, t), JobOps(a, Begin(w, t), t.q, t.files, t.listing)[..t.calls])
  }

  /** Files a history has torn: a job tears the file it stopped at between graph call and manifest,
      and makes whole every file it wrote to its manifest. */
  ghost function Torn(a: Analyzer, c: Content, history: seq<Attempt>): set<FileKey>
    requires PossibleHistory(a, c, history)
  {
    if history == [] then {}
    else
      var w := After(a, c, history[..|history| - 1]);
      var t := history[|history| - 1];
      TornBy(Torn(a, c, history[..|history| - 1]), JobOps(a, Begin(w, t), t.q, t.files, t.listing)[..t.calls])
  }

  /** What any history of jobs, completed, failed or interrupted anywhere, keeps. */
  lemma {:induction false} HistoryKeeps(a: Analyzer, c: Content, history: seq<Attempt>)
    requires ValidAnalyzer(a) && PossibleHistory(a, c, history)
    ensures Pinned(a, c, After(a, c, history))
    ensures Invariant(a, After(a, c, history), Torn(a, c, history))
    ensures Broken(a, After(a, c, history)) <= Torn(a, c, history)
    ensures AllOrNothing(a, c, After(a, c, history).points)
    decreases |history|
  {
    hide Run, Apply, JobOps, TornBy;
    if history != [] {
      var init, t := history[..|history| - 1], history[|history| - 1];
      HistoryKeeps(a, c, init);
      var w := Begin(After(a, c, init), t);
      var ops := JobOps(a, w, t.q, t.files, t.listing);
      JobStoresNothingForeign(a, c, t.q, w, t.files, t.listing, t.calls);
      JobKeepsThroughout(a, w, t.q, t.files, t.listing, Torn(a, c, init));
      JobCallsPinned(a, c, t.q, w, t.files, t.listing);
      CallsKeepVectors(a, c, t.q, w, ops[..t.calls]);
    } else {
      NothingStored(a, c);
    }
  }

  lemma NothingStored(a: Analyzer, c: Content)
    ensures var w := World(EMPTY, map[], map[], NewJob("", "", "", Full));
            Pinned(a, c, w) && Invariant(a, w, {}) && AllOrNothing(a, c, w.points)
  {
  }

  /** After any history of jobs over pinned revisions, the next job that completes leaves at its
      revision exactly the entities of its files and vectors of its files only, all of them for
      every file that fits a page, provided it skips no file whose manifest is broken; and an
      incremental job leaves every store as the full job would. */
  lemma IndexAfterAnyHistory(a: Analyzer, c: Content, history: seq<Attempt>, t: Attempt)
    requires ValidAnalyzer(a) && PossibleHistory(a, c, history) && Possible(a, c, After(a, c, history), t)
    requires SkipsWhole(t.q, t.files, After(a, c, history).manifests, Broken(a, After(a, c, history)))
    ensures var w := Begin(After(a, c, history), t);
            var done := Run(w, JobOps(a, w, t.q, t.files, t.listing));
            && (done.job.failed == 0 ==> GraphExact(a, c, done.graph.nodes, t.q.repository, t.q.revision))
            && (done.job.failed == 0 && t.q.semantic ==> VectorsExact(a, c, done.points, t.q.repository, t.q.revision))
            && (t.q.mode == Incremental ==>
                  SameStores(done, Run(w, JobOps(a, w, t.q.(mode := Full), t.files, t.listing))))
  {
    hide Run, JobOps, Pinned, Invariant, GraphExact, VectorsExact, SkipsWhole;
    HistoryKeeps(a, c, history);
    var w, broken := Begin(After(a, c, history), t), Broken(a, After(a, c, history));
    OnlyBroken(a, After(a, c, history), Torn(a, c, history));
    BeginKeeps(a, c, After(a, c, history), t, broken);
    if Run(w, JobOps(a, w, t.q, t.files, t.listing)).job.failed == 0 {
      CompletedGraphIsExact(a, c, w, t.q, t.files, t.listing, broken);
      if t.q.semantic {
        CompletedVectorsAreExact(a, c, w, t.q, t.files, t.listing);
      }
    }
    if t.q.mode == Incremental {
      IncrementalIsFull(a, w, t.q, t.q.(mode := Full), t.files, t.listing, broken);
    }
  }

  /** A new job record changes nothing the stores keep. */
  lemma BeginKeeps(a: Analyzer, c: Content, w: World, t: Attempt, torn: set<FileKey>)
    requires Pinned(a, c, w) && Invariant(a, w, torn)
    ensures Pinned(a, c, Begin(w, t)) && Invariant(a, Begin(w, t), torn)
  {
  }
}

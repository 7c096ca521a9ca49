/** What a completed job has stored, and what any history of jobs keeps. */
module CompletedJobs {
  import opened Contracts
  import opened IndexStores
  import opened IndexJobs
  import opened GraphInvariants
  import opened JobInvariants
  import opened IncrementalRefinesFull

  // ---------------------------------------------------------------- manifests and failures

  ghost function Recorded(q: Request, f: SourceFile): Manifest {
    Manifest(f.hash, q.revision, ANALYSIS_VERSION)
  }

  ghost predicate FileFails(a: Analyzer, w: World, q: Request, f: SourceFile) {
    !Skippable(q.mode, Previous(w.manifests, q.repository, f.path), f.hash)
    && Fatal(a, q.repository, f.path, f.hash)
  }

  /** The calls for a file that does not fail, taken apart. */
  lemma FileShape(a: Analyzer, w: World, q: Request, f: SourceFile) returns (g: Op, vectors: seq<Op>, add: JobChange)
    requires !FileFails(a, w, q, f)
    ensures FileOps(a, w, q, f)
            == [g] + vectors + [PutManifest(q.repository, f.path, Recorded(q, f)), Job(add)]
    ensures AllQuiet(vectors) && (forall n :: 0 <= n < |vectors| ==> !vectors[n].Job?)
    ensures Skips(q, w.manifests, f) ==> g.CarryGraph?
    ensures !Skips(q, w.manifests, f) ==>
              g == WriteGraph(q.repository, q.revision, f.path, Entities(a, q.repository, f.path, f.hash),
                              f.relationships)
    ensures add.Add? && add.failed == 0
  {
    var ops := FileOps(a, w, q, f);
    var previous := Previous(w.manifests, q.repository, f.path);
    var source := VectorSource(previous, f.hash);
    var documents := Documents(a, q.repository, f.path, f.hash);
    VectorCallsQuiet(w.points, q, source, f.path, documents);
    vectors := if Skippable(q.mode, previous, f.hash) then SkipVectors(w.points, q, source.value, f.path, documents)
               else WriteVectors(w.points, q, source, f.path, documents);
    g, add := ops[0], ops[|ops| - 1].change;
  }

  lemma {:induction false} StoreCallsKeepJob(w: World, ops: seq<Op>)
    requires forall n :: 0 <= n < |ops| ==> !ops[n].Job?
    ensures Run(w, ops).job == w.job
  {
    if ops != [] {
      StoreCallsKeepJob(w, ops[..|ops| - 1]);
      assert !ops[|ops| - 1].Job?;
    }
  }

  lemma FailedCalls(a: Analyzer, w: World, q: Request, f: SourceFile)
    requires FileFails(a, w, q, f)
    ensures FileOps(a, w, q, f) == [Job(Add(1, 0, 1, 0, 0, 0))]
  {
  }

  /** A file either fails and leaves no trace, or its manifest names this job's revision. */
  lemma FileOutcome(a: Analyzer, w: World, q: Request, f: SourceFile)
    ensures var v := Run(w, FileOps(a, w, q, f));
            if FileFails(a, w, q, f) then
              v == w.(job := Changed(w.job, Add(1, 0, 1, 0, 0, 0)))
            else
              && v.job.failed == w.job.failed
              && v.manifests == w.manifests[(q.repository, f.path) := Recorded(q, f)]
  {
    hide Run, FileOps, FileFails, PageOf, CarryPoints, WriteFile, CarryFile, Documents, Entities, Open;
    if FileFails(a, w, q, f) {
      FailedCalls(a, w, q, f);
      RunOne(w, Job(Add(1, 0, 1, 0, 0, 0)));
    } else {
      var g, vectors, add := FileShape(a, w, q, f);
      var put := PutManifest(q.repository, f.path, Recorded(q, f));
      RunThree(w, g, vectors, [put, Job(add)]);
      QuietKeeps(Apply(w, g), vectors, {});
      StoreCallsKeepJob(Apply(w, g), vectors);
      var v := Run(Apply(w, g), vectors);
      RunConcat(v, [put], [Job(add)]);
      RunOne(v, put);
      RunOne(Apply(v, put), Job(add));
      assert [put] + [Job(add)] == [put, Job(add)];
    }
  }

  lemma FileChanges(a: Analyzer, w: World, q: Request, f: SourceFile)
    ensures var v := Run(w, FileOps(a, w, q, f));
            if FileFails(a, w, q, f) then v.job.failed == w.job.failed + 1 && v.manifests == w.manifests
            else v.job.failed == w.job.failed && v.manifests == w.manifests[(q.repository, f.path) := Recorded(q, f)]
  {
    hide Run, FileOps, FileFails, Recorded;
    FileOutcome(a, w, q, f);
  }

  lemma NoFiles(a: Analyzer, w: World, q: Request)
    ensures Run(w, LoopOps(a, w, q, [])) == w
  {
  }

  ghost predicate AllRecorded(q: Request, manifests: Manifests, files: seq<SourceFile>) {
    forall n :: 0 <= n < |files| ==>
      Previous(manifests, q.repository, files[n].path) == Some(Recorded(q, files[n]))
  }

  ghost predicate SameElsewhere(q: Request, before: Manifests, after: Manifests, paths: set<string>) {
    forall k :: k in before.Keys + after.Keys && !(k.0 == q.repository && k.1 in paths) ==>
      k in before && k in after && before[k] == after[k]
  }

  /** Unless some file failed, the loop has left a manifest of this revision for every file. */
  lemma {:induction false} LoopOutcome(a: Analyzer, w: World, q: Request, files: seq<SourceFile>)
    requires DistinctPaths(files)
    ensures var v := Run(w, LoopOps(a, w, q, files));
            && v.job.failed >= w.job.failed
            && (v.job.failed == w.job.failed ==> AllRecorded(q, v.manifests, files))
            && SameElsewhere(q, w.manifests, v.manifests, Paths(files))
    decreases |files|
  {
    hide Run, LoopOps, FileOps, FileFails, Recorded, AllRecorded, SameElsewhere;
    if files == [] {
      NoFiles(a, w, q);
      NothingRecorded(q, w.manifests, files);
    } else {
      var init, last := files[..|files| - 1], files[|files| - 1];
      LoopOutcome(a, w, q, init);
      var v := Run(w, LoopOps(a, w, q, init));
      var after := LoopStep(a, w, q, files);
      FileChanges(a, v, q, last);
      PathsSnoc(files);
      SameElsewhereStep(q, w.manifests, v.manifests, Paths(init), last);
      if after.job.failed == w.job.failed {
        RecordedStep(q, v.manifests, files);
      }
    }
  }

  lemma NothingRecorded(q: Request, manifests: Manifests, files: seq<SourceFile>)
    requires files == []
    ensures AllRecorded(q, manifests, files) && SameElsewhere(q, manifests, manifests, Paths(files))
  {
  }

  lemma SameElsewhereStep(q: Request, before: Manifests, after: Manifests, paths: set<string>, f: SourceFile)
    requires SameElsewhere(q, before, after, paths)
    ensures SameElsewhere(q, before, after, paths + {f.path})
    ensures SameElsewhere(q, before, after[(q.repository, f.path) := Recorded(q, f)], paths + {f.path})
  {
  }

  lemma LoopStep(a: Analyzer, w: World, q: Request, files: seq<SourceFile>) returns (after: World)
    requires files != []
    ensures var v := Run(w, LoopOps(a, w, q, files[..|files| - 1]));
            after == Run(v, FileOps(a, v, q, files[|files| - 1]))
    ensures after == Run(w, LoopOps(a, w, q, files))
  {
    var before := LoopOps(a, w, q, files[..|files| - 1]);
    var v := Run(w, before);
    RunConcat(w, before, FileOps(a, v, q, files[|files| - 1]));
    after := Run(w, LoopOps(a, w, q, files));
  }

  lemma RecordedStep(q: Request, manifests: Manifests, files: seq<SourceFile>)
    requires files != [] && DistinctPaths(files)
    requires AllRecorded(q, manifests, files[..|files| - 1])
    ensures var last := files[|files| - 1];
            AllRecorded(q, manifests[(q.repository, last.path) := Recorded(q, last)], files)
  {
    var init := files[..|files| - 1];
    assert forall n :: 0 <= n < |init| ==> init[n] == files[n];
  }

  ghost function Without(q: Request, manifests: Manifests, paths: seq<string>): Manifests {
    map k | k in manifests && !(k.0 == q.repository && k.1 in paths) :: manifests[k]
  }

  /** Cleaning up path by path. */
  lemma NoneToClean(q: Request)
    ensures CleanupOps(q, []) == []
  {
  }

  lemma CleanupLast(q: Request, init: seq<string>, last: string)
    ensures CleanupOps(q, init + [last]) == CleanupOps(q, init) + CleanupOne(q, last)
  {
    assert (init + [last])[..|init|] == init;
  }

  lemma {:induction false} CleanupConcat(q: Request, first: seq<string>, second: seq<string>)
    ensures CleanupOps(q, first + second) == CleanupOps(q, first) + CleanupOps(q, second)
    decreases |second|
  {
    hide CleanupOps, CleanupOne;
    if second == [] {
      assert first + second == first;
      NoneToClean(q);
    } else {
      var init, last := second[..|second| - 1], second[|second| - 1];
      assert second == init + [last] && first + second == (first + init) + [last];
      CleanupConcat(q, first, init);
      CleanupLast(q, first + init, last);
      CleanupLast(q, init, last);
    }
  }

  lemma {:induction false} CleanupOutcome(w: World, q: Request, listing: seq<string>)
    ensures var v := Run(w, CleanupOps(q, listing));
            v.job == w.job && v.manifests == Without(q, w.manifests, listing)
  {
    hide Run, Apply, CleanupOps, CleanupOne, Without;
    if listing == [] {
      NoCleanup(w, q);
      WithoutNone(q, w.manifests);
    } else {
      var init, last := listing[..|listing| - 1], listing[|listing| - 1];
      assert listing == init + [last];
      CleanupOutcome(w, q, init);
      CleanupSnoc(w, q, init, last);
      CleanupOneOutcome(Run(w, CleanupOps(q, init)), q, last);
      WithoutOneMore(q, w.manifests, init, last);
    }
  }

  lemma NoCleanup(w: World, q: Request)
    ensures Run(w, CleanupOps(q, [])) == w
  {
  }

  lemma CleanupSnoc(w: World, q: Request, init: seq<string>, last: string)
    ensures Run(w, CleanupOps(q, init + [last])) == Run(Run(w, CleanupOps(q, init)), CleanupOne(q, last))
  {
    hide Run, CleanupOps, CleanupOne;
    CleanupLast(q, init, last);
    RunConcat(w, CleanupOps(q, init), CleanupOne(q, last));
  }

  lemma WithoutOneMore(q: Request, manifests: Manifests, paths: seq<string>, path: string)
    ensures Without(q, manifests, paths + [path]) == Without(q, manifests, paths) - {(q.repository, path)}
  {
  }

  lemma WithoutNone(q: Request, manifests: Manifests)
    ensures Without(q, manifests, []) == manifests
  {
  }

  lemma CleanupOneOutcome(w: World, q: Request, path: string)
    ensures var v := Run(w, CleanupOne(q, path));
            v.job == w.job && v.manifests == w.manifests - {(q.repository, path)}
  {
    var ops := CleanupOne(q, path);
    var g, m := ops[0], ops[|ops| - 1];
    var middle := ops[1..|ops| - 1];
    assert ops == [g] + middle + [m];
    RunThree(w, g, middle, [m]);
    RunOne(Run(Apply(w, g), middle), m);
    StoreCallsKeepJob(Apply(w, g), middle);
    QuietKeeps(Apply(w, g), middle, {});
  }

  // ---------------------------------------------------------------- repair

  /** Writing a file to its manifest closes it. */
  lemma FileCloses(a: Analyzer, w: World, q: Request, f: SourceFile)
    requires !Skips(q, w.manifests, f) && !Fatal(a, q.repository, f.path, f.hash)
    ensures (q.repository, f.path) in Closed({}, FileOps(a, w, q, f))
  {
    hide Run, Apply, Open, Closed, FileOps, AllQuiet;
    var key := (q.repository, f.path);
    var g, vectors, add := FileShape(a, w, q, f);
    var put := PutManifest(q.repository, f.path, Recorded(q, f));
    var ops := FileOps(a, w, q, f);
    OneJobCallQuiet(add);
    assert ops == [g] + vectors + [put] + [Job(add)];
    SegmentPrefix(w, g, vectors, put, [Job(add)], |ops|, {});
    assert ops[..|ops|] == ops;
    OpenOne({}, g);
    ClosedOne({key}, put);
    assert {} + {key} == {key};
  }

  lemma OneJobCallQuiet(change: JobChange)
    ensures AllQuiet([Job(change)])
  {
  }

  /** The files a job starting from these manifests writes. */
  ghost function Rewritten(q: Request, manifests: Manifests, files: seq<SourceFile>): set<FileKey> {
    set n | 0 <= n < |files| && !Skips(q, manifests, files[n]) :: (q.repository, files[n].path)
  }

  lemma RewrittenSnoc(q: Request, manifests: Manifests, files: seq<SourceFile>)
    requires files != []
    ensures var last := files[|files| - 1];
            Rewritten(q, manifests, files)
            == Rewritten(q, manifests, files[..|files| - 1])
               + if Skips(q, manifests, last) then {} else {(q.repository, last.path)}
  {
    var init, last := files[..|files| - 1], files[|files| - 1];
    forall k | k in Rewritten(q, manifests, files)
      ensures k in Rewritten(q, manifests, init) || (k == (q.repository, last.path) && !Skips(q, manifests, last))
    {
      var n :| 0 <= n < |files| && !Skips(q, manifests, files[n]) && k == (q.repository, files[n].path);
      if n < |init| {
        assert init[n] == files[n];
      }
    }
    forall k | k in Rewritten(q, manifests, init)
      ensures k in Rewritten(q, manifests, files)
    {
      var n :| 0 <= n < |init| && !Skips(q, manifests, init[n]) && k == (q.repository, init[n].path);
      assert files[n] == init[n];
    }
    if !Skips(q, manifests, last) {
      assert files[|files| - 1] == last;
    }
  }

  /** Unless some file failed, the loop closes every file it does not skip. */
  lemma {:induction false} LoopCloses(a: Analyzer, w: World, q: Request, files: seq<SourceFile>)
    requires DistinctPaths(files)
    ensures Run(w, LoopOps(a, w, q, files)).job.failed >= w.job.failed
    ensures Run(w, LoopOps(a, w, q, files)).job.failed == w.job.failed ==>
              Rewritten(q, w.manifests, files) <= Closed({}, LoopOps(a, w, q, files))
    decreases |files|
  {
    hide Run, LoopOps, FileOps, Closed, Open, Rewritten, FileFails, Recorded, Skips;
    if files == [] {
      NoFiles(a, w, q);
      NothingRewritten(q, w.manifests, files);
    } else {
      var init, last := files[..|files| - 1], files[|files| - 1];
      assert forall n :: 0 <= n < |init| ==> init[n] == files[n];
      LoopCloses(a, w, q, init);
      var before := LoopOps(a, w, q, init);
      var v := Run(w, before);
      var after := LoopStep(a, w, q, files);
      FileChanges(a, v, q, last);
      LoopKeepsManifest(a, w, q, init, last.path);
      RewrittenSnoc(q, w.manifests, files);
      LoopOpens(a, w, q, init);
      FileCallsFollow(a, w, q, files);
      ClosedConcat({}, before, FileOps(a, v, q, last));
      if after.job.failed == w.job.failed {
        NotSkippedCloses(a, w, v, q, last);
      }
    }
  }

  lemma NothingRewritten(q: Request, manifests: Manifests, files: seq<SourceFile>)
    requires files == []
    ensures Rewritten(q, manifests, files) == {}
  {
  }

  lemma FileCallsFollow(a: Analyzer, w: World, q: Request, files: seq<SourceFile>)
    requires files != []
    ensures var before := LoopOps(a, w, q, files[..|files| - 1]);
            LoopOps(a, w, q, files) == before + FileOps(a, Run(w, before), q, files[|files| - 1])
  {
    hide Run, FileOps;
  }

  lemma NotSkippedCloses(a: Analyzer, w: World, v: World, q: Request, f: SourceFile)
    requires Previous(v.manifests, q.repository, f.path) == Previous(w.manifests, q.repository, f.path)
    requires !FileFails(a, v, q, f)
    ensures !Skips(q, w.manifests, f) ==> (q.repository, f.path) in Closed({}, FileOps(a, v, q, f))
  {
    hide Closed, FileOps;
    if !Skips(q, w.manifests, f) {
      FileCloses(a, v, q, f);
    }
  }

  lemma {:induction false} LoopOpens(a: Analyzer, w: World, q: Request, files: seq<SourceFile>)
    ensures Open({}, LoopOps(a, w, q, files)) == {}
    decreases |files|
  {
    hide Run, Open, FileOps;
    if files == [] {
      NothingRun(w, {});
    } else {
      var before := LoopOps(a, w, q, files[..|files| - 1]);
      var last := FileOps(a, Run(w, before), q, files[|files| - 1]);
      LoopOpens(a, w, q, files[..|files| - 1]);
      FileOpens(a, Run(w, before), q, files[|files| - 1]);
      OpenConcat({}, before, last);
    }
  }

  lemma FileOpens(a: Analyzer, w: World, q: Request, f: SourceFile)
    ensures Open({}, FileOps(a, w, q, f)) == {}
  {
    hide Run, Apply, Open, Closed, FileOps, AllQuiet;
    if FileFails(a, w, q, f) {
      OneJobCallQuiet(Add(1, 0, 1, 0, 0, 0));
      FailedCalls(a, w, q, f);
      QuietKeeps(w, FileOps(a, w, q, f), {});
    } else {
      var g, vectors, add := FileShape(a, w, q, f);
      var put := PutManifest(q.repository, f.path, Recorded(q, f));
      OneJobCallQuiet(add);
      var ops := FileOps(a, w, q, f);
      assert ops == [g] + vectors + [put] + [Job(add)];
      SegmentPrefix(w, g, vectors, put, [Job(add)], |ops|, {});
      assert ops[..|ops|] == ops;
      OpenOne({}, g);
      OpenOne(Open({}, [g]), put);
    }
  }

  /** Unless some file failed, the loop of a job of either mode leaves every file it writes whole,
      torn before or not. */
  lemma LoopHeals(a: Analyzer, w: World, q: Request, files: seq<SourceFile>, torn: set<FileKey>)
    requires ValidAnalyzer(a) && Invariant(a, w, torn) && DistinctPaths(files)
    requires Run(w, LoopOps(a, w, q, files)).job.failed == w.job.failed
    ensures Invariant(a, Run(w, LoopOps(a, w, q, files)), torn - Rewritten(q, w.manifests, files))
  {
    hide Run, LoopOps, Closed, Open, Rewritten, GraphSound;
    LoopCloses(a, w, q, files);
    LoopThroughout(a, w, q, files, torn);
    AtEnd(a, w, LoopOps(a, w, q, files), torn);
    assert torn - Closed({}, LoopOps(a, w, q, files)) <= torn - Rewritten(q, w.manifests, files);
  }

  lemma PathsSnoc(files: seq<SourceFile>)
    requires files != []
    ensures Paths(files) == Paths(files[..|files| - 1]) + {files[|files| - 1].path}
  {
    var init := files[..|files| - 1];
    forall p | p in Paths(files)
      ensures p in Paths(init) || p == files[|files| - 1].path
    {
      var n :| 0 <= n < |files| && files[n].path == p;
      if n < |init| {
        assert init[n].path == p;
      }
    }
    forall p | p in Paths(init)
      ensures p in Paths(files)
    {
      var n :| 0 <= n < |init| && init[n].path == p;
      assert files[n].path == p;
    }
    assert files[|files| - 1].path in Paths(files);
  }
}

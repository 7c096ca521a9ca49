/** After a completed job, and over whole histories of jobs. */
module ExactIndex {
  import opened IndexStores
  import opened IndexJobs
  import opened JobInvariants
  import opened IncrementalRefinesFull
  import opened PinnedRevisions
  import opened CompletedJobs

  // ---------------------------------------------------------------- vectors of one file

  ghost predicate VectorsKept(a: Analyzer, c: Content, w: World) {
    Pinned(a, c, w) && AllOrNothing(a, c, w.points)
  }

  lemma {:induction false} CallsKeepVectors(a: Analyzer, c: Content, q: Request, w: World, ops: seq<Op>)
    requires ValidAnalyzer(a) && VectorsKept(a, c, w) && AllPinned(a, c, q, ops)
    ensures VectorsKept(a, c, Run(w, ops))
  {
    if ops != [] {
      var init, last := ops[..|ops| - 1], ops[|ops| - 1];
      CallsKeepVectors(a, c, q, w, init);
      CallKeepsPinned(a, c, q, Run(w, init), last);
      CallKeepsAllOrNothing(a, c, q, Run(w, init), last);
    }
  }

  lemma IndexCompletes(a: Analyzer, c: Content, q: Request, w: World, path: string)
    requires ValidAnalyzer(a) && Pinned(a, c, w) && path in c(q.repository, q.revision)
    ensures var ops := IndexVectors(q, path, Documents(a, q.repository, path, c(q.repository, q.revision)[path]));
            FileComplete(a, c, Run(w, ops).points, q.repository, q.revision, path)
  {
    var documents := Documents(a, q.repository, path, c(q.repository, q.revision)[path]);
    var drop := DropVectors(q.repository, q.revision, path);
    var v := Apply(w, drop);
    DropClears(w.points, q.repository, q.revision, path);
    CallKeepsPinned(a, c, q, w, drop);
    RunOne(w, drop);
    if documents == [] {
      assert IndexVectors(q, path, documents) == [drop];
    } else {
      var upsert := UpsertVectors(q.repository, q.revision, path, documents);
      assert IndexVectors(q, path, documents) == [drop] + [upsert];
      RunConcat(w, [drop], [upsert]);
      RunOne(v, upsert);
      UpsertCompletes(a, c, v.points, q.repository, q.revision, path);
    }
  }

  ghost predicate SameAt(c: Content, repository: string, source: string, target: string, path: string) {
    && path in c(repository, target) && path in c(repository, source)
    && c(repository, source)[path] == c(repository, target)[path]
  }

  lemma NothingCarriedThenIndexed(a: Analyzer, c: Content, q: Request, w: World, source: string, path: string)
    requires ValidAnalyzer(a) && Pinned(a, c, w) && SameAt(c, q.repository, source, q.revision, path)
    requires CarryCount(q.server, w.points, q.repository, source, path) == 0
    ensures var documents := Documents(a, q.repository, path, c(q.repository, q.revision)[path]);
            FileComplete(a, c, Run(w, CarryOrIndex(w.points, q, source, path, documents)).points,
                         q.repository, q.revision, path)
  {
    var documents := Documents(a, q.repository, path, c(q.repository, q.revision)[path]);
    var carry := CarryVectors(q.server, q.repository, source, q.revision, path);
    var index := IndexVectors(q, path, documents);
    assert CarryOrIndex(w.points, q, source, path, documents) == [carry] + index;
    RunConcat(w, [carry], index);
    RunOne(w, carry);
    CallKeepsPinned(a, c, q, w, carry);
    IndexCompletes(a, c, q, Apply(w, carry), path);
  }

  lemma CarryOrIndexCompletes(a: Analyzer, c: Content, q: Request, w: World, source: string, path: string)
    requires ValidAnalyzer(a) && VectorsKept(a, c, w) && SameAt(c, q.repository, source, q.revision, path)
    requires Fits(a, c, q.repository, path)
    ensures var documents := Documents(a, q.repository, path, c(q.repository, q.revision)[path]);
            FileComplete(a, c, Run(w, CarryOrIndex(w.points, q, source, path, documents)).points,
                         q.repository, q.revision, path)
  {
    var documents := Documents(a, q.repository, path, c(q.repository, q.revision)[path]);
    if CarryCount(q.server, w.points, q.repository, source, path) == 0 {
      NothingCarriedThenIndexed(a, c, q, w, source, path);
    } else {
      CarriedSome(q.server, w.points, q.repository, source, path);
      SomethingCarried(q.server, a, c, w.points, q.repository, source, q.revision, path);
      RunCarry(w, q, source, path, documents);
    }
  }

  lemma SomethingCarried(server: Server, a: Analyzer, c: Content, points: Points, repository: string, source: string,
                         target: string, path: string)
    requires ValidAnalyzer(a) && PointsPinned(a, c, points) && AllOrNothing(a, c, points)
    requires Fits(a, c, repository, path)
    requires SameAt(c, repository, source, target, path)
    requires FilePoints(points, repository, source, path) != {}
    ensures FileComplete(a, c, CarryPoints(server, points, repository, source, target, path), repository, target, path)
  {
    CarryCompletes(server, a, c, points, repository, source, target, path);
    UpsertCompletes(a, c, points, repository, target, path);
  }

  lemma RunCarry(w: World, q: Request, source: string, path: string, documents: seq<SemanticDocument>)
    requires CarryCount(q.server, w.points, q.repository, source, path) != 0
    ensures Run(w, CarryOrIndex(w.points, q, source, path, documents)).points
            == CarryPoints(q.server, w.points, q.repository, source, q.revision, path)
  {
    hide Run, CarryPoints, PageOf;
    var carry := CarryVectors(q.server, q.repository, source, q.revision, path);
    assert CarryOrIndex(w.points, q, source, path, documents) == [carry];
    RunOne(w, carry);
  }

  lemma CarriedSome(server: Server, points: Points, repository: string, source: string, path: string)
    requires CarryCount(server, points, repository, source, path) != 0
    ensures FilePoints(points, repository, source, path) != {}
  {
    SomeOnPage(server, FilePoints(points, repository, source, path));
  }

  lemma {:induction false} SamePointsRun(w: World, v: World, ops: seq<Op>)
    requires w.points == v.points
    ensures Run(w, ops).points == Run(v, ops).points
  {
    if ops != [] {
      var init := ops[..|ops| - 1];
      SamePointsRun(w, v, init);
      SamePointsApply(Run(w, init), Run(v, init), ops[|ops| - 1]);
    }
  }

  lemma SamePointsApply(w: World, v: World, op: Op)
    requires w.points == v.points
    ensures Apply(w, op).points == Apply(v, op).points
  {
  }

  lemma TailKeepsPoints(w: World, rest: seq<Op>)
    requires |rest| == 2 && rest[0].PutManifest? && rest[1].Job?
    ensures Run(w, rest).points == w.points
  {
    assert rest == [rest[0]] + [rest[1]];
    RunConcat(w, [rest[0]], [rest[1]]);
    RunOne(w, rest[0]);
    RunOne(Apply(w, rest[0]), rest[1]);
  }

  /** The points a file's calls leave are those its write-path vector calls leave. */
  lemma PointsOfFile(a: Analyzer, w: World, q: Request, f: SourceFile)
    requires !FileFails(a, w, q, f)
    ensures var source := VectorSource(Previous(w.manifests, q.repository, f.path), f.hash);
            var documents := Documents(a, q.repository, f.path, f.hash);
            Run(w, FileOps(a, w, q, f)).points == Run(w, WriteVectors(w.points, q, source, f.path, documents)).points
  {
    var previous := Previous(w.manifests, q.repository, f.path);
    var source := VectorSource(previous, f.hash);
    var documents := Documents(a, q.repository, f.path, f.hash);
    var ops := FileOps(a, w, q, f);
    var g := ops[0];
    var rest := ops[|ops| - 2..];
    var vectors := ops[1..|ops| - 2];
    assert ops == [g] + vectors + rest;
    RunThree(w, g, vectors, rest);
    SamePointsRun(w, Apply(w, g), vectors);
    TailKeepsPoints(Run(Apply(w, g), vectors), rest);
    if Skippable(q.mode, previous, f.hash) {
      assert vectors == SkipVectors(w.points, q, source.value, f.path, documents);
      SkipVectorsLikeWrite(w, q, source.value, f.path, documents);
    } else {
      assert vectors == WriteVectors(w.points, q, source, f.path, documents);
    }
  }

  lemma FileVectorsComplete(a: Analyzer, c: Content, q: Request, w: World, f: SourceFile)
    requires ValidAnalyzer(a) && VectorsKept(a, c, w) && q.semantic
    requires f.path in c(q.repository, q.revision) && c(q.repository, q.revision)[f.path] == f.hash
    requires Fits(a, c, q.repository, f.path) && !FileFails(a, w, q, f)
    ensures FileComplete(a, c, Run(w, FileOps(a, w, q, f)).points, q.repository, q.revision, f.path)
  {
    var source := VectorSource(Previous(w.manifests, q.repository, f.path), f.hash);
    PointsOfFile(a, w, q, f);
    if source.Some? {
      CarryOrIndexCompletes(a, c, q, w, source.value, f.path);
    } else {
      IndexCompletes(a, c, q, w, f.path);
    }
  }

  // ---------------------------------------------------------------- completeness lasts

  ghost predicate DropsNot(ops: seq<Op>, path: string) {
    forall n :: 0 <= n < |ops| ==> !(ops[n].DropVectors? && ops[n].path == path)
  }

  lemma CallKeepsComplete(a: Analyzer, c: Content, q: Request, w: World, op: Op, path: string)
    requires ValidAnalyzer(a) && VectorsKept(a, c, w) && CallPinned(a, c, q, op)
    requires path in c(q.repository, q.revision) && FileComplete(a, c, w.points, q.repository, q.revision, path)
    requires Fits(a, c, q.repository, path) && !(op.DropVectors? && op.path == path)
    ensures FileComplete(a, c, Apply(w, op).points, q.repository, q.revision, path)
  {
    match op
    case UpsertVectors(repository, revision, other, _) =>
      UpsertCompletes(a, c, w.points, repository, revision, other);
    case CarryVectors(server, repository, source, target, other) =>
      if other == path {
        CarryCompletes(server, a, c, w.points, repository, source, target, other);
        UpsertCompletes(a, c, w.points, repository, target, other);
      } else {
        CarryTouchesOwnFile(server, a, c, w.points, repository, source, target, other, q.repository, q.revision, path);
      }
    case DropVectors(repository, revision, other) =>
      DropClears(w.points, repository, revision, other);
    case _ =>
  }

  lemma {:induction false} CallsKeepComplete(a: Analyzer, c: Content, q: Request, w: World, ops: seq<Op>, path: string)
    requires ValidAnalyzer(a) && VectorsKept(a, c, w) && AllPinned(a, c, q, ops)
    requires path in c(q.repository, q.revision) && FileComplete(a, c, w.points, q.repository, q.revision, path)
    requires Fits(a, c, q.repository, path) && DropsNot(ops, path)
    ensures FileComplete(a, c, Run(w, ops).points, q.repository, q.revision, path)
  {
    if ops != [] {
      var init, last := ops[..|ops| - 1], ops[|ops| - 1];
      CallsKeepComplete(a, c, q, w, init, path);
      CallsKeepVectors(a, c, q, w, init);
      CallKeepsComplete(a, c, q, Run(w, init), last, path);
    }
  }

  lemma FileDropsNoOther(a: Analyzer, w: World, q: Request, f: SourceFile, path: string)
    requires path != f.path
    ensures DropsNot(FileOps(a, w, q, f), path)
  {
    hide PageOf, CarryPoints, Documents, Entities, CarryCount, ChunkCount;
    if !FileFails(a, w, q, f) {
      var source := VectorSource(Previous(w.manifests, q.repository, f.path), f.hash);
      var documents := Documents(a, q.repository, f.path, f.hash);
      assert DropsNot(IndexVectors(q, f.path, documents), path);
      if source.Some? {
        assert DropsNot(CarryOrIndex(w.points, q, source.value, f.path, documents), path);
      }
      var ops := FileOps(a, w, q, f);
      var vectors := ops[1..|ops| - 2];
      assert ops == [ops[0]] + vectors + [ops[|ops| - 2], ops[|ops| - 1]];
      assert vectors == if Skippable(q.mode, Previous(w.manifests, q.repository, f.path), f.hash)
                        then SkipVectors(w.points, q, source.value, f.path, documents)
                        else WriteVectors(w.points, q, source, f.path, documents);
      assert DropsNot(vectors, path);
    }
  }

  /** The state before the last file of a loop in which no file fails. */
  lemma BeforeLast(a: Analyzer, c: Content, q: Request, w: World, files: seq<SourceFile>) returns (v: World)
    requires ValidAnalyzer(a) && VectorsKept(a, c, w)
    requires FilesAmong(c, q, files) && DistinctPaths(files) && files != []
    requires Run(w, LoopOps(a, w, q, files)).job.failed == w.job.failed
    ensures v == Run(w, LoopOps(a, w, q, files[..|files| - 1]))
    ensures VectorsKept(a, c, v) && v.job.failed == w.job.failed
    ensures !FileFails(a, v, q, files[|files| - 1])
    ensures Run(w, LoopOps(a, w, q, files)) == Run(v, FileOps(a, v, q, files[|files| - 1]))
  {
    var init := files[..|files| - 1];
    v := Run(w, LoopOps(a, w, q, init));
    assert VectorsKept(a, c, v) by {
      LoopCallsPinned(a, c, q, w, init);
      CallsKeepVectors(a, c, q, w, LoopOps(a, w, q, init));
    }
    var after := LoopStep(a, w, q, files);
    NoneFailed(a, w, q, files);
  }

  lemma NoneFailed(a: Analyzer, w: World, q: Request, files: seq<SourceFile>)
    requires DistinctPaths(files) && files != []
    requires Run(w, LoopOps(a, w, q, files)).job.failed == w.job.failed
    ensures var v := Run(w, LoopOps(a, w, q, files[..|files| - 1]));
            v.job.failed == w.job.failed && !FileFails(a, v, q, files[|files| - 1])
  {
    hide Run, LoopOps, FileOps, FileFails, Recorded;
    var v := Run(w, LoopOps(a, w, q, files[..|files| - 1]));
    LoopOutcome(a, w, q, files[..|files| - 1]);
    FileChanges(a, v, q, files[|files| - 1]);
    var after := LoopStep(a, w, q, files);
  }

  lemma {:induction false} LoopVectorsComplete(a: Analyzer, c: Content, q: Request, w: World, files: seq<SourceFile>,
                                               n: nat)
    requires ValidAnalyzer(a) && VectorsKept(a, c, w) && q.semantic
    requires FilesAmong(c, q, files) && DistinctPaths(files) && n < |files| && Fits(a, c, q.repository, files[n].path)
    requires Run(w, LoopOps(a, w, q, files)).job.failed == w.job.failed
    ensures FileComplete(a, c, Run(w, LoopOps(a, w, q, files)).points, q.repository, q.revision, files[n].path)
    decreases |files|
  {
    hide Run, LoopOps, FileOps, FileFails, VectorsKept, FileComplete;
    var init, last := files[..|files| - 1], files[|files| - 1];
    var v := BeforeLast(a, c, q, w, files);
    if n == |init| {
      FileVectorsComplete(a, c, q, v, last);
    } else {
      assert init[n] == files[n];
      LoopVectorsComplete(a, c, q, w, init, n);
      NextFileKeepsComplete(a, c, q, v, last, files[n].path);
    }
  }

  lemma NextFileKeepsComplete(a: Analyzer, c: Content, q: Request, w: World, f: SourceFile, path: string)
    requires ValidAnalyzer(a) && VectorsKept(a, c, w)
    requires f.path in c(q.repository, q.revision) && c(q.repository, q.revision)[f.path] == f.hash
    requires path != f.path && Fits(a, c, q.repository, path)
    requires path in c(q.repository, q.revision) && FileComplete(a, c, w.points, q.repository, q.revision, path)
    ensures FileComplete(a, c, Run(w, FileOps(a, w, q, f)).points, q.repository, q.revision, path)
  {
    FileDropsNoOther(a, w, q, f, path);
    FileCallsPinned(a, c, q, w, f);
    CallsKeepComplete(a, c, q, w, FileOps(a, w, q, f), path);
  }
}

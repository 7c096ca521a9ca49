/** The invariant of graph and manifests at every point of a job, interrupted or not. */
module JobInvariants {
  import opened Contracts
  import opened IndexStores
  import opened IndexJobs
  import opened GraphInvariants

  type FileKey = (string, string)

  /** Files whose graph has been changed by the calls so far and whose manifest has not followed. */
  ghost function Open(open: set<FileKey>, ops: seq<Op>): set<FileKey> {
    if ops == [] then open
    else
      var before := Open(open, ops[..|ops| - 1]);
      match ops[|ops| - 1]
      case WriteGraph(repository, _, path, _, _) => before + {(repository, path)}
      case RemoveGraph(_, repository, _, path) => before + {(repository, path)}
      case PutManifest(repository, path, _) => before - {(repository, path)}
      case DeleteManifest(repository, path) => before - {(repository, path)}
      case _ => before
  }

  lemma {:induction false} OpenConcat(open: set<FileKey>, first: seq<Op>, second: seq<Op>)
    ensures Open(open, first + second) == Open(Open(open, first), second)
    decreases |second|
  {
    if second == [] {
      assert first + second == first;
    } else {
      OpenConcat(open, first, second[..|second| - 1]);
      assert (first + second)[..|first + second| - 1] == first + second[..|second| - 1];
    }
  }

  /** Files whose graph call the manifest call has followed: whatever was torn before, they are
      whole now. */
  ghost function Closed(open: set<FileKey>, ops: seq<Op>): set<FileKey> {
    if ops == [] then {}
    else
      var init, last := ops[..|ops| - 1], ops[|ops| - 1];
      Closed(open, init)
      + if last.PutManifest? || last.DeleteManifest? then Open(open, init) * {(last.repository, last.path)} else {}
  }

  lemma {:induction false} ClosedConcat(open: set<FileKey>, first: seq<Op>, second: seq<Op>)
    ensures Closed(open, first + second) == Closed(open, first) + Closed(Open(open, first), second)
    decreases |second|
  {
    if second == [] {
      assert first + second == first;
    } else {
      var init := second[..|second| - 1];
      ClosedConcat(open, first, init);
      OpenConcat(open, first, init);
      assert (first + second)[..|first + second| - 1] == first + init;
    }
  }

  /** The torn files after some calls of a job. */
  ghost function TornBy(torn: set<FileKey>, ops: seq<Op>): set<FileKey> {
    (torn - Closed({}, ops)) + Open({}, ops)
  }

  /** Calls that leave memberships and manifests alone. */
  ghost predicate Quiet(op: Op) {
    op.DropVectors? || op.UpsertVectors? || op.CarryVectors? || op.WriteRows? || op.RecordSnapshot? || op.Job?
  }

  ghost predicate AllQuiet(ops: seq<Op>) {
    forall i :: 0 <= i < |ops| ==> Quiet(ops[i])
  }

  ghost predicate SameFiles(w: World, v: World) {
    w.graph.nodes == v.graph.nodes && w.manifests == v.manifests
  }

  lemma {:induction false} QuietKeeps(w: World, ops: seq<Op>, open: set<FileKey>)
    requires AllQuiet(ops)
    ensures SameFiles(w, Run(w, ops)) && Open(open, ops) == open && Closed(open, ops) == {}
    decreases |ops|
  {
    if ops != [] {
      QuietKeeps(w, ops[..|ops| - 1], open);
      assert Quiet(ops[|ops| - 1]);
    }
  }

  /** A graph call, quiet calls, a manifest call, quiet calls: the three states a cut can leave. */
  lemma SegmentPrefix(w: World, g: Op, vectors: seq<Op>, m: Op, rest: seq<Op>, j: nat, open: set<FileKey>)
    requires AllQuiet(vectors) && AllQuiet(rest)
    requires j <= 2 + |vectors| + |rest|
    ensures var ops := ([g] + vectors + [m] + rest)[..j];
            || (ops == [] && Run(w, ops) == w && Open(open, ops) == open && Closed(open, ops) == {})
            || (0 < j <= 1 + |vectors| && SameFiles(Apply(w, g), Run(w, ops))
                && Open(open, ops) == Open(open, [g]) && Closed(open, ops) == Closed(open, [g]))
            || (1 + |vectors| < j
                && (exists v :: SameFiles(Apply(w, g), v) && SameFiles(Apply(v, m), Run(w, ops)))
                && Open(open, ops) == Open(Open(open, [g]), [m])
                && Closed(open, ops) == Closed(open, [g]) + Closed(Open(open, [g]), [m]))
  {
    hide Run, Apply, Open, Closed, SameFiles;
    var all := [g] + vectors + [m] + rest;
    if j == 0 {
      NothingRun(w, open);
    } else if j <= 1 + |vectors| {
      var some := vectors[..j - 1];
      assert all[..j] == [g] + some;
      RunConcat(w, [g], some);
      RunOne(w, g);
      OpenConcat(open, [g], some);
      ClosedConcat(open, [g], some);
      QuietKeeps(Apply(w, g), some, Open(open, [g]));
    } else {
      var some := rest[..j - 2 - |vectors|];
      assert all[..j] == ([g] + vectors) + ([m] + some);
      SegmentEnd(w, g, vectors, m, some, open);
    }
  }

  lemma NothingRun(w: World, open: set<FileKey>)
    ensures Run(w, []) == w && Open(open, []) == open && Closed(open, []) == {}
  {
  }

  lemma SegmentEnd(w: World, g: Op, vectors: seq<Op>, m: Op, some: seq<Op>, open: set<FileKey>)
    requires AllQuiet(vectors) && AllQuiet(some)
    ensures var ops := ([g] + vectors) + ([m] + some);
            && (exists v :: SameFiles(Apply(w, g), v) && SameFiles(Apply(v, m), Run(w, ops)))
            && Open(open, ops) == Open(Open(open, [g]), [m])
            && Closed(open, ops) == Closed(open, [g]) + Closed(Open(open, [g]), [m])
  {
    hide Run, Apply, Open, Closed, SameFiles, AllQuiet;
    var during := Open(open, [g]);
    RunConcat(w, [g] + vectors, [m] + some);
    RunConcat(w, [g], vectors);
    RunOne(w, g);
    QuietKeeps(Apply(w, g), vectors, during);
    var v := Run(w, [g] + vectors);
    RunConcat(v, [m], some);
    RunOne(v, m);
    OpenConcat(open, [g] + vectors, [m] + some);
    OpenConcat(open, [g], vectors);
    OpenConcat(during, [m], some);
    ClosedConcat(open, [g] + vectors, [m] + some);
    ClosedConcat(open, [g], vectors);
    ClosedConcat(during, [m], some);
    QuietKeeps(Apply(v, m), some, Open(during, [m]));
  }

  lemma RunOne(w: World, op: Op)
    ensures Run(w, [op]) == Apply(w, op)
  {
    assert [op][..0] == [];
    assert Run(w, []) == w;
  }

  lemma OpenOne(open: set<FileKey>, op: Op)
    ensures Open(open, [op]) ==
            if op.WriteGraph? || op.RemoveGraph? then open + {(op.repository, op.path)}
            else if op.PutManifest? || op.DeleteManifest? then open - {(op.repository, op.path)}
            else open
  {
    assert [op][..0] == [];
    assert Open(open, []) == open;
  }

  lemma ClosedOne(open: set<FileKey>, op: Op)
    ensures Closed(open, [op])
            == if op.PutManifest? || op.DeleteManifest? then open * {(op.repository, op.path)} else {}
  {
    assert [op][..0] == [];
    assert Open(open, []) == open;
  }

  lemma VectorCallsQuiet(points: Points, q: Request, source: Option<string>, path: string,
                         documents: seq<SemanticDocument>)
    ensures source.Some? ==> AllQuiet(SkipVectors(points, q, source.value, path, documents))
    ensures AllQuiet(WriteVectors(points, q, source, path, documents))
  {
  }

  /** A segment keeps the invariant at every cut if it does after its graph and manifest calls. */
  lemma SegmentKeeps(a: Analyzer, w: World, g: Op, vectors: seq<Op>, m: Op, rest: seq<Op>, j: nat, torn: set<FileKey>)
    requires AllQuiet(vectors) && AllQuiet(rest)
    requires j <= 2 + |vectors| + |rest|
    requires m.PutManifest? || m.DeleteManifest?
    requires Invariant(a, w, torn)
    requires |Open({}, [g])| <= 1 && |Open(Open({}, [g]), [m])| <= 1 && Closed({}, [g]) == {}
    requires Invariant(a, Apply(w, g), torn + Open({}, [g]))
    requires Invariant(a, Apply(Apply(w, g), m), (torn - Closed(Open({}, [g]), [m])) + Open(Open({}, [g]), [m]))
    ensures var ops := ([g] + vectors + [m] + rest)[..j];
            Invariant(a, Run(w, ops), TornBy(torn, ops)) && |Open({}, ops)| <= 1
    ensures Open({}, [g] + vectors + [m] + rest) == Open(Open({}, [g]), [m])
    ensures Closed({}, [g] + vectors + [m] + rest) == Closed(Open({}, [g]), [m])
  {
    hide Run, Apply, Open, Closed, Invariant, AllQuiet, SameFiles;
    var all := [g] + vectors + [m] + rest;
    var ops := all[..j];
    SegmentPrefix(w, g, vectors, m, rest, |all|, {});
    assert all[..|all|] == all;
    SegmentPrefix(w, g, vectors, m, rest, j, {});
    if j == 0 {
      assert (torn - {}) + {} == torn;
    } else if j <= 1 + |vectors| {
      assert (torn - {}) + Open({}, [g]) == torn + Open({}, [g]);
      SameInvariant(a, Apply(w, g), Run(w, ops), torn + Open({}, [g]));
    } else {
      var after := (torn - Closed(Open({}, [g]), [m])) + Open(Open({}, [g]), [m]);
      var v :| SameFiles(Apply(w, g), v) && SameFiles(Apply(v, m), Run(w, ops));
      SameManifestCall(Apply(w, g), v, m);
      SameInvariant(a, Apply(Apply(w, g), m), Apply(v, m), after);
      SameInvariant(a, Apply(v, m), Run(w, ops), after);
      assert {} + Closed(Open({}, [g]), [m]) == Closed(Open({}, [g]), [m]);
    }
  }

  lemma SameInvariant(a: Analyzer, w: World, v: World, torn: set<FileKey>)
    requires SameFiles(w, v) && Invariant(a, w, torn)
    ensures Invariant(a, v, torn)
  {
  }

  lemma SameManifestCall(w: World, v: World, m: Op)
    requires SameFiles(w, v) && (m.PutManifest? || m.DeleteManifest?)
    ensures SameFiles(Apply(w, m), Apply(v, m))
  {
  }

  lemma PutKeeps(a: Analyzer, w: World, put: Op, torn: set<FileKey>, open: set<FileKey>)
    requires put.PutManifest?
    requires Invariant(a, w, torn + open)
    requires var key := (put.repository, put.path);
             key !in torn || key in open ==> ManifestHolds(a, w.graph.nodes, put.repository, put.path, put.manifest)
    ensures Invariant(a, Apply(w, put), torn + (open - {(put.repository, put.path)}))
  {
  }

  /** Cutting the calls for one file anywhere tears at most that file, and only between the
      graph write and the manifest; a file written to the end is whole, torn before or not. */
  lemma FilePrefixKeeps(a: Analyzer, w: World, q: Request, f: SourceFile, torn: set<FileKey>, j: nat)
    requires ValidAnalyzer(a) && Invariant(a, w, torn)
    requires j <= |FileOps(a, w, q, f)|
    ensures var ops := FileOps(a, w, q, f)[..j];
            Invariant(a, Run(w, ops), TornBy(torn, ops)) && |Open({}, ops)| <= 1
    ensures Open({}, FileOps(a, w, q, f)) == {}
  {
    var previous := Previous(w.manifests, q.repository, f.path);
    if Skippable(q.mode, previous, f.hash) {
      SkipPrefixKeeps(a, w, q, f, torn, j);
    } else if Fatal(a, q.repository, f.path, f.hash) {
      QuietKeeps(w, FileOps(a, w, q, f)[..j], {});
      QuietKeeps(w, FileOps(a, w, q, f), {});
      assert (torn - {}) + {} == torn;
    } else {
      WritePrefixKeeps(a, w, q, f, torn, j);
    }
  }

  lemma SkipPrefixKeeps(a: Analyzer, w: World, q: Request, f: SourceFile, torn: set<FileKey>, j: nat)
    requires ValidAnalyzer(a) && Invariant(a, w, torn)
    requires j <= |FileOps(a, w, q, f)|
    requires Skippable(q.mode, Previous(w.manifests, q.repository, f.path), f.hash)
    ensures var ops := FileOps(a, w, q, f)[..j];
            Invariant(a, Run(w, ops), TornBy(torn, ops)) && |Open({}, ops)| <= 1
    ensures Open({}, FileOps(a, w, q, f)) == {}
  {
    hide Run, Apply, Open, Closed, Invariant, TornBy, FileOps, AllQuiet;
    var vectors, add := SkipShape(a, w, q, f);
    var g := CarryGraph(q.repository, w.manifests[(q.repository, f.path)].revision, q.revision, f.path, f.hash);
    var put := PutManifest(q.repository, f.path, Manifest(f.hash, q.revision, ANALYSIS_VERSION));
    OpenOne({}, g);
    OpenOne({}, put);
    ClosedOne({}, g);
    ClosedOne({}, put);
    assert torn + {} == torn == (torn - {} * {(q.repository, f.path)}) + {};
    SkippedStates(a, w, q, f, torn);
    SegmentKeeps(a, w, g, vectors, put, [add], j, torn);
  }

  lemma SkipShape(a: Analyzer, w: World, q: Request, f: SourceFile) returns (vectors: seq<Op>, add: Op)
    requires Skippable(q.mode, Previous(w.manifests, q.repository, f.path), f.hash)
    ensures AllQuiet(vectors) && AllQuiet([add])
    ensures var g := CarryGraph(q.repository, w.manifests[(q.repository, f.path)].revision, q.revision, f.path, f.hash);
            var put := PutManifest(q.repository, f.path, Manifest(f.hash, q.revision, ANALYSIS_VERSION));
            FileOps(a, w, q, f) == [g] + vectors + [put] + [add]
  {
    var ops := FileOps(a, w, q, f);
    var source := w.manifests[(q.repository, f.path)].revision;
    var documents := Documents(a, q.repository, f.path, f.hash);
    vectors, add := SkipVectors(w.points, q, source, f.path, documents), ops[|ops| - 1];
    VectorCallsQuiet(w.points, q, Some(source), f.path, documents);
  }

  /** The states after a skipped file's graph call and after its manifest. */
  lemma SkippedStates(a: Analyzer, w: World, q: Request, f: SourceFile, torn: set<FileKey>)
    requires ValidAnalyzer(a) && Invariant(a, w, torn)
    requires Skippable(q.mode, Previous(w.manifests, q.repository, f.path), f.hash)
    ensures var source := w.manifests[(q.repository, f.path)].revision;
            var g := CarryGraph(q.repository, source, q.revision, f.path, f.hash);
            var put := PutManifest(q.repository, f.path, Manifest(f.hash, q.revision, ANALYSIS_VERSION));
            Invariant(a, Apply(w, g), torn) && Invariant(a, Apply(Apply(w, g), put), torn)
  {
    var source := w.manifests[(q.repository, f.path)].revision;
    var g := CarryGraph(q.repository, source, q.revision, f.path, f.hash);
    var put := PutManifest(q.repository, f.path, Manifest(f.hash, q.revision, ANALYSIS_VERSION));
    CarryKeeps(a, w.graph.nodes, w.manifests, torn, q.repository, source, q.revision, f.path, f.hash);
    assert torn + {} == torn;
    if (q.repository, f.path) !in torn {
      CarriedHolds(a, w, q.repository, q.revision, f.path, f.hash, torn);
    }
    PutKeeps(a, Apply(w, g), put, torn, {});
  }

  lemma WritePrefixKeeps(a: Analyzer, w: World, q: Request, f: SourceFile, torn: set<FileKey>, j: nat)
    requires ValidAnalyzer(a) && Invariant(a, w, torn)
    requires j <= |FileOps(a, w, q, f)|
    requires !Skippable(q.mode, Previous(w.manifests, q.repository, f.path), f.hash)
    requires !Fatal(a, q.repository, f.path, f.hash)
    ensures var ops := FileOps(a, w, q, f)[..j];
            Invariant(a, Run(w, ops), TornBy(torn, ops)) && |Open({}, ops)| <= 1
    ensures Open({}, FileOps(a, w, q, f)) == {}
  {
    hide Run, Apply, Open, Closed, Invariant, TornBy;
    var key := (q.repository, f.path);
    var ops := FileOps(a, w, q, f);
    var source := VectorSource(Previous(w.manifests, q.repository, f.path), f.hash);
    var documents := Documents(a, q.repository, f.path, f.hash);
    var vectors := WriteVectors(w.points, q, source, f.path, documents);
    VectorCallsQuiet(w.points, q, source, f.path, documents);
    var g, put, rest := ops[0], ops[|ops| - 2], [ops[|ops| - 1]];
    assert ops == [g] + vectors + [put] + rest;
    OpenOne({}, g);
    OpenOne({key}, put);
    ClosedOne({}, g);
    ClosedOne({key}, put);
    assert {} + {key} == {key} == {key} * {key};
    assert (torn - {key}) + {} == torn - {key};
    WrittenStates(a, w, q, f, torn);
    SegmentKeeps(a, w, g, vectors, put, rest, j, torn);
  }

  /** The states after a written file's graph call and after its manifest. */
  lemma WrittenStates(a: Analyzer, w: World, q: Request, f: SourceFile, torn: set<FileKey>)
    requires ValidAnalyzer(a) && Invariant(a, w, torn)
    requires !Fatal(a, q.repository, f.path, f.hash)
    ensures var entities := Entities(a, q.repository, f.path, f.hash);
            var g := WriteGraph(q.repository, q.revision, f.path, entities, f.relationships);
            var put := PutManifest(q.repository, f.path, Manifest(f.hash, q.revision, ANALYSIS_VERSION));
            && Invariant(a, Apply(w, g), torn + {(q.repository, f.path)})
            && Invariant(a, Apply(Apply(w, g), put), torn - {(q.repository, f.path)})
  {
    var key := (q.repository, f.path);
    var entities := Entities(a, q.repository, f.path, f.hash);
    var g := WriteGraph(q.repository, q.revision, f.path, entities, f.relationships);
    var put := PutManifest(q.repository, f.path, Manifest(f.hash, q.revision, ANALYSIS_VERSION));
    WriteKeeps(a, w.graph.nodes, w.manifests, q.repository, q.revision, f.path, f.hash, torn);
    assert torn + {key} == (torn - {key}) + {key};
    PutKeeps(a, Apply(w, g), put, torn - {key}, {key});
    assert (torn - {key}) + ({key} - {key}) == torn - {key};
  }

  /** After a carry the graph holds the file at the target revision too. */
  lemma CarriedHolds(a: Analyzer, w: World, repository: string, target: string, path: string, hash: string,
                     torn: set<FileKey>)
    requires ValidAnalyzer(a) && Invariant(a, w, torn)
    requires (repository, path) in w.manifests && (repository, path) !in torn
    requires w.manifests[(repository, path)].contentHash == hash
    requires w.manifests[(repository, path)].version == ANALYSIS_VERSION
    ensures var source := w.manifests[(repository, path)].revision;
            var carried := CarryNodes(w.graph.nodes, repository, source, target, path, hash);
            && !Fatal(a, repository, path, hash)
            && Holds(a, carried, repository, target, path, hash)
            && carried == WriteNodes(w.graph.nodes, repository, target, Entities(a, repository, path, hash))
  {
    var m := w.manifests[(repository, path)];
    assert ManifestHolds(a, w.graph.nodes, repository, path, m);
    CarryIsWriteExactly(a, w.graph.nodes, repository, m.revision, target, path, hash);
    forall id | id in Rows(a, repository, path, hash)
      ensures Carried(w.graph.nodes[id], repository, m.revision, path, hash)
    {
      RowOfFile(a, repository, path, hash, id);
    }
  }

  // ---------------------------------------------------------------- a whole job

  /** Wherever the calls are cut, the torn files are those the calls say, at most one of them with
      a write the calls have not finished. */
  ghost predicate KeepsThroughout(a: Analyzer, w: World, ops: seq<Op>, torn: set<FileKey>) {
    forall k :: 0 <= k <= |ops| ==>
      Invariant(a, Run(w, ops[..k]), TornBy(torn, ops[..k])) && |Open({}, ops[..k])| <= 1
  }

  lemma TornConcat(torn: set<FileKey>, first: seq<Op>, second: seq<Op>)
    requires Open({}, first) == {}
    ensures TornBy(torn, first + second) == TornBy(torn - Closed({}, first), second)
    ensures Open({}, first + second) == Open({}, second)
    ensures Closed({}, first + second) == Closed({}, first) + Closed({}, second)
  {
    OpenConcat({}, first, second);
    ClosedConcat({}, first, second);
  }

  lemma KeepsConcat(a: Analyzer, w: World, first: seq<Op>, second: seq<Op>, torn: set<FileKey>)
    requires Open({}, first) == {}
    requires KeepsThroughout(a, w, first, torn)
    requires KeepsThroughout(a, Run(w, first), second, torn - Closed({}, first))
    ensures KeepsThroughout(a, w, first + second, torn)
    ensures Open({}, first + second) == Open({}, second)
    ensures Closed({}, first + second) == Closed({}, first) + Closed({}, second)
  {
    hide Run, Open, Closed, Invariant, TornBy;
    TornConcat(torn, first, second);
    forall k | 0 <= k <= |first + second|
      ensures Invariant(a, Run(w, (first + second)[..k]), TornBy(torn, (first + second)[..k]))
      ensures |Open({}, (first + second)[..k])| <= 1
    {
      if k <= |first| {
        assert (first + second)[..k] == first[..k];
      } else {
        var some := second[..k - |first|];
        assert (first + second)[..k] == first + some;
        RunConcat(w, first, some);
        TornConcat(torn, first, some);
      }
    }
  }

  lemma AtEnd(a: Analyzer, w: World, ops: seq<Op>, torn: set<FileKey>)
    requires KeepsThroughout(a, w, ops, torn) && Open({}, ops) == {}
    ensures Invariant(a, Run(w, ops), torn - Closed({}, ops))
  {
    assert ops[..|ops|] == ops;
    assert (torn - Closed({}, ops)) + {} == torn - Closed({}, ops);
  }

  lemma QuietThroughout(a: Analyzer, w: World, ops: seq<Op>, torn: set<FileKey>)
    requires AllQuiet(ops) && Invariant(a, w, torn)
    ensures KeepsThroughout(a, w, ops, torn) && Open({}, ops) == {} && Closed({}, ops) == {}
  {
    hide Run, Open, Closed, Invariant;
    QuietKeeps(w, ops, {});
    assert (torn - {}) + {} == torn;
    forall k | 0 <= k <= |ops|
      ensures Invariant(a, Run(w, ops[..k]), TornBy(torn, ops[..k])) && |Open({}, ops[..k])| <= 1
    {
      QuietKeeps(w, ops[..k], {});
      SameInvariant(a, w, Run(w, ops[..k]), torn);
    }
  }

  lemma {:induction false} LoopThroughout(a: Analyzer, w: World, q: Request, files: seq<SourceFile>, torn: set<FileKey>)
    requires ValidAnalyzer(a) && Invariant(a, w, torn)
    ensures KeepsThroughout(a, w, LoopOps(a, w, q, files), torn) && Open({}, LoopOps(a, w, q, files)) == {}
    decreases |files|
  {
    hide Run, Open, Closed, Invariant, FileOps, TornBy;
    if files == [] {
      QuietThroughout(a, w, [], torn);
    } else {
      var before := LoopOps(a, w, q, files[..|files| - 1]);
      LoopThroughout(a, w, q, files[..|files| - 1], torn);
      AtEnd(a, w, before, torn);
      FileThroughout(a, Run(w, before), q, files[|files| - 1], torn - Closed({}, before));
      KeepsConcat(a, w, before, FileOps(a, Run(w, before), q, files[|files| - 1]), torn);
    }
  }

  lemma FileThroughout(a: Analyzer, w: World, q: Request, f: SourceFile, torn: set<FileKey>)
    requires ValidAnalyzer(a) && Invariant(a, w, torn)
    ensures KeepsThroughout(a, w, FileOps(a, w, q, f), torn) && Open({}, FileOps(a, w, q, f)) == {}
  {
    hide Run, Open, Closed, Invariant, FileOps, TornBy;
    forall j | 0 <= j <= |FileOps(a, w, q, f)|
      ensures var ops := FileOps(a, w, q, f)[..j];
              Invariant(a, Run(w, ops), TornBy(torn, ops)) && |Open({}, ops)| <= 1
    {
      FilePrefixKeeps(a, w, q, f, torn, j);
    }
    FilePrefixKeeps(a, w, q, f, torn, 0);
  }

  function CleanupOne(q: Request, path: string): seq<Op> {
    [RemoveGraph(q.server, q.repository, q.revision, path)]
    + (if q.semantic then [DropVectors(q.repository, q.revision, path)] else [])
    + [DeleteManifest(q.repository, path)]
  }

  lemma CleanupOneThroughout(a: Analyzer, w: World, q: Request, path: string, torn: set<FileKey>)
    requires ValidAnalyzer(a) && Invariant(a, w, torn)
    ensures KeepsThroughout(a, w, CleanupOne(q, path), torn) && Open({}, CleanupOne(q, path)) == {}
  {
    hide Run, Open, Closed, Invariant, Apply, TornBy;
    var key := (q.repository, path);
    var g := RemoveGraph(q.server, q.repository, q.revision, path);
    var vectors := if q.semantic then [DropVectors(q.repository, q.revision, path)] else [];
    var m := DeleteManifest(q.repository, path);
    assert CleanupOne(q, path) == [g] + vectors + [m] + [];
    OpenOne({}, g);
    OpenOne({key}, m);
    ClosedOne({}, g);
    ClosedOne({key}, m);
    assert {} + {key} == {key} == {key} * {key};
    RemovedStates(a, w, q, path, torn);
    assert (torn - {key}) + {} == torn - {key};
    forall j | 0 <= j <= |CleanupOne(q, path)|
      ensures Invariant(a, Run(w, CleanupOne(q, path)[..j]), TornBy(torn, CleanupOne(q, path)[..j]))
      ensures |Open({}, CleanupOne(q, path)[..j])| <= 1
    {
      SegmentKeeps(a, w, g, vectors, m, [], j, torn);
    }
    SegmentKeeps(a, w, g, vectors, m, [], 0, torn);
  }

  lemma RemovedStates(a: Analyzer, w: World, q: Request, path: string, torn: set<FileKey>)
    requires ValidAnalyzer(a) && Invariant(a, w, torn)
    ensures var g := RemoveGraph(q.server, q.repository, q.revision, path);
            && Invariant(a, Apply(w, g), torn + {(q.repository, path)})
            && Invariant(a, Apply(Apply(w, g), DeleteManifest(q.repository, path)), torn - {(q.repository, path)})
  {
    RemoveKeeps(q.server, a, w.graph.nodes, w.manifests, q.repository, q.revision, path, torn);
    DeleteKeeps(a, Apply(w, RemoveGraph(q.server, q.repository, q.revision, path)), q.repository, path, torn);
  }

  lemma DeleteKeeps(a: Analyzer, w: World, repository: string, path: string, torn: set<FileKey>)
    requires Invariant(a, w, torn + {(repository, path)})
    ensures Invariant(a, Apply(w, DeleteManifest(repository, path)), torn - {(repository, path)})
  {
  }

  lemma {:induction false} CleanupThroughout(a: Analyzer, w: World, q: Request, listing: seq<string>,
                                             torn: set<FileKey>)
    requires ValidAnalyzer(a) && Invariant(a, w, torn)
    ensures KeepsThroughout(a, w, CleanupOps(q, listing), torn) && Open({}, CleanupOps(q, listing)) == {}
    decreases |listing|
  {
    hide Run, Open, Closed, Invariant, TornBy;
    if listing == [] {
      QuietThroughout(a, w, [], torn);
    } else {
      var before := CleanupOps(q, listing[..|listing| - 1]);
      var last := CleanupOne(q, listing[|listing| - 1]);
      CleanupThroughout(a, w, q, listing[..|listing| - 1], torn);
      AtEnd(a, w, before, torn);
      CleanupOneThroughout(a, Run(w, before), q, listing[|listing| - 1], torn - Closed({}, before));
      KeepsConcat(a, w, before, last, torn);
      assert CleanupOps(q, listing) == before + last;
    }
  }

  lemma IndexThroughout(a: Analyzer, w: World, q: Request, files: seq<SourceFile>, torn: set<FileKey>)
    requires ValidAnalyzer(a) && Invariant(a, w, torn)
    ensures KeepsThroughout(a, w, IndexOps(a, w, q, files), torn) && Open({}, IndexOps(a, w, q, files)) == {}
  {
    hide Run, Open, Closed, Invariant, TornBy, LoopOps, KeepsThroughout;
    var start := StartOps(files);
    var loop := LoopOps(a, Run(w, start), q, files);
    var rows := [WriteRows(FinalRows(a, q.repository, files))];
    QuietThroughout(a, w, start, torn);
    AtEnd(a, w, start, torn);
    LoopThroughout(a, Run(w, start), q, files, torn - {});
    KeepsConcat(a, w, start, loop, torn);
    AtEnd(a, w, start + loop, torn);
    QuietThroughout(a, Run(w, start + loop), rows, torn - Closed({}, start + loop));
    KeepsConcat(a, w, start + loop, rows, torn);
  }

  lemma FinishThroughout(a: Analyzer, w: World, v: World, q: Request, files: seq<SourceFile>, listing: seq<string>,
                         failed: bool, torn: set<FileKey>)
    requires ValidAnalyzer(a) && Invariant(a, v, torn)
    requires Lists(listing, Removed(w.manifests, q.repository, files))
    ensures KeepsThroughout(a, v, FinishOps(w, q, files, listing, failed), torn)
    ensures Open({}, FinishOps(w, q, files, listing, failed)) == {}
  {
    hide Run, Open, Closed, Invariant, TornBy, CleanupOps, RenamedPaths, KeepsThroughout;
    if failed {
      QuietThroughout(a, v, FinishOps(w, q, files, listing, failed), torn);
    } else {
      var clean := CleanupOps(q, listing);
      var renamed := RenamedPaths(w.manifests, q.repository, files, listing);
      var rest := [Job(SetRemoved(|Removed(w.manifests, q.repository, files) - renamed|, |renamed|)),
                   RecordSnapshot(q.repository, q.revision, q.provenance),
                   Job(SetStatus(Completed, None))];
      CleanupThroughout(a, v, q, listing, torn);
      AtEnd(a, v, clean, torn);
      QuietThroughout(a, Run(v, clean), rest, torn - Closed({}, clean));
      KeepsConcat(a, v, clean, rest, torn);
    }
  }

  /** Wherever a job stops - completed, failed, or because a store call raised - the graph stays
      well formed, and every manifest stays true of the graph except those of the torn files: of the
      ones torn before, those the job has not written to the end, and at most the one file whose
      write it had not finished. */
  lemma JobKeepsThroughout(a: Analyzer, w: World, q: Request, files: seq<SourceFile>, listing: seq<string>,
                           torn: set<FileKey>)
    requires ValidAnalyzer(a) && Invariant(a, w, torn)
    requires Lists(listing, Removed(w.manifests, q.repository, files))
    ensures KeepsThroughout(a, w, JobOps(a, w, q, files, listing), torn)
    ensures Open({}, JobOps(a, w, q, files, listing)) == {}
  {
    hide Run, Open, Closed, Invariant, TornBy, IndexOps, FinishOps, KeepsThroughout;
    var index := IndexOps(a, w, q, files);
    IndexThroughout(a, w, q, files, torn);
    AtEnd(a, w, index, torn);
    var failed := Run(w, index).job.failed > 0;
    FinishThroughout(a, w, Run(w, index), q, files, listing, failed, torn - Closed({}, index));
    KeepsConcat(a, w, index, FinishOps(w, q, files, listing, failed), torn);
  }
}

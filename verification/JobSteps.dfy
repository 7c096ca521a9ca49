/** A job as its task decides it: one read or one call at a time, each from the stores as they are
    at that moment. */
module JobSteps {
  import opened Contracts
  import opened IndexStores
  import opened IndexJobs
  import opened JobInvariants
  import opened IncrementalRefinesFull
  import opened CompletedJobs

  /** What a task works on; the listing is the order its set of removed paths is enumerated in. */
  datatype Work = Work(q: Request, files: seq<SourceFile>, listing: seq<string>)

  /** Where a task is, with what it remembers of the file at hand: whether the file is skipped,
      whether an index_file is the first, how many chunks were carried or embedded. */
  datatype Place =
    | Opening | Discovering | Listing
    | Looking(i: nat)
    | Deciding(i: nat, previous: Option<Manifest>)
    | Carrying(i: nat, source: string, skip: bool)
    | Dropping(i: nat, skip: bool, first: bool)
    | Upserting(i: nat, skip: bool)
    | Putting(i: nat, skip: bool, chunks: nat)
    | Counting(i: nat, skip: bool, chunks: nat)
    | Judging | Failing
    | Removing(k: nat) | Unvectoring(k: nat) | Forgetting(k: nat)
    | Recording | Completing | Finished

  /** The place, the removed paths once they are known, and the rename candidates left. */
  datatype Task = Task(place: Place, removed: set<string>, renames: Renames)

  const NEW := Task(Opening, {}, Renames(map[], {}))

  /** A read changes nothing but the task; a call also changes the stores. */
  datatype Move = Read(next: Task) | Make(op: Op, next: Task)

  predicate InFile(p: Place) {
    p.Deciding? || p.Carrying? || p.Dropping? || p.Upserting? || p.Putting? || p.Counting?
  }

  predicate InBounds(j: Work, p: Place) {
    && (p.Looking? ==> p.i <= |j.files|)
    && (InFile(p) ==> p.i < |j.files|)
    && (p.Removing? ==> p.k <= |j.listing|)
    && (p.Unvectoring? || p.Forgetting? ==> p.k < |j.listing|)
  }

  ghost predicate Ready(j: Work, t: Task, w: World) {
    && InBounds(j, t.place) && !t.place.Finished?
    && (t.place.Listing? ==> Lists(j.listing, Removed(w.manifests, j.q.repository, j.files)))
  }

  function DocumentsAt(a: Analyzer, j: Work, i: nat): seq<SemanticDocument>
    requires i < |j.files|
  {
    Documents(a, j.q.repository, j.files[i].path, j.files[i].hash)
  }

  function Counted(a: Analyzer, j: Work, i: nat, skip: bool, chunks: nat): JobChange
    requires i < |j.files|
  {
    var f := j.files[i];
    if skip then Add(1, 1, 0, 0, 0, chunks)
    else Add(1, 0, 0, |Entities(a, j.q.repository, f.path, f.hash)|, |f.relationships|, chunks)
  }

  /** What the task does at a place inside file i, given what it finds in the stores. */
  ghost function MoveInFile(a: Analyzer, j: Work, t: Task, w: World): Move
    requires InBounds(j, t.place) && InFile(t.place)
  {
    var q, i, f := j.q, t.place.i, j.files[t.place.i];
    var documents := DocumentsAt(a, j, i);
    match t.place
    case Deciding(_, previous) =>
      if Skippable(q.mode, previous, f.hash) then
        Make(CarryGraph(q.repository, previous.value.revision, q.revision, f.path, f.hash),
             t.(place := if q.semantic then Carrying(i, previous.value.revision, true) else Putting(i, true, 0)))
      else if Fatal(a, q.repository, f.path, f.hash) then
        Make(Job(Add(1, 0, 1, 0, 0, 0)), t.(place := Looking(i + 1)))
      else
        Make(WriteGraph(q.repository, q.revision, f.path, Entities(a, q.repository, f.path, f.hash), f.relationships),
             t.(place := if !q.semantic then Putting(i, false, 0)
                         else if SameContent(previous, f.hash) then Carrying(i, previous.value.revision, false)
                         else Dropping(i, false, true)))
    case Carrying(_, source, skip) =>
      var count := CarryCount(q.server, w.points, q.repository, source, f.path);
      Make(CarryVectors(q.server, q.repository, source, q.revision, f.path),
           t.(place := if count == 0 then Dropping(i, skip, true) else Putting(i, skip, count)))
    case Dropping(_, skip, first) =>
      Make(DropVectors(q.repository, q.revision, f.path),
           t.(place := if documents != [] then Upserting(i, skip)
                       else if skip && first then Dropping(i, skip, false) else Putting(i, skip, 0)))
    case Upserting(_, skip) =>
      Make(UpsertVectors(q.repository, q.revision, f.path, documents), t.(place := Putting(i, skip, |documents|)))
    case Putting(_, skip, chunks) =>
      Make(PutManifest(q.repository, f.path, Recorded(q, f)), t.(place := Counting(i, skip, chunks)))
    case Counting(_, skip, chunks) =>
      Make(Job(Counted(a, j, i, skip, chunks)), t.(place := Looking(i + 1)))
  }

  /** And anywhere else. */
  ghost function MoveAround(a: Analyzer, j: Work, t: Task, w: World): Move
    requires Ready(j, t, w) && !InFile(t.place)
  {
    var q := j.q;
    match t.place
    case Opening => Make(Job(Start), t.(place := Discovering))
    case Discovering => Make(Job(SetDiscovered(|j.files|)), t.(place := Listing))
    case Listing =>
      Read(Task(Looking(0), Removed(w.manifests, q.repository, j.files),
                Renames(RemovedByHash(w.manifests, q.repository, j.listing), {})))
    case Looking(i) =>
      if i < |j.files| then
        var previous := Previous(w.manifests, q.repository, j.files[i].path);
        Read(Task(Deciding(i, previous), t.removed, TakeRename(t.renames, previous.None?, j.files[i].hash)))
      else Make(WriteRows(FinalRows(a, q.repository, j.files)), t.(place := Judging))
    case Judging => Read(t.(place := if w.job.failed > 0 then Failing else Removing(0)))
    case Failing => Make(Job(SetStatus(Failed, PARSE_FAILURE)), t.(place := Finished))
    case Removing(k) =>
      if k < |j.listing| then
        Make(RemoveGraph(q.server, q.repository, q.revision, j.listing[k]),
             t.(place := if q.semantic then Unvectoring(k) else Forgetting(k)))
      else
        Make(Job(SetRemoved(|t.removed - t.renames.renamed|, |t.renames.renamed|)), t.(place := Recording))
    case Unvectoring(k) => Make(DropVectors(q.repository, q.revision, j.listing[k]), t.(place := Forgetting(k)))
    case Forgetting(k) => Make(DeleteManifest(q.repository, j.listing[k]), t.(place := Removing(k + 1)))
    case Recording => Make(RecordSnapshot(q.repository, q.revision, q.provenance), t.(place := Completing))
    case Completing => Make(Job(SetStatus(Completed, None)), t.(place := Finished))
  }

  /** The next read or call of a task, decided from the stores as they are. */
  ghost function MoveOf(a: Analyzer, j: Work, t: Task, w: World): Move
    requires Ready(j, t, w)
  {
    if InFile(t.place) then MoveInFile(a, j, t, w) else MoveAround(a, j, t, w)
  }

  // ---------------------------------------------------------------- what is left of the plan

  ghost function CloseRest(a: Analyzer, j: Work, i: nat, skip: bool, chunks: nat): seq<Op>
    requires i < |j.files|
  {
    [PutManifest(j.q.repository, j.files[i].path, Recorded(j.q, j.files[i])), Job(Counted(a, j, i, skip, chunks))]
  }

  ghost function DropRest(a: Analyzer, j: Work, i: nat, skip: bool, first: bool): seq<Op>
    requires i < |j.files|
  {
    var documents := DocumentsAt(a, j, i);
    var drop := DropVectors(j.q.repository, j.q.revision, j.files[i].path);
    if documents != [] then
      [drop, UpsertVectors(j.q.repository, j.q.revision, j.files[i].path, documents)]
      + CloseRest(a, j, i, skip, |documents|)
    else if skip && first then [drop, drop] + CloseRest(a, j, i, skip, 0)
    else [drop] + CloseRest(a, j, i, skip, 0)
  }

  ghost function FileRest(a: Analyzer, j: Work, p: Place, w: World): seq<Op>
    requires InBounds(j, p) && InFile(p)
  {
    var q, f := j.q, j.files[p.i];
    match p
    case Deciding(_, _) => FileOps(a, w, q, f)
    case Carrying(i, source, skip) =>
      var count := CarryCount(q.server, w.points, q.repository, source, f.path);
      [CarryVectors(q.server, q.repository, source, q.revision, f.path)]
      + if count == 0 then DropRest(a, j, i, skip, true) else CloseRest(a, j, i, skip, count)
    case Dropping(i, skip, first) => DropRest(a, j, i, skip, first)
    case Upserting(i, skip) =>
      [UpsertVectors(q.repository, q.revision, f.path, DocumentsAt(a, j, i))]
      + CloseRest(a, j, i, skip, |DocumentsAt(a, j, i)|)
    case Putting(i, skip, chunks) => CloseRest(a, j, i, skip, chunks)
    case Counting(i, skip, chunks) => [Job(Counted(a, j, i, skip, chunks))]
  }

  ghost function ClosingRest(j: Work, removed: set<string>, renamed: set<string>): seq<Op> {
    [Job(SetRemoved(|removed - renamed|, |renamed|)),
     RecordSnapshot(j.q.repository, j.q.revision, j.q.provenance), Job(SetStatus(Completed, None))]
  }

  ghost function EndRest(j: Work, removed: set<string>, renamed: set<string>, failed: bool): seq<Op> {
    if failed then [Job(SetStatus(Failed, PARSE_FAILURE))]
    else CleanupOps(j.q, j.listing) + ClosingRest(j, removed, renamed)
  }

  /** From the look at file i on. */
  ghost function LoopRest(a: Analyzer, j: Work, i: nat, removed: set<string>, renames: Renames, w: World): seq<Op>
    requires i <= |j.files|
  {
    var loop := LoopOps(a, w, j.q, j.files[i..]);
    var renamed := TakeRenames(renames, w.manifests, j.q.repository, j.files[i..]).renamed;
    loop + ([WriteRows(FinalRows(a, j.q.repository, j.files))]
            + EndRest(j, removed, renamed, Run(w, loop).job.failed > 0))
  }

  ghost function ListRest(a: Analyzer, j: Work, w: World): seq<Op>
    requires Lists(j.listing, Removed(w.manifests, j.q.repository, j.files))
  {
    LoopRest(a, j, 0, Removed(w.manifests, j.q.repository, j.files),
             Renames(RemovedByHash(w.manifests, j.q.repository, j.listing), {}), w)
  }

  /** What the task knows is so: before the removed paths are listed the listing is of them, and
      the manifest it read for the file at hand is still there. */
  ghost predicate Informed(j: Work, t: Task, w: World) {
    && InBounds(j, t.place) && DistinctPaths(j.files)
    && (t.place.Opening? || t.place.Discovering? || t.place.Listing? ==>
          Lists(j.listing, Removed(w.manifests, j.q.repository, j.files)))
    && (t.place.Deciding? ==> t.place.previous == Previous(w.manifests, j.q.repository, j.files[t.place.i].path))
  }

  /** The calls left if nobody else touches the stores. */
  ghost function Rest(a: Analyzer, j: Work, t: Task, w: World): seq<Op>
    requires Informed(j, t, w)
  {
    var q := j.q;
    if InFile(t.place) then
      var ops := FileRest(a, j, t.place, w);
      ops + LoopRest(a, j, t.place.i + 1, t.removed, t.renames, Run(w, ops))
    else
      match t.place
      case Opening =>
        StartedSame(w, j);
        [Job(Start), Job(SetDiscovered(|j.files|))]
        + ListRest(a, j, Apply(Apply(w, Job(Start)), Job(SetDiscovered(|j.files|))))
      case Discovering =>
        StartedSame(w, j);
        [Job(SetDiscovered(|j.files|))] + ListRest(a, j, Apply(w, Job(SetDiscovered(|j.files|))))
      case Listing => ListRest(a, j, w)
      case Looking(i) => LoopRest(a, j, i, t.removed, t.renames, w)
      case Judging => EndRest(j, t.removed, t.renames.renamed, w.job.failed > 0)
      case Failing => [Job(SetStatus(Failed, PARSE_FAILURE))]
      case Removing(k) => CleanupOps(q, j.listing[k..]) + ClosingRest(j, t.removed, t.renames.renamed)
      case Unvectoring(k) =>
        [DropVectors(q.repository, q.revision, j.listing[k]), DeleteManifest(q.repository, j.listing[k])]
        + CleanupOps(q, j.listing[k + 1..])
        + ClosingRest(j, t.removed, t.renames.renamed)
      case Forgetting(k) =>
        [DeleteManifest(q.repository, j.listing[k])] + CleanupOps(q, j.listing[k + 1..])
        + ClosingRest(j, t.removed, t.renames.renamed)
      case Recording => [RecordSnapshot(q.repository, q.revision, q.provenance), Job(SetStatus(Completed, None))]
      case Completing => [Job(SetStatus(Completed, None))]
      case Finished => []
  }

  lemma StartedSame(w: World, j: Work)
    ensures Apply(w, Job(SetDiscovered(|j.files|))).manifests == w.manifests
    ensures Apply(Apply(w, Job(Start)), Job(SetDiscovered(|j.files|))).manifests == w.manifests
  {
  }

  // ---------------------------------------------------------------- lists from the front

  lemma {:induction false} LoopConcat(a: Analyzer, w: World, q: Request, first: seq<SourceFile>,
                                      second: seq<SourceFile>)
    ensures var before := LoopOps(a, w, q, first);
            LoopOps(a, w, q, first + second) == before + LoopOps(a, Run(w, before), q, second)
    decreases |second|
  {
    hide Run, FileOps;
    var before := LoopOps(a, w, q, first);
    if second == [] {
      assert first + second == first;
    } else {
      var init, last := second[..|second| - 1], second[|second| - 1];
      LoopConcat(a, w, q, first, init);
      var more := LoopOps(a, Run(w, before), q, init);
      assert (first + second)[..|first + second| - 1] == first + init;
      RunConcat(w, before, more);
    }
  }

  lemma LoopCons(a: Analyzer, w: World, q: Request, f: SourceFile, files: seq<SourceFile>)
    ensures var ops := FileOps(a, w, q, f);
            LoopOps(a, w, q, [f] + files) == ops + LoopOps(a, Run(w, ops), q, files)
  {
    hide Run, FileOps;
    LoopConcat(a, w, q, [f], files);
    OneFile(a, w, q, f);
  }

  lemma OneFile(a: Analyzer, w: World, q: Request, f: SourceFile)
    ensures LoopOps(a, w, q, [f]) == FileOps(a, w, q, f)
  {
    hide FileOps;
    assert [f][..0] == [];
  }

  lemma TakenNone(r: Renames, manifests: Manifests, repository: string)
    ensures TakeRenames(r, manifests, repository, []) == r
  {
  }

  lemma TakenSnoc(r: Renames, manifests: Manifests, repository: string, files: seq<SourceFile>, last: SourceFile)
    ensures TakeRenames(r, manifests, repository, files + [last])
            == TakeRename(TakeRenames(r, manifests, repository, files),
                          Previous(manifests, repository, last.path).None?, last.hash)
  {
    assert (files + [last])[..|files|] == files;
  }

  lemma {:induction false} TakenCons(r: Renames, manifests: Manifests, repository: string, f: SourceFile,
                                     files: seq<SourceFile>)
    ensures TakeRenames(r, manifests, repository, [f] + files)
            == TakeRenames(TakeRename(r, Previous(manifests, repository, f.path).None?, f.hash),
                           manifests, repository, files)
    decreases |files|
  {
    hide TakeRenames, TakeRename;
    var first := TakeRename(r, Previous(manifests, repository, f.path).None?, f.hash);
    if files == [] {
      assert [f] + files == [] + [f];
      TakenSnoc(r, manifests, repository, [], f);
      TakenNone(r, manifests, repository);
      TakenNone(first, manifests, repository);
    } else {
      var init, last := files[..|files| - 1], files[|files| - 1];
      assert files == init + [last] && [f] + files == ([f] + init) + [last];
      TakenCons(r, manifests, repository, f, init);
      TakenSnoc(r, manifests, repository, [f] + init, last);
      TakenSnoc(first, manifests, repository, init, last);
    }
  }

  /** The candidates taken depend on the manifests of the files looked at only. */
  lemma {:induction false} TakenElsewhere(r: Renames, manifests: Manifests, other: Manifests, repository: string,
                                          files: seq<SourceFile>)
    requires forall n :: 0 <= n < |files| ==>
               Previous(manifests, repository, files[n].path) == Previous(other, repository, files[n].path)
    ensures TakeRenames(r, manifests, repository, files) == TakeRenames(r, other, repository, files)
  {
    if files != [] {
      TakenElsewhere(r, manifests, other, repository, files[..|files| - 1]);
      assert Previous(manifests, repository, files[|files| - 1].path)
             == Previous(other, repository, files[|files| - 1].path);
    }
  }

  lemma CleanupCons(q: Request, path: string, listing: seq<string>)
    ensures CleanupOps(q, [path] + listing)
            == [RemoveGraph(q.server, q.repository, q.revision, path)]
               + (if q.semantic then [DropVectors(q.repository, q.revision, path)] else [])
               + [DeleteManifest(q.repository, path)] + CleanupOps(q, listing)
  {
    CleanupConcat(q, [path], listing);
    assert [path][..0] == [];
  }

  // ---------------------------------------------------------------- the next call is the planned one

  /** The move is the first call of what is left, or a read that leaves it. */
  ghost predicate Follows(a: Analyzer, j: Work, t: Task, w: World)
    requires Informed(j, t, w) && Ready(j, t, w)
  {
    match MoveOf(a, j, t, w)
    case Read(next) => Informed(j, next, w) && Rest(a, j, t, w) == Rest(a, j, next, w)
    case Make(op, next) =>
      Informed(j, next, Apply(w, op)) && Rest(a, j, t, w) == [op] + Rest(a, j, next, Apply(w, op))
  }

  /** Inside a file the move is the first call of the file's rest. */
  ghost predicate FirstOfFile(a: Analyzer, j: Work, t: Task, w: World)
    requires InBounds(j, t.place) && InFile(t.place)
  {
    var m := MoveInFile(a, j, t, w);
    && m.Make? && m.next.removed == t.removed && m.next.renames == t.renames
    && (if InFile(m.next.place)
        then m.next.place.i == t.place.i && !m.next.place.Deciding?
             && FileRest(a, j, t.place, w) == [m.op] + FileRest(a, j, m.next.place, Apply(w, m.op))
        else m.next.place == Looking(t.place.i + 1) && FileRest(a, j, t.place, w) == [m.op])
  }

  lemma CallOfFile(a: Analyzer, j: Work, t: Task, w: World)
    requires Informed(j, t, w) && InFile(t.place)
    ensures FirstOfFile(a, j, t, w)
  {
    hide Documents, Entities, PageOf, Apply, FileOps;
    if t.place.Deciding? {
      if Skippable(j.q.mode, t.place.previous, j.files[t.place.i].hash) {
        SkipDecided(a, j, t, w);
      } else {
        WriteDecided(a, j, t, w);
      }
    }
  }

  lemma GraphCallKeepsPoints(w: World, op: Op)
    requires op.WriteGraph? || op.CarryGraph?
    ensures Apply(w, op).points == w.points
  {
  }

  lemma SkipDecided(a: Analyzer, j: Work, t: Task, w: World)
    requires Informed(j, t, w) && t.place.Deciding?
    requires Skippable(j.q.mode, t.place.previous, j.files[t.place.i].hash)
    ensures FirstOfFile(a, j, t, w)
  {
    hide Apply, Documents, Entities, CarryCount, DistinctPaths;
    GraphCallKeepsPoints(w, MoveInFile(a, j, t, w).op);
  }

  lemma WriteDecided(a: Analyzer, j: Work, t: Task, w: World)
    requires Informed(j, t, w) && t.place.Deciding?
    requires !Skippable(j.q.mode, t.place.previous, j.files[t.place.i].hash)
    ensures FirstOfFile(a, j, t, w)
  {
    hide Apply, Documents, Entities, CarryCount, DistinctPaths;
    var op := MoveInFile(a, j, t, w).op;
    if op.WriteGraph? {
      GraphCallKeepsPoints(w, op);
    }
  }

  lemma FollowsInFile(a: Analyzer, j: Work, t: Task, w: World)
    requires Informed(j, t, w) && InFile(t.place)
    ensures Follows(a, j, t, w)
  {
    hide Run, Apply, FileRest, LoopRest, MoveInFile, FileOps;
    CallOfFile(a, j, t, w);
    var m := MoveInFile(a, j, t, w);
    var v := Apply(w, m.op);
    var ops := FileRest(a, j, t.place, w);
    RunOne(w, m.op);
    if InFile(m.next.place) {
      RunConcat(w, [m.op], FileRest(a, j, m.next.place, v));
    }
  }

  lemma FollowsLook(a: Analyzer, j: Work, t: Task, w: World)
    requires Informed(j, t, w) && t.place.Looking? && t.place.i < |j.files|
    ensures Follows(a, j, t, w)
  {
    hide Run, Apply, FileOps, LoopOps, EndRest, TakeRename, TakeRenames, FinalRows;
    var q, i, f := j.q, t.place.i, j.files[t.place.i];
    var rest := j.files[i + 1..];
    assert j.files[i..] == [f] + rest;
    var ops := FileOps(a, w, q, f);
    var v := Run(w, ops);
    LoopCons(a, w, q, f, rest);
    RunConcat(w, ops, LoopOps(a, v, q, rest));
    var taken := TakeRename(t.renames, Previous(w.manifests, q.repository, f.path).None?, f.hash);
    TakenCons(t.renames, w.manifests, q.repository, f, rest);
    FileChanges(a, w, q, f);
    forall n | 0 <= n < |rest|
      ensures Previous(w.manifests, q.repository, rest[n].path) == Previous(v.manifests, q.repository, rest[n].path)
    {
      assert rest[n] == j.files[i + 1 + n] && rest[n].path != f.path;
    }
    TakenElsewhere(taken, w.manifests, v.manifests, q.repository, rest);
    LookRest(a, j, t, w, taken, v);
  }

  /** What is left before the look at a file and after it, spelled out. */
  lemma LookRest(a: Analyzer, j: Work, t: Task, w: World, taken: Renames, v: World)
    requires Informed(j, t, w) && t.place.Looking? && t.place.i < |j.files|
    requires v == Run(w, FileOps(a, w, j.q, j.files[t.place.i]))
    requires taken == TakeRename(t.renames, Previous(w.manifests, j.q.repository, j.files[t.place.i].path).None?,
                                 j.files[t.place.i].hash)
    requires var q, rest := j.q, j.files[t.place.i + 1..];
             var ops := FileOps(a, w, q, j.files[t.place.i]);
             && LoopOps(a, w, q, j.files[t.place.i..]) == ops + LoopOps(a, v, q, rest)
             && Run(w, LoopOps(a, w, q, j.files[t.place.i..])) == Run(v, LoopOps(a, v, q, rest))
             && TakeRenames(t.renames, w.manifests, q.repository, j.files[t.place.i..])
                == TakeRenames(taken, v.manifests, q.repository, rest)
    ensures Follows(a, j, t, w)
  {
    hide Run, Apply, FileOps, LoopOps, EndRest, TakeRename, TakeRenames, FinalRows, DistinctPaths;
    var q, rest := j.q, j.files[t.place.i + 1..];
    var ops, loop := FileOps(a, w, q, j.files[t.place.i]), LoopOps(a, v, q, rest);
    var tail := [WriteRows(FinalRows(a, q.repository, j.files))]
      + EndRest(j, t.removed, TakeRenames(taken, v.manifests, q.repository, rest).renamed, Run(v, loop).job.failed > 0);
    assert (ops + loop) + tail == ops + (loop + tail);
  }

  lemma FollowsRows(a: Analyzer, j: Work, t: Task, w: World)
    requires Informed(j, t, w) && t.place.Looking? && t.place.i == |j.files|
    ensures Follows(a, j, t, w)
  {
    hide EndRest, FinalRows, WriteRelationships;
    assert j.files[t.place.i..] == [];
    NoFiles(a, w, j.q);
  }

  lemma FollowsStart(a: Analyzer, j: Work, t: Task, w: World)
    requires Informed(j, t, w) && (t.place.Opening? || t.place.Discovering? || t.place.Listing?)
    ensures Follows(a, j, t, w)
  {
    hide LoopRest, Removed, Lists, RemovedByHash, DistinctPaths, Apply;
    StartedSame(w, j);
    ManifestsSame(w, Start);
    ManifestsSame(w, SetDiscovered(|j.files|));
  }

  lemma ManifestsSame(w: World, change: JobChange)
    ensures Apply(w, Job(change)).manifests == w.manifests
  {
  }

  lemma FollowsRemoval(a: Analyzer, j: Work, t: Task, w: World)
    requires Informed(j, t, w) && t.place.Removing? && t.place.k < |j.listing|
    ensures Follows(a, j, t, w)
  {
    hide CleanupOps, Apply, DistinctPaths, LoopRest, ListRest, FileRest, EndRest, MoveInFile, ClosingRest;
    var path, rest := j.listing[t.place.k], j.listing[t.place.k + 1..];
    assert j.listing[t.place.k..] == [path] + rest;
    RemovalFirst(j.q, path, rest, ClosingRest(j, t.removed, t.renames.renamed));
  }

  /** The first of a path's cleanup calls, and those after it. */
  lemma RemovalFirst(q: Request, path: string, rest: seq<string>, closing: seq<Op>)
    ensures var op, forget := RemoveGraph(q.server, q.repository, q.revision, path), DeleteManifest(q.repository, path);
            CleanupOps(q, [path] + rest) + closing
            == [op] + ((if q.semantic then [DropVectors(q.repository, q.revision, path), forget] else [forget])
                       + CleanupOps(q, rest) + closing)
  {
    hide CleanupOps;
    CleanupCons(q, path, rest);
    var op, forget := RemoveGraph(q.server, q.repository, q.revision, path), DeleteManifest(q.repository, path);
    var more := if q.semantic then [DropVectors(q.repository, q.revision, path)] else [];
    assert more + [forget] == if q.semantic then [DropVectors(q.repository, q.revision, path), forget] else [forget];
    Regrouped(op, more, forget, CleanupOps(q, rest), closing);
  }

  lemma Regrouped(op: Op, more: seq<Op>, forget: Op, rest: seq<Op>, closing: seq<Op>)
    ensures [op] + more + [forget] + rest + closing == [op] + ((more + [forget]) + rest + closing)
  {
  }

  lemma ReportsLast(a: Analyzer, j: Work, t: Task, w: World)
    requires Informed(j, t, w) && t.place == Removing(|j.listing|)
    ensures Follows(a, j, t, w)
  {
    hide CleanupOps, Apply, DistinctPaths, LoopRest, ListRest, FileRest, EndRest, MoveInFile;
    assert j.listing[t.place.k..] == [];
    NoneToClean(j.q);
  }

  lemma FollowsVectors(a: Analyzer, j: Work, t: Task, w: World)
    requires Informed(j, t, w) && t.place.Unvectoring?
    ensures Follows(a, j, t, w)
  {
    hide CleanupOps, Apply, DistinctPaths, LoopRest, ListRest, FileRest, EndRest, MoveInFile, ClosingRest;
    var q, path := j.q, j.listing[t.place.k];
    FirstOfTwo(DropVectors(q.repository, q.revision, path), DeleteManifest(q.repository, path),
               CleanupOps(q, j.listing[t.place.k + 1..]), ClosingRest(j, t.removed, t.renames.renamed));
  }

  lemma FollowsForget(a: Analyzer, j: Work, t: Task, w: World)
    requires Informed(j, t, w) && t.place.Forgetting?
    ensures Follows(a, j, t, w)
  {
    hide CleanupOps, Apply, DistinctPaths, LoopRest, ListRest, FileRest, EndRest, MoveInFile, ClosingRest;
    FirstOfOne(DeleteManifest(j.q.repository, j.listing[t.place.k]), CleanupOps(j.q, j.listing[t.place.k + 1..]),
               ClosingRest(j, t.removed, t.renames.renamed));
  }

  lemma FirstOfTwo(op: Op, forget: Op, rest: seq<Op>, closing: seq<Op>)
    ensures [op, forget] + rest + closing == [op] + ([forget] + rest + closing)
  {
  }

  lemma FirstOfOne(op: Op, rest: seq<Op>, closing: seq<Op>)
    ensures [op] + rest + closing == [op] + (rest + closing)
  {
  }

  lemma FollowsEnd(a: Analyzer, j: Work, t: Task, w: World)
    requires Informed(j, t, w)
    requires t.place.Judging? || t.place.Failing? || t.place.Recording? || t.place.Completing?
    ensures Follows(a, j, t, w)
  {
    hide CleanupOps, Apply, DistinctPaths, LoopRest, ListRest, FileRest, MoveInFile;
    assert j.listing[0..] == j.listing;
  }

  /** The next read or call a task decides from the stores as they are is the next of what it would
      do if nobody else touched them. */
  lemma NextIsPlanned(a: Analyzer, j: Work, t: Task, w: World)
    requires Informed(j, t, w) && !t.place.Finished?
    ensures Ready(j, t, w) && Follows(a, j, t, w)
  {
    hide Informed, Follows;
    InformedIsReady(j, t, w);
    if InFile(t.place) {
      FollowsInFile(a, j, t, w);
    } else if t.place.Looking? {
      if t.place.i < |j.files| {
        FollowsLook(a, j, t, w);
      } else {
        FollowsRows(a, j, t, w);
      }
    } else if t.place.Opening? || t.place.Discovering? || t.place.Listing? {
      FollowsStart(a, j, t, w);
    } else if t.place.Removing? {
      if t.place.k < |j.listing| {
        FollowsRemoval(a, j, t, w);
      } else {
        ReportsLast(a, j, t, w);
      }
    } else if t.place.Unvectoring? {
      FollowsVectors(a, j, t, w);
    } else if t.place.Forgetting? {
      FollowsForget(a, j, t, w);
    } else {
      FollowsEnd(a, j, t, w);
    }
  }

  lemma InformedIsReady(j: Work, t: Task, w: World)
    requires Informed(j, t, w) && !t.place.Finished?
    ensures Ready(j, t, w)
  {
  }

  /** And the whole of it is the plan of the job. */
  lemma RestIsThePlan(a: Analyzer, j: Work, w: World)
    requires DistinctPaths(j.files) && Lists(j.listing, Removed(w.manifests, j.q.repository, j.files))
    ensures Informed(j, NEW, w) && Rest(a, j, NEW, w) == JobOps(a, w, j.q, j.files, j.listing)
  {
    hide LoopOps, CleanupOps, FinalRows, Run, TakeRenames, RemovedByHash, Removed, Lists, DistinctPaths,
         WriteRelationships;
    var q, start := j.q, StartOps(j.files);
    var first, second := Job(Start), Job(SetDiscovered(|j.files|));
    assert start == [first] + [second];
    RunConcat(w, [first], [second]);
    RunOne(w, first);
    RunOne(Apply(w, first), second);
    StartedSame(w, j);
    var v := Run(w, start);
    assert j.files[0..] == j.files;
    var loop := LoopOps(a, v, q, j.files);
    RunIndex(a, w, q, j.files);
  }
}

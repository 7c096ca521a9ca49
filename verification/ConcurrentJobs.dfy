/** Jobs of different repositories running at the same time, call by call, on the same stores. */
module ConcurrentJobs {
  import opened IndexStores
  import opened IndexJobs
  import opened GraphInvariants
  import opened JobInvariants
  import opened IncrementalRefinesFull
  import opened PinnedRevisions
  import opened PreservedHistory
  import opened JobHistories
  import opened JobSteps
  import opened RepositoryFrames

  // ---------------------------------------------------------------- a job depends on its repository only

  ghost predicate Alike(r: string, w: World, v: World) {
    SameFor(r, w, v) && w.job == v.job
  }

  ghost predicate AllWithin(q: Request, ops: seq<Op>) {
    forall n :: 0 <= n < |ops| ==> CallWithin(q, ops[n])
  }

  ghost predicate FilesWithin(r: string, files: seq<SourceFile>) {
    forall n :: 0 <= n < |files| ==> RowsWithin(r, files[n].relationships)
  }

  lemma {:induction false} CallsInside(q: Request, w: World, v: World, ops: seq<Op>)
    requires AllWithin(q, ops) && Alike(q.repository, w, v)
    ensures Alike(q.repository, Run(w, ops), Run(v, ops))
    decreases |ops|
  {
    hide Apply, SameFor, CallWithin;
    if ops != [] {
      var init := ops[..|ops| - 1];
      CallsInside(q, w, v, init);
      CallInside(q, Run(w, init), Run(v, init), ops[|ops| - 1]);
    }
  }

  lemma FileWithin(a: Analyzer, w: World, q: Request, f: SourceFile)
    requires ValidAnalyzer(a) && RowsWithin(q.repository, f.relationships)
    ensures AllWithin(q, FileOps(a, w, q, f))
  {
    hide PageOf, OnTarget, RowsWithin, Documents, Entities, ChunkCount, ValidAnalyzer;
    FileOnTarget(a, w, q, f);
  }

  lemma {:induction false} LoopWithin(a: Analyzer, w: World, q: Request, files: seq<SourceFile>)
    requires ValidAnalyzer(a) && FilesWithin(q.repository, files)
    ensures AllWithin(q, LoopOps(a, w, q, files))
  {
    hide Run, FileOps, CallWithin, RowsWithin;
    if files != [] {
      var init := files[..|files| - 1];
      LoopWithin(a, w, q, init);
      assert RowsWithin(q.repository, files[|files| - 1].relationships);
      FileWithin(a, Run(w, LoopOps(a, w, q, init)), q, files[|files| - 1]);
    }
  }

  lemma {:induction false} FinalRowsWithin(a: Analyzer, r: string, files: seq<SourceFile>)
    requires FilesWithin(r, files)
    ensures RowsWithin(r, FinalRows(a, r, files))
  {
    if files != [] {
      FinalRowsWithin(a, r, files[..|files| - 1]);
      assert RowsWithin(r, files[|files| - 1].relationships);
    }
  }

  lemma JobWithin(a: Analyzer, w: World, q: Request, files: seq<SourceFile>, listing: seq<string>)
    requires ValidAnalyzer(a) && FilesWithin(q.repository, files)
    requires Lists(listing, Removed(w.manifests, q.repository, files))
    ensures AllWithin(q, JobOps(a, w, q, files, listing))
  {
    hide Apply, Run, LoopOps, CleanupOps, RenamedPaths, FinalRows, Removed, OnTarget, RowsWithin;
    JobOnTarget(a, w, q, files, listing);
    LoopWithin(a, Run(w, StartOps(files)), q, files);
    FinalRowsWithin(a, q.repository, files);
    CleanupHasNoRows(q, listing);
    assert forall n :: 0 <= n < |JobOps(a, w, q, files, listing)| ==> OnTarget(q, JobOps(a, w, q, files, listing)[n]);
  }

  lemma {:induction false} CleanupHasNoRows(q: Request, listing: seq<string>)
    ensures forall n :: 0 <= n < |CleanupOps(q, listing)| ==>
              !CleanupOps(q, listing)[n].WriteGraph? && !CleanupOps(q, listing)[n].WriteRows?
  {
    if listing != [] {
      CleanupHasNoRows(q, listing[..|listing| - 1]);
    }
  }

  lemma FileSame(a: Analyzer, w: World, v: World, q: Request, f: SourceFile)
    requires SameFor(q.repository, w, v)
    ensures FileOps(a, w, q, f) == FileOps(a, v, q, f)
  {
    hide PageOf, Documents, Entities, SameGraph, FilePoints, SamePoints;
    var previous := Previous(w.manifests, q.repository, f.path);
    assert previous == Previous(v.manifests, q.repository, f.path);
    if previous.Some? {
      FilePointsWithin(q.repository, w.points, v.points, previous.value.revision, f.path);
    }
  }

  lemma {:induction false} LoopSame(a: Analyzer, w: World, v: World, q: Request, files: seq<SourceFile>)
    requires ValidAnalyzer(a) && FilesWithin(q.repository, files) && Alike(q.repository, w, v)
    ensures LoopOps(a, w, q, files) == LoopOps(a, v, q, files)
  {
    hide Run, FileOps, SameFor, RowsWithin;
    if files != [] {
      var init, last := files[..|files| - 1], files[|files| - 1];
      var before := LoopOps(a, w, q, init);
      LoopSame(a, w, v, q, init);
      LoopWithin(a, w, q, init);
      CallsInside(q, w, v, before);
      FileSame(a, Run(w, before), Run(v, before), q, last);
    }
  }

  lemma RemovedSame(r: string, w: World, v: World, files: seq<SourceFile>)
    requires SameFor(r, w, v)
    ensures Removed(w.manifests, r, files) == Removed(v.manifests, r, files)
  {
    var some, other := (set k | k in w.manifests && k.0 == r :: k.1), (set k | k in v.manifests && k.0 == r :: k.1);
    forall p
      ensures p in some <==> (r, p) in w.manifests
      ensures p in other <==> (r, p) in v.manifests
    {
      assert (r, p).0 == r && (r, p).1 == p;
    }
    assert some == other;
  }

  lemma {:induction false} ByHashSame(r: string, w: World, v: World, listing: seq<string>)
    requires SameFor(r, w, v) && forall p :: p in listing ==> (r, p) in w.manifests && (r, p) in v.manifests
    ensures RemovedByHash(w.manifests, r, listing) == RemovedByHash(v.manifests, r, listing)
  {
    if listing != [] {
      ByHashSame(r, w, v, listing[..|listing| - 1]);
    }
  }

  lemma {:induction false} TakenSame(renames: Renames, r: string, w: World, v: World, files: seq<SourceFile>)
    requires SameFor(r, w, v)
    ensures TakeRenames(renames, w.manifests, r, files) == TakeRenames(renames, v.manifests, r, files)
  {
    if files != [] {
      TakenSame(renames, r, w, v, files[..|files| - 1]);
    }
  }

  lemma FinishSameFor(w: World, v: World, q: Request, files: seq<SourceFile>, listing: seq<string>, failed: bool)
    requires SameFor(q.repository, w, v)
    requires Lists(listing, Removed(w.manifests, q.repository, files))
             && Lists(listing, Removed(v.manifests, q.repository, files))
    ensures FinishOps(w, q, files, listing, failed) == FinishOps(v, q, files, listing, failed)
  {
    hide CleanupOps, SameGraph, SamePoints;
    RemovedSame(q.repository, w, v, files);
    ByHashSame(q.repository, w, v, listing);
    TakenSame(Renames(RemovedByHash(w.manifests, q.repository, listing), {}), q.repository, w, v, files);
  }

  /** The calls a job makes are a function of its repository's part of the stores. */
  lemma JobSame(a: Analyzer, w: World, v: World, q: Request, files: seq<SourceFile>, listing: seq<string>)
    requires ValidAnalyzer(a) && FilesWithin(q.repository, files) && Alike(q.repository, w, v)
    requires Lists(listing, Removed(w.manifests, q.repository, files))
    ensures Lists(listing, Removed(v.manifests, q.repository, files))
    ensures JobOps(a, w, q, files, listing) == JobOps(a, v, q, files, listing)
  {
    hide Run, Apply, LoopOps, FinishOps, SameFor, Lists, Removed, FinalRows, CallWithin, RowsWithin;
    RemovedSame(q.repository, w, v, files);
    StartWithin(q, files);
    CallsInside(q, w, v, StartOps(files));
    LoopSame(a, Run(w, StartOps(files)), Run(v, StartOps(files)), q, files);
    var index := IndexOps(a, w, q, files);
    assert index == IndexOps(a, v, q, files);
    JobWithin(a, w, q, files, listing);
    assert index == JobOps(a, w, q, files, listing)[..|index|];
    CallsInside(q, w, v, index);
    FinishSameFor(w, v, q, files, listing, Run(w, index).job.failed > 0);
  }

  lemma StartWithin(q: Request, files: seq<SourceFile>)
    ensures AllWithin(q, StartOps(files))
  {
  }

  // ---------------------------------------------------------------- a task decides from its repository only

  ghost predicate SameReads(j: Work, w: World, v: World) {
    SameFor(j.q.repository, w, v) && w.job == v.job
  }

  lemma MoveInFileSame(a: Analyzer, j: Work, t: Task, w: World, v: World)
    requires SameReads(j, w, v) && InBounds(j, t.place) && InFile(t.place)
    ensures MoveInFile(a, j, t, w) == MoveInFile(a, j, t, v)
  {
    hide PageOf, Documents, Entities, SameGraph, SameManifests, FilePoints;
    if t.place.Carrying? {
      FilePointsWithin(j.q.repository, w.points, v.points, t.place.source, j.files[t.place.i].path);
    }
  }

  /** What a task reads and calls next is a function of its repository's part of the stores. */
  lemma MoveSame(a: Analyzer, j: Work, t: Task, w: World, v: World)
    requires SameReads(j, w, v) && Ready(j, t, w)
    ensures Ready(j, t, v) && MoveOf(a, j, t, w) == MoveOf(a, j, t, v)
  {
    hide SameGraph, SamePoints, Lists, Removed, RemovedByHash, MoveInFile, FinalRows;
    if InFile(t.place) {
      MoveInFileSame(a, j, t, w, v);
    } else if t.place.Listing? {
      RemovedSame(j.q.repository, w, v, j.files);
      ListedStored(j, w);
      ListedStored(j, v);
      ByHashSame(j.q.repository, w, v, j.listing);
    } else if t.place.Looking? && t.place.i < |j.files| {
      PreviousSame(j.q.repository, w, v, j.files[t.place.i].path);
    }
  }

  lemma ListedStored(j: Work, w: World)
    requires Lists(j.listing, Removed(w.manifests, j.q.repository, j.files))
    ensures forall p :: p in j.listing ==> (j.q.repository, p) in w.manifests
  {
  }

  lemma PreviousSame(r: string, w: World, v: World, path: string)
    requires SameFor(r, w, v)
    ensures Previous(w.manifests, r, path) == Previous(v.manifests, r, path)
  {
  }

  // ---------------------------------------------------------------- jobs at the same time

  /** A job under way: where its task is, the calls made so far (t.calls), and its record. */
  datatype Underway = Underway(t: Attempt, task: Task, job: IndexJob)

  /** The stores, and for each repository the jobs that ended and the one under way. */
  datatype Shared = Shared(graph: Graph, points: Points, manifests: Manifests,
                           past: map<string, seq<Attempt>>, underway: map<string, Underway>)

  /** A job takes its repository's lock, makes its next read or call, or stops for whatever reason. */
  datatype Event = Starts(t: Attempt) | Advances(repository: string) | Stops(repository: string)

  function Stores(s: Shared, job: IndexJob): World {
    World(s.graph, s.points, s.manifests, job)
  }

  function PastOf(s: Shared, r: string): seq<Attempt> {
    if r in s.past then s.past[r] else []
  }

  /** The jobs of one repository, in order. */
  function HistoryOf(s: Shared, r: string): seq<Attempt> {
    PastOf(s, r) + if r in s.underway then [s.underway[r].t] else []
  }

  function JobOf(t: Attempt): IndexJob {
    NewJob(t.id, t.q.repository, t.q.revision, t.q.mode)
  }

  function WorkOf(t: Attempt): Work {
    Work(t.q, t.files, t.listing)
  }

  /** A job starts with the files its revision names; the order in which it will enumerate its
      removed paths is fixed with it. */
  ghost predicate Enabled(c: Content, s: Shared, e: Event) {
    match e
    case Starts(t) =>
      && t.q.repository !in s.underway && t.calls == 0
      && Lists(t.listing, Removed(s.manifests, t.q.repository, t.files))
      && DistinctPaths(t.files) && FilesOf(c, t.q, t.files) && FilesWithin(t.q.repository, t.files)
    case Advances(r) =>
      r in s.underway && var u := s.underway[r]; Ready(WorkOf(u.t), u.task, Stores(s, u.job))
    case Stops(r) => r in s.underway
  }

  /** What the job of r does next on the stores as they are. */
  ghost function MoveAt(a: Analyzer, c: Content, s: Shared, r: string): Move
    requires Enabled(c, s, Advances(r))
  {
    var u := s.underway[r];
    MoveOf(a, WorkOf(u.t), u.task, Stores(s, u.job))
  }

  ghost function Next(a: Analyzer, c: Content, s: Shared, e: Event): Shared
    requires Enabled(c, s, e)
  {
    match e
    case Starts(t) => s.(underway := s.underway[t.q.repository := Underway(t, NEW, JobOf(t))])
    case Advances(r) =>
      var u := s.underway[r];
      (match MoveAt(a, c, s, r)
       case Read(task) => s.(underway := s.underway[r := u.(task := task)])
       case Make(op, task) =>
         var w := Apply(Stores(s, u.job), op);
         Shared(w.graph, w.points, w.manifests, s.past,
                s.underway[r := Underway(u.t.(calls := u.t.calls + 1), task, w.job)]))
    case Stops(r) =>
      s.(past := s.past[r := HistoryOf(s, r)], underway := s.underway - {r})
  }

  ghost predicate Happens(a: Analyzer, c: Content, events: seq<Event>)
    decreases |events|, 0
  {
    events == [] || (Happens(a, c, events[..|events| - 1])
                     && Enabled(c, Together(a, c, events[..|events| - 1]), events[|events| - 1]))
  }

  ghost function Together(a: Analyzer, c: Content, events: seq<Event>): Shared
    requires Happens(a, c, events)
    decreases |events|, 1
  {
    if events == [] then Shared(EMPTY, map[], map[], map[], map[])
    else Next(a, c, Together(a, c, events[..|events| - 1]), events[|events| - 1])
  }

  // ---------------------------------------------------------------- as if one at a time

  lemma HistorySnoc(a: Analyzer, c: Content, past: seq<Attempt>, t: Attempt)
    requires PossibleHistory(a, c, past) && Possible(a, c, After(a, c, past), t)
    ensures PossibleHistory(a, c, past + [t])
    ensures After(a, c, past + [t]) == Here(a, c, past, t)
  {
    assert (past + [t])[..|past|] == past;
  }

  /** The stores the repository's jobs alone would have left after the calls made so far. */
  ghost function Here(a: Analyzer, c: Content, past: seq<Attempt>, t: Attempt): World
    requires PossibleHistory(a, c, past) && Possible(a, c, After(a, c, past), t)
  {
    var w := Begin(After(a, c, past), t);
    Run(w, JobOps(a, w, t.q, t.files, t.listing)[..t.calls])
  }

  /** The calls made are the first of the plan the job would have made alone, and those left are
      what its task will still do. */
  ghost predicate OnPlan(a: Analyzer, c: Content, past: seq<Attempt>, r: string, u: Underway) {
    && PossibleHistory(a, c, past) && Possible(a, c, After(a, c, past), u.t)
    && u.t.q.repository == r && FilesWithin(r, u.t.files)
    && var w := Begin(After(a, c, past), u.t);
       var plan := JobOps(a, w, u.t.q, u.t.files, u.t.listing);
       && Informed(WorkOf(u.t), u.task, Here(a, c, past, u.t))
       && plan == plan[..u.t.calls] + Rest(a, WorkOf(u.t), u.task, Here(a, c, past, u.t))
  }

  /** The repository's part of the stores is as its own jobs, one after the other, would leave it. */
  ghost predicate AsIfAlone(a: Analyzer, c: Content, s: Shared, r: string) {
    && PossibleHistory(a, c, HistoryOf(s, r))
    && var v := After(a, c, HistoryOf(s, r));
       SameFor(r, Stores(s, v.job), v)
       && (r in s.underway ==> OnPlan(a, c, PastOf(s, r), r, s.underway[r]) && s.underway[r].job == v.job)
  }

  ghost predicate AllAsIfAlone(a: Analyzer, c: Content, s: Shared) {
    Owned(s.graph.nodes) && forall r :: AsIfAlone(a, c, s, r)
  }

  lemma StartsAsIfAlone(a: Analyzer, c: Content, s: Shared, t: Attempt)
    requires ValidAnalyzer(a) && AllAsIfAlone(a, c, s) && Enabled(c, s, Starts(t))
    ensures AsIfAlone(a, c, Next(a, c, s, Starts(t)), t.q.repository)
  {
    hide Run, JobOps, SameFor, Lists, Removed, FilesWithin, FilesOf, DistinctPaths, Rest, Informed;
    var r, past := t.q.repository, PastOf(s, t.q.repository);
    assert AsIfAlone(a, c, s, r);
    assert HistoryOf(s, r) == past;
    assert PossibleHistory(a, c, past);
    var w, v := Stores(s, JobOf(t)), Begin(After(a, c, past), t);
    JobFree(r, Stores(s, After(a, c, past).job), After(a, c, past), JobOf(t));
    RemovedSame(r, w, v, t.files);
    assert Possible(a, c, After(a, c, past), t);
    HistorySnoc(a, c, past, t);
    NothingMade(v, JobOps(a, v, t.q, t.files, t.listing));
    RestIsThePlan(a, WorkOf(t), v);
    var after := Next(a, c, s, Starts(t));
    assert HistoryOf(after, r) == past + [t] && PastOf(after, r) == past;
    assert Stores(after, v.job) == w;
  }

  lemma NothingMade(w: World, ops: seq<Op>)
    ensures Run(w, ops[..0]) == w && ops[..0] == []
  {
  }

  /** The job record is nothing to the stores. */
  lemma JobFree(r: string, w: World, v: World, job: IndexJob)
    requires SameFor(r, w, v)
    ensures SameFor(r, w.(job := job), v.(job := job))
  {
  }

  lemma PlanSplits(plan: seq<Op>, k: nat, op: Op, rest: seq<Op>)
    requires k <= |plan| && plan == plan[..k] + ([op] + rest)
    ensures k < |plan| && plan[k] == op && plan[..k + 1] == plan[..k] + [op] && plan == plan[..k + 1] + rest
  {
    assert plan[..k + 1] == plan[..k] + [plan[k]];
  }

  /** The move on the shared stores is the one the job would make alone. */
  lemma MovesAsIfAlone(a: Analyzer, c: Content, s: Shared, r: string)
    requires r in s.underway && AsIfAlone(a, c, s, r) && !s.underway[r].task.place.Finished?
    ensures Enabled(c, s, Advances(r))
    ensures var u, past := s.underway[r], PastOf(s, r);
            && Follows(a, WorkOf(u.t), u.task, Here(a, c, past, u.t))
            && MoveAt(a, c, s, r) == MoveOf(a, WorkOf(u.t), u.task, Here(a, c, past, u.t))
            && After(a, c, HistoryOf(s, r)) == Here(a, c, past, u.t)
  {
    hide Run, JobOps, SameFor, Informed, Follows, Ready, Here, Possible, FilesWithin, MoveOf;
    var u, past := s.underway[r], PastOf(s, r);
    assert HistoryOf(s, r) == past + [u.t];
    HistorySnoc(a, c, past, u.t);
    var here := Here(a, c, past, u.t);
    NextIsPlanned(a, WorkOf(u.t), u.task, here);
    SameSym(r, Stores(s, here.job), here);
    MoveSame(a, WorkOf(u.t), u.task, here, Stores(s, u.job));
  }

  lemma ReadsAsIfAlone(a: Analyzer, c: Content, s: Shared, r: string)
    requires AllAsIfAlone(a, c, s) && Enabled(c, s, Advances(r)) && MoveAt(a, c, s, r).Read?
    ensures AsIfAlone(a, c, Next(a, c, s, Advances(r)), r)
  {
    hide Run, JobOps, SameFor, Here, Possible, FilesWithin, MoveOf, Informed, Rest, PossibleHistory;
    assert AsIfAlone(a, c, s, r);
    MovesAsIfAlone(a, c, s, r);
    var after := Next(a, c, s, Advances(r));
    assert HistoryOf(after, r) == HistoryOf(s, r) && PastOf(after, r) == PastOf(s, r);
  }

  lemma NotFinished(c: Content, s: Shared, r: string)
    requires Enabled(c, s, Advances(r))
    ensures r in s.underway && !s.underway[r].task.place.Finished?
  {
    hide Lists, Removed;
  }

  /** A call is the next one of the plan. */
  lemma NextOnPlan(a: Analyzer, c: Content, past: seq<Attempt>, r: string, u: Underway)
    requires OnPlan(a, c, past, r, u) && !u.task.place.Finished?
    requires var here := Here(a, c, past, u.t);
             && Ready(WorkOf(u.t), u.task, here) && Follows(a, WorkOf(u.t), u.task, here)
             && MoveOf(a, WorkOf(u.t), u.task, here).Make?
    ensures var here := Here(a, c, past, u.t);
            var m, t := MoveOf(a, WorkOf(u.t), u.task, here), u.t.(calls := u.t.calls + 1);
            var w := Begin(After(a, c, past), u.t);
            && m.op in JobOps(a, w, u.t.q, u.t.files, u.t.listing)
            && Possible(a, c, After(a, c, past), t) && Here(a, c, past, t) == Apply(here, m.op)
            && OnPlan(a, c, past, r, Underway(t, m.next, Here(a, c, past, t).job))
  {
    hide Run, JobOps, Apply, Lists, Removed, FilesWithin, FilesOf, DistinctPaths, MoveOf, Informed, Rest, Ready,
         PossibleHistory, After;
    var here := Here(a, c, past, u.t);
    var m, t := MoveOf(a, WorkOf(u.t), u.task, here), u.t.(calls := u.t.calls + 1);
    var w := Begin(After(a, c, past), u.t);
    var plan := JobOps(a, w, u.t.q, u.t.files, u.t.listing);
    PlanSplits(plan, u.t.calls, m.op, Rest(a, WorkOf(u.t), m.next, Apply(here, m.op)));
    RunConcat(w, plan[..u.t.calls], [m.op]);
    RunOne(here, m.op);
    assert WorkOf(t) == WorkOf(u.t);
  }

  lemma PlannedWithin(a: Analyzer, c: Content, past: seq<Attempt>, r: string, u: Underway, op: Op)
    requires ValidAnalyzer(a) && OnPlan(a, c, past, r, u)
    requires var w := Begin(After(a, c, past), u.t); op in JobOps(a, w, u.t.q, u.t.files, u.t.listing)
    ensures CallWithin(u.t.q, op)
  {
    hide Run, JobOps, CallWithin, Informed, Rest, PossibleHistory, After, FilesWithin, Lists, Removed;
    JobWithin(a, Begin(After(a, c, past), u.t), u.t.q, u.t.files, u.t.listing);
  }

  /** A call within the repository that takes the job one call further on its plan. */
  ghost predicate PlannedCall(a: Analyzer, c: Content, past: seq<Attempt>, r: string, u: Underway, op: Op, next: Task) {
    var t := u.t.(calls := u.t.calls + 1);
    && CallWithin(u.t.q, op) && u.t.q.repository == r
    && PossibleHistory(a, c, past) && Possible(a, c, After(a, c, past), u.t) && Possible(a, c, After(a, c, past), t)
    && Here(a, c, past, t) == Apply(Here(a, c, past, u.t), op)
    && OnPlan(a, c, past, r, Underway(t, next, Here(a, c, past, t).job))
  }

  /** A call on the shared stores is one. */
  lemma CallOnPlan(a: Analyzer, c: Content, s: Shared, r: string)
    requires ValidAnalyzer(a) && AllAsIfAlone(a, c, s) && Enabled(c, s, Advances(r)) && MoveAt(a, c, s, r).Make?
    ensures var m := MoveAt(a, c, s, r); PlannedCall(a, c, PastOf(s, r), r, s.underway[r], m.op, m.next)
  {
    hide Run, JobOps, Apply, SameFor, CallWithin, MoveOf, Ready, Follows, Here, Possible, AllAsIfAlone, AsIfAlone,
         OnPlan;
    NotFinished(c, s, r);
    OnPlanNow(a, c, s, r);
    MovesAsIfAlone(a, c, s, r);
    var u, past := s.underway[r], PastOf(s, r);
    ReadyHere(a, c, past, r, u);
    NextOnPlan(a, c, past, r, u);
    PlannedWithin(a, c, past, r, u, MoveAt(a, c, s, r).op);
  }

  lemma OnPlanNow(a: Analyzer, c: Content, s: Shared, r: string)
    requires AllAsIfAlone(a, c, s) && r in s.underway
    ensures AsIfAlone(a, c, s, r) && OnPlan(a, c, PastOf(s, r), r, s.underway[r])
    ensures PossibleHistory(a, c, PastOf(s, r)) && Possible(a, c, After(a, c, PastOf(s, r)), s.underway[r].t)
    ensures s.underway[r].t.q.repository == r
  {
    hide Run, JobOps, SameFor, Informed, Rest, Possible, FilesWithin, PossibleHistory, Owned;
    assert AsIfAlone(a, c, s, r);
  }

  lemma ReadyHere(a: Analyzer, c: Content, past: seq<Attempt>, r: string, u: Underway)
    requires OnPlan(a, c, past, r, u) && !u.task.place.Finished?
    ensures Ready(WorkOf(u.t), u.task, Here(a, c, past, u.t))
  {
    hide Run, JobOps, Here, Rest, Lists, Removed, DistinctPaths;
    InformedIsReady(WorkOf(u.t), u.task, Here(a, c, past, u.t));
  }

  lemma CallsAsIfAlone(a: Analyzer, c: Content, s: Shared, r: string)
    requires ValidAnalyzer(a) && AllAsIfAlone(a, c, s) && Enabled(c, s, Advances(r)) && MoveAt(a, c, s, r).Make?
    ensures AsIfAlone(a, c, Next(a, c, s, Advances(r)), r)
  {
    hide AllAsIfAlone, AsIfAlone, PlannedCall, Enabled, MoveAt, MoveOf, Possible, Here, SameFor, OnPlan, Follows;
    NotFinished(c, s, r);
    CallOnPlan(a, c, s, r);
    OnPlanNow(a, c, s, r);
    MovesAsIfAlone(a, c, s, r);
    var u, past, m := s.underway[r], PastOf(s, r), MoveAt(a, c, s, r);
    SameNow(a, c, s, r);
    OneCallFurther(a, c, s, r, past, u, m.op, m.next);
  }

  lemma SameNow(a: Analyzer, c: Content, s: Shared, r: string)
    requires AsIfAlone(a, c, s, r) && r in s.underway
    ensures var here := After(a, c, HistoryOf(s, r));
            SameFor(r, Stores(s, here.job), here) && s.underway[r].job == here.job
  {
    hide SameFor, OnPlan;
  }

  lemma OneCallFurther(a: Analyzer, c: Content, s: Shared, r: string, past: seq<Attempt>, u: Underway, op: Op,
                       next: Task)
    requires r in s.underway && u == s.underway[r] && past == PastOf(s, r)
    requires PlannedCall(a, c, past, r, u, op, next)
    requires var here := Here(a, c, past, u.t); SameFor(r, Stores(s, u.job), here) && u.job == here.job
    requires Enabled(c, s, Advances(r)) && MoveAt(a, c, s, r) == Make(op, next)
    ensures AsIfAlone(a, c, Next(a, c, s, Advances(r)), r)
  {
    hide Run, JobOps, Apply, SameFor, CallWithin, MoveAt, Here, OnPlan, Possible, Ready, PossibleHistory, After;
    var t, here := u.t.(calls := u.t.calls + 1), Here(a, c, past, u.t);
    HistorySnoc(a, c, past, t);
    CallInside(u.t.q, Stores(s, u.job), here, op);
    var after := Next(a, c, s, Advances(r));
    assert HistoryOf(after, r) == past + [t] && PastOf(after, r) == past;
  }

  /** What happens to one repository's job leaves the others' as they were. */
  lemma OthersAsIfAlone(a: Analyzer, c: Content, s: Shared, e: Event, q: string, r: string)
    requires ValidAnalyzer(a) && AllAsIfAlone(a, c, s) && Enabled(c, s, e) && q != r
    requires q == match e case Starts(t) => t.q.repository case Advances(p) => p case Stops(p) => p
    ensures AsIfAlone(a, c, Next(a, c, s, e), r)
  {
    hide Run, JobOps, Apply, SameFor, Lists, Removed, FilesWithin, FilesOf, DistinctPaths, CallWithin, Owned, OnPlan,
         MoveOf, Here, Ready, Possible, PossibleHistory;
    assert AsIfAlone(a, c, s, r);
    var after := Next(a, c, s, e);
    assert HistoryOf(after, r) == HistoryOf(s, r) && PastOf(after, r) == PastOf(s, r);
    var v := After(a, c, HistoryOf(s, r));
    if e.Advances? && MoveAt(a, c, s, q).Make? {
      var u, op := s.underway[q], MoveAt(a, c, s, q).op;
      var w := Stores(s, u.job);
      CallOnPlan(a, c, s, q);
      CallOutside(r, u.t.q, w, op);
      JobFree(r, w, Apply(w, op), v.job);
      SameSym(r, Stores(s, v.job), Stores(after, v.job));
      SameTrans(r, Stores(after, v.job), Stores(s, v.job), v);
    }
  }

  lemma StopsAsIfAlone(a: Analyzer, c: Content, s: Shared, r: string)
    requires AllAsIfAlone(a, c, s) && Enabled(c, s, Stops(r))
    ensures AsIfAlone(a, c, Next(a, c, s, Stops(r)), r)
  {
    hide SameFor, Owned, OnPlan;
    assert AsIfAlone(a, c, s, r);
    var after := Next(a, c, s, Stops(r));
    assert HistoryOf(after, r) == HistoryOf(s, r);
  }

  lemma OwnedNext(a: Analyzer, c: Content, s: Shared, e: Event)
    requires ValidAnalyzer(a) && AllAsIfAlone(a, c, s) && Enabled(c, s, e)
    ensures Owned(Next(a, c, s, e).graph.nodes)
  {
    hide Run, JobOps, Apply, SameFor, AsIfAlone, Owned, OnTarget, MoveOf, Here, Ready, Possible, OnPlan;
    if e.Advances? && MoveAt(a, c, s, e.repository).Make? {
      var u := s.underway[e.repository];
      CallOnPlan(a, c, s, e.repository);
      CallTouchesTarget(Stores(s, u.job), u.t.q, MoveAt(a, c, s, e.repository).op);
    }
  }

  lemma NextAsIfAlone(a: Analyzer, c: Content, s: Shared, e: Event)
    requires ValidAnalyzer(a) && AllAsIfAlone(a, c, s) && Enabled(c, s, e)
    ensures AllAsIfAlone(a, c, Next(a, c, s, e))
  {
    hide Next, AsIfAlone, Enabled, Owned, MoveAt;
    OwnedNext(a, c, s, e);
    var q := match e case Starts(t) => t.q.repository case Advances(p) => p case Stops(p) => p;
    match e {
      case Starts(t) => StartsAsIfAlone(a, c, s, t);
      case Advances(_) =>
        if MoveAt(a, c, s, q).Read? {
          ReadsAsIfAlone(a, c, s, q);
        } else {
          CallsAsIfAlone(a, c, s, q);
        }
      case Stops(_) => StopsAsIfAlone(a, c, s, q);
    }
    forall r | r != q
      ensures AsIfAlone(a, c, Next(a, c, s, e), r)
    {
      OthersAsIfAlone(a, c, s, e, q, r);
    }
  }

  /** However the reads and calls of jobs of different repositories interleave, each deciding from
      the shared stores as it finds them: each repository's part of the stores is at every moment
      what its own jobs would have made of empty stores one at a time, and the job under way has
      made, and has left to make, the calls it would make then. */
  lemma {:induction false} InterleavingsAreHistories(a: Analyzer, c: Content, events: seq<Event>)
    requires ValidAnalyzer(a) && Happens(a, c, events)
    ensures AllAsIfAlone(a, c, Together(a, c, events))
    decreases |events|
  {
    hide AllAsIfAlone, Next, Enabled;
    if events == [] {
      NothingTogether(a, c);
    } else {
      var init := events[..|events| - 1];
      InterleavingsAreHistories(a, c, init);
      NextAsIfAlone(a, c, Together(a, c, init), events[|events| - 1]);
    }
  }

  lemma NothingTogether(a: Analyzer, c: Content)
    ensures AllAsIfAlone(a, c, Shared(EMPTY, map[], map[], map[], map[]))
  {
    assert After(a, c, []) == World(EMPTY, map[], map[], NewJob("", "", "", Full));
  }

  /** No job ever waits for another repository's: one that has not finished can go on. */
  lemma NoneWaits(a: Analyzer, c: Content, events: seq<Event>, r: string)
    requires ValidAnalyzer(a) && Happens(a, c, events)
    requires var s := Together(a, c, events); r in s.underway && !s.underway[r].task.place.Finished?
    ensures Enabled(c, Together(a, c, events), Advances(r))
  {
    hide AsIfAlone, Together, Happens, Enabled;
    InterleavingsAreHistories(a, c, events);
    MovesAsIfAlone(a, c, Together(a, c, events), r);
  }

  lemma ExactForSame(a: Analyzer, c: Content, nodes: Nodes, other: Nodes, r: string, revision: string)
    requires ValidAnalyzer(a) && Owned(nodes) && SameNodes(r, nodes, other) && GraphExact(a, c, other, r, revision)
    ensures GraphExact(a, c, nodes, r, revision)
  {
    forall path, id | path in c(r, revision) && id in ContentRows(a, c, r, revision, path)
      ensures id.repository == r
    {
      RowOfFile(a, r, path, c(r, revision)[path], id);
    }
    forall id | id in nodes && nodes[id].repository == r && revision in nodes[id].revisions
      ensures exists path :: path in c(r, revision) && id in ContentRows(a, c, r, revision, path)
    {
      assert id.repository == r && id in other && other[id] == nodes[id];
    }
  }

  lemma VectorsForSame(a: Analyzer, c: Content, points: Points, other: Points, r: string, revision: string)
    requires ValidAnalyzer(a) && SamePoints(r, points, other) && VectorsExact(a, c, other, r, revision)
    ensures VectorsExact(a, c, points, r, revision)
  {
    hide Fits;
    forall path, k | path in c(r, revision) && k in ContentPoints(a, c, r, revision, path)
      ensures k.repository == r
    {
      PointOfFile(a, r, revision, path, c(r, revision)[path], k);
    }
  }

  /** A job that comes to its end among jobs of other repositories leaves what it would have left
      alone: if it completes its revision is exactly indexed, and an incremental one leaves its
      repository's part of every store as the full job would, provided it skips no file whose
      manifest was broken when it started. */
  lemma IndexAmongOthers(a: Analyzer, c: Content, events: seq<Event>, r: string)
    requires ValidAnalyzer(a) && Happens(a, c, events)
    requires var s := Together(a, c, events); r in s.underway && s.underway[r].task.place.Finished?
    ensures var s := Together(a, c, events);
            var u, past := s.underway[r], PastOf(s, r);
            && PossibleHistory(a, c, past) && Possible(a, c, After(a, c, past), u.t)
            && var w := After(a, c, past);
               SkipsWhole(u.t.q, u.t.files, w.manifests, Broken(a, w)) ==>
                 LeavesIndexed(a, c, s, r, u, Begin(w, u.t))
  {
    hide Run, JobOps, SameFor, SkipsWhole, Happens, Together, FilesWithin, Possible, LeavesIndexed, AllAsIfAlone;
    InterleavingsAreHistories(a, c, events);
    var s := Together(a, c, events);
    AloneAtEnd(a, c, s, r);
    var u, past := s.underway[r], PastOf(s, r);
    if SkipsWhole(u.t.q, u.t.files, After(a, c, past).manifests, Broken(a, After(a, c, past))) {
      EndsIndexed(a, c, s, r, past, u);
    }
  }

  /** What the job leaves of its repository, begun alone on stores w. */
  ghost predicate LeavesIndexed(a: Analyzer, c: Content, s: Shared, r: string, u: Underway, w: World)
    requires Lists(u.t.listing, Removed(w.manifests, u.t.q.repository, u.t.files))
  {
    && (u.job.failed == 0 ==>
          && GraphExact(a, c, s.graph.nodes, r, u.t.q.revision)
          && (u.t.q.semantic ==> VectorsExact(a, c, s.points, r, u.t.q.revision)))
    && (u.t.q.mode == Incremental ==>
          SameFor(r, Stores(s, u.job), Run(w, JobOps(a, w, u.t.q.(mode := Full), u.t.files, u.t.listing))))
  }

  lemma AloneAtEnd(a: Analyzer, c: Content, s: Shared, r: string)
    requires AllAsIfAlone(a, c, s) && r in s.underway && s.underway[r].task.place.Finished?
    ensures var u, past := s.underway[r], PastOf(s, r);
            && PossibleHistory(a, c, past) && Possible(a, c, After(a, c, past), u.t) && u.t.q.repository == r
            && Owned(s.graph.nodes)
            && var w := Begin(After(a, c, past), u.t);
               var done := Run(w, JobOps(a, w, u.t.q, u.t.files, u.t.listing));
               u.job == done.job && SameFor(r, Stores(s, u.job), done)
  {
    hide Run, JobOps, SameFor, FilesWithin, Possible, Owned, Informed, Here, Rest;
    assert AsIfAlone(a, c, s, r);
    var u, past := s.underway[r], PastOf(s, r);
    HistorySnoc(a, c, past, u.t);
    assert HistoryOf(s, r) == past + [u.t];
    WholePlan(a, c, past, r, u);
  }

  lemma WholePlan(a: Analyzer, c: Content, past: seq<Attempt>, r: string, u: Underway)
    requires OnPlan(a, c, past, r, u) && u.task.place.Finished?
    ensures var w := Begin(After(a, c, past), u.t);
            Here(a, c, past, u.t) == Run(w, JobOps(a, w, u.t.q, u.t.files, u.t.listing))
  {
    hide Run, JobOps, Informed, Rest, After, PossibleHistory, FilesWithin, Lists, Removed;
    NothingLeft(a, WorkOf(u.t), u.task, Here(a, c, past, u.t));
    var w := Begin(After(a, c, past), u.t);
    var plan := JobOps(a, w, u.t.q, u.t.files, u.t.listing);
    assert plan[..u.t.calls] + [] == plan[..u.t.calls];
  }

  lemma NothingLeft(a: Analyzer, j: Work, t: Task, w: World)
    requires Informed(j, t, w) && t.place.Finished?
    ensures Rest(a, j, t, w) == []
  {
  }

  lemma EndsIndexed(a: Analyzer, c: Content, s: Shared, r: string, past: seq<Attempt>, u: Underway)
    requires ValidAnalyzer(a) && Owned(s.graph.nodes) && u.t.q.repository == r
    requires PossibleHistory(a, c, past) && Possible(a, c, After(a, c, past), u.t)
    requires SkipsWhole(u.t.q, u.t.files, After(a, c, past).manifests, Broken(a, After(a, c, past)))
    requires var w := Begin(After(a, c, past), u.t);
             var done := Run(w, JobOps(a, w, u.t.q, u.t.files, u.t.listing));
             u.job == done.job && SameFor(r, Stores(s, u.job), done)
    ensures LeavesIndexed(a, c, s, r, u, Begin(After(a, c, past), u.t))
  {
    hide Run, JobOps, SkipsWhole, GraphExact, VectorsExact, Owned, SameNodes, SamePoints, SameEdges, SameSymbols,
         SameManifests, SameSnapshots, SamePairs, Broken;
    IndexAfterAnyHistory(a, c, past, u.t);
    var w := Begin(After(a, c, past), u.t);
    var done := Run(w, JobOps(a, w, u.t.q, u.t.files, u.t.listing));
    if u.job.failed == 0 {
      ExactForSame(a, c, s.graph.nodes, done.graph.nodes, r, u.t.q.revision);
      if u.t.q.semantic {
        VectorsForSame(a, c, s.points, done.points, r, u.t.q.revision);
      }
    }
  }
}

/** A job's record from its creation on, through errors, a held lock, crashes and restarts. */
module JobLives {
  import opened Contracts
  import opened IndexJobs
  import opened JobAccounting
  import opened IndexerStores
  import opened IndexerServices
  import opened OptimisticTransactions
  import opened RedisIndexJobStores

  /** A job's record, the calls its task has made, and whether the task still runs. */
  datatype Life = Life(job: IndexJob, calls: nat, alive: bool)

  /** The repository's lock is held, the task makes its next call, something raises between two
      calls, the process dies, or a process starts and fails the unfinished jobs. */
  datatype Step = LockHeld | Call | Raise(message: string) | Crash | Restart

  predicate Enabled(plan: seq<Op>, x: Life, s: Step) {
    match s
    case LockHeld => x.alive && x.calls == 0
    case Call => x.alive && x.calls < |plan|
    case Raise(_) => x.alive && x.calls < |plan|
    case Crash => x.alive
    case Restart => true
  }

  /** The update a step makes to the record. */
  function ChangeOf(plan: seq<Op>, x: Life, s: Step): Option<JobChange>
    requires Enabled(plan, x, s)
  {
    match s
    case LockHeld => Some(SetStatus(JobStatus.Failed, LOCK_HELD))
    case Call => if plan[x.calls].Job? then Some(plan[x.calls].change) else None
    case Raise(message) => Some(SetStatus(JobStatus.Failed, Some(message)))
    case Crash => None
    case Restart => if Terminal(x.job.status) then None else Some(SetStatus(JobStatus.Failed, INTERRUPTED))
  }

  function Recorded(job: IndexJob, change: Option<JobChange>): IndexJob {
    if change.Some? then Changed(job, change.value) else job
  }

  function Stepped(plan: seq<Op>, x: Life, s: Step): Life
    requires Enabled(plan, x, s)
  {
    var job := Recorded(x.job, ChangeOf(plan, x, s));
    match s
    case Call => Life(job, x.calls + 1, x.calls + 1 < |plan|)
    case Restart => x.(job := job)
    case _ => Life(job, x.calls, false)
  }

  predicate Lived(plan: seq<Op>, created: IndexJob, steps: seq<Step>)
    decreases |steps|, 0
  {
    steps == [] || (Lived(plan, created, steps[..|steps| - 1])
                    && Enabled(plan, LifeAfter(plan, created, steps[..|steps| - 1]), steps[|steps| - 1]))
  }

  function LifeAfter(plan: seq<Op>, created: IndexJob, steps: seq<Step>): Life
    requires Lived(plan, created, steps)
    decreases |steps|, 1
  {
    if steps == [] then Life(created, 0, plan != [])
    else Stepped(plan, LifeAfter(plan, created, steps[..|steps| - 1]), steps[|steps| - 1])
  }

  /** No process starts beside a running task. */
  predicate Alone(plan: seq<Op>, created: IndexJob, steps: seq<Step>)
    requires Lived(plan, created, steps)
  {
    steps == []
    || (Alone(plan, created, steps[..|steps| - 1])
        && !(steps[|steps| - 1].Restart? && LifeAfter(plan, created, steps[..|steps| - 1]).alive))
  }

  // ---------------------------------------------------------------- the calls of a task

  lemma OneCall(w: World, plan: seq<Op>, k: nat)
    requires k < |plan|
    ensures Run(w, plan[..k + 1]).job
            == Recorded(Run(w, plan[..k]).job, if plan[k].Job? then Some(plan[k].change) else None)
  {
    hide Run, Apply;
    assert plan[..k + 1] == plan[..k] + [plan[k]];
    RunSnoc(w, plan[..k], plan[k]);
    if plan[k].Job? {
      JobCallOnly(Run(w, plan[..k]), plan[k]);
    } else {
      OtherCallKeepsJob(Run(w, plan[..k]), plan[k]);
    }
  }

  /** The first call starts the job. */
  lemma StartsFirst(a: Analyzer, w: World, q: Request, files: seq<SourceFile>, listing: seq<string>)
    requires Lists(listing, Removed(w.manifests, q.repository, files))
    ensures var plan := JobOps(a, w, q, files, listing); |plan| > 2 && plan[0] == Job(Start)
  {
    hide Run, Apply, JobOps, LoopOps, FinishOps, FinalRows, Lists, Removed;
    JobOpsShape(a, w, q, files, listing);
  }

  predicate Ends(op: Op) {
    op.Job? && op.change.SetStatus? && Terminal(op.change.status)
  }

  /** Only the last call ends it. */
  lemma EndsLast(a: Analyzer, w: World, q: Request, files: seq<SourceFile>, listing: seq<string>, k: nat)
    requires Fresh(w.job) && Lists(listing, Removed(w.manifests, q.repository, files))
    requires k < |JobOps(a, w, q, files, listing)|
    ensures var plan := JobOps(a, w, q, files, listing);
            Ends(plan[k]) ==> k == |plan| - 1 && plan[k].change.status == Run(w, plan).job.status
  {
    hide Run, Apply, JobOps, StartOps, Consistent, Fresh, Lists, Removed;
    var plan := JobOps(a, w, q, files, listing);
    OneCall(w, plan, k);
    AccountingAlways(a, w, q, files, listing, k + 1);
    assert plan[..|plan|] == plan;
  }

  // ---------------------------------------------------------------- accounting and order

  /** The record agrees with the task's calls, whatever else set its status. */
  ghost predicate Progressed(w: World, plan: seq<Op>, x: Life) {
    && x.calls <= |plan| && (x.alive ==> x.calls < |plan|)
    && SameProgress(x.job.(status := Pending), Run(w, plan[..x.calls]).job.(status := Pending))
    && (x.job.status == Completed ==> x.calls == |plan| && Run(w, plan).job.status == Completed)
  }

  lemma ProgressStep(a: Analyzer, w: World, q: Request, files: seq<SourceFile>, listing: seq<string>, x: Life, s: Step)
    requires Fresh(w.job) && Lists(listing, Removed(w.manifests, q.repository, files))
    requires var plan := JobOps(a, w, q, files, listing); Enabled(plan, x, s) && Progressed(w, plan, x)
    ensures var plan := JobOps(a, w, q, files, listing); Progressed(w, plan, Stepped(plan, x, s))
  {
    hide Run, Apply, JobOps, Fresh, Lists, Removed;
    var plan := JobOps(a, w, q, files, listing);
    if s.Call? {
      OneCall(w, plan, x.calls);
      EndsLast(a, w, q, files, listing, x.calls);
    }
  }

  lemma ProgressStarts(a: Analyzer, w: World, q: Request, files: seq<SourceFile>, listing: seq<string>)
    requires Fresh(w.job) && Lists(listing, Removed(w.manifests, q.repository, files))
    ensures var plan := JobOps(a, w, q, files, listing); Progressed(w, plan, LifeAfter(plan, w.job, []))
  {
    hide Apply, JobOps, Lists, Removed;
    StartsFirst(a, w, q, files, listing);
    assert JobOps(a, w, q, files, listing)[..0] == [];
  }

  lemma {:induction false} ProgressKept(a: Analyzer, w: World, q: Request, files: seq<SourceFile>, listing: seq<string>,
                                        steps: seq<Step>)
    requires Fresh(w.job) && Lists(listing, Removed(w.manifests, q.repository, files))
    requires Lived(JobOps(a, w, q, files, listing), w.job, steps)
    ensures var plan := JobOps(a, w, q, files, listing); Progressed(w, plan, LifeAfter(plan, w.job, steps))
    decreases |steps|
  {
    hide Run, Apply, JobOps, Lists, Removed, Progressed;
    var plan := JobOps(a, w, q, files, listing);
    if steps == [] {
      ProgressStarts(a, w, q, files, listing);
    } else {
      ProgressKept(a, w, q, files, listing, steps[..|steps| - 1]);
      ProgressStep(a, w, q, files, listing, LifeAfter(plan, w.job, steps[..|steps| - 1]), steps[|steps| - 1]);
    }
  }

  /** Whatever happens to a job, restarts beside its running task included, its record accounts
      for a number of leading files, never more than were discovered, and if it says completed then
      the task made every call, processed every file and failed none. */
  lemma AccountsAllItsLife(a: Analyzer, w: World, q: Request, files: seq<SourceFile>, listing: seq<string>,
                           steps: seq<Step>)
    requires Fresh(w.job) && Lists(listing, Removed(w.manifests, q.repository, files))
    requires Lived(JobOps(a, w, q, files, listing), w.job, steps)
    ensures var plan := JobOps(a, w, q, files, listing);
            var x := LifeAfter(plan, w.job, steps);
            && Consistent(a, Run(w, StartOps(files)), q, files, x.job)
            && (x.job.status == Completed ==> x.calls == |plan|)
  {
    hide Run, Apply, JobOps, StartOps, Lists, Removed, TallyOf, Lived, LifeAfter;
    var plan := JobOps(a, w, q, files, listing);
    var x := LifeAfter(plan, w.job, steps);
    ProgressKept(a, w, q, files, listing, steps);
    AccountingAlways(a, w, q, files, listing, x.calls);
    assert plan[..|plan|] == plan;
    var job := Run(w, plan[..x.calls]).job;
    var n: nat :| n <= |files| && Accounts(job, TallyOf(a, Run(w, StartOps(files)), q, files[..n]), n);
    assert Accounts(x.job, TallyOf(a, Run(w, StartOps(files)), q, files[..n]), n);
  }

  /** Pending, then running, then one terminal status; a pending job may also fail at once. */
  predicate Moves(before: JobStatus, after: JobStatus) {
    || before == after
    || (before == Pending && (after == Running || after == JobStatus.Failed))
    || (before == Running && Terminal(after))
  }

  /** A task that no restart has interfered with has the record of its calls. */
  lemma {:induction false} UndisturbedWhileAlone(a: Analyzer, w: World, q: Request, files: seq<SourceFile>,
                                                 listing: seq<string>, steps: seq<Step>)
    requires Fresh(w.job) && Lists(listing, Removed(w.manifests, q.repository, files))
    requires var plan := JobOps(a, w, q, files, listing); Lived(plan, w.job, steps) && Alone(plan, w.job, steps)
    ensures var plan := JobOps(a, w, q, files, listing);
            var x := LifeAfter(plan, w.job, steps);
            x.alive ==> x.calls < |plan| && x.job == Run(w, plan[..x.calls]).job
    decreases |steps|
  {
    hide Run, Apply, JobOps, Lists, Removed, Fresh;
    var plan := JobOps(a, w, q, files, listing);
    StartsFirst(a, w, q, files, listing);
    if steps == [] {
      assert plan[..0] == [];
      NoCalls(a, w, q);
    } else {
      UndisturbedWhileAlone(a, w, q, files, listing, steps[..|steps| - 1]);
      var x := LifeAfter(plan, w.job, steps[..|steps| - 1]);
      if x.alive {
        OneCall(w, plan, x.calls);
      }
    }
  }

  /** As long as no process starts beside a running task, the status only moves forward and a
      record that has ended never changes again. */
  lemma StatusInOrder(a: Analyzer, w: World, q: Request, files: seq<SourceFile>, listing: seq<string>,
                      steps: seq<Step>, s: Step)
    requires Fresh(w.job) && Lists(listing, Removed(w.manifests, q.repository, files))
    requires var plan := JobOps(a, w, q, files, listing);
             && Lived(plan, w.job, steps) && Alone(plan, w.job, steps)
             && Enabled(plan, LifeAfter(plan, w.job, steps), s)
             && !(s.Restart? && LifeAfter(plan, w.job, steps).alive)
    ensures var plan := JobOps(a, w, q, files, listing);
            var x := LifeAfter(plan, w.job, steps);
            && Moves(x.job.status, Stepped(plan, x, s).job.status)
            && (Terminal(x.job.status) ==> !x.alive && ChangeOf(plan, x, s).None?)
  {
    hide Run, Apply, JobOps, Lists, Removed, Fresh, Consistent;
    var plan := JobOps(a, w, q, files, listing);
    var x := LifeAfter(plan, w.job, steps);
    UndisturbedWhileAlone(a, w, q, files, listing, steps);
    if x.alive {
      StartsFirst(a, w, q, files, listing);
      AccountingAlways(a, w, q, files, listing, x.calls);
      if s.Call? {
        OneCall(w, plan, x.calls);
        AccountingAlways(a, w, q, files, listing, x.calls + 1);
      }
    }
  }

  /** A record that has ended stays as it is if and only if its task is over; and a task still
      running then has had a process start beside it. */
  lemma EndedStaysExactly(a: Analyzer, w: World, q: Request, files: seq<SourceFile>, listing: seq<string>,
                          steps: seq<Step>)
    requires Fresh(w.job) && Lists(listing, Removed(w.manifests, q.repository, files))
    requires var plan := JobOps(a, w, q, files, listing);
             Lived(plan, w.job, steps) && Terminal(LifeAfter(plan, w.job, steps).job.status)
    ensures var plan := JobOps(a, w, q, files, listing);
            var x := LifeAfter(plan, w.job, steps);
            && ((forall s :: Enabled(plan, x, s) ==> Stepped(plan, x, s).job == x.job) <==> !x.alive)
            && (x.alive ==> !Alone(plan, w.job, steps))
  {
    hide Run, Apply, JobOps, Lists, Removed, Fresh, Consistent;
    var plan := JobOps(a, w, q, files, listing);
    var x := LifeAfter(plan, w.job, steps);
    ProgressKept(a, w, q, files, listing, steps);
    StartsFirst(a, w, q, files, listing);
    if x.alive {
      var message := if x.job.error.Some? then x.job.error.value + " " else "";
      assert Stepped(plan, x, Raise(message)).job.error == Some(message);
      assert Stepped(plan, x, Raise(message)).job != x.job;
      if Alone(plan, w.job, steps) {
        UndisturbedWhileAlone(a, w, q, files, listing, steps);
        AccountingAlways(a, w, q, files, listing, x.calls);
        assert false;
      }
    }
  }

  function Calls(n: nat): seq<Step> {
    if n == 0 then [] else Calls(n - 1) + [Step.Call]
  }

  /** The task goes on making calls. */
  lemma {:induction false} CallsGoOn(plan: seq<Op>, created: IndexJob, steps: seq<Step>, n: nat)
    requires Lived(plan, created, steps)
    requires var x := LifeAfter(plan, created, steps); x.alive && x.calls + n <= |plan|
    ensures Lived(plan, created, steps + Calls(n))
    ensures var x, y := LifeAfter(plan, created, steps), LifeAfter(plan, created, steps + Calls(n));
            && y.calls == x.calls + n && (y.alive <==> n == 0 || y.calls < |plan|)
            && (n > 0 && Ends(plan[y.calls - 1]) ==> y.job.status == plan[y.calls - 1].change.status)
  {
    if n == 0 {
      assert steps + Calls(0) == steps;
    } else {
      CallsGoOn(plan, created, steps, n - 1);
      assert (steps + Calls(n))[..|steps + Calls(n)| - 1] == steps + Calls(n - 1);
    }
  }

  const EARLY := [Step.Call, Restart]

  lemma EarlyRestart(plan: seq<Op>, created: IndexJob)
    requires |plan| > 2 && plan[0] == Job(Start)
    ensures Lived(plan, created, EARLY)
    ensures var x := LifeAfter(plan, created, EARLY);
            x.calls == 1 && x.alive && x.job.status == JobStatus.Failed
  {
    assert EARLY[..1] == [Step.Call] && [Step.Call][..0] == [];
    assert Lived(plan, created, [Step.Call]);
  }

  /** Whether a process that starts after the first call fails the job, and the task, which goes
      on, still ends it with the status its calls give it. */
  ghost predicate Undone(w: World, plan: seq<Op>) {
    && plan != [] && Lived(plan, w.job, EARLY) && LifeAfter(plan, w.job, EARLY).job.status == JobStatus.Failed
    && var all := EARLY + Calls(|plan| - 1);
       Lived(plan, w.job, all) && LifeAfter(plan, w.job, all).job.status == Run(w, plan).job.status
  }

  lemma UndoneByCalls(w: World, plan: seq<Op>)
    requires |plan| > 2 && plan[0] == Job(Start)
    requires Ends(plan[|plan| - 1]) && plan[|plan| - 1].change.status == Run(w, plan).job.status
    ensures Undone(w, plan)
  {
    hide Run, Lived, LifeAfter, Calls;
    EarlyRestart(plan, w.job);
    CallsGoOn(plan, w.job, EARLY, |plan| - 1);
  }

  /** It does so in every job, even in one that completes. */
  lemma RestartIsUndone(a: Analyzer, w: World, q: Request, files: seq<SourceFile>, listing: seq<string>)
    requires Fresh(w.job) && Lists(listing, Removed(w.manifests, q.repository, files))
    ensures Undone(w, JobOps(a, w, q, files, listing))
  {
    hide Run, Apply, JobOps, Lists, Removed, Fresh, Undone;
    StartsFirst(a, w, q, files, listing);
    LastEnds(a, w, q, files, listing);
    UndoneByCalls(w, JobOps(a, w, q, files, listing));
  }

  lemma LastEnds(a: Analyzer, w: World, q: Request, files: seq<SourceFile>, listing: seq<string>)
    requires Fresh(w.job) && Lists(listing, Removed(w.manifests, q.repository, files))
    ensures var plan := JobOps(a, w, q, files, listing);
            plan != [] && Ends(plan[|plan| - 1]) && plan[|plan| - 1].change.status == Run(w, plan).job.status
  {
    hide Run, Apply, JobOps, LoopOps, FinalRows, Lists, Removed, Consistent, FinishOps;
    var plan := JobOps(a, w, q, files, listing);
    JobOpsShape(a, w, q, files, listing);
    var v := Run(w, StartOps(files));
    var l := Run(v, LoopOps(a, v, q, files));
    FinishCalls(w, q, files, listing, l.job.failed > 0);
    EndsLast(a, w, q, files, listing, |plan| - 1);
  }

  /** What the service's task does to its record is such a life, with no restart in it. */
  lemma TaskIsALife(a: Analyzer, w: World, v: World, q: Request, files: seq<SourceFile>, locked: bool,
                    done: seq<Op>, order: seq<string>) returns (steps: seq<Step>)
    requires Fresh(w.job) && Lists(order, Removed(w.manifests, q.repository, files))
    requires TaskOutcome(a, w, v, q, files, locked, done, order)
    ensures var plan := JobOps(a, w, q, files, order);
            Lived(plan, w.job, steps) && Alone(plan, w.job, steps)
            && LifeAfter(plan, w.job, steps) == Life(v.job, if locked then 0 else |done|, false)
  {
    hide Run, Apply, JobOps, Lists, Removed, Fresh, Lived, LifeAfter, Alone, Calls, Changed;
    var plan := JobOps(a, w, q, files, order);
    StartsFirst(a, w, q, files, order);
    NothingLived(plan, w.job);
    if locked {
      steps := [LockHeld];
      OneStepMore(plan, w.job, [], LockHeld);
    } else {
      var n := |done|;
      assert done == plan[..n];
      steps := Calls(n);
      assert [] + steps == steps;
      CallsGoOn(plan, w.job, [], n);
      CallsAlone(plan, w.job, n);
      UndisturbedOrOver(a, w, q, files, order, n);
      if n < |plan| {
        var message :| v == Run(w, done).(job := Changed(Run(w, done).job, SetStatus(JobStatus.Failed, Some(message))));
        steps := Calls(n) + [Raise(message)];
        OneStepMore(plan, w.job, Calls(n), Raise(message));
      } else {
        assert plan[..n] == plan;
      }
    }
  }

  lemma NothingLived(plan: seq<Op>, created: IndexJob)
    ensures Lived(plan, created, []) && Alone(plan, created, [])
    ensures LifeAfter(plan, created, []) == Life(created, 0, plan != [])
  {
  }

  lemma OneStepMore(plan: seq<Op>, created: IndexJob, steps: seq<Step>, s: Step)
    requires Lived(plan, created, steps) && Enabled(plan, LifeAfter(plan, created, steps), s) && !s.Restart?
    ensures Lived(plan, created, steps + [s])
    ensures LifeAfter(plan, created, steps + [s]) == Stepped(plan, LifeAfter(plan, created, steps), s)
    ensures Alone(plan, created, steps) ==> Alone(plan, created, steps + [s])
  {
    assert (steps + [s])[..|steps|] == steps;
  }

  lemma {:induction false} CallsAlone(plan: seq<Op>, created: IndexJob, n: nat)
    requires Lived(plan, created, Calls(n))
    ensures |Calls(n)| == n && Alone(plan, created, Calls(n))
  {
    if n > 0 {
      assert Calls(n)[..|Calls(n)| - 1] == Calls(n - 1);
      CallsAlone(plan, created, n - 1);
    }
  }

  lemma NoneCalled()
    ensures Calls(0) == []
  {
  }

  lemma OneMoreCall(plan: seq<Op>, created: IndexJob, n: nat)
    requires 0 < n && Lived(plan, created, Calls(n))
    ensures Lived(plan, created, Calls(n - 1))
    ensures var x := LifeAfter(plan, created, Calls(n - 1));
            x.alive && x.calls < |plan| && LifeAfter(plan, created, Calls(n)) == Stepped(plan, x, Step.Call)
  {
    assert Calls(n)[..|Calls(n)| - 1] == Calls(n - 1);
  }

  /** After n calls and nothing else the record is that of the calls. */
  lemma {:induction false} UndisturbedOrOver(a: Analyzer, w: World, q: Request, files: seq<SourceFile>,
                                             listing: seq<string>, n: nat)
    requires Fresh(w.job) && Lists(listing, Removed(w.manifests, q.repository, files))
    requires n <= |JobOps(a, w, q, files, listing)| && Lived(JobOps(a, w, q, files, listing), w.job, Calls(n))
    ensures var plan := JobOps(a, w, q, files, listing);
            LifeAfter(plan, w.job, Calls(n)).job == Run(w, plan[..n]).job
  {
    hide Run, Apply, JobOps, Lists, Removed, Fresh, Changed, Lived, LifeAfter, Calls;
    var plan := JobOps(a, w, q, files, listing);
    StartsFirst(a, w, q, files, listing);
    NothingLived(plan, w.job);
    if n == 0 {
      assert plan[..0] == [];
      NoneCalled();
      NoCalls(a, w, q);
    } else {
      assert [] + Calls(n - 1) == Calls(n - 1);
      CallsGoOn(plan, w.job, [], n - 1);
      UndisturbedOrOver(a, w, q, files, listing, n - 1);
      OneCall(w, plan, n - 1);
      OneMoreCall(plan, w.job, n);
    }
  }

  /** So the record the service's task leaves has ended and accounts for the job, and it says
      completed only if every call was made. */
  lemma TaskAccounts(a: Analyzer, w: World, v: World, q: Request, files: seq<SourceFile>, locked: bool,
                     done: seq<Op>, order: seq<string>)
    requires Fresh(w.job) && Lists(order, Removed(w.manifests, q.repository, files))
    requires TaskOutcome(a, w, v, q, files, locked, done, order)
    ensures Consistent(a, Run(w, StartOps(files)), q, files, v.job)
    ensures Terminal(v.job.status)
    ensures v.job.status == Completed ==> !locked && done == JobOps(a, w, q, files, order)
  {
    hide Run, Apply, JobOps, StartOps, Lists, Removed, Consistent, Lived, LifeAfter, Alone;
    var steps := TaskIsALife(a, w, v, q, files, locked, done, order);
    AccountsAllItsLife(a, w, q, files, order, steps);
    StartsFirst(a, w, q, files, order);
    AccountingAlways(a, w, q, files, order, |JobOps(a, w, q, files, order)|);
    assert JobOps(a, w, q, files, order)[..|JobOps(a, w, q, files, order)|] == JobOps(a, w, q, files, order);
  }

  // ---------------------------------------------------------------- in Redis

  /** The updates a life makes, in order. */
  function Updates(plan: seq<Op>, created: IndexJob, steps: seq<Step>): seq<JobChange>
    requires Lived(plan, created, steps)
  {
    if steps == [] then []
    else
      var init := steps[..|steps| - 1];
      Updates(plan, created, init)
      + match ChangeOf(plan, LifeAfter(plan, created, init), steps[|steps| - 1])
        case Some(change) => [change]
        case None => []
  }

  function AllChanged(job: IndexJob, changes: seq<JobChange>): IndexJob {
    if changes == [] then job else Changed(AllChanged(job, changes[..|changes| - 1]), changes[|changes| - 1])
  }

  lemma UpdatesSnoc(plan: seq<Op>, created: IndexJob, steps: seq<Step>)
    requires steps != [] && Lived(plan, created, steps)
    ensures var init, s := steps[..|steps| - 1], steps[|steps| - 1];
            && Lived(plan, created, init) && Enabled(plan, LifeAfter(plan, created, init), s)
            && var x := LifeAfter(plan, created, init);
               var change := ChangeOf(plan, x, s);
               && Updates(plan, created, steps)
                  == Updates(plan, created, init) + (if change.Some? then [change.value] else [])
               && LifeAfter(plan, created, steps).job == Recorded(x.job, change)
               && (Alone(plan, created, steps) ==> Alone(plan, created, init) && !(s.Restart? && x.alive))
  {
  }

  lemma AllChangedSnoc(job: IndexJob, changes: seq<JobChange>, change: JobChange)
    ensures AllChanged(job, changes + [change]) == Changed(AllChanged(job, changes), change)
  {
    assert (changes + [change])[..|changes|] == changes;
  }

  /** Every update finds the record open. */
  lemma {:induction false} UpdatesFindOpen(a: Analyzer, w: World, q: Request, files: seq<SourceFile>,
                                           listing: seq<string>, steps: seq<Step>, n: nat)
    requires Fresh(w.job) && Lists(listing, Removed(w.manifests, q.repository, files))
    requires var plan := JobOps(a, w, q, files, listing); Lived(plan, w.job, steps) && Alone(plan, w.job, steps)
    ensures var plan := JobOps(a, w, q, files, listing);
            var changes := Updates(plan, w.job, steps);
            && AllChanged(w.job, changes) == LifeAfter(plan, w.job, steps).job
            && (n < |changes| ==> !Terminal(AllChanged(w.job, changes[..n]).status))
    decreases |steps|
  {
    var plan := JobOps(a, w, q, files, listing);
    if steps != [] {
      hide Run, Apply, JobOps, Lists, Removed, Fresh, Changed, Lived, LifeAfter, Updates, ChangeOf, Alone, AllChanged;
      var init, s := steps[..|steps| - 1], steps[|steps| - 1];
      UpdatesSnoc(plan, w.job, steps);
      UpdatesFindOpen(a, w, q, files, listing, init, n);
      StatusInOrder(a, w, q, files, listing, init, s);
      var x := LifeAfter(plan, w.job, init);
      var before, change := Updates(plan, w.job, init), ChangeOf(plan, x, s);
      if change.Some? {
        AllChangedSnoc(w.job, before, change.value);
        assert (before + [change.value])[..|before|] == before;
        if n < |before| {
          assert (before + [change.value])[..n] == before[..n];
        }
      } else {
        assert Updates(plan, w.job, steps) == before;
      }
    }
  }

  function Committed(log: Log): seq<JobChange> {
    if log == [] then []
    else
      match log[|log| - 1]
      case Commit(_, change) => Committed(log[..|log| - 1]) + [change]
      case Other(_) => Committed(log[..|log| - 1])
  }

  ghost predicate Expired(log: Log) {
    exists j :: 0 < j < |log| && log[j] == Other(Expire)
  }

  /** The commands on one job's keys: create comes first and only once, reads refresh the key and
      it may expire, an id is taken off the list when its record was found gone, and the commits
      are updates of the job's life, in order. */
  ghost predicate LogOfLife(log: Log, created: IndexJob, updates: seq<JobChange>) {
    && log != [] && log[0] == Other(Create(created))
    && (forall k :: 0 < k < |log| && log[k].Other? ==>
          || log[k].b.Refresh? || log[k].b.Expire?
          || (log[k].b.Unlist? && Expired(log[..k])))
    && Committed(log) <= updates
  }

  lemma PersistedThenChanged(job: IndexJob, change: JobChange)
    ensures Persisted(Changed(Persisted(job), change)) == Persisted(Changed(job, change))
  {
  }

  /** What one more command makes of the record. */
  lemma StoredSnoc(log: Log)
    requires log != []
    ensures var before, after := Stored(log[..|log| - 1]).value, Stored(log).value;
            match log[|log| - 1]
            case Commit(_, change) =>
              after == if before.None? then None else Some(Persisted(Changed(before.value, change)))
            case Other(Create(created)) => after == Some(Persisted(created))
            case Other(Expire) => after == None
            case Other(_) => after == before
  {
  }

  /** The stored record is the created one with the committed updates, unless it expired. */
  lemma {:induction false} StoredOfLife(log: Log, created: IndexJob, updates: seq<JobChange>)
    requires LogOfLife(log, created, updates)
    ensures var kept := Stored(log).value;
            && (kept.Some? ==> kept.value == Persisted(AllChanged(created, Committed(log))))
            && (Expired(log) ==> kept.None?)
    decreases |log|
  {
    hide Persisted, Changed, Stored, LogOfLife;
    FirstCreates(log, created, updates);
    var init, last := log[..|log| - 1], log[|log| - 1];
    StoredSnoc(log);
    if init == [] {
      assert Committed(log[..0]) == [] && Committed(log) == [];
    } else {
      PrefixOfLife(log, created, updates, |init|);
      StoredOfLife(init, created, updates);
      if last.Commit? {
        PersistedThenChanged(AllChanged(created, Committed(init)), last.op);
        assert Committed(log)[..|Committed(init)|] == Committed(init);
      }
    }
  }

  lemma FirstCreates(log: Log, created: IndexJob, updates: seq<JobChange>)
    requires LogOfLife(log, created, updates)
    ensures log != [] && log[0] == Other(Create(created))
    ensures |log| > 1 ==> !(log[|log| - 1].Other? && log[|log| - 1].b.Create?)
  {
  }

  /** The log of a life keeps to it, so the active list is exact: while the record is there, it is
      listed if and only if it has not ended. */
  lemma ActiveThroughLife(a: Analyzer, w: World, q: Request, files: seq<SourceFile>, listing: seq<string>,
                          steps: seq<Step>, log: Log)
    requires Fresh(w.job) && Lists(listing, Removed(w.manifests, q.repository, files))
    requires var plan := JobOps(a, w, q, files, listing);
             && Lived(plan, w.job, steps) && Alone(plan, w.job, steps)
             && LogOfLife(log, w.job, Updates(plan, w.job, steps))
    ensures forall k :: 0 <= k < |log| ==> KeepsToLife(log, k)
    ensures var e := Stored(log); e.value.Some? ==> (e.rest <==> !Terminal(e.value.value.status))
  {
    hide Run, Apply, JobOps, Lists, Removed;
    forall k | 0 <= k < |log|
      ensures KeepsToLife(log, k)
    {
      KeepsOne(a, w, q, files, listing, steps, log, k);
    }
    ActiveExactly(log);
  }

  lemma KeepsOne(a: Analyzer, w: World, q: Request, files: seq<SourceFile>, listing: seq<string>,
                 steps: seq<Step>, log: Log, k: nat)
    requires Fresh(w.job) && Lists(listing, Removed(w.manifests, q.repository, files))
    requires var plan := JobOps(a, w, q, files, listing);
             && Lived(plan, w.job, steps) && Alone(plan, w.job, steps)
             && LogOfLife(log, w.job, Updates(plan, w.job, steps))
    requires k < |log|
    ensures KeepsToLife(log, k)
  {
    hide Run, Apply, JobOps, Lists, Removed, Lived, LifeAfter, Alone, Updates, Stored;
    var updates := Updates(JobOps(a, w, q, files, listing), w.job, steps);
    if k > 0 {
      PrefixOfLife(log, w.job, updates, k);
      StoredOfLife(log[..k], w.job, updates);
      if log[k].Commit? {
        CommittedNext(log, k, updates);
        UpdatesFindOpen(a, w, q, files, listing, steps, |Committed(log[..k])|);
      }
    }
  }

  lemma CommittedPrefix(log: Log, k: nat)
    requires k <= |log|
    ensures Committed(log[..k]) <= Committed(log)
    decreases |log|
  {
    if k == |log| {
      assert log[..k] == log;
    } else {
      assert log[..|log| - 1][..k] == log[..k];
      CommittedPrefix(log[..|log| - 1], k);
    }
  }

  lemma CommittedNext(log: Log, k: nat, updates: seq<JobChange>)
    requires k < |log| && log[k].Commit? && Committed(log) <= updates
    ensures var n := |Committed(log[..k])|;
            n < |updates| && Committed(log[..k]) == updates[..n] && log[k].op == updates[n]
  {
    CommittedPrefix(log, k + 1);
    assert log[..k + 1][..k] == log[..k];
    assert Committed(log[..k + 1]) == Committed(log[..k]) + [log[k].op];
  }

  lemma PrefixOfLife(log: Log, created: IndexJob, updates: seq<JobChange>, k: nat)
    requires LogOfLife(log, created, updates) && 0 < k <= |log|
    ensures LogOfLife(log[..k], created, updates)
  {
    CommittedPrefix(log, k);
    forall n | 0 < n < k && log[..k][n].Other?
      ensures var t := log[..k][n].b;
              t.Refresh? || t.Expire? || (t.Unlist? && Expired(log[..k][..n]))
    {
      assert log[..k][n] == log[n] && log[..k][..n] == log[..n];
    }
  }
}

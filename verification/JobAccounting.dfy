/** The job record at every point of a job. */
module JobAccounting {
  import opened Contracts
  import opened IndexJobs
  import opened JobInvariants
  import opened IncrementalRefinesFull
  import opened CompletedJobs

  /** How the files of a loop were disposed of. */
  datatype Tally = Tally(skipped: nat, failed: nat, written: nat)

  ghost function TallyOf(a: Analyzer, w: World, q: Request, files: seq<SourceFile>): Tally {
    if files == [] then Tally(0, 0, 0)
    else
      var init, f := files[..|files| - 1], files[|files| - 1];
      var t := TallyOf(a, w, q, init);
      var v := Run(w, LoopOps(a, w, q, init));
      if FileFails(a, v, q, f) then t.(failed := t.failed + 1)
      else if Skippable(q.mode, Previous(v.manifests, q.repository, f.path), f.hash) then t.(skipped := t.skipped + 1)
      else t.(written := t.written + 1)
  }

  /** The record says exactly what became of the first n files and nothing else. */
  ghost predicate Accounts(job: IndexJob, t: Tally, n: nat) {
    && job.processed == n == t.skipped + t.failed + t.written
    && job.skipped == t.skipped
    && job.failed == t.failed
  }

  ghost predicate SameProgress(j: IndexJob, i: IndexJob) {
    j.status == i.status && j.discovered == i.discovered
    && j.processed == i.processed && j.skipped == i.skipped && j.failed == i.failed
  }

  /** A cut inside one file's calls has not counted it yet; the last call counts it. */
  lemma FileProgress(a: Analyzer, w: World, q: Request, f: SourceFile, j: nat)
    requires j <= |FileOps(a, w, q, f)|
    ensures var ops := FileOps(a, w, q, f);
            var before, after := w.job, Run(w, ops[..j]).job;
            if j < |ops| then after == before
            else
              && after.status == before.status && after.discovered == before.discovered
              && after.processed == before.processed + 1
              && after.failed == before.failed + (if FileFails(a, w, q, f) then 1 else 0)
              && after.skipped == before.skipped
                 + (if Skippable(q.mode, Previous(w.manifests, q.repository, f.path), f.hash) then 1 else 0)
  {
    hide Apply, Run, FileOps, FileFails, Skippable;
    var ops := FileOps(a, w, q, f);
    FileCountsLast(a, w, q, f);
    var init := ops[..|ops| - 1];
    if j < |ops| {
      assert ops[..j] == init[..j];
      StoreCallsKeepJob(w, ops[..j]);
    } else {
      assert ops[..j] == ops == init + [ops[|ops| - 1]];
      StoreCallsKeepJob(w, init);
      RunConcat(w, init, [ops[|ops| - 1]]);
      RunOne(Run(w, init), ops[|ops| - 1]);
      JobCallOnly(Run(w, init), ops[|ops| - 1]);
    }
  }

  /** The last call of a file is the only one on the job, and counts the file. */
  lemma FileCountsLast(a: Analyzer, w: World, q: Request, f: SourceFile)
    ensures var ops := FileOps(a, w, q, f);
            && ops != [] && ops[|ops| - 1].Job? && ops[|ops| - 1].change.Add?
            && (forall n :: 0 <= n < |ops| - 1 ==> !ops[n].Job?)
            && var add := ops[|ops| - 1].change;
               add.processed == 1 && add.failed == (if FileFails(a, w, q, f) then 1 else 0)
               && add.skipped
                  == (if Skippable(q.mode, Previous(w.manifests, q.repository, f.path), f.hash) then 1 else 0)
  {
    hide Documents, Entities, ChunkCount, SkipVectors, WriteVectors;
    if !FileFails(a, w, q, f) {
      var g, vectors, add := FileShape(a, w, q, f);
    }
  }

  lemma JobCallOnly(w: World, op: Op)
    requires op.Job?
    ensures Apply(w, op).job == Changed(w.job, op.change)
  {
  }

  lemma FileCallsCount(a: Analyzer, w: World, q: Request, files: seq<SourceFile>)
    requires files != []
    ensures var init := files[..|files| - 1];
            var v := Run(w, LoopOps(a, w, q, init));
            LoopOps(a, w, q, files) == LoopOps(a, w, q, init) + FileOps(a, v, q, files[|files| - 1])
  {
  }

  /** Wherever the loop is cut, the record accounts for some number of leading files. */
  lemma {:induction false} LoopProgress(a: Analyzer, w: World, q: Request, files: seq<SourceFile>, k: nat)
      returns (n: nat)
    requires k <= |LoopOps(a, w, q, files)|
    requires w.job.processed == w.job.skipped == w.job.failed == 0
    ensures n <= |files| && (k == |LoopOps(a, w, q, files)| ==> n == |files|)
    ensures var job := Run(w, LoopOps(a, w, q, files)[..k]).job;
            && Accounts(job, TallyOf(a, w, q, files[..n]), n)
            && job.status == w.job.status && job.discovered == w.job.discovered
    decreases |files|
  {
    hide Apply, Run, FileOps, LoopOps;
    if files == [] {
      NoCalls(a, w, q);
      n := 0;
    } else {
      var init, f := files[..|files| - 1], files[|files| - 1];
      var before := LoopOps(a, w, q, init);
      var v := Run(w, before);
      var last := FileOps(a, v, q, f);
      var ops := LoopOps(a, w, q, files);
      FileCallsCount(a, w, q, files);
      assert ops == before + last;
      n := LoopProgress(a, w, q, init, |before|);
      assert before[..|before|] == before && init[..n] == init;
      if k < |before| || k == |before| < |ops| {
        n := LoopProgress(a, w, q, init, k);
        assert ops[..k] == before[..k] && files[..n] == init[..n];
      } else {
        var j := k - |before|;
        assert ops[..k] == before + last[..j];
        RunConcat(w, before, last[..j]);
        FileProgress(a, v, q, f, j);
        if j < |last| {
          assert files[..n] == init;
        } else {
          n := |files|;
          assert files[..n] == files;
        }
      }
    }
  }

  lemma NoCalls(a: Analyzer, w: World, q: Request)
    ensures LoopOps(a, w, q, []) == [] && Run(w, []) == w
  {
  }

  // ---------------------------------------------------------------- the whole job

  ghost predicate Fresh(job: IndexJob) {
    && job.status == Pending && job.discovered == 0
    && job.processed == 0 && job.skipped == 0 && job.failed == 0
  }

  /** What holds of a job's record at every moment, whatever happens to the job: it accounts for
      a number of leading files, never more than were discovered, and a completed job has processed
      all of them without a failure. */
  ghost predicate Consistent(a: Analyzer, v: World, q: Request, files: seq<SourceFile>, job: IndexJob) {
    && (exists n :: 0 <= n <= |files| && Accounts(job, TallyOf(a, v, q, files[..n]), n))
    && (job.discovered == |files| || (job.discovered == 0 && job.processed == 0))
    && job.processed <= job.discovered
    && (job.status == Completed ==> job.processed == job.discovered == |files| && job.failed == 0)
  }

  lemma StartProgress(w: World, files: seq<SourceFile>, k: nat)
    requires Fresh(w.job) && k <= 2
    ensures |StartOps(files)| == 2
    ensures var v := Run(w, StartOps(files)[..k]);
            v.job == (if k == 0 then w.job
                      else if k == 1 then w.job.(status := Running)
                      else w.job.(status := Running, discovered := |files|))
            && v.manifests == w.manifests && v.points == w.points && v.graph == w.graph
  {
    var first, second := Job(Start), Job(SetDiscovered(|files|));
    assert StartOps(files)[..k] == if k == 0 then [] else if k == 1 then [first] else [first] + [second];
    RunOne(w, first);
    RunConcat(w, [first], [second]);
    RunOne(Apply(w, first), second);
  }

  /** The calls after the loop change the status last and only once. */
  lemma {:induction false} TailProgress(w: World, ops: seq<Op>)
    requires forall n :: 0 <= n < |ops| ==> ops[n].Job? ==> ops[n].change.SetRemoved?
    ensures SameProgress(Run(w, ops).job, w.job)
  {
    hide Apply;
    if ops != [] {
      var init, last := ops[..|ops| - 1], ops[|ops| - 1];
      TailProgress(w, init);
      if last.Job? {
        JobCallOnly(Run(w, init), last);
      } else {
        OtherCallKeepsJob(Run(w, init), last);
      }
    }
  }

  lemma OtherCallKeepsJob(w: World, op: Op)
    requires !op.Job?
    ensures Apply(w, op).job == w.job
  {
  }

  lemma {:induction false} CleanupHasNoJobCalls(q: Request, listing: seq<string>)
    ensures forall n :: 0 <= n < |CleanupOps(q, listing)| ==> !CleanupOps(q, listing)[n].Job?
  {
    if listing != [] {
      CleanupHasNoJobCalls(q, listing[..|listing| - 1]);
    }
  }

  /** After the loop every call but the last leaves the progress alone; the last ends the job. */
  lemma FinishCalls(w: World, q: Request, files: seq<SourceFile>, listing: seq<string>, failed: bool)
    requires Lists(listing, Removed(w.manifests, q.repository, files))
    ensures var ops := FinishOps(w, q, files, listing, failed);
            && ops != []
            && ops[|ops| - 1] == Job(if failed then SetStatus(Failed, PARSE_FAILURE) else SetStatus(Completed, None))
            && forall n :: 0 <= n < |ops| - 1 && ops[n].Job? ==> ops[n].change.SetRemoved?
  {
    CleanupHasNoJobCalls(q, listing);
  }

  /** The final rows and what follows, cut anywhere, from a state in which every file is counted. */
  lemma EndProgress(w: World, l: World, q: Request, files: seq<SourceFile>, listing: seq<string>, row: Op, k: nat)
    requires Lists(listing, Removed(w.manifests, q.repository, files))
    requires row.WriteRows?
    requires var ops := [row] + FinishOps(w, q, files, listing, l.job.failed > 0); k <= |ops|
    ensures var ops := [row] + FinishOps(w, q, files, listing, l.job.failed > 0);
            var job := Run(l, ops[..k]).job;
            && SameProgress(job.(status := l.job.status), l.job)
            && job.status == if k < |ops| then l.job.status else if l.job.failed > 0 then Failed else Completed
  {
    hide Apply, Run, FinishOps;
    var ops := [row] + FinishOps(w, q, files, listing, l.job.failed > 0);
    var init := ops[..|ops| - 1];
    FinishCalls(w, q, files, listing, l.job.failed > 0);
    if k < |ops| {
      TailProgress(l, ops[..k]);
    } else {
      assert ops[..k] == ops == init + [ops[|ops| - 1]];
      RunConcat(l, init, [ops[|ops| - 1]]);
      TailProgress(l, init);
      RunOne(Run(l, init), ops[|ops| - 1]);
      JobCallOnly(Run(l, init), ops[|ops| - 1]);
    }
  }

  lemma JobOpsShape(a: Analyzer, w: World, q: Request, files: seq<SourceFile>, listing: seq<string>)
    requires Lists(listing, Removed(w.manifests, q.repository, files))
    ensures var v := Run(w, StartOps(files));
            var l := Run(v, LoopOps(a, v, q, files));
            JobOps(a, w, q, files, listing)
            == StartOps(files) + (LoopOps(a, v, q, files)
               + ([WriteRows(FinalRows(a, q.repository, files))] + FinishOps(w, q, files, listing, l.job.failed > 0)))
  {
    hide Apply, Run, LoopOps, FinishOps, StartOps, FinalRows, Removed, Lists;
    RunIndex(a, w, q, files);
    var v := Run(w, StartOps(files));
    var l := Run(v, LoopOps(a, v, q, files));
    var row := WriteRows(FinalRows(a, q.repository, files));
    OtherCallKeepsJob(l, row);
    assert Run(w, IndexOps(a, w, q, files)).job == l.job;
    Reassociated(StartOps(files), LoopOps(a, v, q, files), [row], FinishOps(w, q, files, listing, l.job.failed > 0));
  }

  lemma Reassociated(s: seq<Op>, t: seq<Op>, u: seq<Op>, v: seq<Op>)
    ensures s + t + u + v == s + (t + (u + v))
  {
  }

  /** While no call raises, the record is consistent after every call, pending before the first,
      running until the last and ended by it: every file is then counted, and the job has failed
      exactly if a file did. */
  lemma AccountingAlways(a: Analyzer, w: World, q: Request, files: seq<SourceFile>, listing: seq<string>, k: nat)
    requires Fresh(w.job)
    requires Lists(listing, Removed(w.manifests, q.repository, files))
    requires k <= |JobOps(a, w, q, files, listing)|
    ensures var job := Run(w, JobOps(a, w, q, files, listing)[..k]).job;
            && Consistent(a, Run(w, StartOps(files)), q, files, job)
            && (job.status == Pending <==> k == 0)
            && (Terminal(job.status) <==> k == |JobOps(a, w, q, files, listing)|)
            && (Terminal(job.status) ==> job.processed == |files| && (job.status == Failed <==> job.failed > 0))
  {
    hide Apply, Run, LoopOps, FinishOps, JobOps, StartOps, TallyOf;
    var start := StartOps(files);
    var v := Run(w, start);
    var loop := LoopOps(a, v, q, files);
    var l := Run(v, loop);
    var row := WriteRows(FinalRows(a, q.repository, files));
    var end := [row] + FinishOps(w, q, files, listing, l.job.failed > 0);
    var ops := JobOps(a, w, q, files, listing);
    JobOpsShape(a, w, q, files, listing);
    assert ops == start + (loop + end);
    StartProgress(w, files, 2);
    assert start[..2] == start;
    if k < 2 {
      assert ops[..k] == start[..k];
      StartProgress(w, files, k);
      EmptyTally(a, v, q, files);
    } else if k - 2 < |loop| {
      var some := loop[..k - 2];
      assert ops[..k] == start + some;
      RunConcat(w, start, some);
      var n := LoopProgress(a, v, q, files, k - 2);
    } else {
      var n := LoopProgress(a, v, q, files, |loop|);
      assert loop[..|loop|] == loop;
      var j := k - 2 - |loop|;
      var some := end[..j];
      assert ops[..k] == start + (loop + some);
      RunConcat(w, start, loop + some);
      RunConcat(v, loop, some);
      EndProgress(w, l, q, files, listing, row, j);
    }
  }

  lemma EmptyTally(a: Analyzer, v: World, q: Request, files: seq<SourceFile>)
    ensures TallyOf(a, v, q, files[..0]) == Tally(0, 0, 0)
  {
  }
}

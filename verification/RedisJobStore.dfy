/** The Redis job store: one record and its place in the active set, under concurrent updates. */
module RedisIndexJobStores {
  import opened Contracts
  import opened IndexJobs
  import opened OptimisticTransactions

  /** What Redis holds for one job id: its record, and whether it is in the active set. */
  type Entry = Keys<Option<IndexJob>, bool>

  const ABSENT: Entry := Keys(Option<IndexJob>.None, false)

  /** JSON carries the declared fields; the two counts the service adds at the end are not among
      them. */
  function Persisted(job: IndexJob): IndexJob {
    job.(deleted := 0, renamed := 0)
  }

  /** The other commands: SET and SADD of create, EXPIRE of get, the key's expiry, and SREM of an
      id whose record is gone, which does not touch the record's key. */
  datatype Touch = Create(job: IndexJob) | Refresh | Expire | Unlist

  /** What _mutate sets; a missing job is a KeyError. */
  function Mutated(job: Option<IndexJob>, change: JobChange): Option<Option<IndexJob>> {
    if job.None? then None else Some(Some(Persisted(Changed(job.value, change))))
  }

  /** Its transaction takes an ended job off the list. */
  function Delisted(active: bool, job: Option<IndexJob>): bool {
    active && !(job.Some? && Terminal(job.value.status))
  }

  function Touched(job: Option<IndexJob>, t: Touch): Option<Option<IndexJob>> {
    match t
    case Create(created) => Some(Some(Persisted(created)))
    case Refresh => if job.None? then None else Some(job)
    case Expire => Some(None)
    case Unlist => None
  }

  function Listed(active: bool, t: Touch): bool {
    match t
    case Create(_) => true
    case Unlist => false
    case _ => active
  }

  const STORE: Semantics<Option<IndexJob>, bool, JobChange, Touch> := Semantics(Mutated, Delisted, Touched, Listed)

  type Log = seq<Command<JobChange, Touch>>

  function Stored(log: Log): Entry {
    Sequential(STORE, ABSENT, log)
  }

  // ---------------------------------------------------------------- the active set

  ghost predicate CreatedOpen(log: Log) {
    forall k :: 0 <= k < |log| && log[k].Other? && log[k].b.Create? ==> !Terminal(log[k].b.job.status)
  }

  lemma {:induction false} ActiveIsOpen(log: Log)
    requires CreatedOpen(log)
    ensures var e := Stored(log); e.rest && e.value.Some? ==> !Terminal(e.value.value.status)
    decreases |log|
  {
    if log != [] {
      ActiveIsOpen(log[..|log| - 1]);
      assert log[|log| - 1].Other? && log[|log| - 1].b.Create? ==> !Terminal(log[|log| - 1].b.job.status);
    }
  }

  /** However updates, reads, expiry and restarts interleave, a job that is listed as active and
      still there has not ended. */
  lemma ActiveNeverTerminal(events: seq<Event<JobChange, Touch>>)
    requires Possible(STORE, Initial(ABSENT), events)
    requires CreatedOpen(After(STORE, Initial(ABSENT), events).log)
    ensures var e := After(STORE, Initial(ABSENT), events).state;
            e.rest && e.value.Some? ==> !Terminal(e.value.value.status)
  {
    hide Sequential, ClientSound;
    CommitsRunOneAtATime(STORE, ABSENT, events);
    ActiveIsOpen(After(STORE, Initial(ABSENT), events).log);
  }

  /** Commands that keep to the life of a job: it is created once and open, an ended job is not
      reopened, and only a missing one is taken off the list. */
  ghost predicate KeepsToLife(log: Log, k: nat)
    requires k < |log|
  {
    var before := Stored(log[..k]);
    match log[k]
    case Commit(_, change) =>
      before.value.Some? && Terminal(before.value.value.status) ==>
        Terminal(Changed(before.value.value, change).status)
    case Other(Create(job)) => !Terminal(job.status)
    case Other(Unlist) => before.value.None?
    case _ => true
  }

  /** Then the list is exact: a stored job is on it if and only if it has not ended, so a restart
      finds precisely the jobs to fail. */
  lemma {:induction false} ActiveExactly(log: Log)
    requires forall k :: 0 <= k < |log| ==> KeepsToLife(log, k)
    ensures var e := Stored(log); e.value.Some? ==> (e.rest <==> !Terminal(e.value.value.status))
    decreases |log|
  {
    if log != [] {
      var init := log[..|log| - 1];
      forall k | 0 <= k < |init|
        ensures KeepsToLife(init, k)
      {
        assert KeepsToLife(log, k);
        assert init[..k] == log[..k];
      }
      ActiveExactly(init);
      assert KeepsToLife(log, |init|);
    }
  }

  // ---------------------------------------------------------------- no lost increments

  datatype Counters = Counters(processed: nat, skipped: nat, failed: nat, entities: nat, relationships: nat,
                               chunks: nat)

  function CountersOf(job: IndexJob): Counters {
    Counters(job.processed, job.skipped, job.failed, job.entities, job.relationships, job.chunks)
  }

  function Plus(c: Counters, change: JobChange): Counters {
    match change
    case Add(processed, skipped, failed, entities, relationships, chunks) =>
      Counters(c.processed + processed, c.skipped + skipped, c.failed + failed,
               c.entities + entities, c.relationships + relationships, c.chunks + chunks)
    case _ => c
  }

  /** The sum of every committed increment. */
  function Total(log: Log): Counters {
    if log == [] then Counters(0, 0, 0, 0, 0, 0)
    else
      var before := Total(log[..|log| - 1]);
      match log[|log| - 1]
      case Commit(_, change) => Plus(before, change)
      case Other(_) => before
  }

  /** The job is created first, new, and its key does not expire. */
  ghost predicate Lives(log: Log) {
    && log != [] && log[0].Other? && log[0].b.Create? && CountersOf(log[0].b.job) == Counters(0, 0, 0, 0, 0, 0)
    && forall k :: 0 < k < |log| && log[k].Other? ==> log[k].b.Refresh? || log[k].b.Unlist?
  }

  lemma {:induction false} CountersAddUp(log: Log)
    requires Lives(log)
    ensures Stored(log).value.Some? && CountersOf(Stored(log).value.value) == Total(log)
    decreases |log|
  {
    var init, last := log[..|log| - 1], log[|log| - 1];
    if init == [] {
      assert log == [log[0]];
      assert Stored([]) == ABSENT && Total([]) == Counters(0, 0, 0, 0, 0, 0);
    } else {
      CountersAddUp(init);
      assert last.Other? ==> last.b.Refresh? || last.b.Unlist?;
    }
  }

  /** In every interleaving of concurrent increments the counters are the sums of all committed
      increments: none is lost, none counted twice. */
  lemma NoLostIncrements(events: seq<Event<JobChange, Touch>>)
    requires Possible(STORE, Initial(ABSENT), events)
    requires Lives(After(STORE, Initial(ABSENT), events).log)
    ensures var s := After(STORE, Initial(ABSENT), events);
            && s.state.value.Some? && CountersOf(s.state.value.value) == Total(s.log)
            && forall c :: c in s.clients && s.clients[c].phase.Done? ==> Logged(s.log, c)
  {
    hide Sequential, ClientSound, Total;
    CommitsRunOneAtATime(STORE, ABSENT, events);
    var s := After(STORE, Initial(ABSENT), events);
    CountersAddUp(s.log);
    forall c | c in s.clients && s.clients[c].phase.Done?
      ensures Logged(s.log, c)
    {
      DoneIsLogged(s, c);
    }
  }

  lemma DoneIsLogged(s: System<Option<IndexJob>, bool, JobChange, Touch>, c: nat)
    requires c in s.clients && s.clients[c].phase.Done? && ClientSound(STORE, ABSENT, s, c)
    ensures Logged(s.log, c)
  {
    var k: nat :| CommittedAt(STORE, ABSENT, s.log, c, s.clients[c].op, s.clients[c].phase.result, k)
                  && NotElsewhere(s.log, c, k);
  }

  // ---------------------------------------------------------------- refinement

  /** The in-memory store's record after the same calls. */
  function InMemory(log: Log): Option<IndexJob> {
    if log == [] then None
    else
      var before := InMemory(log[..|log| - 1]);
      match log[|log| - 1]
      case Commit(_, change) => if before.Some? then Some(Changed(before.value, change)) else None
      case Other(Create(job)) => Some(job)
      case Other(Expire) => None
      case Other(_) => before
  }

  lemma {:induction false} StoredLikeMemory(log: Log)
    ensures var kept := InMemory(log);
            Stored(log).value == if kept.Some? then Some(Persisted(kept.value)) else None
    decreases |log|
  {
    if log != [] {
      StoredLikeMemory(log[..|log| - 1]);
    }
  }

  /** The Redis store holds what the in-memory store would hold after the committed calls in
      commit order, and exactly that if and only if the closing deleted and renamed counts, which
      JSON drops, are zero. */
  lemma RedisRefinesMemory(events: seq<Event<JobChange, Touch>>)
    requires Possible(STORE, Initial(ABSENT), events)
    ensures var s := After(STORE, Initial(ABSENT), events);
            var kept := InMemory(s.log);
            && s.state.value == (if kept.Some? then Some(Persisted(kept.value)) else None)
            && (s.state.value == kept <==> (kept.Some? ==> kept.value.deleted == 0 && kept.value.renamed == 0))
  {
    hide Sequential, ClientSound, InMemory;
    CommitsRunOneAtATime(STORE, ABSENT, events);
    StoredLikeMemory(After(STORE, Initial(ABSENT), events).log);
  }

  /** The counts are lost on a concrete run. */
  lemma CountsAreDropped()
    ensures var log: Log := [Other(Create(NewJob("1", "r", "a", Full))), Commit(0, SetRemoved(1, 2))];
            && InMemory(log).Some? && InMemory(log).value.deleted == 1 && InMemory(log).value.renamed == 2
            && Stored(log).value.Some? && Stored(log).value.value.deleted == 0 && Stored(log).value.value.renamed == 0
  {
    var create: Command<JobChange, Touch> := Other(Create(NewJob("1", "r", "a", Full)));
    var log: Log := [create, Commit(0, SetRemoved(1, 2))];
    assert log[..1] == [create];
    assert [create][..0] == [];
    StoredLikeMemory(log);
  }
}

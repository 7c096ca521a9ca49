/** Concurrent index requests: idempotency claims, repository locks, and the tasks between them. */
module Coordination {
  import opened IndexerStores

  const POLLS: nat := 20

  /** A request and its task, step by step.  Each has its own proposed job id, which also stands
      for the token of its lock. */
  datatype Phase =
    | Arrived
    | Claimed                              // its SET NX succeeded
    | Beaten                               // it failed
    | Following(id: string, polls: nat)    // GET returned another's id; looking for that job
    | Returned(id: string)
    | GaveUp                               // the claimed job was not registered in time
    | Spawned                              // job created, task started, id returned
    | Running                              // the task holds the lock
    | LockedOut                            // it did not get it, and its job has failed
    | Finished                             // lock released

  datatype Request = Request(identity: string, repository: string, phase: Phase)

  /** A call on the graph, the vectors or the manifests of a repository, by a job. */
  datatype Write = Write(id: string, repository: string)

  datatype System = System(claims: map<string, string>, locks: map<string, string>, requests: map<string, Request>,
                           writes: seq<Write>)

  const IDLE := System(map[], map[], map[], [])

  datatype Event =
    | Arrive(id: string, identity: string, repository: string)
    | SetClaim(id: string)
    | GetClaim(id: string)
    | Poll(id: string)
    | Create(id: string)
    | Acquire(id: string)
    | Store(id: string)
    | Release(id: string)

  predicate At(s: System, id: string, phase: Phase) {
    id in s.requests && s.requests[id].phase == phase
  }

  /** The job an id names is in the store. */
  predicate Registered(s: System, id: string) {
    id in s.requests && Registers(s.requests[id].phase)
  }

  predicate Registers(phase: Phase) {
    phase.Spawned? || phase.Running? || phase.LockedOut? || phase.Finished?
  }

  predicate Enabled(s: System, e: Event) {
    match e
    case Arrive(id, _, _) => id !in s.requests
    case SetClaim(id) => At(s, id, Arrived)
    case GetClaim(id) => At(s, id, Beaten) && s.requests[id].identity in s.claims
    case Poll(id) => id in s.requests && s.requests[id].phase.Following?
    case Create(id) => At(s, id, Claimed)
    case Acquire(id) => At(s, id, Spawned)
    case Store(id) => At(s, id, Running)
    case Release(id) => At(s, id, Running)
  }

  function Moved(s: System, id: string, phase: Phase): System
    requires id in s.requests
  {
    s.(requests := s.requests[id := s.requests[id].(phase := phase)])
  }

  function Next(s: System, e: Event): System
    requires Enabled(s, e)
  {
    match e
    case Arrive(id, identity, repository) => s.(requests := s.requests[id := Request(identity, repository, Arrived)])
    case SetClaim(id) =>
      var identity := s.requests[id].identity;
      Moved(s.(claims := Claim(s.claims, identity, id)), id, if identity in s.claims then Beaten else Claimed)
    case GetClaim(id) => Moved(s, id, Following(s.claims[s.requests[id].identity], 0))
    case Poll(id) =>
      var p := s.requests[id].phase;
      Moved(s, id, if Registered(s, p.id) then Returned(p.id)
                   else if p.polls + 1 == POLLS then GaveUp
                   else Following(p.id, p.polls + 1))
    case Create(id) => Moved(s, id, Spawned)
    case Acquire(id) =>
      var repository := s.requests[id].repository;
      Moved(s.(locks := Lock(s.locks, repository, id)), id, if repository in s.locks then LockedOut else Running)
    case Store(id) => s.(writes := s.writes + [Write(id, s.requests[id].repository)])
    case Release(id) => Moved(s.(locks := Unlock(s.locks, s.requests[id].repository, id)), id, Finished)
  }

  predicate Possible(events: seq<Event>)
    decreases |events|, 0
  {
    events == [] || (Possible(events[..|events| - 1]) && Enabled(After(events[..|events| - 1]), events[|events| - 1]))
  }

  function After(events: seq<Event>): System
    requires Possible(events)
    decreases |events|, 1
  {
    if events == [] then IDLE else Next(After(events[..|events| - 1]), events[|events| - 1])
  }

  // ---------------------------------------------------------------- one job per identity

  predicate HoldsClaim(phase: Phase) {
    phase.Claimed? || Registers(phase)
  }

  /** The claim of an identity is the id of the one request that won it, and the others follow it. */
  ghost predicate RequestSound(s: System, id: string)
    requires id in s.requests
  {
    var identity, phase := s.requests[id].identity, s.requests[id].phase;
    && (HoldsClaim(phase) ==> identity in s.claims && s.claims[identity] == id)
    && (phase.Beaten? ==> identity in s.claims)
    && (phase.Following? ==> identity in s.claims && s.claims[identity] == phase.id && phase.polls < POLLS)
    && (phase.Returned? ==> identity in s.claims && s.claims[identity] == phase.id && Registered(s, phase.id))
  }

  ghost predicate ClaimSound(s: System, identity: string)
    requires identity in s.claims
  {
    var id := s.claims[identity];
    id in s.requests && s.requests[id].identity == identity && HoldsClaim(s.requests[id].phase)
  }

  ghost predicate ClaimsSound(s: System) {
    && (forall id :: id in s.requests ==> RequestSound(s, id))
    && (forall identity :: identity in s.claims ==> ClaimSound(s, identity))
  }

  // ---------------------------------------------------------------- one running job per repository

  ghost predicate LocksSound(s: System) {
    && (forall id :: id in s.requests && s.requests[id].phase.Running? ==>
          s.requests[id].repository in s.locks && s.locks[s.requests[id].repository] == id)
    && (forall repository :: repository in s.locks ==>
          var id := s.locks[repository];
          At(s, id, Running) && s.requests[id].repository == repository)
  }

  // ---------------------------------------------------------------- writes do not interleave

  predicate SameRepository(writes: seq<Write>, i: nat, j: nat)
    requires i < |writes| && j < |writes|
  {
    writes[i].repository == writes[j].repository
  }

  /** Each write is by a job that got the lock, and a job whose repository someone else has
      written since is finished. */
  ghost predicate WritesSound(s: System) {
    && (forall i :: 0 <= i < |s.writes| ==>
          var id := s.writes[i].id;
          id in s.requests && s.requests[id].repository == s.writes[i].repository
          && (s.requests[id].phase.Running? || s.requests[id].phase.Finished?))
    && (forall i, j :: 0 <= i < j < |s.writes| && SameRepository(s.writes, i, j) && s.writes[i].id != s.writes[j].id ==>
          s.requests[s.writes[i].id].phase.Finished?)
  }

  /** Jobs of one repository write one after the other: between two writes of a job no other job
      writes to the repository. */
  ghost predicate Serial(writes: seq<Write>) {
    forall i, j, k :: 0 <= i < j < k < |writes| && SameRepository(writes, i, j) && writes[i].id == writes[k].id ==>
      writes[j].id == writes[i].id
  }

  /** A step changes one request, keeps every claim made, and takes no registration back. */
  lemma OneRequestMoves(s: System, e: Event)
    requires Enabled(s, e)
    ensures var t := Next(s, e);
            && (forall id :: id in s.requests ==>
                  && id in t.requests && (id == e.id || t.requests[id] == s.requests[id])
                  && t.requests[id].identity == s.requests[id].identity
                  && t.requests[id].repository == s.requests[id].repository)
            && (forall id :: id in t.requests && id != e.id ==> id in s.requests)
            && (forall id :: Registered(s, id) ==> Registered(t, id))
            && (forall identity :: identity in s.claims ==>
                identity in t.claims && t.claims[identity] == s.claims[identity])
            && (forall identity :: identity in t.claims && identity !in s.claims ==>
                  e.SetClaim? && t.claims[identity] == e.id && s.requests[e.id].identity == identity)
  {
  }

  lemma MovedRequestSound(s: System, e: Event)
    requires Enabled(s, e) && (e.id in s.requests ==> RequestSound(s, e.id))
    ensures e.id in Next(s, e).requests && RequestSound(Next(s, e), e.id)
  {
    OneRequestMoves(s, e);
  }

  lemma ClaimsStaySound(s: System, e: Event)
    requires Enabled(s, e) && ClaimsSound(s)
    ensures ClaimsSound(Next(s, e))
  {
    hide RequestSound, HoldsClaim;
    var t := Next(s, e);
    OneRequestMoves(s, e);
    forall id | id in t.requests
      ensures RequestSound(t, id)
    {
      if id == e.id {
        MovedRequestSound(s, e);
      } else {
        OtherRequestSound(s, e, id);
      }
    }
    forall identity | identity in t.claims
      ensures ClaimSound(t, identity)
    {
      if identity in s.claims {
        assert ClaimSound(s, identity);
        HolderStays(s, e, s.claims[identity]);
      } else {
        NewHolder(s, e);
      }
    }
  }

  lemma OtherRequestSound(s: System, e: Event, id: string)
    requires Enabled(s, e) && id != e.id && id in s.requests && RequestSound(s, id)
    ensures RequestSound(Next(s, e), id)
  {
    hide Next, Enabled;
    OneRequestMoves(s, e);
  }

  lemma NewHolder(s: System, e: Event)
    requires Enabled(s, e) && e.SetClaim? && s.requests[e.id].identity !in s.claims
    ensures HoldsClaim(Next(s, e).requests[e.id].phase)
  {
  }

  lemma HolderStays(s: System, e: Event, id: string)
    requires Enabled(s, e) && id in s.requests && HoldsClaim(s.requests[id].phase)
    ensures HoldsClaim(Next(s, e).requests[id].phase)
  {
  }

  lemma LocksStaySound(s: System, e: Event)
    requires Enabled(s, e) && LocksSound(s)
    ensures LocksSound(Next(s, e))
  {
  }

  lemma WritesStaySound(s: System, e: Event)
    requires Enabled(s, e) && LocksSound(s) && WritesSound(s) && Serial(s.writes)
    ensures WritesSound(Next(s, e)) && Serial(Next(s, e).writes)
  {
    if e.Store? {
      StoreStaysSound(s, e.id);
    } else {
      hide Serial;
      OneRequestMoves(s, e);
      WritersStay(s, e);
      assert Next(s, e).writes == s.writes;
    }
  }

  lemma WritersStay(s: System, e: Event)
    requires Enabled(s, e) && !e.Store?
    ensures Next(s, e).writes == s.writes
    ensures forall id :: id in s.requests && s.requests[id].phase.Finished? ==> Next(s, e).requests[id].phase.Finished?
    ensures forall id :: id in s.requests && s.requests[id].phase.Running? ==>
              Next(s, e).requests[id].phase.Running? || Next(s, e).requests[id].phase.Finished?
  {
  }

  /** A write keeps writes serial unless another job wrote to its repository since its last. */
  lemma SerialSnoc(writes: seq<Write>, w: Write)
    requires Serial(writes)
    requires forall i, j :: 0 <= i < j < |writes| && SameRepository(writes, i, j) && writes[i].id == w.id ==>
               writes[j].id == w.id
    ensures Serial(writes + [w])
  {
    var more := writes + [w];
    forall i, j, k | 0 <= i < j < k < |more| && SameRepository(more, i, j) && more[i].id == more[k].id
      ensures more[j].id == more[i].id
    {
      assert SameRepository(writes, i, j);
    }
  }

  lemma StoreStaysSound(s: System, id: string)
    requires At(s, id, Running) && LocksSound(s) && WritesSound(s) && Serial(s.writes)
    ensures WritesSound(Next(s, Store(id))) && Serial(Next(s, Store(id)).writes)
  {
    hide Serial;
    var t := Next(s, Store(id));
    var n := |s.writes|;
    assert forall i :: 0 <= i < n ==> t.writes[i] == s.writes[i];
    forall i | 0 <= i < n && SameRepository(t.writes, i, n) && s.writes[i].id != id
      ensures s.requests[s.writes[i].id].phase.Finished?
    {
      OnlyOneRuns(s, s.writes[i].id, id);
    }
    forall i, j | 0 <= i < j < n && SameRepository(s.writes, i, j) && s.writes[i].id == id
      ensures s.writes[j].id == id
    {
      assert !s.requests[id].phase.Finished?;
    }
    SerialSnoc(s.writes, t.writes[n]);
    assert t.writes == s.writes + [t.writes[n]];
  }

  lemma OnlyOneRuns(s: System, c: string, d: string)
    requires LocksSound(s) && c in s.requests && d in s.requests && s.requests[c].repository == s.requests[d].repository
    requires c != d && s.requests[d].phase.Running?
    ensures !s.requests[c].phase.Running?
  {
  }

  ghost predicate Sound(s: System) {
    ClaimsSound(s) && LocksSound(s) && WritesSound(s) && Serial(s.writes)
  }

  lemma {:induction false} AlwaysSound(events: seq<Event>)
    requires Possible(events)
    ensures Sound(After(events))
    decreases |events|
  {
    if events != [] {
      hide ClaimsSound, LocksSound, WritesSound, Serial, Next;
      var init, e := events[..|events| - 1], events[|events| - 1];
      AlwaysSound(init);
      ClaimsStaySound(After(init), e);
      LocksStaySound(After(init), e);
      WritesStaySound(After(init), e);
    }
  }

  /** Over every interleaving: requests with one identity create at most one job and task; every
      caller that returned has the id of that one job, which exists; at most one job of a
      repository is between acquiring and releasing the lock; a job that was locked out has
      written nothing; and the jobs of a repository write one after the other. */
  lemma JobsExcludeEachOther(events: seq<Event>, c: string, d: string)
    requires Possible(events)
    ensures Serial(After(events).writes)
    ensures var s := After(events);
            c in s.requests && d in s.requests ==>
              var p, q := s.requests[c], s.requests[d];
              && (p.identity == q.identity && Registers(p.phase) && Registers(q.phase) ==> c == d)
              && (p.identity == q.identity && p.phase.Returned? ==>
                    Registered(s, p.phase.id) && s.requests[p.phase.id].identity == p.identity
                    && (Registers(q.phase) ==> p.phase.id == d)
                    && (q.phase.Returned? ==> p.phase.id == q.phase.id))
              && (p.repository == q.repository && p.phase.Running? && q.phase.Running? ==> c == d)
              && (p.phase.LockedOut? ==> forall i :: 0 <= i < |s.writes| ==> s.writes[i].id != c)
  {
    AlwaysSound(events);
  }

  /** A lock is never stuck: when no job of a repository is running its lock is free, so the next
      one to ask gets it. */
  lemma FreeWhenNoneRuns(events: seq<Event>, repository: string)
    requires Possible(events)
    ensures var s := After(events);
            repository in s.locks
            <==> exists id ::
                   id in s.requests && s.requests[id].repository == repository && s.requests[id].phase.Running?
  {
    AlwaysSound(events);
    var s := After(events);
    if repository in s.locks {
      assert At(s, s.locks[repository], Running);
    }
  }

  /** A request that did not win its claim ends: it finds the job or gives up after POLLS looks. */
  lemma FollowersEnd(events: seq<Event>, id: string)
    requires Possible(events)
    ensures var s := After(events);
            id in s.requests && s.requests[id].phase.Following? ==>
              var p := Next(s, Poll(id)).requests[id].phase;
              && s.requests[id].phase.polls < POLLS
              && (p.Returned? <==> Registered(s, s.requests[id].phase.id))
              && (p.Following? ==> p.polls == s.requests[id].phase.polls + 1 < POLLS)
  {
    AlwaysSound(events);
  }
}

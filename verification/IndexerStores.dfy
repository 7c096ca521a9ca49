/** The vector store, the manifest store, the in-process job store and the coordination. */
module IndexerStores {
  import opened Contracts
  import opened IndexStores
  import opened IndexJobs

  ghost function Moved(some: set<PointKey>, target: string): set<PointKey> {
    set p | p in some :: p.(revision := target)
  }

  /** Points of one revision under another's keys. */
  ghost function Copies(points: Points, some: set<PointKey>, source: string, target: string): Points
    requires some <= points.Keys && forall p :: p in some ==> p.revision == source
  {
    map k | k in Moved(some, target) :: points[k.(revision := source)]
  }

  lemma MovedOneMore(some: set<PointKey>, target: string, p: PointKey)
    ensures Moved(some + {p}, target) == Moved(some, target) + {p.(revision := target)}
  {
    assert p in some + {p};
    forall x | x in some
      ensures x.(revision := target) in Moved(some + {p}, target)
    {
      assert x in some + {p};
    }
  }

  lemma CopyOneMore(points: Points, some: set<PointKey>, source: string, target: string, p: PointKey)
    requires some + {p} <= points.Keys && forall x :: x in some + {p} ==> x.revision == source
    ensures Copies(points, some + {p}, source, target)
            == Copies(points, some, source, target)[p.(revision := target) := points[p]]
  {
    assert p.(revision := target).(revision := source) == p;
    MovedOneMore(some, target, p);
  }

  lemma FilePointsStored(points: Points, repository: string, revision: string, path: string)
    ensures forall p :: p in FilePoints(points, repository, revision, path) ==> p in points && p.revision == revision
  {
  }

  lemma CopiesAreThese(points: Points, page: set<PointKey>, source: string, target: string)
    requires page <= points.Keys && forall p :: p in page ==> p.revision == source
    ensures Copies(points, page, source, target)
            == map k | k in (set p | p in page :: p.(revision := target)) :: points[k.(revision := source)]
  {
    assert Moved(page, target) == set p | p in page :: p.(revision := target);
  }

  lemma CarryIsCopies(server: Server, points: Points, repository: string, source: string, target: string, path: string)
    ensures var page := server.page(FilePoints(points, repository, source, path));
            && page <= FilePoints(points, repository, source, path)
            && CarryPoints(server, points, repository, source, target, path)
               == points + Copies(points, page, source, target)
  {
    hide PageOf, FilePoints, Copies, Moved;
    var page := server.page(FilePoints(points, repository, source, path));
    PageWithin(server, FilePoints(points, repository, source, path));
    FilePointsStored(points, repository, source, path);
    CopiesAreThese(points, page, source, target);
  }

  /** Each point of a page again, under the target revision. */
  method CopyPage(points: Points, page: set<PointKey>, source: string, target: string) returns (copied: Points)
    requires page <= points.Keys && forall p :: p in page ==> p.revision == source
    ensures copied == Copies(points, page, source, target)
  {
    var pending := page;
    copied := map[];
    assert page - pending == {};
    while pending != {}
      invariant pending <= page
      invariant copied == Copies(points, page - pending, source, target)
      decreases |pending|
    {
      var p :| p in pending;
      CopyOneMore(points, page - pending, source, target, p);
      assert page - (pending - {p}) == (page - pending) + {p};
      copied := copied[p.(revision := target) := points[p]];
      pending := pending - {p};
    }
    assert page - {} == page;
  }

  class QdrantSemanticStore {
    var points: Points

    constructor ()
      ensures points == map[]
    {
      points := map[];
    }

    /** Delete the file's points, then upsert its documents.  The ghost result names the calls
        that took effect; a call that raises has either taken effect or not. */
    method IndexFile(q: Request, path: string, documents: seq<SemanticDocument>)
        returns (ok: bool, count: nat, ghost done: seq<Op>)
      modifies this
      ensures done <= IndexVectors(q, path, documents)
      ensures ok ==> done == IndexVectors(q, path, documents) && count == |documents|
      ensures points == if done == [] then old(points)
                        else if |done| == 1 then DropPoints(old(points), q.repository, q.revision, path)
                        else DropPoints(old(points), q.repository, q.revision, path)
                             + DocumentMap(q.repository, q.revision, documents)
    {
      count, done := 0, [];
      ok := *;
      if !ok { return; }
      points := map k | k in points && !PointOf(k, points[k], q.repository, q.revision, path) :: points[k];
      done := [DropVectors(q.repository, q.revision, path)];
      ok := *;
      if !ok || documents == [] { return; }
      ghost var dropped := points;
      for i := 0 to |documents|
        invariant points == dropped + DocumentMap(q.repository, q.revision, documents[..i])
      {
        assert documents[..i + 1][..i] == documents[..i];
        points := points[PointKey(q.repository, q.revision, documents[i].entity.id) := documents[i]];
      }
      assert documents[..|documents|] == documents;
      done := IndexVectors(q, path, documents);
      count := |documents|;
      ok := *;
    }

    /** Copy one scroll page of the file's points to the target revision. */
    method CarryForwardFile(q: Request, source: string, path: string)
        returns (ok: bool, count: nat, ghost done: seq<Op>)
      modifies this
      ensures ok ==> count == CarryCount(q.server, old(points), q.repository, source, path)
      ensures done == [] || done == [CarryVectors(q.server, q.repository, source, q.revision, path)]
      ensures ok ==> done != []
      ensures points == if done == [] then old(points)
                        else CarryPoints(q.server, old(points), q.repository, source, q.revision, path)
    {
      count, done := 0, [];
      ok := *;
      if !ok { return; }
      hide PageOf, CarryPoints;
      var page := q.server.page(FilePoints(points, q.repository, source, path));
      CarryIsCopies(q.server, points, q.repository, source, q.revision, path);
      var copied := CopyPage(points, page, source, q.revision);
      points := points + copied;
      count := |page|;
      done := [CarryVectors(q.server, q.repository, source, q.revision, path)];
      ok := *;
    }

    method DeleteFile(q: Request, path: string) returns (ok: bool, ghost done: seq<Op>)
      modifies this
      ensures done == [] || done == [DropVectors(q.repository, q.revision, path)]
      ensures ok ==> done != []
      ensures points == if done == [] then old(points) else DropPoints(old(points), q.repository, q.revision, path)
    {
      done := [];
      ok := *;
      if !ok { return; }
      points := map k | k in points && !PointOf(k, points[k], q.repository, q.revision, path) :: points[k];
      done := [DropVectors(q.repository, q.revision, path)];
      ok := *;
    }
  }

  class InMemoryIndexManifestStore {
    var items: Manifests

    constructor ()
      ensures items == map[]
    {
      items := map[];
    }

    method Get(repository: string, path: string) returns (m: Option<Manifest>)
      ensures m == Previous(items, repository, path)
    {
      m := if (repository, path) in items then Some(items[(repository, path)]) else None;
    }

    /** As with the other stores, a call that raises has taken effect or not. */
    method Put(repository: string, path: string, m: Manifest) returns (ok: bool, ghost effect: bool)
      modifies this
      ensures ok ==> effect
      ensures items == if effect then old(items)[(repository, path) := m] else old(items)
    {
      ok, effect := *, false;
      if !ok { return; }
      items := items[(repository, path) := m];
      ok, effect := *, true;
    }

    method List(repository: string) returns (m: map<string, Manifest>)
      ensures m.Keys == set k | k in items && k.0 == repository :: k.1
      ensures forall p :: p in m ==> (repository, p) in items && m[p] == items[(repository, p)]
    {
      var keys := set k | k in items && k.0 == repository :: k.1;
      forall p | p in keys ensures (repository, p) in items {
        var k :| k in items && k.0 == repository && k.1 == p;
        assert k == (repository, p);
      }
      m := map p | p in keys :: items[(repository, p)];
    }

    method Delete(repository: string, path: string) returns (ok: bool, ghost effect: bool)
      modifies this
      ensures ok ==> effect
      ensures items == if effect then old(items) - {(repository, path)} else old(items)
    {
      ok, effect := *, false;
      if !ok { return; }
      items := items - {(repository, path)};
      ok, effect := *, true;
    }
  }

  const INTERRUPTED := Some("Indexer restarted before the job completed")

  /** What restarting does to one job. */
  function Interrupted(job: IndexJob): IndexJob {
    if Terminal(job.status) then job else job.(status := JobStatus.Failed, error := INTERRUPTED)
  }

  /** A job that is pending or running fails, with the reason; one that has ended stays. */
  lemma InterruptedExactly(job: IndexJob)
    ensures Interrupted(job)
            == if job.status == Pending || job.status == Running
               then job.(status := JobStatus.Failed, error := INTERRUPTED) else job
  {
  }

  class InMemoryIndexJobStore {
    var jobs: map<string, IndexJob>

    constructor ()
      ensures jobs == map[]
    {
      jobs := map[];
    }

    method Create(job: IndexJob) returns (r: IndexJob)
      modifies this
      ensures jobs == old(jobs)[job.id := job] && r == job
    {
      jobs := jobs[job.id := job];
      r := job;
    }

    method Get(id: string) returns (r: Option<IndexJob>)
      ensures r == if id in jobs then Some(jobs[id]) else None
    {
      r := if id in jobs then Some(jobs[id]) else None;
    }

    /** update() and increment(); an unknown job is a KeyError. */
    method Update(id: string, change: JobChange) returns (r: Option<IndexJob>)
      modifies this
      ensures if id in old(jobs)
              then r == Some(Changed(old(jobs)[id], change)) && jobs == old(jobs)[id := r.value]
              else r == None && jobs == old(jobs)
    {
      if id !in jobs { return None; }
      var job := Changed(jobs[id], change);
      jobs := jobs[id := job];
      r := Some(job);
    }

    method FailInterrupted() returns (count: nat)
      modifies this
      ensures jobs.Keys == old(jobs).Keys
      ensures forall id :: id in jobs ==> jobs[id] == Interrupted(old(jobs)[id])
      ensures count == |set id | id in old(jobs) && !Terminal(old(jobs)[id].status)|
    {
      var pending := jobs.Keys;
      ghost var failed: set<string> := {};
      count := 0;
      while pending != {}
        invariant pending <= jobs.Keys == old(jobs).Keys
        invariant failed == set id | id in old(jobs) && id !in pending && !Terminal(old(jobs)[id].status)
        invariant count == |failed|
        invariant forall id :: id in jobs ==>
          jobs[id] == if id in pending then old(jobs)[id] else Interrupted(old(jobs)[id])
        decreases |pending|
      {
        var id :| id in pending;
        pending := pending - {id};
        if !Terminal(jobs[id].status) {
          jobs := jobs[id := jobs[id].(status := JobStatus.Failed, error := INTERRUPTED)];
          failed := failed + {id};
          count := count + 1;
        }
      }
      assert failed == set id | id in old(jobs) && !Terminal(old(jobs)[id].status);
    }
  }

  // ---------------------------------------------------------------- coordination

  /** dict.setdefault, and SET NX followed by GET. */
  function Claim(claims: map<string, string>, identity: string, job: string): map<string, string> {
    if identity in claims then claims else claims[identity := job]
  }

  /** SET NX on a lock. */
  function Lock(locks: map<string, string>, repository: string, token: string): map<string, string> {
    if repository in locks then locks else locks[repository := token]
  }

  /** A release whose token does not match does nothing. */
  function Unlock(locks: map<string, string>, repository: string, token: string): map<string, string> {
    if repository in locks && locks[repository] == token then locks - {repository} else locks
  }

  class InMemoryIndexCoordination {
    var claims: map<string, string>
    var locks: map<string, string>

    constructor ()
      ensures claims == map[] && locks == map[]
    {
      claims, locks := map[], map[];
    }

    method ClaimIdempotency(identity: string, job: string) returns (r: string)
      modifies this`claims
      ensures claims == Claim(old(claims), identity, job) && r == claims[identity]
      ensures r == if identity in old(claims) then old(claims)[identity] else job
      ensures claims.Keys == old(claims).Keys + {identity}
      ensures forall i :: i in old(claims) ==> claims[i] == old(claims)[i]
    {
      if identity !in claims {
        claims := claims[identity := job];
      }
      r := claims[identity];
    }

    method AcquireRepositoryLock(repository: string, token: string) returns (ok: bool)
      modifies this`locks
      ensures locks == Lock(old(locks), repository, token)
      ensures ok <==> repository !in old(locks)
      ensures if ok then locks == old(locks)[repository := token] else locks == old(locks)
    {
      ok := repository !in locks;
      if ok {
        locks := locks[repository := token];
      }
    }

    method ReleaseRepositoryLock(repository: string, token: string)
      modifies this`locks
      ensures locks == Unlock(old(locks), repository, token)
      ensures repository in locks <==> repository in old(locks) && old(locks)[repository] != token
      ensures forall r :: r != repository || r in locks ==>
                (r in locks <==> r in old(locks)) && (r in locks ==> locks[r] == old(locks)[r])
    {
      if repository in locks && locks[repository] == token {
        locks := locks - {repository};
      }
    }
  }
}

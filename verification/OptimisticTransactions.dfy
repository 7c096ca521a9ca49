/** Redis optimistic transactions: WATCH, GET, compute, MULTI/EXEC, and again on a WatchError. */
module OptimisticTransactions {
  import opened Contracts

  /** The value under the watched key, and what is kept under other keys beside it. */
  datatype Keys<V, R> = Keys(value: V, rest: R)

  /** What one retry loop writes, given the value it read (None: it raises instead), and what its
      transaction does to the other keys then; what the other commands write under the watched
      key (None: they do not touch it) and do to the other keys. */
  datatype Semantics<!V, !R, !O, !B> =
    Semantics(write: (V, O) -> Option<V>, settle: (R, V) -> R, touch: (V, B) -> Option<V>, beside: (R, B) -> R)

  datatype Phase<V> = Ready | Watching(version: nat) | Loaded(version: nat, seen: V) | Done(result: V) | Refused

  datatype Client<V, O> = Client(op: O, phase: Phase<V>)

  datatype Command<O, B> = Commit(client: nat, op: O) | Other(b: B)

  /** The version of the watched key is the number of commands that touched it. */
  datatype System<V, R, O, B> =
    System(state: Keys<V, R>, version: nat, log: seq<Command<O, B>>, clients: map<nat, Client<V, O>>)

  datatype Event<O, B> =
    | Call(client: nat, op: O)
    | Watch(client: nat)
    | Get(client: nat)
    | Exec(client: nat)
    | Abort(client: nat)
    | Else(b: B)

  function Moved<V, R, O, B>(s: System<V, R, O, B>, c: nat, phase: Phase<V>): System<V, R, O, B>
    requires c in s.clients
  {
    s.(clients := s.clients[c := s.clients[c].(phase := phase)])
  }

  function Executed<V, R, O, B>(m: Semantics<V, R, O, B>, s: Keys<V, R>, command: Command<O, B>): Keys<V, R> {
    match command
    case Commit(_, op) =>
      (match m.write(s.value, op)
       case Some(value) => Keys(value, m.settle(s.rest, value))
       case None => s)
    case Other(b) =>
      var value := match m.touch(s.value, b) case Some(touched) => touched case None => s.value;
      Keys(value, m.beside(s.rest, b))
  }

  predicate TouchesKey<V, R, O, B>(m: Semantics<V, R, O, B>, s: Keys<V, R>, command: Command<O, B>) {
    match command
    case Commit(_, op) => m.write(s.value, op).Some?
    case Other(b) => m.touch(s.value, b).Some?
  }

  /** EXEC goes through when nothing touched the key since WATCH; it may also fail for no reason. */
  predicate Enabled<V, R, O, B>(s: System<V, R, O, B>, e: Event<O, B>) {
    match e
    case Call(c, _) => c !in s.clients
    case Watch(c) => c in s.clients && s.clients[c].phase.Ready?
    case Get(c) => c in s.clients && s.clients[c].phase.Watching?
    case Exec(c) => c in s.clients && s.clients[c].phase.Loaded? && s.clients[c].phase.version == s.version
    case Abort(c) => c in s.clients && s.clients[c].phase.Loaded?
    case Else(_) => true
  }

  /** The transaction writes what was computed from the value read earlier. */
  function Next<V, R, O, B>(m: Semantics<V, R, O, B>, s: System<V, R, O, B>, e: Event<O, B>): System<V, R, O, B>
    requires Enabled(s, e)
  {
    match e
    case Call(c, op) => s.(clients := s.clients[c := Client(op, Ready)])
    case Watch(c) => Moved(s, c, Watching(s.version))
    case Get(c) =>
      if m.write(s.state.value, s.clients[c].op).None? then Moved(s, c, Refused)
      else Moved(s, c, Loaded(s.clients[c].phase.version, s.state.value))
    case Exec(c) =>
      var w := m.write(s.clients[c].phase.seen, s.clients[c].op);
      if w.None? then Moved(s, c, Refused)
      else
        var state := Keys(w.value, m.settle(s.state.rest, w.value));
        Moved(s.(state := state, version := s.version + 1, log := s.log + [Commit(c, s.clients[c].op)]),
              c, Done(w.value))
    case Abort(c) => Moved(s, c, Ready)
    case Else(b) =>
      var version := s.version + if TouchesKey(m, s.state, Other(b)) then 1 else 0;
      s.(state := Executed(m, s.state, Other(b)), version := version, log := s.log + [Other(b)])
  }

  predicate Possible<V, R, O, B>(m: Semantics<V, R, O, B>, s: System<V, R, O, B>, events: seq<Event<O, B>>)
    decreases |events|, 0
  {
    events == []
    || (Possible(m, s, events[..|events| - 1]) && Enabled(After(m, s, events[..|events| - 1]), events[|events| - 1]))
  }

  function After<V, R, O, B>(m: Semantics<V, R, O, B>, s: System<V, R, O, B>,
                             events: seq<Event<O, B>>): System<V, R, O, B>
    requires Possible(m, s, events)
    decreases |events|, 1
  {
    if events == [] then s else Next(m, After(m, s, events[..|events| - 1]), events[|events| - 1])
  }

  function Initial<V, R, O, B>(state: Keys<V, R>): System<V, R, O, B> {
    System(state, 0, [], map[])
  }

  // ---------------------------------------------------------------- one at a time

  /** The commands one after the other, each on the state the one before left. */
  function Sequential<V, R, O, B>(m: Semantics<V, R, O, B>, state: Keys<V, R>, log: seq<Command<O, B>>): Keys<V, R> {
    if log == [] then state else Executed(m, Sequential(m, state, log[..|log| - 1]), log[|log| - 1])
  }

  /** How many of the commands touched the watched key. */
  function Touches<V, R, O, B>(m: Semantics<V, R, O, B>, state: Keys<V, R>, log: seq<Command<O, B>>): nat {
    if log == [] then 0
    else
      var init, last := log[..|log| - 1], log[|log| - 1];
      Touches(m, state, init) + if TouchesKey(m, Sequential(m, state, init), last) then 1 else 0
  }

  predicate Logged<O, B>(log: seq<Command<O, B>>, c: nat) {
    exists k :: 0 <= k < |log| && log[k].Commit? && log[k].client == c
  }

  /** A client's commit in the log, and what it returned. */
  ghost predicate CommittedAt<V, R, O, B>(m: Semantics<V, R, O, B>, state: Keys<V, R>, log: seq<Command<O, B>>,
                                          c: nat, op: O, result: V, k: nat) {
    && k < |log| && log[k].Commit? && log[k].client == c && log[k].op == op
    && m.write(Sequential(m, state, log[..k]).value, op) == Some(result)
  }

  ghost predicate CommittedOnce<V, R, O, B>(m: Semantics<V, R, O, B>, state: Keys<V, R>, log: seq<Command<O, B>>,
                                            c: nat, op: O, result: V) {
    exists k: nat :: CommittedAt(m, state, log, c, op, result, k) && NotElsewhere(log, c, k)
  }

  predicate NotElsewhere<O, B>(log: seq<Command<O, B>>, c: nat, k: nat) {
    forall j :: 0 <= j < |log| && j != k && log[j].Commit? ==> log[j].client != c
  }

  ghost predicate ClientSound<V, R, O, B>(m: Semantics<V, R, O, B>, state: Keys<V, R>, s: System<V, R, O, B>, c: nat)
    requires c in s.clients
  {
    var op := s.clients[c].op;
    match s.clients[c].phase
    case Done(result) => CommittedOnce(m, state, s.log, c, op, result)
    case Watching(v) => v <= s.version && !Logged(s.log, c)
    case Loaded(v, seen) =>
      v <= s.version && (v == s.version ==> seen == s.state.value) && m.write(seen, op).Some? && !Logged(s.log, c)
    case _ => !Logged(s.log, c)
  }

  ghost predicate Sound<V, R, O, B>(m: Semantics<V, R, O, B>, state: Keys<V, R>, s: System<V, R, O, B>) {
    && s.state == Sequential(m, state, s.log) && s.version == Touches(m, state, s.log)
    && (forall c :: c in s.clients ==> ClientSound(m, state, s, c))
    && forall c :: Logged(s.log, c) ==> c in s.clients
  }

  lemma LogGrows<O, B>(log: seq<Command<O, B>>, command: Command<O, B>, c: nat)
    ensures Logged(log + [command], c) <==> Logged(log, c) || (command.Commit? && command.client == c)
  {
    var more := log + [command];
    if Logged(log, c) {
      var k :| 0 <= k < |log| && log[k].Commit? && log[k].client == c;
      assert more[k] == log[k];
    }
    assert more[|log|] == command;
  }

  lemma CommittedGrows<V, R, O, B>(m: Semantics<V, R, O, B>, state: Keys<V, R>, log: seq<Command<O, B>>,
                                   command: Command<O, B>,
                                c: nat, op: O, result: V)
    requires CommittedOnce(m, state, log, c, op, result) && !(command.Commit? && command.client == c)
    ensures CommittedOnce(m, state, log + [command], c, op, result)
  {
    var k: nat :| CommittedAt(m, state, log, c, op, result, k) && NotElsewhere(log, c, k);
    assert (log + [command])[..k] == log[..k];
    assert CommittedAt(m, state, log + [command], c, op, result, k);
  }

  /** Clients other than the one whose command was logged stay sound. */
  lemma OthersStaySound<V, R, O, B>(m: Semantics<V, R, O, B>, state: Keys<V, R>, s: System<V, R, O, B>,
                                    t: System<V, R, O, B>, command: Command<O, B>, d: nat)
    requires d in s.clients && ClientSound(m, state, s, d)
    requires t.log == s.log + [command] && d in t.clients && t.clients[d] == s.clients[d]
    requires t.version == s.version + (if TouchesKey(m, s.state, command) then 1 else 0)
    requires t.state == Executed(m, s.state, command)
    requires !(command.Commit? && command.client == d)
    ensures ClientSound(m, state, t, d)
  {
    hide CommittedOnce, Logged;
    LogGrows(s.log, command, d);
    if s.clients[d].phase.Done? {
      CommittedGrows(m, state, s.log, command, d, s.clients[d].op, s.clients[d].phase.result);
    }
  }

  lemma SequentialMore<V, R, O, B>(m: Semantics<V, R, O, B>, state: Keys<V, R>, log: seq<Command<O, B>>,
                                   command: Command<O, B>)
    ensures var before := Sequential(m, state, log);
            && Sequential(m, state, log + [command]) == Executed(m, before, command)
            && Touches(m, state, log + [command])
               == Touches(m, state, log) + if TouchesKey(m, before, command) then 1 else 0
  {
    assert (log + [command])[..|log|] == log;
  }

  lemma OtherKeepsSound<V, R, O, B>(m: Semantics<V, R, O, B>, state: Keys<V, R>, s: System<V, R, O, B>, b: B)
    requires Sound(m, state, s)
    ensures Sound(m, state, Next(m, s, Else(b)))
  {
    hide CommittedOnce, Logged, Sequential;
    var t := Next(m, s, Else(b));
    SequentialMore(m, state, s.log, Other(b));
    forall c
      ensures Logged(t.log, c) ==> c in t.clients
      ensures c in t.clients ==> ClientSound(m, state, t, c)
    {
      LogGrows(s.log, Other(b), c);
      if c in s.clients {
        OthersStaySound(m, state, s, t, Other(b), c);
      }
    }
  }

  lemma ExecKeepsSound<V, R, O, B>(m: Semantics<V, R, O, B>, state: Keys<V, R>, s: System<V, R, O, B>, c: nat)
    requires Sound(m, state, s) && Enabled(s, Event<O, B>.Exec(c))
    ensures Sound(m, state, Next(m, s, Exec(c)))
    ensures Next(m, s, Exec(c)).log == s.log + [Commit(c, s.clients[c].op)]
  {
    hide CommittedOnce, Logged, Sequential;
    assert ClientSound(m, state, s, c);
    var op, command := s.clients[c].op, Commit(c, s.clients[c].op);
    var t := Next(m, s, Exec(c));
    SequentialMore(m, state, s.log, command);
    assert t.state == Sequential(m, state, t.log);
    CommitPlaced(m, state, s.log, c, op);
    forall d
      ensures Logged(t.log, d) ==> d in t.clients
      ensures d in t.clients ==> ClientSound(m, state, t, d)
    {
      LogGrows(s.log, command, d);
      if d in s.clients && d != c {
        OthersStaySound(m, state, s, t, command, d);
      }
    }
  }

  lemma CommitPlaced<V, R, O, B>(m: Semantics<V, R, O, B>, state: Keys<V, R>, log: seq<Command<O, B>>, c: nat, op: O)
    requires !Logged(log, c) && m.write(Sequential(m, state, log).value, op).Some?
    ensures CommittedOnce(m, state, log + [Commit(c, op)], c, op, m.write(Sequential(m, state, log).value, op).value)
  {
    var more := log + [Commit(c, op)];
    SequentialMore(m, state, log, Commit(c, op));
    assert more[..|log|] == log;
    assert CommittedAt(m, state, more, c, op, m.write(Sequential(m, state, log).value, op).value, |log|);
  }

  lemma StepKeepsSound<V, R, O, B>(m: Semantics<V, R, O, B>, state: Keys<V, R>, s: System<V, R, O, B>, e: Event<O, B>)
    requires Sound(m, state, s) && Enabled(s, e)
    ensures Sound(m, state, Next(m, s, e))
  {
    hide CommittedOnce, Logged, Sequential;
    match e
    case Exec(c) => ExecKeepsSound(m, state, s, c);
    case Else(b) => OtherKeepsSound(m, state, s, b);
    case _ =>
      var t := Next(m, s, e);
      assert forall c :: c in s.clients ==> ClientSound(m, state, s, c);
      forall c | c in t.clients
        ensures ClientSound(m, state, t, c)
      {
      }
  }

  /** Whatever the interleaving, and however often transactions abort for no reason: the stored
      value is that of the committed operations (and the other commands on the key) run one at a
      time in commit order, each commit appears once, and each caller that returned got the value
      its own commit left.  Nothing is lost and nothing is applied twice. */
  lemma {:induction false} CommitsRunOneAtATime<V, R, O, B>(m: Semantics<V, R, O, B>, state: Keys<V, R>,
                                                            events: seq<Event<O, B>>)
    requires Possible(m, Initial(state), events)
    ensures Sound(m, state, After(m, Initial(state), events))
    decreases |events|
  {
    hide Sound, Next;
    if events == [] {
      InitialSound(m, state);
    } else {
      CommitsRunOneAtATime(m, state, events[..|events| - 1]);
      StepKeepsSound(m, state, After(m, Initial(state), events[..|events| - 1]), events[|events| - 1]);
    }
  }

  lemma InitialSound<V, R, O, B>(m: Semantics<V, R, O, B>, state: Keys<V, R>)
    ensures Sound(m, state, Initial(state))
  {
  }

  // ---------------------------------------------------------------- every abort has a cause

  /** The server aborts an attempt although nothing touched the key since its WATCH. */
  ghost predicate Spurious<V, R, O, B>(s: System<V, R, O, B>, e: Event<O, B>) {
    e.Abort? && e.client in s.clients && s.clients[e.client].phase.Loaded?
    && s.clients[e.client].phase.version == s.version
  }

  /** Any other failed attempt has a cause: since its WATCH the key was touched, by others, as the
      client has committed nothing. */
  lemma AbortHasCause<V, R, O, B>(m: Semantics<V, R, O, B>, state: Keys<V, R>, events: seq<Event<O, B>>, c: nat)
    requires Possible(m, Initial(state), events) && Enabled(After(m, Initial(state), events), Abort(c))
    requires !Spurious(After(m, Initial(state), events), Abort(c))
    ensures var s := After(m, Initial(state), events);
            var v := s.clients[c].phase.version;
            && v < s.version == Touches(m, state, s.log)
            && !Enabled(s, Exec(c)) && !Logged(s.log, c)
  {
    CommitsRunOneAtATime(m, state, events);
    assert ClientSound(m, state, After(m, Initial(state), events), c);
  }

  /** The failed attempts of one client so far, not counting spurious ones. */
  ghost function Failures<V, R, O, B>(m: Semantics<V, R, O, B>, state: Keys<V, R>, events: seq<Event<O, B>>,
                                      c: nat): nat
    requires Possible(m, Initial(state), events)
  {
    if events == [] then 0
    else
      var init, e := events[..|events| - 1], events[|events| - 1];
      Failures(m, state, init, c)
      + if e == Abort(c) && !Spurious(After(m, Initial(state), init), e) then 1 else 0
  }

  /** A failed attempt was watching an older version than the present one. */
  lemma FailsOrMoves<V, R, O, B>(m: Semantics<V, R, O, B>, state: Keys<V, R>, s: System<V, R, O, B>, e: Event<O, B>,
                                 c: nat)
    requires Sound(m, state, s) && Enabled(s, e)
    ensures var t := Next(m, s, e);
            && s.version <= t.version
            && (c !in t.clients ==> c !in s.clients)
            && (c in t.clients && c in s.clients && t.clients[c].phase.Watching? ==>
                  t.clients[c].phase.version == s.version
                  || (s.clients[c].phase == t.clients[c].phase && e != Abort(c)))
            && (c in t.clients && c in s.clients && t.clients[c].phase.Loaded? ==>
                  e != Abort(c)
                  && ((s.clients[c].phase.Watching? || s.clients[c].phase.Loaded?)
                      && s.clients[c].phase.version == t.clients[c].phase.version))
            && (e == Abort(c) && !Spurious(s, e) ==>
                  c in s.clients && s.clients[c].phase.Loaded? && s.clients[c].phase.version < s.version)
            && (c !in s.clients ==> e != Abort(c) && (c in t.clients ==> t.clients[c].phase.Ready?))
  {
    hide Sequential, Touches, Logged, CommittedOnce, Executed;
    if c in s.clients {
      assert ClientSound(m, state, s, c);
    }
  }

  /** Each failure of a client is paid for by a command of someone else, so it fails no more
      often than the key was touched. */
  lemma {:induction false} FailuresBounded<V, R, O, B>(m: Semantics<V, R, O, B>, state: Keys<V, R>,
                                                       events: seq<Event<O, B>>, c: nat)
    requires Possible(m, Initial(state), events)
    ensures var s := After(m, Initial(state), events);
            var failures := Failures(m, state, events, c);
            && failures <= s.version
            && (c !in s.clients ==> failures == 0)
            && (c in s.clients && s.clients[c].phase.Watching? ==> failures <= s.clients[c].phase.version)
            && (c in s.clients && s.clients[c].phase.Loaded? ==> failures <= s.clients[c].phase.version)
    decreases |events|
  {
    if events != [] {
      hide Sound, ClientSound, Next, Enabled, Spurious;
      var init := events[..|events| - 1];
      FailuresBounded(m, state, init, c);
      CommitsRunOneAtATime(m, state, init);
      var s := After(m, Initial(state), init);
      assert Enabled(s, events[|events| - 1]);
      FailsOrMoves(m, state, s, events[|events| - 1], c);
    }
  }
}

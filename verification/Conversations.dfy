/** Bounded conversation memory: a window of turns and a recency list of entities. */
module Conversations {
  import opened Contracts
  import opened OptimisticTransactions

  datatype Turn = Turn(role: string, content: string, entities: seq<string>)

  datatype Context = Context(turns: seq<Turn>, active: seq<string>, repository: Option<string>,
                             revision: Option<string>)

  const EMPTY_CONTEXT := Context([], [], Option<string>.None, Option<string>.None)

  /** One call of append_turn. */
  datatype Append = Append(turn: Turn, repository: Option<string>, revision: Option<string>)

  const ACTIVE_LIMIT: nat := 20

  function LastN<T>(s: seq<T>, n: nat): (r: seq<T>)
    ensures |r| == if |s| <= n then |s| else n
  {
    if |s| <= n then s else s[|s| - n..]
  }

  /** list.remove: the first occurrence goes. */
  function RemoveFirst(s: seq<string>, x: string): seq<string> {
    if s == [] then []
    else if s[0] == x then s[1..]
    else [s[0]] + RemoveFirst(s[1..], x)
  }

  function Mention(active: seq<string>, x: string): seq<string> {
    (if x in active then RemoveFirst(active, x) else active) + [x]
  }

  function Mentions(active: seq<string>, names: seq<string>): seq<string> {
    if names == [] then active else Mention(Mentions(active, names[..|names| - 1]), names[|names| - 1])
  }

  /** `new or old`: an empty string is as good as none. */
  function Or(given: Option<string>, current: Option<string>): Option<string> {
    if given.Some? && given.value != "" then given else current
  }

  function Appended(c: Context, maximum: nat, a: Append): Context {
    Context(LastN(c.turns + [a.turn], maximum),
            LastN(Mentions(c.active, a.turn.entities), ACTIVE_LIMIT),
            Or(a.repository, c.repository),
            Or(a.revision, c.revision))
  }

  // ---------------------------------------------------------------- what the memory should hold

  function AllTurns(history: seq<Append>): seq<Turn> {
    if history == [] then [] else AllTurns(history[..|history| - 1]) + [history[|history| - 1].turn]
  }

  function AllMentions(history: seq<Append>): seq<string> {
    if history == [] then [] else AllMentions(history[..|history| - 1]) + history[|history| - 1].turn.entities
  }

  /** Each name once, where it last occurs. */
  function Recent(mentions: seq<string>): seq<string> {
    if mentions == [] then []
    else if mentions[0] in mentions[1..] then Recent(mentions[1..])
    else [mentions[0]] + Recent(mentions[1..])
  }

  function LastNamed(names: seq<Option<string>>): Option<string> {
    if names == [] then None
    else
      var last := names[|names| - 1];
      if last.Some? && last.value != "" then last else LastNamed(names[..|names| - 1])
  }

  function Repositories(history: seq<Append>): seq<Option<string>> {
    seq(|history|, i requires 0 <= i < |history| => history[i].repository)
  }

  function Revisions(history: seq<Append>): seq<Option<string>> {
    seq(|history|, i requires 0 <= i < |history| => history[i].revision)
  }

  /** The context as a function of the whole history. */
  function Remembered(history: seq<Append>, maximum: nat): Context {
    Context(LastN(AllTurns(history), maximum),
            LastN(Recent(AllMentions(history)), ACTIVE_LIMIT),
            LastNamed(Repositories(history)),
            LastNamed(Revisions(history)))
  }

  // ---------------------------------------------------------------- recency

  function Without(s: seq<string>, x: string): seq<string> {
    if s == [] then []
    else if s[0] == x then Without(s[1..], x)
    else [s[0]] + Without(s[1..], x)
  }

  ghost predicate Distinct(s: seq<string>) {
    forall i, j :: 0 <= i < j < |s| ==> s[i] != s[j]
  }

  lemma {:induction false} RecentNames(mentions: seq<string>)
    ensures Distinct(Recent(mentions))
    ensures forall x :: x in Recent(mentions) <==> x in mentions
    decreases |mentions|
  {
    if mentions != [] {
      RecentNames(mentions[1..]);
      assert mentions == [mentions[0]] + mentions[1..];
    }
  }

  /** One more mention moves the name to the end. */
  lemma {:induction false} RecentSnoc(mentions: seq<string>, x: string)
    ensures Recent(mentions + [x]) == Without(Recent(mentions), x) + [x]
    decreases |mentions|
  {
    if mentions == [] {
      assert [] + [x] == [x];
      assert Recent([x]) == [x] + Recent([]);
    } else {
      var first, rest := mentions[0], mentions[1..];
      RecentSnoc(rest, x);
      assert (mentions + [x])[1..] == rest + [x];
      RecentNames(rest);
      if first in rest || first == x {
        assert first in rest + [x];
        if first == x && first !in rest {
          assert Recent(mentions) == [x] + Recent(rest);
          assert ([x] + Recent(rest))[1..] == Recent(rest);
        }
      } else {
        assert first !in rest + [x];
        assert ([first] + Recent(rest))[1..] == Recent(rest);
      }
    }
  }

  lemma {:induction false} WithoutAbsent(s: seq<string>, x: string)
    requires x !in s
    ensures Without(s, x) == s
    decreases |s|
  {
    if s != [] {
      WithoutAbsent(s[1..], x);
    }
  }

  lemma {:induction false} WithoutConcat(s: seq<string>, t: seq<string>, x: string)
    ensures Without(s + t, x) == Without(s, x) + Without(t, x)
    decreases |s|
  {
    if s == [] {
      assert s + t == t;
    } else {
      WithoutConcat(s[1..], t, x);
      assert (s + t)[1..] == s[1..] + t;
    }
  }

  lemma {:induction false} RemoveFromDistinct(s: seq<string>, x: string)
    requires Distinct(s)
    ensures RemoveFirst(s, x) == Without(s, x)
    ensures x in s ==> |Without(s, x)| == |s| - 1
    decreases |s|
  {
    if s != [] {
      assert Distinct(s[1..]);
      if s[0] == x {
        WithoutAbsent(s[1..], x);
      } else {
        RemoveFromDistinct(s[1..], x);
      }
    }
  }

  /** A suffix of the recency list that holds at least its last n names. */
  ghost predicate Suffix(active: seq<string>, all: seq<string>, n: nat) {
    && |active| <= |all| && active == all[|all| - |active|..]
    && (|active| >= n || active == all)
  }

  lemma DistinctTail(front: seq<string>, active: seq<string>)
    requires Distinct(front + active)
    ensures Distinct(active)
  {
    forall i, j | 0 <= i < j < |active|
      ensures active[i] != active[j]
    {
      assert active[i] == (front + active)[|front| + i] && active[j] == (front + active)[|front| + j];
    }
  }

  /** A mention acts on a suffix of distinct names as on the whole. */
  lemma MentionOfSuffix(front: seq<string>, active: seq<string>, x: string)
    requires Distinct(front + active)
    ensures Without(front + active, x) + [x] == Without(front, x) + Mention(active, x)
    ensures |Mention(active, x)| >= |active|
    ensures |Mention(active, x)| == |active| ==> x in active
  {
    hide RemoveFirst, Without;
    DistinctTail(front, active);
    WithoutConcat(front, active, x);
    RemoveFromDistinct(active, x);
    if x !in active {
      WithoutAbsent(active, x);
    }
  }

  lemma SuffixSplit(active: seq<string>, all: seq<string>, n: nat) returns (front: seq<string>)
    requires Suffix(active, all, n)
    ensures all == front + active && (|active| >= n || front == [])
  {
    front := all[..|all| - |active|];
  }

  lemma SuffixOf(front: seq<string>, active: seq<string>, n: nat)
    requires |active| >= n || front == []
    ensures Suffix(active, front + active, n)
  {
  }

  /** Mentioning a name keeps it so: what was cut off is never missed. */
  lemma MentionKeepsSuffix(active: seq<string>, mentions: seq<string>, x: string, n: nat)
    requires Suffix(active, Recent(mentions), n)
    ensures Suffix(Mention(active, x), Recent(mentions + [x]), n)
  {
    hide Recent, Mention, Distinct, Without, Suffix;
    var front := SuffixSplit(active, Recent(mentions), n);
    RecentNames(mentions);
    RecentSnoc(mentions, x);
    MentionOfSuffix(front, active, x);
    if front == [] {
      WithoutAbsent(front, x);
    }
    SuffixOf(Without(front, x), Mention(active, x), n);
  }

  lemma {:induction false} MentionsKeepSuffix(active: seq<string>, mentions: seq<string>, names: seq<string>, n: nat)
    requires Suffix(active, Recent(mentions), n)
    ensures Suffix(Mentions(active, names), Recent(mentions + names), n)
    decreases |names|
  {
    hide Suffix, Recent, Mention;
    if names == [] {
      assert mentions + names == mentions;
    } else {
      var init, last := names[..|names| - 1], names[|names| - 1];
      MentionsKeepSuffix(active, mentions, init, n);
      MentionKeepsSuffix(Mentions(active, init), mentions + init, last, n);
      assert mentions + names == (mentions + init) + [last];
    }
  }

  // ---------------------------------------------------------------- the memory is that function

  lemma LastOfLast<T>(s: seq<T>, x: T, n: nat)
    requires n > 0
    ensures LastN(LastN(s, n) + [x], n) == LastN(s + [x], n)
  {
  }

  lemma AppendRemembers(history: seq<Append>, maximum: nat, a: Append)
    requires maximum > 0
    ensures Appended(Remembered(history, maximum), maximum, a) == Remembered(history + [a], maximum)
  {
    hide Recent, Mentions;
    var more := history + [a];
    assert more[..|history|] == history;
    var c := Remembered(history, maximum);
    var mentions := AllMentions(history);
    LastOfLast(AllTurns(history), a.turn, maximum);
    assert Suffix(c.active, Recent(mentions), ACTIVE_LIMIT);
    MentionsKeepSuffix(c.active, mentions, a.turn.entities, ACTIVE_LIMIT);
    assert AllMentions(more) == mentions + a.turn.entities;
    assert Repositories(more)[..|history|] == Repositories(history);
    assert Revisions(more)[..|history|] == Revisions(history);
  }

  function AppendedAll(history: seq<Append>, maximum: nat): Context {
    if history == [] then EMPTY_CONTEXT
    else Appended(AppendedAll(history[..|history| - 1], maximum), maximum, history[|history| - 1])
  }

  /** After any calls of append_turn the context is that function of the whole history: the last
      turns, the last twenty names by last mention, without duplicates, and the last repository
      and revision named. */
  lemma {:induction false} MemoryIsOfTheHistory(history: seq<Append>, maximum: nat)
    requires maximum > 0
    ensures AppendedAll(history, maximum) == Remembered(history, maximum)
    ensures Distinct(AppendedAll(history, maximum).active) && |AppendedAll(history, maximum).active| <= ACTIVE_LIMIT
    decreases |history|
  {
    if history == [] {
      assert Repositories(history) == [] && Revisions(history) == [];
    } else {
      var init, last := history[..|history| - 1], history[|history| - 1];
      MemoryIsOfTheHistory(init, maximum);
      AppendRemembers(init, maximum, last);
      assert history == init + [last];
    }
    RecentNames(AllMentions(history));
  }

  // ---------------------------------------------------------------- the in-process memory

  /** Each name moves to the end of the list, or joins it there. */
  method MentionAll(known: seq<string>, names: seq<string>) returns (active: seq<string>)
    ensures active == Mentions(known, names)
  {
    active := known;
    for i := 0 to |names|
      invariant active == Mentions(known, names[..i])
    {
      assert names[..i + 1][..i] == names[..i];
      if names[i] in active {
        active := RemoveFirst(active, names[i]);
      }
      active := active + [names[i]];
    }
    assert names[..|names|] == names;
  }

  class InMemoryConversationMemory {
    const maximum: nat
    var turns: map<string, seq<Turn>>
    var entities: map<string, seq<string>>
    var scopes: map<string, (Option<string>, Option<string>)>

    constructor (maximum: nat)
      requires maximum > 0
      ensures this.maximum == maximum && forall session :: ContextOf(session) == EMPTY_CONTEXT
    {
      this.maximum := maximum;
      turns, entities, scopes := map[], map[], map[];
    }

    function ContextOf(session: string): Context
      reads this
    {
      Context(if session in turns then turns[session] else [],
              if session in entities then entities[session] else [],
              if session in scopes then scopes[session].0 else None,
              if session in scopes then scopes[session].1 else None)
    }

    /** A defaultdict: reading a session enters it, which no context shows. */
    method GetContext(session: string) returns (c: Context)
      modifies this
      ensures c == old(ContextOf(session)) && forall s :: ContextOf(s) == old(ContextOf(s))
    {
      if session !in turns { turns := turns[session := []]; }
      if session !in entities { entities := entities[session := []]; }
      c := ContextOf(session);
    }

    method AppendTurn(session: string, a: Append) returns (c: Context)
      requires maximum > 0
      modifies this
      ensures c == ContextOf(session) == Appended(old(ContextOf(session)), maximum, a)
      ensures forall s :: s != session ==> ContextOf(s) == old(ContextOf(s))
    {
      hide Mentions, Or;
      var window := (if session in turns then turns[session] else []) + [a.turn];
      if |window| > maximum {
        window := window[|window| - maximum..];
      }
      turns := turns[session := window];
      var active := MentionAll(if session in entities then entities[session] else [], a.turn.entities);
      if |active| > ACTIVE_LIMIT {
        active := active[|active| - ACTIVE_LIMIT..];
      }
      entities := entities[session := active];
      var scope := if session in scopes then scopes[session] else (None, None);
      scopes := scopes[session := (Or(a.repository, scope.0), Or(a.revision, scope.1))];
      c := ContextOf(session);
    }
  }

  // ---------------------------------------------------------------- the Redis memory

  /** EXPIRE of a read, and the key's expiry. */
  datatype SessionTouch = Refresh | Expire

  /** Nothing is kept beside a session's key. */
  function Memory(maximum: nat): Semantics<Option<Context>, (), Append, SessionTouch> {
    Semantics((kept: Option<Context>, a: Append) => Some(Some(Appended(ReadBack(kept), maximum, a))),
              (rest: (), kept: Option<Context>) => rest,
              (kept: Option<Context>, t: SessionTouch) =>
                if t.Expire? then Some(None) else if kept.None? then None else Some(kept),
              (rest: (), t: SessionTouch) => rest)
  }

  const NO_SESSION: Keys<Option<Context>, ()> := Keys(Option<Context>.None, ())

  /** A missing key reads as an empty context. */
  function ReadBack(kept: Option<Context>): Context {
    if kept.Some? then kept.value else EMPTY_CONTEXT
  }

  /** The appends committed, in commit order. */
  function Committed(log: seq<Command<Append, SessionTouch>>): seq<Append> {
    if log == [] then []
    else
      var before := Committed(log[..|log| - 1]);
      match log[|log| - 1]
      case Commit(_, a) => before + [a]
      case Other(_) => before
  }

  lemma {:induction false} StoredIsAppendedAll(log: seq<Command<Append, SessionTouch>>, maximum: nat)
    requires forall k :: 0 <= k < |log| && log[k].Other? ==> log[k].b.Refresh?
    ensures ReadBack(Sequential(Memory(maximum), NO_SESSION, log).value) == AppendedAll(Committed(log), maximum)
    decreases |log|
  {
    if log != [] {
      var init, last := log[..|log| - 1], log[|log| - 1];
      StoredIsAppendedAll(init, maximum);
      assert last.Other? ==> last.b.Refresh?;
      if last.Commit? {
        assert (Committed(init) + [last.op])[..|Committed(init)|] == Committed(init);
      }
    }
  }

  /** Concurrent Redis appenders agree with the in-process memory: while the key lives, the stored
      context is the function of the history of all committed appends in commit order, so no turn
      is lost to a race. */
  lemma RedisMemoryIsOfTheHistory(events: seq<Event<Append, SessionTouch>>, maximum: nat)
    requires maximum > 0
    requires Possible(Memory(maximum), Initial(NO_SESSION), events)
    requires var log := After(Memory(maximum), Initial(NO_SESSION), events).log;
             forall k :: 0 <= k < |log| && log[k].Other? ==> log[k].b.Refresh?
    ensures var s := After(Memory(maximum), Initial(NO_SESSION), events);
            ReadBack(s.state.value) == Remembered(Committed(s.log), maximum)
  {
    hide Sequential, ClientSound;
    var s := After(Memory(maximum), Initial(NO_SESSION), events);
    CommitsRunOneAtATime(Memory(maximum), NO_SESSION, events);
    StoredIsAppendedAll(s.log, maximum);
    MemoryIsOfTheHistory(Committed(s.log), maximum);
  }
}

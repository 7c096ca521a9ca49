/** Reciprocal rank fusion of exact and semantic matches. */
module RankFusion {
  /** An entity as one of the searches shows it: its identity, where it is from, and the rest. */
  datatype Match = Match(id: string, repository: string, revision: string, shown: string)

  datatype Source = Exact | Semantic

  datatype Hit = Hit(entity: Match, score: real, sources: seq<Source>)

  /** 1 / (60 + rank), ranks counting from one. */
  function Reciprocal(rank: nat): real {
    1.0 / (60 + rank) as real
  }

  predicate InScope(m: Match, repository: string, revision: string) {
    m.repository == repository && m.revision == revision
  }

  /** What a list of exact matches contributes: matches of other revisions keep their ranks but
      score nothing. */
  function ExactScore(exact: seq<Match>, repository: string, revision: string, id: string): real {
    if exact == [] then 0.0
    else
      var last := exact[|exact| - 1];
      ExactScore(exact[..|exact| - 1], repository, revision, id)
      + if last.id == id && InScope(last, repository, revision) then Reciprocal(|exact|) else 0.0
  }

  function SemanticScore(semantic: seq<Match>, id: string): real {
    if semantic == [] then 0.0
    else
      SemanticScore(semantic[..|semantic| - 1], id)
      + if semantic[|semantic| - 1].id == id then Reciprocal(|semantic|) else 0.0
  }

  function Score(exact: seq<Match>, semantic: seq<Match>, repository: string, revision: string, id: string): real {
    ExactScore(exact, repository, revision, id) + SemanticScore(semantic, id)
  }

  predicate Found(exact: seq<Match>, semantic: seq<Match>, repository: string, revision: string, id: string) {
    || (exists i :: 0 <= i < |exact| && exact[i].id == id && InScope(exact[i], repository, revision))
    || (exists i :: 0 <= i < |semantic| && semantic[i].id == id)
  }

  // ---------------------------------------------------------------- sorting

  function ScoreOf(scores: map<string, real>, id: string): real {
    if id in scores then scores[id] else 0.0
  }

  ghost predicate Distinct(ids: seq<string>) {
    forall i, j :: 0 <= i < j < |ids| ==> ids[i] != ids[j]
  }

  ghost predicate Falling(ids: seq<string>, scores: map<string, real>) {
    forall i, j :: 0 <= i < j < |ids| ==> ScoreOf(scores, ids[i]) >= ScoreOf(scores, ids[j])
  }

  /** sorted(ids, key=..., reverse=True): by falling score. */
  method SortedByScore(ids: seq<string>, scores: map<string, real>) returns (ranked: seq<string>)
    requires Distinct(ids)
    ensures forall id :: id in ranked <==> id in ids
    ensures Distinct(ranked) && Falling(ranked, scores)
  {
    ranked := [];
    for n := 0 to |ids|
      invariant forall id :: id in ranked <==> id in ids[..n]
      invariant Distinct(ranked) && Falling(ranked, scores)
    {
      var id := ids[n];
      assert id !in ids[..n];
      var k := |ranked|;
      while k > 0 && ScoreOf(scores, ranked[k - 1]) < ScoreOf(scores, id)
        invariant 0 <= k <= |ranked|
        invariant forall i :: k <= i < |ranked| ==> ScoreOf(scores, ranked[i]) < ScoreOf(scores, id)
      {
        k := k - 1;
      }
      InsertedDistinct(ranked, id, k);
      InsertedFalling(ranked, id, k, scores);
      ranked := ranked[..k] + [id] + ranked[k..];
      assert ids[..n + 1] == ids[..n] + [id];
    }
    assert ids[..|ids|] == ids;
  }

  lemma InsertedDistinct(ranked: seq<string>, id: string, k: nat)
    requires k <= |ranked| && id !in ranked && Distinct(ranked)
    ensures var more := ranked[..k] + [id] + ranked[k..];
            Distinct(more) && forall x :: x in more <==> x in ranked || x == id
  {
    var more := ranked[..k] + [id] + ranked[k..];
    assert ranked == ranked[..k] + ranked[k..];
    assert forall i :: 0 <= i < |more| ==> more[i] == if i < k then ranked[i] else if i == k then id else ranked[i - 1];
  }

  lemma InsertedFalling(ranked: seq<string>, id: string, k: nat, scores: map<string, real>)
    requires k <= |ranked| && Falling(ranked, scores)
    requires k > 0 ==> ScoreOf(scores, ranked[k - 1]) >= ScoreOf(scores, id)
    requires forall i :: k <= i < |ranked| ==> ScoreOf(scores, ranked[i]) < ScoreOf(scores, id)
    ensures Falling(ranked[..k] + [id] + ranked[k..], scores)
  {
    hide ScoreOf;
    var more := ranked[..k] + [id] + ranked[k..];
    assert forall i :: 0 <= i < |more| ==> more[i] == if i < k then ranked[i] else if i == k then id else ranked[i - 1];
    forall i, j | 0 <= i < j < |more|
      ensures ScoreOf(scores, more[i]) >= ScoreOf(scores, more[j])
    {
      if i < k <= j {
        assert i < k - 1 ==> ScoreOf(scores, ranked[i]) >= ScoreOf(scores, ranked[k - 1]);
      }
    }
  }

  // ---------------------------------------------------------------- the search

  /** The dictionaries of hybrid_search after some matches. */
  datatype Fusion = Fusion(ids: seq<string>, candidates: map<string, Match>, scores: map<string, real>,
                           sources: map<string, seq<Source>>)

  ghost predicate Consistent(f: Fusion) {
    && f.candidates.Keys == f.scores.Keys == f.sources.Keys
    && (forall id :: id in f.ids <==> id in f.scores)
    && Distinct(f.ids)
    && forall id :: id in f.candidates ==> f.candidates[id].id == id
  }

  function Added(f: Fusion, m: Match, rank: nat, source: Source): Fusion {
    var id := m.id;
    Fusion(if id in f.scores then f.ids else f.ids + [id],
           f.candidates[id := m],
           f.scores[id := (if id in f.scores then f.scores[id] else 0.0) + Reciprocal(rank)],
           f.sources[id := (if id in f.sources then f.sources[id] else []) + [source]])
  }

  lemma AddedConsistent(f: Fusion, m: Match, rank: nat, source: Source)
    requires Consistent(f)
    ensures Consistent(Added(f, m, rank, source))
  {
  }

  /** The scores so far are those of the matches so far. */
  ghost predicate Scored(f: Fusion, exact: seq<Match>, semantic: seq<Match>, repository: string, revision: string) {
    forall id :: (id in f.scores <==> Found(exact, semantic, repository, revision, id))
              && (if id in f.scores then f.scores[id] else 0.0) == Score(exact, semantic, repository, revision, id)
  }

  /** One more exact match finds its own id, if it is in scope, and scores for no other. */
  lemma ExactSnoc(exact: seq<Match>, m: Match, repository: string, revision: string, id: string)
    ensures var mine := m.id == id && InScope(m, repository, revision);
            && (Found(exact + [m], [], repository, revision, id)
                <==> Found(exact, [], repository, revision, id) || mine)
            && Score(exact + [m], [], repository, revision, id)
               == Score(exact, [], repository, revision, id) + (if mine then Reciprocal(|exact| + 1) else 0.0)
  {
    hide Reciprocal;
    var after := exact + [m];
    assert after[..|exact|] == exact;
    if m.id == id && InScope(m, repository, revision) {
      assert after[|exact|] == m;
    }
    if Found(exact, [], repository, revision, id) {
      var i :| 0 <= i < |exact| && exact[i].id == id && InScope(exact[i], repository, revision);
      assert after[i] == exact[i];
    }
  }

  lemma ExactStep(f: Fusion, exact: seq<Match>, n: nat, repository: string, revision: string)
    requires n < |exact| && Scored(f, exact[..n], [], repository, revision)
    ensures Scored(if InScope(exact[n], repository, revision) then Added(f, exact[n], n + 1, Exact) else f,
                   exact[..n + 1], [], repository, revision)
  {
    hide Reciprocal, Found, Score, InScope;
    assert exact[..n + 1] == exact[..n] + [exact[n]];
    forall id {
      ExactSnoc(exact[..n], exact[n], repository, revision, id);
    }
  }

  lemma SemanticStep(f: Fusion, exact: seq<Match>, semantic: seq<Match>, n: nat, repository: string, revision: string)
    requires n < |semantic| && Scored(f, exact, semantic[..n], repository, revision)
    ensures Scored(Added(f, semantic[n], n + 1, Semantic), exact, semantic[..n + 1], repository, revision)
  {
    hide Reciprocal, ExactScore;
    var before, after := semantic[..n], semantic[..n + 1];
    assert after == before + [semantic[n]] && after[..n] == before;
    forall id
      ensures Found(exact, after, repository, revision, id)
              <==> Found(exact, before, repository, revision, id) || semantic[n].id == id
    {
      if semantic[n].id == id {
        assert after[n].id == id;
      }
      if i :| 0 <= i < n && before[i].id == id {
        assert after[i] == before[i];
      }
    }
  }

  // ---------------------------------------------------------------- what a hit is made of

  function ExactCount(exact: seq<Match>, repository: string, revision: string, id: string): nat {
    if exact == [] then 0
    else
      var last := exact[|exact| - 1];
      ExactCount(exact[..|exact| - 1], repository, revision, id)
      + if last.id == id && InScope(last, repository, revision) then 1 else 0
  }

  function SemanticCount(semantic: seq<Match>, id: string): nat {
    if semantic == [] then 0
    else SemanticCount(semantic[..|semantic| - 1], id) + if semantic[|semantic| - 1].id == id then 1 else 0
  }

  function Times(source: Source, n: nat): seq<Source> {
    seq(n, i => source)
  }

  /** The last semantic match with an id or, if there is none, the last exact one in scope. */
  ghost predicate LastMatch(exact: seq<Match>, semantic: seq<Match>, repository: string, revision: string, id: string,
                            m: Match)
  {
    if exists i :: 0 <= i < |semantic| && semantic[i].id == id then
      exists i :: 0 <= i < |semantic| && semantic[i] == m && m.id == id
        && forall j :: i < j < |semantic| ==> semantic[j].id != id
    else
      exists i :: 0 <= i < |exact| && exact[i] == m && m.id == id && InScope(m, repository, revision)
        && forall j :: i < j < |exact| ==> !(exact[j].id == id && InScope(exact[j], repository, revision))
  }

  /** A hit is credited once for every match it has, the exact ones first, and shows the last. */
  ghost predicate Credited(f: Fusion, exact: seq<Match>, semantic: seq<Match>, repository: string, revision: string,
                           id: string)
  {
    var n, m := ExactCount(exact, repository, revision, id), SemanticCount(semantic, id);
    if id in f.sources && id in f.candidates then
      && f.sources[id] == Times(Exact, n) + Times(Semantic, m)
      && LastMatch(exact, semantic, repository, revision, id, f.candidates[id])
    else n == m == 0
  }

  ghost predicate AllCredited(f: Fusion, exact: seq<Match>, semantic: seq<Match>, repository: string,
                              revision: string)
  {
    forall id :: Credited(f, exact, semantic, repository, revision, id)
  }

  lemma OneMoreTime(source: Source, n: nat)
    ensures Times(source, n + 1) == Times(source, n) + [source]
  {
  }

  lemma ExactCountSnoc(exact: seq<Match>, m: Match, repository: string, revision: string, id: string)
    ensures ExactCount(exact + [m], repository, revision, id)
            == ExactCount(exact, repository, revision, id)
               + if m.id == id && InScope(m, repository, revision) then 1 else 0
  {
    assert (exact + [m])[..|exact|] == exact;
  }

  lemma SemanticCountSnoc(semantic: seq<Match>, m: Match, id: string)
    ensures SemanticCount(semantic + [m], id) == SemanticCount(semantic, id) + if m.id == id then 1 else 0
  {
    assert (semantic + [m])[..|semantic|] == semantic;
  }

  lemma LastExactSnoc(exact: seq<Match>, m: Match, repository: string, revision: string, id: string, last: Match)
    requires if m.id == id && InScope(m, repository, revision) then last == m
             else LastMatch(exact, [], repository, revision, id, last)
    ensures LastMatch(exact + [m], [], repository, revision, id, last)
  {
    var more := exact + [m];
    assert more[|exact|] == m;
    if !(m.id == id && InScope(m, repository, revision)) {
      var i :| 0 <= i < |exact| && exact[i] == last && last.id == id && InScope(last, repository, revision)
               && forall j :: i < j < |exact| ==> !(exact[j].id == id && InScope(exact[j], repository, revision));
      assert more[i] == last;
      assert forall j :: i < j < |more| ==> more[j] == if j < |exact| then exact[j] else m;
    }
  }

  lemma LastSemanticSnoc(exact: seq<Match>, semantic: seq<Match>, m: Match, repository: string, revision: string,
                         id: string, last: Match)
    requires if m.id == id then last == m else LastMatch(exact, semantic, repository, revision, id, last)
    ensures LastMatch(exact, semantic + [m], repository, revision, id, last)
  {
    var more := semantic + [m];
    assert more[|semantic|] == m;
    if m.id != id {
      if exists i :: 0 <= i < |semantic| && semantic[i].id == id {
        var i :| 0 <= i < |semantic| && semantic[i] == last && last.id == id
                 && forall j :: i < j < |semantic| ==> semantic[j].id != id;
        assert more[i] == last;
        assert forall j :: i < j < |more| ==> more[j] == if j < |semantic| then semantic[j] else m;
      } else {
        assert forall j :: 0 <= j < |more| ==> more[j] == if j < |semantic| then semantic[j] else m;
      }
    }
  }

  lemma ExactCredit(f: Fusion, exact: seq<Match>, m: Match, more: seq<Match>, repository: string, revision: string)
      returns (g: Fusion)
    requires more == exact + [m] && Consistent(f) && AllCredited(f, exact, [], repository, revision)
    ensures g == if InScope(m, repository, revision) then Added(f, m, |exact| + 1, Exact) else f
    ensures AllCredited(g, more, [], repository, revision)
  {
    hide Credited, InScope, Added;
    g := if InScope(m, repository, revision) then Added(f, m, |exact| + 1, Exact) else f;
    forall id
      ensures Credited(g, more, [], repository, revision, id)
    {
      assert Credited(f, exact, [], repository, revision, id);
      ExactCreditOf(f, exact, m, repository, revision, id);
    }
  }

  lemma ExactCreditOf(f: Fusion, exact: seq<Match>, m: Match, repository: string, revision: string, id: string)
    requires Consistent(f) && Credited(f, exact, [], repository, revision, id)
    ensures var g := if InScope(m, repository, revision) then Added(f, m, |exact| + 1, Exact) else f;
            Credited(g, exact + [m], [], repository, revision, id)
  {
    hide Reciprocal, LastMatch, ExactCount, InScope, Times;
    var g := if InScope(m, repository, revision) then Added(f, m, |exact| + 1, Exact) else f;
    ExactCountSnoc(exact, m, repository, revision, id);
    OneMoreTime(Exact, ExactCount(exact, repository, revision, id));
    NoTimes();
    if id in g.candidates {
      LastExactSnoc(exact, m, repository, revision, id, g.candidates[id]);
    }
  }

  lemma NoTimes()
    ensures forall s :: Times(s, 0) == []
  {
  }

  lemma SemanticCredit(f: Fusion, exact: seq<Match>, semantic: seq<Match>, m: Match, more: seq<Match>,
                       repository: string, revision: string)
    requires more == semantic + [m] && Consistent(f) && AllCredited(f, exact, semantic, repository, revision)
    ensures AllCredited(Added(f, m, |semantic| + 1, Semantic), exact, more, repository, revision)
  {
    hide Credited, Added;
    var g := Added(f, m, |semantic| + 1, Semantic);
    forall id
      ensures Credited(g, exact, more, repository, revision, id)
    {
      assert Credited(f, exact, semantic, repository, revision, id);
      SemanticCreditOf(f, exact, semantic, m, repository, revision, id);
    }
  }

  lemma SemanticCreditOf(f: Fusion, exact: seq<Match>, semantic: seq<Match>, m: Match, repository: string,
                         revision: string, id: string)
    requires Consistent(f) && Credited(f, exact, semantic, repository, revision, id)
    ensures Credited(Added(f, m, |semantic| + 1, Semantic), exact, semantic + [m], repository, revision, id)
  {
    hide Reciprocal, LastMatch, ExactCount, SemanticCount, InScope, Times;
    var g := Added(f, m, |semantic| + 1, Semantic);
    SemanticCountSnoc(semantic, m, id);
    OneMoreTime(Semantic, SemanticCount(semantic, id));
    NoTimes();
    if id in g.candidates {
      LastSemanticSnoc(exact, semantic, m, repository, revision, id, g.candidates[id]);
    }
  }

  predicate Returned(hits: seq<Hit>, id: string) {
    exists i :: 0 <= i < |hits| && hits[i].entity.id == id
  }

  /** The fusion, for the lists as found and reranked: distinct entities with their scores, at most
      the limit, falling, none missing while there is room, and none left out that scores more
      than one returned. */
  method HybridSearch(exact: seq<Match>, semantic: seq<Match>, repository: string, revision: string, limit: nat)
      returns (hits: seq<Hit>)
    ensures |hits| <= limit
    ensures forall i :: 0 <= i < |hits| ==>
      Found(exact, semantic, repository, revision, hits[i].entity.id)
      && hits[i].score == Score(exact, semantic, repository, revision, hits[i].entity.id)
    ensures forall i :: 0 <= i < |hits| ==>
      var id := hits[i].entity.id;
      && hits[i].sources == Times(Exact, ExactCount(exact, repository, revision, id))
                            + Times(Semantic, SemanticCount(semantic, id))
      && LastMatch(exact, semantic, repository, revision, id, hits[i].entity)
    ensures forall i, j :: 0 <= i < j < |hits| ==>
              hits[i].entity.id != hits[j].entity.id && hits[i].score >= hits[j].score
    ensures forall id ::
              Found(exact, semantic, repository, revision, id) && !Returned(hits, id) ==>
                && |hits| == limit
                && forall i :: 0 <= i < |hits| ==> hits[i].score >= Score(exact, semantic, repository, revision, id)
  {
    hide Consistent, Scored, Credited, Distinct, Falling, Score, Found, LastMatch, ExactCount, SemanticCount, Times;
    var f := Gathered(exact, semantic, repository, revision);
    FoundOnce(f);
    var ranked := SortedByScore(f.ids, f.scores);
    hits := FirstHits(f, ranked, limit);
    RankedScores(f, ranked, exact, semantic, repository, revision);
    forall i | 0 <= i < |hits|
      ensures var id := hits[i].entity.id;
              && hits[i].sources == Times(Exact, ExactCount(exact, repository, revision, id))
                                    + Times(Semantic, SemanticCount(semantic, id))
              && LastMatch(exact, semantic, repository, revision, id, hits[i].entity)
    {
      CreditOf(f, exact, semantic, repository, revision, hits[i].entity.id);
    }
    forall i, j | 0 <= i < j < |hits|
      ensures hits[i].entity.id != hits[j].entity.id && hits[i].score >= hits[j].score
    {
      RankedOrder(ranked, f.scores, i, j);
    }
    forall id | Found(exact, semantic, repository, revision, id) && !Returned(hits, id)
      ensures |hits| == limit && forall i :: 0 <= i < |hits| ==>
                hits[i].score >= Score(exact, semantic, repository, revision, id)
    {
      var p :| 0 <= p < |ranked| && ranked[p] == id;
      assert p >= |hits|;
      forall i | 0 <= i < |hits|
        ensures hits[i].score >= Score(exact, semantic, repository, revision, id)
      {
        RankedOrder(ranked, f.scores, i, p);
      }
    }
  }

  method FirstHits(f: Fusion, ranked: seq<string>, limit: nat) returns (hits: seq<Hit>)
    requires Consistent(f) && forall id :: id in ranked ==> id in f.ids
    ensures |hits| == if |ranked| <= limit then |ranked| else limit
    ensures forall k :: 0 <= k < |hits| ==>
              hits[k].entity.id == ranked[k] && hits[k].score == ScoreOf(f.scores, ranked[k])
    ensures forall k :: 0 <= k < |hits| ==>
              var id := hits[k].entity.id;
              && id in f.candidates && hits[k].entity == f.candidates[id]
              && id in f.sources && hits[k].sources == f.sources[id]
  {
    hide Distinct;
    var count := if |ranked| <= limit then |ranked| else limit;
    hits := [];
    for i := 0 to count
      invariant |hits| == i
      invariant forall k :: 0 <= k < i ==>
                  hits[k].entity.id == ranked[k] && hits[k].score == ScoreOf(f.scores, ranked[k])
      invariant forall k :: 0 <= k < i ==>
                  var id := hits[k].entity.id;
                  && id in f.candidates && hits[k].entity == f.candidates[id]
                  && id in f.sources && hits[k].sources == f.sources[id]
    {
      assert ranked[i] in ranked;
      hits := hits + [Hit(f.candidates[ranked[i]], f.scores[ranked[i]], f.sources[ranked[i]])];
    }
  }

  lemma CreditOf(f: Fusion, exact: seq<Match>, semantic: seq<Match>, repository: string, revision: string, id: string)
    requires AllCredited(f, exact, semantic, repository, revision) && id in f.candidates && id in f.sources
    ensures f.sources[id] == Times(Exact, ExactCount(exact, repository, revision, id))
                             + Times(Semantic, SemanticCount(semantic, id))
    ensures LastMatch(exact, semantic, repository, revision, id, f.candidates[id])
  {
    hide LastMatch, ExactCount, SemanticCount, Times;
    assert Credited(f, exact, semantic, repository, revision, id);
  }

  lemma FoundOnce(f: Fusion)
    requires Consistent(f)
    ensures Distinct(f.ids)
  {
  }

  lemma RankedScores(f: Fusion, ranked: seq<string>, exact: seq<Match>, semantic: seq<Match>, repository: string,
                     revision: string)
    requires Consistent(f) && Scored(f, exact, semantic, repository, revision)
    requires forall id :: id in ranked <==> id in f.ids
    ensures forall k :: 0 <= k < |ranked| ==>
              Found(exact, semantic, repository, revision, ranked[k])
              && ScoreOf(f.scores, ranked[k]) == Score(exact, semantic, repository, revision, ranked[k])
    ensures forall id :: Found(exact, semantic, repository, revision, id) ==> id in ranked
  {
    hide Score, Found;
    forall k | 0 <= k < |ranked|
      ensures Found(exact, semantic, repository, revision, ranked[k])
      ensures ScoreOf(f.scores, ranked[k]) == Score(exact, semantic, repository, revision, ranked[k])
    {
      assert ranked[k] in ranked;
    }
  }

  lemma RankedOrder(ranked: seq<string>, scores: map<string, real>, i: nat, j: nat)
    requires Distinct(ranked) && Falling(ranked, scores) && i < j < |ranked|
    ensures ranked[i] != ranked[j] && ScoreOf(scores, ranked[i]) >= ScoreOf(scores, ranked[j])
  {
  }

  method Gathered(exact: seq<Match>, semantic: seq<Match>, repository: string, revision: string) returns (f: Fusion)
    ensures Consistent(f) && Scored(f, exact, semantic, repository, revision)
    ensures AllCredited(f, exact, semantic, repository, revision)
  {
    hide Consistent, Scored, AllCredited, Added;
    f := Fusion([], map[], map[], map[]);
    StartFused(f, exact, repository, revision);
    for n := 0 to |exact|
      invariant Consistent(f) && Scored(f, exact[..n], [], repository, revision)
      invariant AllCredited(f, exact[..n], [], repository, revision)
    {
      assert exact[..n + 1] == exact[..n] + [exact[n]];
      ghost var g := ExactCredit(f, exact[..n], exact[n], exact[..n + 1], repository, revision);
      ExactStep(f, exact, n, repository, revision);
      AddedConsistent(f, exact[n], n + 1, Exact);
      if InScope(exact[n], repository, revision) {
        f := Added(f, exact[n], n + 1, Exact);
      }
    }
    assert exact[..|exact|] == exact;
    assert semantic[..0] == [];
    for n := 0 to |semantic|
      invariant Consistent(f) && Scored(f, exact, semantic[..n], repository, revision)
      invariant AllCredited(f, exact, semantic[..n], repository, revision)
    {
      assert semantic[..n + 1] == semantic[..n] + [semantic[n]];
      SemanticCredit(f, exact, semantic[..n], semantic[n], semantic[..n + 1], repository, revision);
      SemanticStep(f, exact, semantic, n, repository, revision);
      AddedConsistent(f, semantic[n], n + 1, Semantic);
      f := Added(f, semantic[n], n + 1, Semantic);
    }
    assert semantic[..|semantic|] == semantic;
  }

  lemma StartFused(f: Fusion, exact: seq<Match>, repository: string, revision: string)
    requires f == Fusion([], map[], map[], map[])
    ensures Consistent(f) && Scored(f, exact[..0], [], repository, revision)
    ensures AllCredited(f, exact[..0], [], repository, revision)
  {
  }

  // ---------------------------------------------------------------- two lists beat one

  /** Neither list has an id twice. */
  ghost predicate NoRepeats(list: seq<Match>) {
    forall i, j :: 0 <= i < j < |list| ==> list[i].id != list[j].id
  }

  lemma {:induction false} ExactScoreIs(exact: seq<Match>, repository: string, revision: string, id: string)
    requires NoRepeats(exact)
    ensures (forall i :: 0 <= i < |exact| ==> !(exact[i].id == id && InScope(exact[i], repository, revision))) ==>
              ExactScore(exact, repository, revision, id) == 0.0
    ensures forall i :: 0 <= i < |exact| && exact[i].id == id && InScope(exact[i], repository, revision) ==>
              ExactScore(exact, repository, revision, id) == Reciprocal(i + 1)
  {
    if exact != [] {
      var init := exact[..|exact| - 1];
      ExactScoreIs(init, repository, revision, id);
      forall i | 0 <= i < |exact| && exact[i].id == id && InScope(exact[i], repository, revision)
        ensures ExactScore(exact, repository, revision, id) == Reciprocal(i + 1)
      {
        if i < |init| {
          assert init[i] == exact[i];
        } else {
          assert forall k :: 0 <= k < |init| ==> init[k].id != id;
        }
      }
    }
  }

  lemma {:induction false} SemanticScoreIs(semantic: seq<Match>, id: string)
    requires NoRepeats(semantic)
    ensures (forall i :: 0 <= i < |semantic| ==> semantic[i].id != id) ==> SemanticScore(semantic, id) == 0.0
    ensures forall i :: 0 <= i < |semantic| && semantic[i].id == id ==> SemanticScore(semantic, id) == Reciprocal(i + 1)
  {
    if semantic != [] {
      var init := semantic[..|semantic| - 1];
      SemanticScoreIs(init, id);
      forall i | 0 <= i < |semantic| && semantic[i].id == id
        ensures SemanticScore(semantic, id) == Reciprocal(i + 1)
      {
        if i < |init| {
          assert init[i] == semantic[i];
        } else {
          assert forall k :: 0 <= k < |init| ==> init[k].id != id;
        }
      }
    }
  }

  lemma ReciprocalFalls(r: nat, s: nat)
    ensures r <= s ==> Reciprocal(s) <= Reciprocal(r)
    ensures Reciprocal(r) > 0.0
  {
    var x, y := (60 + r) as real, (60 + s) as real;
    assert x * Reciprocal(r) == 1.0 && y * Reciprocal(s) == 1.0;
    Positive(x, Reciprocal(r));
    Positive(y, Reciprocal(s));
    if r <= s {
      assert y * Reciprocal(s) >= x * Reciprocal(s);
      assert x * (Reciprocal(r) - Reciprocal(s)) >= 0.0;
      NotNegative(x, Reciprocal(r) - Reciprocal(s));
    }
  }

  lemma Positive(x: real, y: real)
    requires x > 0.0 && x * y == 1.0
    ensures y > 0.0
  {
  }

  lemma NotNegative(x: real, y: real)
    requires x > 0.0 && x * y >= 0.0
    ensures y >= 0.0
  {
  }

  /** An id at rank r of both lists outscores any id that is in one list only, if and only if its
      rank is below 62: 2/121 is more than 1/61, 2/122 is not. */
  lemma BothBeatOneExactly(r: nat)
    requires r >= 1
    ensures Reciprocal(r) + Reciprocal(r) > Reciprocal(1) <==> r < 62
  {
    if r < 62 {
      ReciprocalFalls(r, 61);
      assert Reciprocal(61) + Reciprocal(61) == 2.0 / 121.0 > 1.0 / 61.0 == Reciprocal(1);
    } else {
      ReciprocalFalls(62, r);
      assert Reciprocal(62) + Reciprocal(62) == 2.0 / 122.0 == 1.0 / 61.0 == Reciprocal(1);
    }
  }

  /** So when neither list repeats an id, an id ranked below 62 in both lists strictly outscores
      every id that only one list has. */
  lemma BothListsWin(exact: seq<Match>, semantic: seq<Match>, repository: string, revision: string, i: nat, j: nat,
                     other: string)
    requires NoRepeats(exact) && NoRepeats(semantic)
    requires i < |exact| && j < |semantic| && exact[i].id == semantic[j].id && InScope(exact[i], repository, revision)
    requires i + 1 < 62 && j + 1 < 62
    requires (forall k :: 0 <= k < |exact| ==> !(exact[k].id == other && InScope(exact[k], repository, revision)))
             || (forall k :: 0 <= k < |semantic| ==> semantic[k].id != other)
    ensures Score(exact, semantic, repository, revision, exact[i].id)
            > Score(exact, semantic, repository, revision, other)
  {
    ExactScoreIs(exact, repository, revision, exact[i].id);
    SemanticScoreIs(semantic, exact[i].id);
    ExactScoreIs(exact, repository, revision, other);
    SemanticScoreIs(semantic, other);
    ReciprocalFalls(i + 1, 61);
    ReciprocalFalls(j + 1, 61);
    assert Reciprocal(61) + Reciprocal(61) == 2.0 / 121.0 > 1.0 / 61.0 == Reciprocal(1);
    if k :| 0 <= k < |exact| && exact[k].id == other && InScope(exact[k], repository, revision) {
      ReciprocalFalls(1, k + 1);
    }
    if k :| 0 <= k < |semantic| && semantic[k].id == other {
      ReciprocalFalls(1, k + 1);
    }
    assert ExactScore(exact, repository, revision, other) <= Reciprocal(1);
    assert SemanticScore(semantic, other) <= Reciprocal(1);
  }
}

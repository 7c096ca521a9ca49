/** The orchestrator's workflow around its revision-scoped response cache. */
module ResponseCaching {
  import opened Contracts
  import opened Conversations
  import opened QueryTexts
  import P = PlanExecution

  // ---------------------------------------------------------------- text

  function StripLeft(u: Unicode, s: string): string {
    if s != "" && u.space(s[0]) then StripLeft(u, s[1..]) else s
  }

  function StripRight(u: Unicode, s: string): string {
    if s != "" && u.space(s[|s| - 1]) then StripRight(u, s[..|s| - 1]) else s
  }

  function Strip(u: Unicode, s: string): string {
    StripRight(u, StripLeft(u, s))
  }

  const REFERENCES: seq<string> := ["it", "this", "that", "they", "them", "the class", "the function"]

  /** \b: a word character on exactly one side. */
  predicate Boundary(u: Unicode, s: string, i: nat)
    requires i <= |s|
  {
    (i > 0 && u.word(s[i - 1])) != (i < |s| && u.word(s[i]))
  }

  predicate MatchesAt(u: Unicode, s: string, i: nat, w: string) {
    i + |w| <= |s| && s[i..i + |w|] == w && Boundary(u, s, i) && Boundary(u, s, i + |w|)
  }

  predicate ContainsReference(u: Unicode, s: string) {
    exists i, k :: 0 <= i <= |s| && 0 <= k < |REFERENCES| && MatchesAt(u, s, i, REFERENCES[k])
  }

  // ---------------------------------------------------------------- analysis

  /** Intent and explicit entities are functions of the query's text, stripped and lowered. */
  datatype Reader = Reader(unicode: Unicode, intent: string -> P.Intent, explicit: (string, string) -> seq<P.Entity>)

  function Normal(a: Reader, query: string): string {
    Strip(a.unicode, query)
  }

  function Lowered(a: Reader, query: string): string {
    Mapped(a.unicode.lower, Normal(a, query))
  }

  function Explicit(a: Reader, query: string): seq<P.Entity> {
    a.explicit(Normal(a, query), Lowered(a, query))
  }

  function FromConversation(names: seq<string>): seq<P.Entity> {
    var last := LastN(names, 3);
    seq(|last|, i requires 0 <= i < |last| => P.Entity(last[i], "conversation"))
  }

  /** analyze_query: a reference without explicit entities takes the last three names remembered. */
  function AnalyzeQuery(a: Reader, query: string, remembered: seq<string>): P.Analysis {
    P.Analysis(a.intent(Lowered(a, query)),
               if Explicit(a, query) == [] && ContainsReference(a.unicode, Lowered(a, query))
               then FromConversation(remembered) else Explicit(a, query))
  }

  ghost predicate Independent(a: Reader, query: string) {
    forall c, d :: AnalyzeQuery(a, query, c) == AnalyzeQuery(a, query, d)
  }

  /** Entities the query names come first; a reference without any takes the last three names
      remembered, in their order; and without a reference nothing is taken. */
  lemma TakenFromConversation(a: Reader, query: string, remembered: seq<string>)
    ensures var taken, n := AnalyzeQuery(a, query, remembered).entities, |remembered|;
            if Explicit(a, query) != [] || !ContainsReference(a.unicode, Lowered(a, query))
            then taken == Explicit(a, query)
            else
              && |taken| == (if n < 3 then n else 3)
              && forall i :: 0 <= i < |taken| ==>
                   taken[i].name == remembered[n - |taken| + i] && taken[i].source == "conversation"
  {
    hide ContainsReference;
  }

  /** What counts as a reference, where letters are word characters. */
  lemma EveryReference(u: Unicode)
    requires forall c :: 'a' <= c <= 'z' ==> u.word(c)
    ensures ContainsReference(u, "it") && ContainsReference(u, "this") && ContainsReference(u, "that")
    ensures ContainsReference(u, "they") && ContainsReference(u, "them")
    ensures ContainsReference(u, "the class") && ContainsReference(u, "the function")
  {
    hide ContainsReference;
    forall k | 0 <= k < |REFERENCES|
      ensures ContainsReference(u, REFERENCES[k])
    {
      AloneIsReference(u, k);
    }
    assert REFERENCES[0] == "it" && REFERENCES[1] == "this" && REFERENCES[2] == "that" && REFERENCES[3] == "they";
    assert REFERENCES[4] == "them" && REFERENCES[5] == "the class" && REFERENCES[6] == "the function";
  }

  lemma AloneIsReference(u: Unicode, k: nat)
    requires forall c :: 'a' <= c <= 'z' ==> u.word(c)
    requires k < |REFERENCES|
    ensures ContainsReference(u, REFERENCES[k])
  {
    var s := REFERENCES[k];
    assert 'a' <= s[0] <= 'z' && 'a' <= s[|s| - 1] <= 'z';
    assert s[0..0 + |s|] == s;
    assert MatchesAt(u, s, 0, REFERENCES[k]);
  }

  // ---------------------------------------------------------------- the cache guard

  /** The query part of the guard on both cache accesses. */
  predicate Guarded(u: Unicode, query: string) {
    ContainsReference(u, Mapped(u.fold, query))
  }

  lemma IndependentExactly(a: Reader, query: string)
    ensures Independent(a, query) <==> Explicit(a, query) != [] || !ContainsReference(a.unicode, Lowered(a, query))
  {
    hide ContainsReference;
    if Explicit(a, query) == [] && ContainsReference(a.unicode, Lowered(a, query)) {
      var none: seq<string> := [];
      assert |AnalyzeQuery(a, query, none).entities| == 0;
      assert |AnalyzeQuery(a, query, ["x"]).entities| == 1;
    }
  }

  /** On a text whose characters lower and fold alike, and whose blanks are no word characters and
      fold to themselves, the guard sees every reference the analysis sees. */
  ghost predicate FoldsAlike(u: Unicode, query: string) {
    && (forall i :: 0 <= i < |query| ==> u.lower(query[i]) == u.fold(query[i]))
    && (forall i :: 0 <= i < |query| && u.space(query[i]) ==> u.fold(query[i]) == [query[i]] && !u.word(query[i]))
  }

  lemma {:induction false} MappedConcat(f: char -> string, s: string, t: string)
    ensures Mapped(f, s + t) == Mapped(f, s) + Mapped(f, t)
    decreases |s|
  {
    if s == "" {
      assert s + t == t;
    } else {
      MappedConcat(f, s[1..], t);
      assert (s + t)[1..] == s[1..] + t;
    }
  }

  lemma {:induction false} MappedSame(f: char -> string, g: char -> string, s: string)
    requires forall i :: 0 <= i < |s| ==> f(s[i]) == g(s[i])
    ensures Mapped(f, s) == Mapped(g, s)
    decreases |s|
  {
    if s != "" {
      MappedSame(f, g, s[1..]);
    }
  }

  lemma {:induction false} MappedBlank(f: char -> string, s: string)
    requires forall i :: 0 <= i < |s| ==> f(s[i]) == [s[i]]
    ensures Mapped(f, s) == s
    decreases |s|
  {
    if s != "" {
      MappedBlank(f, s[1..]);
      assert s == [s[0]] + s[1..];
    }
  }

  /** Blanks around a text neither add nor hide a reference found in it. */
  lemma PaddedReference(u: Unicode, left: string, s: string, right: string)
    requires forall i :: 0 <= i < |left| ==> !u.word(left[i])
    requires forall i :: 0 <= i < |right| ==> !u.word(right[i])
    requires ContainsReference(u, s)
    ensures ContainsReference(u, left + s + right)
  {
    var i, k :| 0 <= i <= |s| && 0 <= k < |REFERENCES| && MatchesAt(u, s, i, REFERENCES[k]);
    PaddedMatch(u, left, s, right, i, REFERENCES[k]);
  }

  lemma PaddedMatch(u: Unicode, left: string, s: string, right: string, i: nat, w: string)
    requires forall i :: 0 <= i < |left| ==> !u.word(left[i])
    requires forall i :: 0 <= i < |right| ==> !u.word(right[i])
    requires MatchesAt(u, s, i, w)
    ensures MatchesAt(u, left + s + right, |left| + i, w)
  {
    var padded := left + s + right;
    assert padded[|left| + i..|left| + i + |w|] == s[i..i + |w|];
    PaddedBoundary(u, left, s, right, i);
    PaddedBoundary(u, left, s, right, i + |w|);
  }

  lemma PaddedBoundary(u: Unicode, left: string, s: string, right: string, i: nat)
    requires forall i :: 0 <= i < |left| ==> !u.word(left[i])
    requires forall i :: 0 <= i < |right| ==> !u.word(right[i])
    requires i <= |s|
    ensures Boundary(u, left + s + right, |left| + i) == Boundary(u, s, i)
  {
  }

  lemma {:induction false} LeftSplits(u: Unicode, s: string) returns (left: string)
    ensures s == left + StripLeft(u, s) && forall c :: c in left ==> u.space(c)
    decreases |s|
  {
    left := [];
    if s != "" && u.space(s[0]) {
      var more := LeftSplits(u, s[1..]);
      left := [s[0]] + more;
    }
  }

  lemma {:induction false} RightSplits(u: Unicode, s: string) returns (right: string)
    ensures s == StripRight(u, s) + right && forall c :: c in right ==> u.space(c)
    decreases |s|
  {
    right := [];
    if s != "" && u.space(s[|s| - 1]) {
      var more := RightSplits(u, s[..|s| - 1]);
      right := more + [s[|s| - 1]];
    }
  }

  lemma {:induction false} LeftStripped(u: Unicode, s: string)
    ensures StripLeft(u, s) == "" || !u.space(StripLeft(u, s)[0])
    decreases |s|
  {
    if s != "" && u.space(s[0]) {
      LeftStripped(u, s[1..]);
    }
  }

  lemma {:induction false} RightStripped(u: Unicode, s: string)
    ensures var r := StripRight(u, s); r <= s && (r == "" || !u.space(r[|r| - 1]))
    decreases |s|
  {
    if s != "" && u.space(s[|s| - 1]) {
      RightStripped(u, s[..|s| - 1]);
    }
  }

  /** The blanks strip() takes away: all there are at either end. */
  lemma StripSplits(u: Unicode, query: string) returns (left: string, right: string)
    ensures query == left + Strip(u, query) + right
    ensures forall c :: c in left || c in right ==> c in query && u.space(c)
    ensures var s := Strip(u, query); s == "" || (!u.space(s[0]) && !u.space(s[|s| - 1]))
  {
    hide StripLeft, StripRight;
    LeftStripped(u, query);
    RightStripped(u, StripLeft(u, query));
    left := LeftSplits(u, query);
    right := RightSplits(u, StripLeft(u, query));
  }

  lemma GuardSeesReferences(a: Reader, query: string)
    requires FoldsAlike(a.unicode, query)
    ensures ContainsReference(a.unicode, Lowered(a, query)) ==> Guarded(a.unicode, query)
  {
    hide ContainsReference, Mapped, Strip;
    var u := a.unicode;
    var left, right := StripSplits(u, query);
    var normal := Strip(u, query);
    MappedConcat(u.fold, left + normal, right);
    MappedConcat(u.fold, left, normal);
    forall c | c in query
      ensures u.lower(c) == u.fold(c) && (u.space(c) ==> u.fold(c) == [c] && !u.word(c))
    {
    }
    forall i | 0 <= i < |normal|
      ensures u.lower(normal[i]) == u.fold(normal[i])
    {
      assert query[|left| + i] == normal[i];
    }
    MappedSame(u.lower, u.fold, normal);
    BlanksFoldToThemselves(u, query, left);
    BlanksFoldToThemselves(u, query, right);
    if ContainsReference(u, Lowered(a, query)) {
      PaddedReference(u, left, Lowered(a, query), right);
    }
  }

  lemma BlanksFoldToThemselves(u: Unicode, query: string, blanks: string)
    requires FoldsAlike(u, query) && forall c :: c in blanks ==> c in query && u.space(c)
    ensures Mapped(u.fold, blanks) == blanks && forall i :: 0 <= i < |blanks| ==> !u.word(blanks[i])
  {
    forall i | 0 <= i < |blanks|
      ensures u.fold(blanks[i]) == [blanks[i]] && !u.word(blanks[i])
    {
      assert blanks[i] in blanks;
    }
    MappedBlank(u.fold, blanks);
  }

  /** What the guard is for - only queries analyzed independently of the conversation pass it -
      holds of a query if and only if it names entities, or has no reference as the analysis reads
      it, or has one as the guard reads it; in particular whenever lower() and casefold() agree on
      its characters. */
  lemma GuardSoundExactly(a: Reader, query: string)
    ensures (!Guarded(a.unicode, query) ==> Independent(a, query))
            <==> Explicit(a, query) != [] || !ContainsReference(a.unicode, Lowered(a, query))
                 || Guarded(a.unicode, query)
    ensures FoldsAlike(a.unicode, query) && !Guarded(a.unicode, query) ==> Independent(a, query)
  {
    hide ContainsReference, Guarded, Independent;
    IndependentExactly(a, query);
    if FoldsAlike(a.unicode, query) {
      GuardSeesReferences(a, query);
    }
  }

  /** The phrases the analysis expands into entry points. */
  const CONCEPTS: seq<string> :=
    ["request lifecycle", "lifecycle of a", "end-to-end", "request validation", "validate request",
     "dependency injection", "routing", "fastapi", "core", "codebase", "repository"]

  predicate NamesNothing(text: string, lowered: string) {
    && (forall i :: 0 <= i < |text| ==> text[i] != '`' && !('A' <= text[i] <= 'Z'))
    && (forall i, k :: 0 <= i <= |lowered| && 0 <= k < |CONCEPTS| ==> !(CONCEPTS[k] <= lowered[i..]))
  }

  /** Entities are named between backticks, by a capital letter, or by a concept's phrase. */
  ghost predicate NamesEntities(a: Reader) {
    forall text, lowered :: NamesNothing(text, lowered) ==> a.explicit(text, lowered) == []
  }

  /** A combining iota subscript and the letter iota. */
  const IOTA_SUBSCRIPT := '\U{0345}'
  const IOTA := '\U{03B9}'

  /** What the Unicode database has on four characters: lower() leaves the subscript, which is no
      word character; casefold() makes it the letter, which is one. */
  ghost predicate KnowsIota(u: Unicode) {
    && (forall c :: c in ['i', 't', IOTA_SUBSCRIPT] ==> u.lower(c) == [c] && !u.space(c))
    && (forall c :: c in ['i', 't'] ==> u.fold(c) == [c])
    && u.fold(IOTA_SUBSCRIPT) == [IOTA] && !u.word(IOTA_SUBSCRIPT)
    && (forall c :: c in ['i', 't', IOTA] ==> u.word(c))
  }

  const MISSED := "it" + [IOTA_SUBSCRIPT]

  /** A query the analysis reads as "it", and the guard does not: it is cached although its
      analysis depends on the conversation. */
  lemma GuardMissesAReference(a: Reader)
    requires KnowsIota(a.unicode) && NamesEntities(a)
    ensures !Guarded(a.unicode, MISSED) && !Independent(a, MISSED)
  {
    hide ContainsReference, Independent;
    MissedMapped(a.unicode);
    MissedStripped(a.unicode);
    MissedReferences(a.unicode);
    assert NamesNothing(MISSED, MISSED);
    IndependentExactly(a, MISSED);
  }

  lemma MissedStripped(u: Unicode)
    requires KnowsIota(u)
    ensures Strip(u, MISSED) == MISSED
  {
    assert MISSED[0] == 'i' && MISSED[|MISSED| - 1] == IOTA_SUBSCRIPT;
  }

  lemma MissedReferences(u: Unicode)
    requires KnowsIota(u)
    ensures ContainsReference(u, MISSED)
    ensures !ContainsReference(u, "it" + [IOTA])
  {
    var folded := "it" + [IOTA];
    assert MISSED[0..2] == "it" == REFERENCES[0];
    assert MatchesAt(u, MISSED, 0, REFERENCES[0]);
    forall i, k | 0 <= i <= |folded| && 0 <= k < |REFERENCES|
      ensures !MatchesAt(u, folded, i, REFERENCES[k])
    {
      NoMatch(u, folded, i, k);
    }
  }

  lemma NoMatch(u: Unicode, folded: string, i: nat, k: nat)
    requires KnowsIota(u)
    requires folded == "it" + [IOTA] && i <= |folded| && k < |REFERENCES|
    ensures !MatchesAt(u, folded, i, REFERENCES[k])
  {
    assert |REFERENCES[k]| == 2 || |REFERENCES[k]| > 3;
    assert folded[0] == 'i' && folded[1] == 't' && folded[2] == IOTA;
    assert !Boundary(u, folded, 1) && !Boundary(u, folded, 2);
  }

  lemma MissedMapped(u: Unicode)
    requires KnowsIota(u)
    ensures Mapped(u.lower, MISSED) == MISSED
    ensures Mapped(u.fold, MISSED) == "it" + [IOTA]
  {
    MappedBlank(u.lower, MISSED);
    MappedBlank(u.fold, "it");
    MappedConcat(u.fold, "it", [IOTA_SUBSCRIPT]);
    assert [IOTA_SUBSCRIPT][1..] == "";
    assert Mapped(u.fold, [IOTA_SUBSCRIPT]) == [IOTA] + "";
  }

  // ---------------------------------------------------------------- the workflow

  datatype Response = Response(answer: string, agentsUsed: seq<P.Agent>, warnings: seq<string>, partial: bool)

  /** The digested identity of a cache entry. */
  datatype CacheKey = CacheKey(repository: string, revision: string, normalized: string, preferences: string)

  function KeyOf(u: Unicode, repository: string, revision: string, query: string, preferences: string): CacheKey {
    CacheKey(repository, revision, Words(u, Mapped(u.fold, query)), preferences)
  }

  /** The same repository, revision and preferences, and a query with the same casefolded words. */
  ghost predicate SameQuestion(u: Unicode, repository: string, revision: string, query: string, preferences: string,
                               repository': string, revision': string, query': string, preferences': string)
  {
    && repository == repository' && revision == revision' && preferences == preferences'
    && SameWords(u, Mapped(u.fold, query), Mapped(u.fold, query'))
  }

  /** Two questions share a key if and only if they are the same question: none of the four may
      differ, and of a query its words count, not its blanks or its case. */
  lemma KeysExactly(u: Unicode, repository: string, revision: string, query: string, preferences: string,
                    repository': string, revision': string, query': string, preferences': string)
    ensures KeyOf(u, repository, revision, query, preferences) == KeyOf(u, repository', revision', query', preferences')
            <==> SameQuestion(u, repository, revision, query, preferences,
                              repository', revision', query', preferences')
  {
    hide Words, Mapped, SameWords;
    WordsExactly(u, Mapped(u.fold, query), Mapped(u.fold, query'));
  }

  /** A question answered by running its plan. */
  datatype Miss = Miss(repository: Option<string>, revision: Option<string>, preferences: string, query: string,
                       response: Response)

  const SERVED := "Response served from revision-scoped cache."

  function Served(r: Response): Response {
    r.(warnings := Unrepeated(r.warnings + [SERVED]))
  }

  function SuccessfulAgents(outputs: seq<P.Output>): seq<P.Agent> {
    if outputs == [] then []
    else
      var last := outputs[|outputs| - 1];
      SuccessfulAgents(outputs[..|outputs| - 1]) + if last.success then [last.agent] else []
  }

  function Warnings(name: P.Agent -> string, outputs: seq<P.Output>): seq<string> {
    if outputs == [] then []
    else
      var last := outputs[|outputs| - 1];
      Warnings(name, outputs[..|outputs| - 1]) + last.warnings
      + if last.error.Some? && last.error.value != "" then [name(last.agent) + ": " + last.error.value] else []
  }

  /** synthesize_response, over some way to render the answer. */
  function Synthesized(render: (string, seq<P.Output>) -> string, name: P.Agent -> string, query: string,
                       outputs: seq<P.Output>): Response {
    Response(render(query, outputs), Unrepeated(SuccessfulAgents(outputs)), Unrepeated(Warnings(name, outputs)),
             P.Partial(outputs))
  }

  /** A miss whose response may be kept under a key. */
  ghost predicate Keeps(u: Unicode, m: Miss, k: CacheKey) {
    && m.repository.Some? && m.revision.Some? && !Guarded(u, m.query) && !m.response.partial
    && KeyOf(u, m.repository.value, m.revision.value, m.query, m.preferences) == k
  }

  /** An entry is the response of a miss that may be kept under its key. */
  ghost predicate EntryOf(u: Unicode, misses: seq<Miss>, k: CacheKey, response: Response) {
    exists i :: 0 <= i < |misses| && Keeps(u, misses[i], k) && misses[i].response == response
  }

  /** The cache is as before, or the miss has been entered under its key. */
  ghost predicate Entered(u: Unicode, before: map<CacheKey, Response>, after: map<CacheKey, Response>, m: Miss) {
    || after == before
    || (m.repository.Some? && m.revision.Some?
        && var k := KeyOf(u, m.repository.value, m.revision.value, m.query, m.preferences);
           Keeps(u, m, k) && after == before[k := m.response])
  }

  /** A stored entry, found under the question's key, with one more warning. */
  ghost predicate FromCache(u: Unicode, cache: map<CacheKey, Response>, repository: Option<string>,
                            revision: Option<string>, preferences: string, query: string, response: Response) {
    && repository.Some? && revision.Some? && !Guarded(u, query)
    && var k := KeyOf(u, repository.value, revision.value, query, preferences);
       k in cache && response == Served(cache[k])
  }

  /** The same question was answered completely by its plan before, without a reference to the
      conversation, and this is that answer with the warning that it is an old one. */
  ghost predicate AnsweredBefore(u: Unicode, misses: seq<Miss>, repository: Option<string>, revision: Option<string>,
                                 preferences: string, query: string, response: Response)
  {
    exists i :: 0 <= i < |misses| && repository.Some? && revision.Some?
      && misses[i].repository.Some? && misses[i].revision.Some?
      && SameQuestion(u, repository.value, revision.value, query, preferences, misses[i].repository.value,
                      misses[i].revision.value, misses[i].query, misses[i].preferences)
      && !misses[i].response.partial && !ContainsReference(u, Mapped(u.fold, misses[i].query))
      && response == misses[i].response.(warnings := Unrepeated(misses[i].response.warnings + [SERVED]))
  }

  lemma HitIsAnswered(u: Unicode, misses: seq<Miss>, cache: map<CacheKey, Response>, repository: Option<string>,
                      revision: Option<string>, preferences: string, query: string, response: Response)
    requires forall k :: k in cache ==> EntryOf(u, misses, k, cache[k])
    requires FromCache(u, cache, repository, revision, preferences, query, response)
    ensures AnsweredBefore(u, misses, repository, revision, preferences, query, response)
  {
    hide KeyOf, SameQuestion, ContainsReference, Mapped;
    var k := KeyOf(u, repository.value, revision.value, query, preferences);
    assert EntryOf(u, misses, k, cache[k]);
    var i :| 0 <= i < |misses| && Keeps(u, misses[i], k) && misses[i].response == cache[k];
    KeysExactly(u, repository.value, revision.value, query, preferences, misses[i].repository.value,
                misses[i].revision.value, misses[i].query, misses[i].preferences);
  }

  ghost predicate Warned(name: P.Agent -> string, o: P.Output, w: string) {
    w in o.warnings || (o.error.Some? && o.error.value != "" && w == name(o.agent) + ": " + o.error.value)
  }

  /** The response names each agent that succeeded, once, and passes on every warning and error. */
  ghost predicate Reports(name: P.Agent -> string, outputs: seq<P.Output>, response: Response) {
    && (forall g :: g in response.agentsUsed <==> exists o :: o in outputs && o.success && o.agent == g)
    && (forall i, j :: 0 <= i < j < |response.agentsUsed| ==> response.agentsUsed[i] != response.agentsUsed[j])
    && (forall o, w :: o in outputs && Warned(name, o, w) ==> w in response.warnings)
    && (forall w :: w in response.warnings ==> w == FALLBACK || exists o :: o in outputs && Warned(name, o, w))
  }

  lemma {:induction false} AgentsExactly(outputs: seq<P.Output>, g: P.Agent)
    ensures g in SuccessfulAgents(outputs) <==> exists o :: o in outputs && o.success && o.agent == g
  {
    if outputs != [] {
      var init, last := outputs[..|outputs| - 1], outputs[|outputs| - 1];
      assert outputs == init + [last];
      AgentsExactly(init, g);
      assert last in outputs && forall o :: o in outputs <==> o in init || o == last;
    }
  }

  lemma {:induction false} WarningsExactly(name: P.Agent -> string, outputs: seq<P.Output>, w: string)
    ensures w in Warnings(name, outputs) <==> exists o :: o in outputs && Warned(name, o, w)
  {
    if outputs != [] {
      var init, last := outputs[..|outputs| - 1], outputs[|outputs| - 1];
      assert outputs == init + [last];
      WarningsExactly(name, init, w);
      assert last in outputs && forall o :: o in outputs <==> o in init || o == last;
    }
  }

  lemma SynthesizedReports(render: (string, seq<P.Output>) -> string, name: P.Agent -> string, query: string,
                           outputs: seq<P.Output>, e: Response)
    requires var r := Synthesized(render, name, query, outputs);
             e == r.(answer := e.answer) || e == r.(warnings := Unrepeated(r.warnings + [FALLBACK]))
    ensures Reports(name, outputs, e)
  {
    hide Warned, SuccessfulAgents, Warnings, Unrepeated;
    forall g
      ensures g in SuccessfulAgents(outputs) <==> exists o :: o in outputs && o.success && o.agent == g
    {
      AgentsExactly(outputs, g);
    }
    forall w
      ensures w in Warnings(name, outputs) <==> exists o :: o in outputs && Warned(name, o, w)
    {
      WarningsExactly(name, outputs, w);
    }
    OnlyOnce(SuccessfulAgents(outputs));
    OnlyOnce(Warnings(name, outputs));
    OnlyOnce(Unrepeated(Warnings(name, outputs)) + [FALLBACK]);
  }

  /** The plan ran as far as it goes, and its outputs say whether the answer is partial, which agents
      succeeded and what they warn of. */
  ghost predicate FromPlan(run: P.Executor, name: P.Agent -> string, analysis: P.Analysis, outputs: seq<P.Output>,
                           sequences: seq<nat>, n: nat, response: Response) {
    var plan := P.RouteToAgents(analysis);
    && P.Ascending(plan, sequences) && P.StopsAt(run, plan, sequences, n)
    && outputs == P.Through(run, plan, sequences, n)
    && response.partial == P.Partial(outputs) && Reports(name, outputs, response)
  }

  ghost predicate SameEntry(before: map<CacheKey, Response>, after: map<CacheKey, Response>, k: CacheKey) {
    (k in after <==> k in before) && (k in after ==> after[k] == before[k])
  }

  function Names(entities: seq<P.Entity>): seq<string> {
    seq(|entities|, i requires 0 <= i < |entities| => entities[i].name)
  }

  class OrchestratorService {
    const reader: Reader
    const memory: InMemoryConversationMemory
    var cache: map<CacheKey, Response>

    /** Every question answered by running its plan, in order. */
    ghost var misses: seq<Miss>

    /** Every entry is the complete response of an earlier miss with its repository, revision,
        preferences and normalized query, on a query without a reference. */
    ghost predicate Valid()
      reads this
    {
      forall k :: k in cache ==> EntryOf(reader.unicode, misses, k, cache[k])
    }

    constructor (reader: Reader, memory: InMemoryConversationMemory)
      ensures Valid() && this.reader == reader && this.memory == memory && cache == map[] && misses == []
    {
      this.reader, this.memory := reader, memory;
      cache, misses := map[], [];
    }

    /** The guarded read: a failing store reads as a miss. */
    method GetCachedResponse(query: string, repository: Option<string>, revision: Option<string>, preferences: string)
        returns (r: Option<Response>)
      requires Valid()
      ensures r.Some? ==> FromCache(reader.unicode, cache, repository, revision, preferences, query, Served(r.value))
      ensures r.Some? ==>
                AnsweredBefore(reader.unicode, misses, repository, revision, preferences, query, Served(r.value))
    {
      hide KeyOf, AnsweredBefore, EntryOf, Guarded;
      r := None;
      if repository.None? || revision.None? || Guarded(reader.unicode, query) { return; }
      var available := *;
      var k := KeyOf(reader.unicode, repository.value, revision.value, query, preferences);
      if available && k in cache {
        r := Some(cache[k]);
        HitIsAnswered(reader.unicode, misses, cache, repository, revision, preferences, query, Served(cache[k]));
      }
    }

    /** The guarded write of the last miss; a failing store leaves the cache as it was. */
    method PutCachedResponse(query: string, repository: Option<string>, revision: Option<string>, preferences: string,
                             response: Response)
      requires Valid() && misses != []
      requires misses[|misses| - 1] == Miss(repository, revision, preferences, query, response)
      modifies this`cache
      ensures Valid()
      ensures Entered(reader.unicode, old(cache), cache, misses[|misses| - 1])
      ensures forall repository', revision', query', preferences' ::
                || SameEntry(old(cache), cache, KeyOf(reader.unicode, repository', revision', query', preferences'))
                || (repository.Some? && revision.Some?
                    && SameQuestion(reader.unicode, repository.value, revision.value, query, preferences,
                                    repository', revision', query', preferences'))
    {
      hide KeyOf, SameQuestion;
      if repository.None? || revision.None? || response.partial || Guarded(reader.unicode, query) { return; }
      var available := *;
      if available {
        var k := KeyOf(reader.unicode, repository.value, revision.value, query, preferences);
        assert Keeps(reader.unicode, misses[|misses| - 1], k);
        ghost var before := cache;
        cache := cache[k := response];
        forall j | j in cache
          ensures EntryOf(reader.unicode, misses, j, cache[j])
        {
          if j == k {
            assert misses[|misses| - 1].response == cache[j];
          } else {
            assert EntryOf(reader.unicode, misses, j, before[j]);
          }
        }
        forall repository', revision', query', preferences'
          ensures SameQuestion(reader.unicode, repository.value, revision.value, query, preferences,
                               repository', revision', query', preferences')
                  || SameEntry(before, cache, KeyOf(reader.unicode, repository', revision', query', preferences'))
        {
          KeysExactly(reader.unicode, repository.value, revision.value, query, preferences,
                      repository', revision', query', preferences');
        }
      }
    }

    method AnswerByPlan(run: P.Executor, render: (string, seq<P.Output>) -> string, name: P.Agent -> string,
                        query: string, analysis: P.Analysis)
        returns (response: Response, ghost outputs: seq<P.Output>, ghost sequences: seq<nat>, ghost n: nat)
      ensures FromPlan(run, name, analysis, outputs, sequences, n, response)
    {
      hide P.RouteToAgents, P.Ascending, P.StopsAt, P.Through;
      var results;
      results, sequences, n := P.ExecutePlan(run, P.RouteToAgents(analysis));
      outputs := results;
      response := Enhanced(Synthesized(render, name, query, results));
      SynthesizedReports(render, name, query, results, response);
    }

    /** orchestrate(): the question is remembered, served from the cache or answered by its plan,
        and the answer is remembered. */
    method Orchestrate(run: P.Executor, render: (string, seq<P.Output>) -> string, name: P.Agent -> string,
                       session: string, query: string, repository: Option<string>, revision: Option<string>,
                       preferences: string, recalled: seq<string>)
        returns (response: Response, ghost hit: bool, ghost outputs: seq<P.Output>,
                 ghost sequences: seq<nat>, ghost n: nat)
      requires Valid() && memory.maximum > 0
      modifies this`cache, this`misses, memory
      ensures Valid()
      ensures var before := old(memory.ContextOf(session));
              var repo, rev := Or(repository, before.repository), Or(revision, before.revision);
              var analysis := AnalyzeQuery(reader, query, before.active + recalled);
              && memory.ContextOf(session)
                 == Appended(Appended(before, memory.maximum,
                                      Append(Turn("user", query, Names(analysis.entities)), repo, rev)),
                             memory.maximum,
                             Append(Turn("assistant", response.answer, Names(analysis.entities)), None, None))
              && (hit ==> cache == old(cache) && misses == old(misses)
                          && FromCache(reader.unicode, cache, repo, rev, preferences, query, response)
                          && AnsweredBefore(reader.unicode, misses, repo, rev, preferences, query, response))
              && (!hit ==>
                    && FromPlan(run, name, analysis, outputs, sequences, n, response)
                    && misses == old(misses) + [Miss(repo, rev, preferences, query, response)]
                    && Entered(reader.unicode, old(cache), cache, misses[|misses| - 1]))
      ensures forall s :: s != session ==> memory.ContextOf(s) == old(memory.ContextOf(s))
    {
      hide FromPlan, FromCache, AnsweredBefore, Entered, EntryOf, Guarded, AnalyzeQuery, Appended, Keeps;
      hit, outputs, sequences, n := false, [], [], 0;
      var context := memory.GetContext(session);
      var repo, rev := Or(repository, context.repository), Or(revision, context.revision);
      var analysis := AnalyzeQuery(reader, query, context.active + recalled);
      var names := Names(analysis.entities);
      context := memory.AppendTurn(session, Append(Turn("user", query, names), repo, rev));
      var cached := GetCachedResponse(query, repo, rev, preferences);
      if cached.Some? {
        response, hit := Served(cached.value), true;
        context := memory.AppendTurn(session, Append(Turn("assistant", response.answer, names), None, None));
        return;
      }
      response, outputs, sequences, n := AnswerByPlan(run, render, name, query, analysis);
      context := memory.AppendTurn(session, Append(Turn("assistant", response.answer, names), None, None));
      RecordMiss(Miss(repo, rev, preferences, query, response));
      PutCachedResponse(query, repo, rev, preferences, response);
    }

    ghost method RecordMiss(m: Miss)
      requires Valid()
      modifies this`misses
      ensures Valid() && misses == old(misses) + [m]
    {
      ghost var kept := misses;
      misses := misses + [m];
      assert forall i :: 0 <= i < |kept| ==> misses[i] == kept[i];
    }

    /** The optional synthesizer rewords the answer or, failing, adds a warning. */
    method Enhanced(r: Response) returns (e: Response)
      ensures e.partial == r.partial && e.agentsUsed == r.agentsUsed
      ensures e == r.(answer := e.answer) || e == r.(warnings := Unrepeated(r.warnings + [FALLBACK]))
    {
      var synthesize, fails := *, *;
      var answer: string := *;
      e := if !synthesize then r
           else if fails then r.(warnings := Unrepeated(r.warnings + [FALLBACK]))
           else r.(answer := answer);
    }
  }

  const FALLBACK := "LLM synthesis unavailable; deterministic fallback used."
}

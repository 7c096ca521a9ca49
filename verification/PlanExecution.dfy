/** Routing a question to agents, running the plan group by group, and judging the outcome. */
module PlanExecution {
  import opened Contracts

  datatype Agent = Indexer | Graph | Repository | CodeAnalyst

  datatype Task = Task(agent: Agent, operation: string, sequence: nat, dependsOn: seq<Agent>)

  datatype Intent =
    | Indexing | Comparison | PatternAnalysis | Architecture | Implementation
    | DependencyTraversal | EntityLookup | General

  datatype Entity = Entity(name: string, source: string)

  datatype Analysis = Analysis(intent: Intent, entities: seq<Entity>)

  datatype Output = Output(agent: Agent, operation: string, success: bool, warnings: seq<string>, error: Option<string>)

  /** What an executor does with a task: it answers, takes too long, or raises. */
  datatype Outcome = Answer(output: Output) | TimedOut | Raised(message: string)

  /** The executor's behaviour on the task at a place of the plan, given the earlier outputs. */
  type Executor = (nat, Task, seq<Output>) -> Outcome

  // ---------------------------------------------------------------- routing

  function Find(operation: string): Task {
    Task(Graph, operation, 0, [])
  }

  function Verify(): Task {
    Task(Repository, "verify_source", 1, [Graph])
  }

  function Analyze(operation: string): Task {
    Task(CodeAnalyst, operation, 2, [Repository])
  }

  /** Only generic capitalization named an entity. */
  predicate RequiresSemanticDiscovery(a: Analysis) {
    && (a.intent == General || a.intent == Architecture)
    && forall i :: 0 <= i < |a.entities| ==> a.entities[i].source == "identifier"
  }

  function RouteToAgents(a: Analysis): seq<Task> {
    if a.intent == Indexing then [Task(Indexer, "index_repository", 0, [])]
    else if (a.intent == EntityLookup || a.intent == DependencyTraversal) && a.entities != [] then
      [Find("find_entity")]
      + if a.intent == DependencyTraversal then [Task(Graph, "get_dependencies", 1, [Graph])] else []
    else if a.intent == PatternAnalysis then [Find("find_entity"), Verify(), Analyze("find_patterns")]
    else if a.intent == Implementation then [Find("find_entity"), Verify(), Analyze("explain_implementation")]
    else if a.intent == Comparison then [Find("find_entity"), Verify(), Analyze("compare_implementations")]
    else if RequiresSemanticDiscovery(a) then [Find("hybrid_search"), Verify(), Analyze("explain_implementation")]
    else if a.entities != [] then [Find("find_entity"), Verify(), Analyze("explain_implementation")]
    else [Find("hybrid_search"), Verify(), Analyze("explain_implementation")]
  }

  // ---------------------------------------------------------------- execution

  function Failure(t: Task, error: string): Output {
    Output(t.agent, t.operation, false, [], Some(error))
  }

  function ExecuteTask(run: Executor, i: nat, t: Task, prior: seq<Output>): Output {
    match run(i, t, prior)
    case Answer(output) => output
    case TimedOut => Failure(t, "Agent timed out")
    case Raised(message) => Failure(t, message)
  }

  /** A task succeeds only if its agent answers in time and says so; otherwise its agent, its
      operation and what went wrong are reported. */
  lemma TaskSucceedsExactly(run: Executor, i: nat, t: Task, prior: seq<Output>)
    ensures var o := ExecuteTask(run, i, t, prior);
            && (o.success <==> run(i, t, prior).Answer? && run(i, t, prior).output.success)
            && (!run(i, t, prior).Answer? ==>
                  o.agent == t.agent && o.operation == t.operation && o.error.Some? && o.warnings == [])
            && (run(i, t, prior).Raised? ==> o.error.value == run(i, t, prior).message)
            && (run(i, t, prior).Answer? ==> o == run(i, t, prior).output)
  {
  }

  /** The places of the plan with a sequence number. */
  function Group(tasks: seq<Task>, sequence: nat): seq<nat> {
    if tasks == [] then []
    else
      var n := |tasks| - 1;
      var before := Group(tasks[..n], sequence);
      if tasks[n].sequence == sequence then before + [n] else before
  }

  ghost predicate Places(tasks: seq<Task>, places: seq<nat>) {
    forall k :: 0 <= k < |places| ==> places[k] < |tasks|
  }

  function Results(run: Executor, tasks: seq<Task>, places: seq<nat>, prior: seq<Output>): (r: seq<Output>)
    requires Places(tasks, places)
    ensures |r| == |places|
    ensures forall k :: 0 <= k < |places| ==> r[k] == ExecuteTask(run, places[k], tasks[places[k]], prior)
  {
    if places == [] then []
    else
      var n := |places| - 1;
      Results(run, tasks, places[..n], prior) + [ExecuteTask(run, places[n], tasks[places[n]], prior)]
  }

  lemma {:induction false} GroupPlaces(tasks: seq<Task>, sequence: nat)
    ensures Places(tasks, Group(tasks, sequence))
    ensures forall i: nat :: i in Group(tasks, sequence) <==> i < |tasks| && tasks[i].sequence == sequence
    ensures forall i, j :: 0 <= i < j < |Group(tasks, sequence)| ==>
              Group(tasks, sequence)[i] < Group(tasks, sequence)[j]
  {
    if tasks != [] {
      GroupPlaces(tasks[..|tasks| - 1], sequence);
    }
  }

  function GroupResults(run: Executor, tasks: seq<Task>, sequence: nat, prior: seq<Output>): seq<Output> {
    GroupPlaces(tasks, sequence);
    Results(run, tasks, Group(tasks, sequence), prior)
  }

  predicate WhollyFailed(results: seq<Output>) {
    forall k :: 0 <= k < |results| ==> !results[k].success
  }

  /** The outputs of the first n groups, each run on the outputs of the groups before it. */
  function Through(run: Executor, tasks: seq<Task>, sequences: seq<nat>, n: nat): seq<Output>
    requires n <= |sequences|
  {
    if n == 0 then []
    else
      var prior := Through(run, tasks, sequences, n - 1);
      prior + GroupResults(run, tasks, sequences[n - 1], prior)
  }

  predicate Fails(run: Executor, tasks: seq<Task>, sequences: seq<nat>, n: nat)
    requires n < |sequences|
  {
    WhollyFailed(GroupResults(run, tasks, sequences[n], Through(run, tasks, sequences, n)))
  }

  /** The distinct sequence numbers of a plan in ascending order. */
  ghost predicate Ascending(tasks: seq<Task>, sequences: seq<nat>) {
    && (forall i, j :: 0 <= i < j < |sequences| ==> sequences[i] < sequences[j])
    && (forall s :: s in sequences <==> exists i :: 0 <= i < |tasks| && tasks[i].sequence == s)
  }

  /** Execution stops after the first group that wholly failed. */
  ghost predicate StopsAt(run: Executor, tasks: seq<Task>, sequences: seq<nat>, n: nat) {
    && n <= |sequences|
    && (forall k :: 0 <= k < n - 1 ==> !Fails(run, tasks, sequences, k))
    && (n < |sequences| ==> n > 0 && Fails(run, tasks, sequences, n - 1))
  }

  /** The outputs of a plan's run. */
  ghost predicate Executed(run: Executor, tasks: seq<Task>, outputs: seq<Output>) {
    exists sequences, n ::
      Ascending(tasks, sequences) && StopsAt(run, tasks, sequences, n) && outputs == Through(run, tasks, sequences, n)
  }

  method SortedSequences(tasks: seq<Task>) returns (sequences: seq<nat>)
    ensures Ascending(tasks, sequences)
  {
    sequences := [];
    var pending := set i | 0 <= i < |tasks| :: tasks[i].sequence;
    ghost var all := pending;
    while pending != {}
      invariant pending <= all
      invariant forall s :: s in all ==> s in pending || s in sequences
      invariant forall s :: s in sequences ==> s in all
      invariant forall i, s :: 0 <= i < |sequences| && s in pending ==> sequences[i] < s
      invariant forall i, j :: 0 <= i < j < |sequences| ==> sequences[i] < sequences[j]
      decreases |pending|
    {
      var least := Least(pending);
      sequences, pending := sequences + [least], pending - {least};
    }
  }

  method Least(s: set<nat>) returns (least: nat)
    requires s != {}
    ensures least in s && forall x :: x in s ==> least <= x
  {
    least :| least in s;
    var rest := s - {least};
    while rest != {}
      invariant rest <= s && least in s
      invariant forall x :: x in s && x !in rest ==> least <= x
      decreases |rest|
    {
      var x :| x in rest;
      rest := rest - {x};
      if x < least { least := x; }
    }
  }

  /** One group: its tasks run side by side on the outputs so far. */
  method RunGroup(run: Executor, tasks: seq<Task>, sequence: nat, prior: seq<Output>) returns (results: seq<Output>)
    ensures results == GroupResults(run, tasks, sequence, prior)
  {
    results := [];
    for i := 0 to |tasks|
      invariant results == GroupResults(run, tasks[..i], sequence, prior)
    {
      GroupMore(run, tasks, i, sequence, prior);
      if tasks[i].sequence == sequence {
        results := results + [ExecuteTask(run, i, tasks[i], prior)];
      }
    }
    assert tasks[..|tasks|] == tasks;
  }

  lemma {:induction false} ResultsOfMore(run: Executor, tasks: seq<Task>, i: nat, places: seq<nat>, prior: seq<Output>)
    requires i <= |tasks| && Places(tasks[..i], places)
    ensures Places(tasks, places) && Results(run, tasks[..i], places, prior) == Results(run, tasks, places, prior)
    decreases |places|
  {
    if places != [] {
      ResultsOfMore(run, tasks, i, places[..|places| - 1], prior);
      assert tasks[..i][places[|places| - 1]] == tasks[places[|places| - 1]];
    }
  }

  lemma GroupMore(run: Executor, tasks: seq<Task>, i: nat, sequence: nat, prior: seq<Output>)
    requires i < |tasks|
    ensures GroupResults(run, tasks[..i + 1], sequence, prior)
            == GroupResults(run, tasks[..i], sequence, prior)
               + if tasks[i].sequence == sequence then [ExecuteTask(run, i, tasks[i], prior)] else []
  {
    var more := tasks[..i + 1];
    assert more[..i] == tasks[..i];
    GroupPlaces(tasks[..i], sequence);
    GroupPlaces(more, sequence);
    ResultsOfMore(run, more, i, Group(tasks[..i], sequence), prior);
    if tasks[i].sequence == sequence {
      var places := Group(more, sequence);
      assert places[..|places| - 1] == Group(tasks[..i], sequence);
    }
  }

  /** _execute_plan with an executor: exactly the groups up to and including the first that wholly
      failed are run, in ascending order, each task seeing the earlier groups' outputs only. */
  method ExecutePlan(run: Executor, tasks: seq<Task>)
      returns (outputs: seq<Output>, ghost sequences: seq<nat>, ghost n: nat)
    ensures Executed(run, tasks, outputs)
    ensures Ascending(tasks, sequences) && StopsAt(run, tasks, sequences, n)
    ensures outputs == Through(run, tasks, sequences, n)
  {
    hide GroupResults, Ascending, ExecuteTask;
    var order := SortedSequences(tasks);
    sequences := order;
    outputs := [];
    for i := 0 to |order|
      invariant outputs == Through(run, tasks, order, i)
      invariant forall k :: 0 <= k < i ==> !Fails(run, tasks, order, k)
    {
      var results := RunGroup(run, tasks, order[i], outputs);
      outputs := outputs + results;
      n := i + 1;
      if WhollyFailed(results) {
        assert StopsAt(run, tasks, order, n);
        return;
      }
    }
    n := |order|;
    assert StopsAt(run, tasks, order, n);
  }

  lemma {:induction false} SameSequence(tasks: seq<Task>, s: seq<nat>, t: seq<nat>, i: nat)
    requires Ascending(tasks, s) && Ascending(tasks, t) && i < |s|
    ensures i < |t| && s[i] == t[i]
    decreases i
  {
    forall j | 0 <= j < i
      ensures j < |t| && s[j] == t[j]
    {
      SameSequence(tasks, s, t, j);
    }
    assert s[i] in s && s[i] in t;
    var j :| 0 <= j < |t| && t[j] == s[i];
    assert j >= i;
    assert t[i] in t && t[i] in s;
    var k :| 0 <= k < |s| && s[k] == t[i];
    assert k >= i;
  }

  /** A plan's outputs are determined by the plan and the executor. */
  lemma ExecutedOnce(run: Executor, tasks: seq<Task>, o: seq<Output>, p: seq<Output>)
    requires Executed(run, tasks, o) && Executed(run, tasks, p)
    ensures o == p
  {
    hide Through, Fails;
    var s, n :| Ascending(tasks, s) && StopsAt(run, tasks, s, n) && o == Through(run, tasks, s, n);
    var t, m :| Ascending(tasks, t) && StopsAt(run, tasks, t, m) && p == Through(run, tasks, t, m);
    if s != [] {
      SameSequence(tasks, s, t, |s| - 1);
    }
    if t != [] {
      SameSequence(tasks, t, s, |t| - 1);
    }
    forall i | 0 <= i < |s|
      ensures s[i] == t[i]
    {
      SameSequence(tasks, s, t, i);
    }
    assert s == t;
  }

  /** Without an executor every planned task fails, and the answer is partial. */
  method FailPlan(tasks: seq<Task>) returns (outputs: seq<Output>)
    ensures |outputs| == |tasks|
    ensures forall i :: 0 <= i < |tasks| ==> outputs[i] == Failure(tasks[i], "No agent executor is configured")
    ensures Partial(outputs)
  {
    outputs := [];
    for i := 0 to |tasks|
      invariant |outputs| == i
      invariant forall k :: 0 <= k < i ==> outputs[k] == Failure(tasks[k], "No agent executor is configured")
    {
      outputs := outputs + [Failure(tasks[i], "No agent executor is configured")];
    }
  }

  // ---------------------------------------------------------------- partial answers

  /** synthesize_response: bool(failed) or not successful. */
  predicate Partial(outputs: seq<Output>) {
    || (exists k :: 0 <= k < |outputs| && !outputs[k].success)
    || (forall k :: 0 <= k < |outputs| ==> !outputs[k].success)
  }

  /** The places run in the first n groups, in the order of their outputs. */
  ghost function Ran(tasks: seq<Task>, sequences: seq<nat>, n: nat): seq<nat>
    requires n <= |sequences|
  {
    if n == 0 then [] else Ran(tasks, sequences, n - 1) + Group(tasks, sequences[n - 1])
  }

  lemma {:induction false} RanCount(run: Executor, tasks: seq<Task>, sequences: seq<nat>, n: nat)
    requires n <= |sequences|
    ensures |Ran(tasks, sequences, n)| == |Through(run, tasks, sequences, n)|
    decreases n
  {
    if n > 0 {
      RanCount(run, tasks, sequences, n - 1);
      GroupPlaces(tasks, sequences[n - 1]);
    }
  }

  lemma {:induction false} RanPlaces(tasks: seq<Task>, sequences: seq<nat>, n: nat)
    requires n <= |sequences|
    ensures forall i :: i in Ran(tasks, sequences, n) <==> 0 <= i < |tasks| && tasks[i].sequence in sequences[..n]
    decreases n
  {
    if n > 0 {
      RanPlaces(tasks, sequences, n - 1);
      GroupPlaces(tasks, sequences[n - 1]);
      assert sequences[..n] == sequences[..n - 1] + [sequences[n - 1]];
    }
  }

  lemma GroupNotEmpty(run: Executor, tasks: seq<Task>, sequences: seq<nat>, k: nat, prior: seq<Output>)
    requires Ascending(tasks, sequences) && k < |sequences|
    ensures GroupResults(run, tasks, sequences[k], prior) != []
  {
    GroupPlaces(tasks, sequences[k]);
    assert sequences[k] in sequences;
    var i :| 0 <= i < |tasks| && tasks[i].sequence == sequences[k];
    assert i in Group(tasks, sequences[k]);
  }

  /** Stopping early leaves a failed output behind. */
  lemma EarlyStopShows(run: Executor, tasks: seq<Task>, sequences: seq<nat>, n: nat)
    requires Ascending(tasks, sequences) && StopsAt(run, tasks, sequences, n) && n < |sequences|
    ensures exists k :: 0 <= k < |Through(run, tasks, sequences, n)| && !Through(run, tasks, sequences, n)[k].success
  {
    hide GroupResults;
    var prior := Through(run, tasks, sequences, n - 1);
    GroupNotEmpty(run, tasks, sequences, n - 1, prior);
    assert Through(run, tasks, sequences, n)[|prior|] == GroupResults(run, tasks, sequences[n - 1], prior)[0];
  }

  lemma AllRan(tasks: seq<Task>, sequences: seq<nat>)
    requires Ascending(tasks, sequences)
    ensures forall i :: 0 <= i < |tasks| ==> i in Ran(tasks, sequences, |sequences|)
  {
    RanPlaces(tasks, sequences, |sequences|);
    assert sequences[..|sequences|] == sequences;
  }

  ghost predicate RanAll(tasks: seq<Task>, sequences: seq<nat>, n: nat)
    requires n <= |sequences|
  {
    forall i :: 0 <= i < |tasks| ==> i in Ran(tasks, sequences, n)
  }

  predicate AllSucceeded(outputs: seq<Output>) {
    forall k :: 0 <= k < |outputs| ==> outputs[k].success
  }

  /** For every plan and executor: the answer is not partial if and only if the plan has a task and every task
      was run and succeeded. */
  lemma PartialExactly(run: Executor, tasks: seq<Task>, sequences: seq<nat>, n: nat)
    requires Ascending(tasks, sequences) && StopsAt(run, tasks, sequences, n)
    ensures var outputs := Through(run, tasks, sequences, n);
            !Partial(outputs) <==> tasks != [] && RanAll(tasks, sequences, n) && AllSucceeded(outputs)
  {
    hide Through, Ascending, Fails, Ran;
    var outputs := Through(run, tasks, sequences, n);
    RanCount(run, tasks, sequences, n);
    if !Partial(outputs) {
      if n < |sequences| {
        EarlyStopShows(run, tasks, sequences, n);
      }
      AllRan(tasks, sequences);
      RanPlaces(tasks, sequences, n);
      assert Ran(tasks, sequences, n)[0] in Ran(tasks, sequences, n);
    }
    if tasks != [] && RanAll(tasks, sequences, n) && AllSucceeded(outputs) {
      assert 0 in Ran(tasks, sequences, n);
      assert outputs[0].success;
    }
  }

  // ---------------------------------------------------------------- routed plans

  /** Tasks numbered by their place, each depending on the agent of the task before it. */
  ghost predicate Chain(tasks: seq<Task>) {
    forall i :: 0 <= i < |tasks| ==>
      tasks[i].sequence == i && tasks[i].dependsOn == if i == 0 then [] else [tasks[i - 1].agent]
  }

  lemma RoutedPlansAreChains(a: Analysis)
    ensures Chain(RouteToAgents(a)) && 1 <= |RouteToAgents(a)| <= 3
    ensures RouteToAgents(a)[0].dependsOn == []
  {
  }

  ghost predicate Asks(tasks: seq<Task>, agent: Agent, operation: string) {
    exists t :: t in tasks && t.agent == agent && t.operation == operation
  }

  /** A lookup or a traversal that names an entity. */
  ghost predicate Direct(a: Analysis) {
    (a.intent == EntityLookup || a.intent == DependencyTraversal) && a.entities != []
  }

  /** Questions whose place in the code is searched for by meaning: those that name nothing, unless
      they ask for an explanation, a comparison or a pattern, and general ones of which only a
      capital letter named something. */
  ghost predicate ByMeaning(a: Analysis) {
    || (a.entities == [] && a.intent in {EntityLookup, DependencyTraversal, General, Architecture})
    || (a.intent in {General, Architecture} && forall e :: e in a.entities ==> e.source == "identifier")
  }

  /** Which agents a question is asked of, by its intent and the entities it names. */
  ghost predicate AskedByIntent(a: Analysis, tasks: seq<Task>) {
    && (Asks(tasks, Indexer, "index_repository") <==> a.intent == Indexing)
    && (Asks(tasks, Graph, "get_dependencies") <==> a.intent == DependencyTraversal && a.entities != [])
    && (Asks(tasks, Graph, "hybrid_search") <==> ByMeaning(a))
    && (Asks(tasks, Graph, "find_entity") <==> a.intent != Indexing && !ByMeaning(a))
    && (Asks(tasks, Repository, "verify_source") <==> a.intent != Indexing && !Direct(a))
    && (Asks(tasks, CodeAnalyst, "find_patterns") <==> a.intent == PatternAnalysis)
    && (Asks(tasks, CodeAnalyst, "compare_implementations") <==> a.intent == Comparison)
    && (Asks(tasks, CodeAnalyst, "explain_implementation") <==>
          !Direct(a) && a.intent !in {Indexing, PatternAnalysis, Comparison})
  }

  lemma RoutesByIntent(a: Analysis)
    ensures AskedByIntent(a, RouteToAgents(a))
    ensures |RouteToAgents(a)| == if a.intent == Indexing then 1
                                  else if !Direct(a) then 3
                                  else if a.intent == DependencyTraversal then 2 else 1
  {
    if a.intent == Indexing || Direct(a) {
      ShortRoutes(a);
    } else {
      LongRoutes(a);
    }
  }

  lemma ShortRoutes(a: Analysis)
    requires a.intent == Indexing || Direct(a)
    ensures AskedByIntent(a, RouteToAgents(a))
  {
    hide RequiresSemanticDiscovery, Asks;
    var tasks := RouteToAgents(a);
    if |tasks| == 1 {
      OneTask(tasks);
    } else {
      TwoTasks(tasks);
    }
    Different();
  }

  lemma LongRoutes(a: Analysis)
    requires a.intent != Indexing && !Direct(a)
    ensures AskedByIntent(a, RouteToAgents(a))
  {
    hide RequiresSemanticDiscovery, ByMeaning, Asks;
    SemanticDiscovery(a);
    ThreeTasks(RouteToAgents(a));
    Different();
  }

  lemma OneTask(tasks: seq<Task>)
    requires |tasks| == 1
    ensures forall agent, operation :: Asks(tasks, agent, operation) <==>
              tasks[0].agent == agent && tasks[0].operation == operation
  {
    assert tasks[0] in tasks;
  }

  lemma TwoTasks(tasks: seq<Task>)
    requires |tasks| == 2
    ensures forall agent, operation :: Asks(tasks, agent, operation) <==>
              || (tasks[0].agent == agent && tasks[0].operation == operation)
              || (tasks[1].agent == agent && tasks[1].operation == operation)
  {
    assert tasks[0] in tasks && tasks[1] in tasks;
  }

  lemma ThreeTasks(tasks: seq<Task>)
    requires |tasks| == 3
    ensures forall agent, operation :: Asks(tasks, agent, operation) <==>
              || (tasks[0].agent == agent && tasks[0].operation == operation)
              || (tasks[1].agent == agent && tasks[1].operation == operation)
              || (tasks[2].agent == agent && tasks[2].operation == operation)
  {
    assert tasks[0] in tasks && tasks[1] in tasks && tasks[2] in tasks;
  }

  lemma Different()
    ensures "get_dependencies" != "hybrid_search" && "hybrid_search" != "find_entity"
    ensures "find_entity" != "get_dependencies" && "find_patterns" != "compare_implementations"
    ensures "compare_implementations" != "explain_implementation" && "explain_implementation" != "find_patterns"
  {
    assert |"find_patterns"| == 13 && |"compare_implementations"| == 23 && |"explain_implementation"| == 22;
    assert |"get_dependencies"| == 16 && |"hybrid_search"| == 13 && |"find_entity"| == 11;
  }

  lemma SemanticDiscovery(a: Analysis)
    ensures ByMeaning(a) <==>
              || (a.entities == [] && (a.intent == EntityLookup || a.intent == DependencyTraversal))
              || RequiresSemanticDiscovery(a)
    ensures RequiresSemanticDiscovery(a) ==> a.intent == General || a.intent == Architecture
    ensures (a.intent == General || a.intent == Architecture) && a.entities == [] ==> RequiresSemanticDiscovery(a)
  {
    if RequiresSemanticDiscovery(a) {
      forall e | e in a.entities
        ensures e.source == "identifier"
      {
        var i :| 0 <= i < |a.entities| && a.entities[i] == e;
      }
    }
    assert forall i :: 0 <= i < |a.entities| ==> a.entities[i] in a.entities;
  }

  lemma {:induction false} ChainGroup(tasks: seq<Task>, s: nat)
    requires Chain(tasks)
    ensures Group(tasks, s) == if s < |tasks| then [s] else []
    decreases |tasks|
  {
    if tasks != [] {
      var init := tasks[..|tasks| - 1];
      forall i | 0 <= i < |init|
        ensures init[i].sequence == i && init[i].dependsOn == if i == 0 then [] else [init[i - 1].agent]
      {
        assert init[i] == tasks[i];
        if i > 0 {
          assert init[i - 1] == tasks[i - 1];
        }
      }
      ChainGroup(init, s);
      assert tasks[|tasks| - 1].sequence == |tasks| - 1;
    }
  }

  lemma {:induction false} AscendingIs(tasks: seq<Task>, sequences: seq<nat>, i: nat)
    requires Chain(tasks) && Ascending(tasks, sequences) && i < |sequences|
    ensures i < |tasks| && sequences[i] == i
    decreases i
  {
    assert sequences[i] in sequences;
    var t :| 0 <= t < |tasks| && tasks[t].sequence == sequences[i];
    if i > 0 {
      AscendingIs(tasks, sequences, i - 1);
    }
    assert tasks[i].sequence == i;
    assert i in sequences;
    var j :| 0 <= j < |sequences| && sequences[j] == i;
    if j < i {
      AscendingIs(tasks, sequences, j);
    }
  }

  /** The executor answers in the name of the agent it was asked for. */
  ghost predicate Faithful(run: Executor) {
    forall i, t, prior :: run(i, t, prior).Answer? ==> run(i, t, prior).output.agent == t.agent
  }

  lemma ChainResult(run: Executor, tasks: seq<Task>, k: nat, prior: seq<Output>)
    requires Chain(tasks) && k < |tasks|
    ensures GroupResults(run, tasks, k, prior) == [ExecuteTask(run, k, tasks[k], prior)]
  {
    ChainGroup(tasks, k);
  }

  /** In a chain the task before one that is run has succeeded. */
  lemma PreviousSucceeded(run: Executor, tasks: seq<Task>, sequences: seq<nat>, n: nat, k: nat)
    requires Faithful(run) && Chain(tasks)
    requires Ascending(tasks, sequences) && StopsAt(run, tasks, sequences, n) && 0 < k < n
    requires k - 1 < |tasks| && sequences[k - 1] == k - 1
    ensures exists o :: o in Through(run, tasks, sequences, k) && o.agent == tasks[k - 1].agent && o.success
  {
    hide GroupResults, Ascending, ExecuteTask, Chain, Faithful;
    var prior := Through(run, tasks, sequences, k - 1);
    var o := ExecuteTask(run, k - 1, tasks[k - 1], prior);
    assert !Fails(run, tasks, sequences, k - 1);
    ChainResult(run, tasks, k - 1, prior);
    NamedByTask(run, k - 1, tasks[k - 1], prior);
    assert Through(run, tasks, sequences, k) == prior + [o];
    assert o in Through(run, tasks, sequences, k);
  }

  /** In a routed plan, when a task is run the agent it depends on has succeeded before. */
  lemma DependenciesSucceeded(run: Executor, a: Analysis, sequences: seq<nat>, n: nat, k: nat)
    requires Faithful(run)
    requires Ascending(RouteToAgents(a), sequences) && StopsAt(run, RouteToAgents(a), sequences, n) && k < n
    ensures var tasks := RouteToAgents(a);
            && k < |tasks| && Group(tasks, sequences[k]) == [k]
            && forall d :: d in tasks[k].dependsOn ==>
                 exists o :: o in Through(run, tasks, sequences, k) && o.agent == d && o.success
  {
    hide RouteToAgents, GroupResults, Ascending, ExecuteTask, Through, Faithful, Fails;
    var tasks := RouteToAgents(a);
    RoutedPlansAreChains(a);
    AscendingIs(tasks, sequences, k);
    ChainGroup(tasks, k);
    if k > 0 {
      assert tasks[k].dependsOn == [tasks[k - 1].agent];
      AscendingIs(tasks, sequences, k - 1);
      PreviousSucceeded(run, tasks, sequences, n, k);
    } else {
      assert tasks[0].dependsOn == [];
    }
  }

  lemma NamedByTask(run: Executor, i: nat, t: Task, prior: seq<Output>)
    requires Faithful(run)
    ensures ExecuteTask(run, i, t, prior).agent == t.agent
  {
  }
}

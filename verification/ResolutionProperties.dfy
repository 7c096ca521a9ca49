/** What resolution promises: order independence, soundness, conservation, idempotence. */
module ResolutionProperties {
  import opened Contracts
  import opened DottedNames
  import opened GraphRepositories
  import opened Resolutions

  // ---------------------------------------------------------------- order independence

  lemma {:induction false} SelectCount<T, K>(items: seq<T>, key: T -> K, k: K, x: T)
    ensures multiset(Select(items, key, k))[x] == if key(x) == k then multiset(items)[x] else 0
  {
    if items != [] {
      var init, last := items[..|items| - 1], items[|items| - 1];
      SelectCount(init, key, k, x);
      assert items == init + [last];
    }
  }

  lemma {:induction false} OfKindsCount(entities: seq<CodeEntity>, kinds: set<EntityKind>, x: CodeEntity)
    ensures multiset(OfKinds(entities, kinds))[x] == if x.kind in kinds then multiset(entities)[x] else 0
  {
    if entities != [] {
      var init, last := entities[..|entities| - 1], entities[|entities| - 1];
      OfKindsCount(init, kinds, x);
      assert entities == init + [last];
    }
  }

  /** Two lists of the same entities have the same single element, or none. */
  ghost predicate SameSingle(s: seq<CodeEntity>, t: seq<CodeEntity>) {
    (|s| == 1 <==> |t| == 1) && (|s| == 1 ==> s[0] == t[0])
  }

  lemma PermutedSingle(s: seq<CodeEntity>, t: seq<CodeEntity>)
    requires multiset(s) == multiset(t)
    ensures SameSingle(s, t)
  {
    assert |s| == |multiset(s)| == |multiset(t)| == |t|;
    if |s| == 1 {
      assert s == [s[0]] && t == [t[0]];
      assert t[0] in multiset(t);
    }
  }

  lemma LookupsAgree(a: seq<CodeEntity>, b: seq<CodeEntity>, key: CodeEntity -> string, name: string,
                     kinds: set<EntityKind>)
    requires multiset(a) == multiset(b)
    ensures SameSingle(Select(a, key, name), Select(b, key, name))
    ensures SameSingle(OfKinds(Select(a, key, name), kinds), OfKinds(Select(b, key, name), kinds))
  {
    var s, t := Select(a, key, name), Select(b, key, name);
    forall x
      ensures multiset(s)[x] == multiset(t)[x]
      ensures multiset(OfKinds(s, kinds))[x] == multiset(OfKinds(t, kinds))[x]
    {
      SelectCount(a, key, name, x);
      SelectCount(b, key, name, x);
      OfKindsCount(s, kinds, x);
      OfKindsCount(t, kinds, x);
    }
    assert multiset(s) == multiset(t);
    assert multiset(OfKinds(s, kinds)) == multiset(OfKinds(t, kinds));
    PermutedSingle(s, t);
    PermutedSingle(OfKinds(s, kinds), OfKinds(t, kinds));
  }

  lemma {:induction false} FirstUniqueAgrees(a: seq<CodeEntity>, b: seq<CodeEntity>, attempts: seq<Attempt>,
                                             kinds: set<EntityKind>)
    requires multiset(a) == multiset(b)
    ensures FirstUnique(a, attempts, kinds) == FirstUnique(b, attempts, kinds)
    decreases |attempts|
  {
    if attempts != [] {
      LookupsAgree(a, b, QualifiedNameOf, attempts[0].name, kinds);
      FirstUniqueAgrees(a, b, attempts[1..], kinds);
    }
  }

  lemma RewrittenAgrees(a: seq<CodeEntity>, b: seq<CodeEntity>, f: ParsedFile, aliases: map<string, string>,
                        r: CodeRelationship)
    requires multiset(a) == multiset(b)
    ensures Rewritten(a, f, aliases, r) == Rewritten(b, f, aliases, r)
  {
    hide ById, Attempts, OfKinds, Select, FirstUnique, Aliases, AbsoluteImport, PackageOf, Resolved;
    if r.kind == Imports {
      var e := ById(f.entities, r.targetId);
      if e.Some? {
        var imported := if e.value.metadata.ImportMetadata? then e.value.metadata.importedName else "";
        LookupsAgree(a, b, QualifiedNameOf,
                     AbsoluteImport(imported, PackageOf(ModuleOfImport(e.value), e.value.filePath)), {});
      }
    } else {
      var source := ById(f.entities, r.sourceId);
      if source.Some? {
        FirstUniqueAgrees(a, b, Attempts(r.targetName, source.value, f.moduleName, aliases), RepositoryKinds(r.kind));
        LookupsAgree(a, b, NameOf, r.targetName, RepositoryKinds(r.kind));
      }
    }
  }

  lemma {:induction false} RowsAgree(a: seq<CodeEntity>, b: seq<CodeEntity>, f: ParsedFile,
                                     aliases: map<string, string>, rows: seq<CodeRelationship>)
    requires multiset(a) == multiset(b)
    ensures RepositoryRows(a, f, aliases, rows) == RepositoryRows(b, f, aliases, rows)
    decreases |rows|
  {
    hide Rewritten;
    if rows != [] {
      RowsAgree(a, b, f, aliases, rows[..|rows| - 1]);
      RewrittenAgrees(a, b, f, aliases, rows[|rows| - 1]);
    }
  }

  lemma {:induction false} AllConcat(first: seq<ParsedFile>, second: seq<ParsedFile>)
    ensures All(first + second) == All(first) + All(second)
    decreases |second|
  {
    if second == [] {
      assert first + second == first;
    } else {
      AllConcat(first, second[..|second| - 1]);
      assert (first + second)[..|first + second| - 1] == first + second[..|second| - 1];
    }
  }

  lemma AllOne(f: ParsedFile)
    ensures All([f]) == f.entities
  {
    assert [f][..0] == [];
  }

  lemma AllWithoutOne(files: seq<ParsedFile>, j: nat)
    requires j < |files|
    ensures multiset(All(files)) == multiset(All(files[..j] + files[j + 1..])) + multiset(files[j].entities)
  {
    hide All;
    var before, one, after := files[..j], [files[j]], files[j + 1..];
    assert files == (before + one) + after;
    AllConcat(before + one, after);
    AllConcat(before, one);
    AllConcat(before, after);
    AllOne(files[j]);
  }

  lemma MultisetWithoutOne<T>(s: seq<T>, j: nat)
    requires j < |s|
    ensures multiset(s) == multiset(s[..j] + s[j + 1..]) + multiset{s[j]}
  {
    assert s == s[..j] + [s[j]] + s[j + 1..];
  }

  lemma OutputWithoutOne(all: seq<CodeEntity>, files: seq<ParsedFile>, j: nat)
    requires j < |files|
    ensures multiset(ResolveFiles(all, files))
            == multiset(ResolveFiles(all, files[..j] + files[j + 1..]))
               + multiset{ResolveAgainst(all, ResolveLocal(files[j]))}
  {
    hide ResolveFiles, ResolveAgainst, ResolveLocal;
    var out, rest := ResolveFiles(all, files), ResolveFiles(all, files[..j] + files[j + 1..]);
    assert rest == out[..j] + out[j + 1..];
    MultisetWithoutOne(out, j);
  }

  lemma {:induction false} FilesPermuted(all: seq<CodeEntity>, files: seq<ParsedFile>, gs: seq<ParsedFile>)
    requires multiset(files) == multiset(gs)
    ensures multiset(All(files)) == multiset(All(gs))
    ensures multiset(ResolveFiles(all, files)) == multiset(ResolveFiles(all, gs))
    decreases |files|
  {
    hide All, ResolveFiles, ResolveAgainst, ResolveLocal;
    assert |files| == |multiset(files)| == |multiset(gs)| == |gs|;
    if files == [] {
      assert gs == [];
    } else {
      var n := |files| - 1;
      assert files[n] in multiset(files);
      var j :| 0 <= j < |gs| && gs[j] == files[n];
      MultisetWithoutOne(files, n);
      MultisetWithoutOne(gs, j);
      AllWithoutOne(files, n);
      AllWithoutOne(gs, j);
      OutputWithoutOne(all, files, n);
      OutputWithoutOne(all, gs, j);
      var fewer, others := files[..n] + files[n + 1..], gs[..j] + gs[j + 1..];
      assert multiset(fewer) == multiset(files) - multiset{files[n]};
      assert multiset(others) == multiset(gs) - multiset{files[n]};
      FilesPermuted(all, fewer, others);
    }
  }

  /** Permuting the files permutes the outputs: every file resolves to the same relationships,
      targets, strategies and confidences wherever it stands. */
  lemma OrderIndependent(files: seq<ParsedFile>, gs: seq<ParsedFile>)
    requires multiset(files) == multiset(gs)
    ensures forall i, j :: 0 <= i < |files| && 0 <= j < |gs| && files[i] == gs[j] ==>
              ResolveRepository(files)[i] == ResolveRepository(gs)[j]
    ensures multiset(ResolveRepository(files)) == multiset(ResolveRepository(gs))
  {
    hide RepositoryRows, LocalRows, Aliases;
    var a, b := All(files), All(gs);
    FilesPermuted(a, files, gs);
    forall f: ParsedFile
      ensures ResolveAgainst(a, f) == ResolveAgainst(b, f)
    {
      RowsAgree(a, b, f, Aliases(f.entities, PackageOf(f.moduleName, f.filePath)), f.relationships);
    }
    assert ResolveFiles(a, gs) == ResolveFiles(b, gs);
  }

  // ---------------------------------------------------------------- soundness within a file

  lemma {:induction false} OfKindsMembers(entities: seq<CodeEntity>, kinds: set<EntityKind>, e: CodeEntity)
    ensures e in OfKinds(entities, kinds) <==> e in entities && e.kind in kinds
  {
    if entities != [] {
      var init, last := entities[..|entities| - 1], entities[|entities| - 1];
      OfKindsMembers(init, kinds, e);
      assert entities == init + [last];
    }
  }

  lemma {:induction false} GatherMembers(entities: seq<CodeEntity>, names: seq<string>, e: CodeEntity)
    ensures e in Gather(entities, names) <==> e in entities && e.qualifiedName in names
    decreases |names|
  {
    if names != [] {
      var init, last := names[..|names| - 1], names[|names| - 1];
      GatherMembers(entities, init, e);
      SelectMembers(entities, QualifiedNameOf, last, e);
      assert names == init + [last];
    }
  }

  lemma {:induction false} ByIdMember(entities: seq<CodeEntity>, id: NodeId)
    ensures match ById(entities, id)
            case Some(e) => e in entities && e.id == id
            case None => forall e :: e in entities ==> e.id != id
  {
    if entities != [] {
      ByIdMember(entities[..|entities| - 1], id);
      assert entities == entities[..|entities| - 1] + [entities[|entities| - 1]];
    }
  }

  /** The names a reference may mean in its file: itself and, if it has no dot, the member of its
      module and, in a method, the member of its class with that name. */
  ghost predicate MayMean(f: ParsedFile, source: CodeEntity, reference: string, name: string) {
    || name == reference
    || ('.' !in reference
        && (name == f.moduleName + "." + reference
            || (source.kind == Method && exists c :: Outer(source.qualifiedName, c) && name == c + "." + reference)))
  }

  lemma MayMeanExactly(f: ParsedFile, source: CodeEntity, reference: string, name: string)
    ensures name in CandidateNames(reference, f.moduleName, source) <==> MayMean(f, source, reference, name)
  {
    hide Container, Outer, Unrepeated;
    forall c
      ensures Outer(source.qualifiedName, c) <==> c == Container(source.qualifiedName)
    {
      OuterExactly(source.qualifiedName, c);
    }
    OnlyOnce([reference]
      + (if '.' in reference then []
         else (if source.kind == Method then [Container(source.qualifiedName) + "." + reference] else [])
              + [f.moduleName + "." + reference]));
  }

  /** The entities a reference may mean in its file: those with a name it may mean or, when the file
      has none of these names and the reference no dot, those with its simple name; classes for a
      base, functions and methods for a call. */
  ghost predicate Answers(f: ParsedFile, source: CodeEntity, r: CodeRelationship, e: CodeEntity) {
    && e in f.entities && e.kind in (if r.kind == InheritsFrom then {Class} else {Function, Method})
    && if exists d :: d in f.entities && MayMean(f, source, r.targetName, d.qualifiedName)
       then MayMean(f, source, r.targetName, e.qualifiedName)
       else '.' !in r.targetName && e.name == r.targetName
  }

  lemma CandidatesAnswer(f: ParsedFile, source: CodeEntity, r: CodeRelationship, e: CodeEntity)
    ensures e in OfKinds(LocalCandidates(f, source, r.targetName), LocalKinds(r.kind)) <==> Answers(f, source, r, e)
  {
    hide CandidateNames, Gather, Select, MayMean;
    var names := CandidateNames(r.targetName, f.moduleName, source);
    var named := Gather(f.entities, names);
    OfKindsMembers(LocalCandidates(f, source, r.targetName), LocalKinds(r.kind), e);
    SelectMembers(f.entities, NameOf, r.targetName, e);
    forall d
      ensures d in named <==> d in f.entities && MayMean(f, source, r.targetName, d.qualifiedName)
    {
      GatherMembers(f.entities, names, d);
      MayMeanExactly(f, source, r.targetName, d.qualifiedName);
    }
    if named != [] {
      assert named[0] in named;
    }
  }

  /** An answer whose identity every answer has. */
  ghost predicate SoleAnswer(f: ParsedFile, source: CodeEntity, r: CodeRelationship, t: CodeEntity) {
    Answers(f, source, r, t) && forall e :: Answers(f, source, r, e) ==> e.id == t.id
  }

  lemma LocalTargetExactly(f: ParsedFile, source: CodeEntity, r: CodeRelationship)
    requires ById(f.entities, r.sourceId) == Some(source)
    ensures LocalTarget(f, r).Some? <==> exists t :: SoleAnswer(f, source, r, t)
    ensures LocalTarget(f, r).Some? ==> SoleAnswer(f, source, r, LocalTarget(f, r).value)
  {
    hide LocalCandidates, OfKinds, Answers, ById;
    var found := OfKinds(LocalCandidates(f, source, r.targetName), LocalKinds(r.kind));
    forall e
      ensures e in found <==> Answers(f, source, r, e)
    {
      CandidatesAnswer(f, source, r, e);
    }
    if LocalTarget(f, r).Some? {
      assert LocalTarget(f, r).value in found;
      assert SoleAnswer(f, source, r, LocalTarget(f, r).value);
    }
    if t :| SoleAnswer(f, source, r, t) {
      assert t in found;
      assert found[|found| - 1] in found;
    }
  }

  /** An open call or base class is resolved within its file if and only if the entities that may
      answer it share one identity; its target is then one of them, and nothing else changes. */
  lemma LocalResolutionExactly(f: ParsedFile, i: nat)
    requires i < |f.relationships|
    ensures var r, s := f.relationships[i], ResolveLocal(f).relationships[i];
            var source := ById(f.entities, r.sourceId);
            if r.resolved || (r.kind != Calls && r.kind != InheritsFrom) || source.None? then s == r
            else
              && (s.resolved <==> exists t :: SoleAnswer(f, source.value, r, t))
              && (!s.resolved ==> s == r)
              && (s.resolved ==> exists t :: SoleAnswer(f, source.value, r, t)
                                   && s == r.(targetId := t.id, targetName := t.qualifiedName, resolved := true))
  {
    hide LocalTarget, SoleAnswer, ById, LocalRows;
    var r := f.relationships[i];
    var source := ById(f.entities, r.sourceId);
    if source.Some? {
      LocalTargetExactly(f, source.value, r);
    } else {
      NoSource(f, r);
    }
  }

  lemma NoSource(f: ParsedFile, r: CodeRelationship)
    requires ById(f.entities, r.sourceId).None?
    ensures LocalTarget(f, r).None?
  {
  }

  // ---------------------------------------------------------------- soundness across files

  /** The strategies with their confidences, in hundredths. */
  ghost predicate Graded(m: Resolution) {
    m.Marked? && (m.strategy, m.confidence) in
      {("instance_method", 95), ("import_alias", 100), ("qualified_name", 95), ("module_scope", 90),
       ("unique_repository_symbol", 75), ("cross_file_import", 100)}
  }

  /** A repository target: the only entity in the revision with its qualified name, or with its
      simple name, among those of the kinds expected. */
  ghost predicate OnlyCandidate(all: seq<CodeEntity>, kinds: set<EntityKind>, strategy: string, e: CodeEntity) {
    && e.kind in kinds && e in all
    && if strategy == "unique_repository_symbol"
       then OfKinds(Select(all, NameOf, e.name), kinds) == [e]
       else Matches(all, e.qualifiedName, kinds) == [e]
  }

  lemma {:induction false} FirstUniqueSound(all: seq<CodeEntity>, attempts: seq<Attempt>, kinds: set<EntityKind>)
    ensures var t := FirstUnique(all, attempts, kinds);
            t.Some? ==>
              && (exists a :: a in attempts && a.strategy == t.value.strategy && a.confidence == t.value.confidence
                              && a.name == t.value.entity.qualifiedName)
              && Matches(all, t.value.entity.qualifiedName, kinds) == [t.value.entity]
              && t.value.entity in all && t.value.entity.kind in kinds
    decreases |attempts|
  {
    if attempts != [] {
      var a := attempts[0];
      var found := Matches(all, a.name, kinds);
      if |found| == 1 {
        OfKindsMembers(Select(all, QualifiedNameOf, a.name), kinds, found[0]);
        SelectMembers(all, QualifiedNameOf, a.name, found[0]);
        assert found == [found[0]];
        assert a in attempts;
      } else {
        FirstUniqueSound(all, attempts[1..], kinds);
      }
    }
  }

  lemma RepositoryTargetSound(all: seq<CodeEntity>, f: ParsedFile, aliases: map<string, string>, source: CodeEntity,
                              r: CodeRelationship)
    ensures var t := RepositoryTarget(all, f, aliases, source, r);
            t.Some? ==> OnlyCandidate(all, RepositoryKinds(r.kind), t.value.strategy, t.value.entity)
                        && Graded(Marked(t.value.strategy, t.value.confidence, None))
  {
    hide Container, Rest, FirstUnique, Select, OfKinds;
    var kinds := RepositoryKinds(r.kind);
    var attempts := Attempts(r.targetName, source, f.moduleName, aliases);
    FirstUniqueSound(all, attempts, kinds);
    var simple := OfKinds(Select(all, NameOf, r.targetName), kinds);
    if |simple| == 1 {
      OfKindsMembers(Select(all, NameOf, r.targetName), kinds, simple[0]);
      SelectMembers(all, NameOf, r.targetName, simple[0]);
      assert simple == [simple[0]];
    }
  }

  /** Every edge of the output was there after the local pass, or points to the only candidate in
      the repository, of the kind expected, with a graded strategy; an edge to any kind of entity
      is added only as a dependency of an import. */
  ghost predicate SoundEdge(all: seq<CodeEntity>, before: seq<CodeRelationship>, r: CodeRelationship) {
    || r in before
    || (&& r.resolved && Graded(r.resolution)
        && (exists e: CodeEntity :: e.id == r.targetId && e.qualifiedName == r.targetName
              && if Symbolic(r.kind) then OnlyCandidate(all, RepositoryKinds(r.kind), r.resolution.strategy, e)
                 else r.kind == DependsOn && Select(all, QualifiedNameOf, e.qualifiedName) == [e] && e in all))
  }

  lemma RewrittenSound(all: seq<CodeEntity>, f: ParsedFile, aliases: map<string, string>, r: CodeRelationship,
                       before: seq<CodeRelationship>, s: CodeRelationship)
    requires r in before && s in Rewritten(all, f, aliases, r)
    ensures SoundEdge(all, before, s)
  {
    hide ById, RepositoryTarget, AbsoluteImport, PackageOf, Select, OnlyCandidate;
    if s !in before {
      if r.kind == Imports {
        var e := ById(f.entities, r.targetId).value;
        var t := ImportTarget(all, e).value;
        var imported := if e.metadata.ImportMetadata? then e.metadata.importedName else "";
        var name := AbsoluteImport(imported, PackageOf(ModuleOfImport(e), e.filePath));
        SelectMembers(all, QualifiedNameOf, name, t);
        assert Select(all, QualifiedNameOf, name) == [t];
      } else {
        RepositoryTargetSound(all, f, aliases, ById(f.entities, r.sourceId).value, r);
      }
    }
  }

  lemma {:induction false} RowsSound(all: seq<CodeEntity>, f: ParsedFile, aliases: map<string, string>,
                                     rows: seq<CodeRelationship>, before: seq<CodeRelationship>, s: CodeRelationship)
    requires forall r :: r in rows ==> r in before
    requires s in RepositoryRows(all, f, aliases, rows)
    ensures SoundEdge(all, before, s)
    decreases |rows|
  {
    hide Rewritten, SoundEdge;
    if rows != [] {
      var init, last := rows[..|rows| - 1], rows[|rows| - 1];
      if s in RepositoryRows(all, f, aliases, init) {
        RowsSound(all, f, aliases, init, before, s);
      } else {
        RewrittenSound(all, f, aliases, last, before, s);
      }
    }
  }

  lemma RepositorySound(files: seq<ParsedFile>, i: nat, s: CodeRelationship)
    requires i < |files| && s in ResolveRepository(files)[i].relationships
    ensures SoundEdge(All(files), ResolveLocal(files[i]).relationships, s)
  {
    hide RepositoryRows, Aliases, LocalRows, SoundEdge;
    var f := ResolveLocal(files[i]);
    RowsSound(All(files), f, Aliases(f.entities, PackageOf(f.moduleName, f.filePath)), f.relationships,
              f.relationships, s);
  }

  // ---------------------------------------------------------------- conservation

  /** The edges other than dependencies. */
  function Kept(rows: seq<CodeRelationship>): seq<CodeRelationship> {
    if rows == [] then []
    else
      var init, last := rows[..|rows| - 1], rows[|rows| - 1];
      if last.kind == DependsOn then Kept(init) else Kept(init) + [last]
  }

  /** Only the target, the resolved flag and the resolution may differ, and only on an open call
      or base class that ends up resolved. */
  ghost predicate Conserved(r: CodeRelationship, s: CodeRelationship) {
    && s.kind == r.kind && s.sourceId == r.sourceId && s.filePath == r.filePath && s.line == r.line
    && (s != r ==> !r.resolved && Symbolic(r.kind) && s.resolved)
  }

  ghost predicate AllConserved(rows: seq<CodeRelationship>, out: seq<CodeRelationship>) {
    |out| == |rows| && forall i :: 0 <= i < |rows| ==> Conserved(rows[i], out[i])
  }

  lemma KeptSnoc(rows: seq<CodeRelationship>, r: CodeRelationship)
    ensures Kept(rows + [r]) == if r.kind == DependsOn then Kept(rows) else Kept(rows) + [r]
  {
    assert (rows + [r])[..|rows|] == rows;
  }

  lemma RewrittenShape(all: seq<CodeEntity>, f: ParsedFile, aliases: map<string, string>, r: CodeRelationship)
    ensures var out := Rewritten(all, f, aliases, r);
            || (out == [r])
            || (r.kind == Imports && out == [r, out[1]] && out[1].kind == DependsOn)
            || (|out| == 1 && r.kind != DependsOn && r.kind != Imports && Conserved(r, out[0]))
  {
    hide ById, RepositoryTarget, ImportTarget;
  }

  lemma {:induction false} RepositoryRowsConserve(all: seq<CodeEntity>, f: ParsedFile, aliases: map<string, string>,
                                                  rows: seq<CodeRelationship>)
    ensures AllConserved(Kept(rows), Kept(RepositoryRows(all, f, aliases, rows)))
    ensures forall r :: r in rows && r.kind == DependsOn ==> r in RepositoryRows(all, f, aliases, rows)
    decreases |rows|
  {
    hide Rewritten, Conserved, Kept;
    if rows != [] {
      var init, last := rows[..|rows| - 1], rows[|rows| - 1];
      var before, more := RepositoryRows(all, f, aliases, init), Rewritten(all, f, aliases, last);
      RepositoryRowsConserve(all, f, aliases, init);
      RewrittenShape(all, f, aliases, last);
      SameConserved(last);
      assert rows == init + [last];
      KeptSnoc(init, last);
      KeptSnoc(before, more[0]);
      if |more| == 2 {
        KeptSnoc(before + [more[0]], more[1]);
        assert before + more == before + [more[0]] + [more[1]];
      } else {
        assert before + more == before + [more[0]];
      }
      ConservedKind(last, more[0]);
    } else {
      KeptNone();
    }
  }

  lemma KeptNone()
    ensures Kept([]) == []
  {
  }

  lemma SameConserved(r: CodeRelationship)
    ensures Conserved(r, r)
  {
  }

  lemma ConservedKind(r: CodeRelationship, s: CodeRelationship)
    ensures Conserved(r, s) ==> s.kind == r.kind
  {
  }

  lemma {:induction false} LocalRowsConserve(f: ParsedFile, rows: seq<CodeRelationship>)
    ensures AllConserved(Kept(rows), Kept(LocalRows(f, rows)))
    decreases |rows|
  {
    hide Kept, LocalTarget;
    if rows != [] {
      var init, last := rows[..|rows| - 1], rows[|rows| - 1];
      LocalRowsConserve(f, init);
      KeptSnoc(init, last);
      assert rows == init + [last];
      KeptSnoc(LocalRows(f, init), ResolvedLocally(f, last));
    }
  }

  /** Taking the dependencies away gives the input back, edge for edge and in order; resolved
      edges, and edges that are not calls or base classes, exactly as they were; and what the local
      pass resolved the repository pass leaves. */
  lemma RepositoryConserves(files: seq<ParsedFile>, i: nat)
    requires i < |files|
    ensures AllConserved(Kept(files[i].relationships), Kept(ResolveRepository(files)[i].relationships))
    ensures AllConserved(Kept(ResolveLocal(files[i]).relationships), Kept(ResolveRepository(files)[i].relationships))
    ensures ResolveRepository(files)[i] == files[i].(relationships := ResolveRepository(files)[i].relationships)
  {
    hide RepositoryRows, LocalRows, Aliases, Kept;
    var f := ResolveLocal(files[i]);
    LocalRowsConserve(files[i], files[i].relationships);
    RepositoryRowsConserve(All(files), f, Aliases(f.entities, PackageOf(f.moduleName, f.filePath)), f.relationships);
  }

  // ---------------------------------------------------------------- resolving again

  lemma LocalTargetOfEntities(f: ParsedFile, g: ParsedFile, r: CodeRelationship)
    requires f.entities == g.entities && f.moduleName == g.moduleName
    ensures LocalTarget(f, r) == LocalTarget(g, r)
  {
  }

  /** No edge of the output can be resolved within its file. */
  lemma {:induction false} NothingLeftLocally(all: seq<CodeEntity>, f: ParsedFile, aliases: map<string, string>,
                                              rows: seq<CodeRelationship>)
    requires forall r :: r in rows ==> ResolvedLocally(f, r) == r
    ensures forall s :: s in RepositoryRows(all, f, aliases, rows) ==> ResolvedLocally(f, s) == s
    decreases |rows|
  {
    hide Rewritten, LocalTarget;
    if rows != [] {
      var init, last := rows[..|rows| - 1], rows[|rows| - 1];
      NothingLeftLocally(all, f, aliases, init);
      RewrittenShape(all, f, aliases, last);
    }
  }

  lemma LocalTwice(f: ParsedFile, r: CodeRelationship)
    ensures ResolvedLocally(f, ResolvedLocally(f, r)) == ResolvedLocally(f, r)
  {
    hide LocalTarget;
  }

  /** The local pass that write_parsed_file repeats changes nothing on what the repository pass
      returned. */
  lemma LocalAfterRepository(files: seq<ParsedFile>, i: nat)
    requires i < |files|
    ensures var out := ResolveRepository(files)[i]; ResolveLocal(out) == out
  {
    hide RepositoryRows, LocalTarget, Aliases, ResolvedLocally;
    var f := ResolveLocal(files[i]);
    var out := ResolveRepository(files)[i];
    forall r | r in f.relationships
      ensures ResolvedLocally(f, r) == r
    {
      var n :| 0 <= n < |f.relationships| && f.relationships[n] == r;
      LocalTwice(files[i], files[i].relationships[n]);
      SameLocally(files[i], f, r);
    }
    NothingLeftLocally(All(files), f, Aliases(f.entities, PackageOf(f.moduleName, f.filePath)), f.relationships);
    forall n | 0 <= n < |out.relationships|
      ensures LocalRows(out, out.relationships)[n] == out.relationships[n]
    {
      SameLocally(f, out, out.relationships[n]);
      assert out.relationships[n] in out.relationships;
    }
    assert LocalRows(out, out.relationships) == out.relationships;
  }

  lemma SameLocally(f: ParsedFile, g: ParsedFile, r: CodeRelationship)
    requires f.entities == g.entities && f.moduleName == g.moduleName
    ensures ResolvedLocally(f, r) == ResolvedLocally(g, r)
  {
    LocalTargetOfEntities(f, g, r);
  }

  lemma RewrittenOfEntities(all: seq<CodeEntity>, f: ParsedFile, g: ParsedFile, aliases: map<string, string>,
                            r: CodeRelationship)
    requires f.entities == g.entities && f.moduleName == g.moduleName
    ensures Rewritten(all, f, aliases, r) == Rewritten(all, g, aliases, r)
  {
  }

  /** Rewriting what rewriting gave repeats at most its dependency. */
  lemma RewrittenAgain(all: seq<CodeEntity>, f: ParsedFile, aliases: map<string, string>, r: CodeRelationship,
                       s: CodeRelationship)
    requires s in Rewritten(all, f, aliases, r)
    ensures Rewritten(all, f, aliases, s) == if s.kind == Imports then Rewritten(all, f, aliases, r) else [s]
  {
    hide ById, RepositoryTarget, ImportTarget;
  }

  ghost predicate AddsOnlyRepeats(rows: seq<CodeRelationship>, again: seq<CodeRelationship>) {
    && Kept(again) == Kept(rows)
    && forall s :: s in again <==> s in rows
  }

  lemma {:induction false} Members(all: seq<CodeEntity>, f: ParsedFile, aliases: map<string, string>,
                                   rows: seq<CodeRelationship>, s: CodeRelationship)
    ensures s in RepositoryRows(all, f, aliases, rows) <==> exists r :: r in rows && s in Rewritten(all, f, aliases, r)
    decreases |rows|
  {
    hide Rewritten;
    if rows != [] {
      var init, last := rows[..|rows| - 1], rows[|rows| - 1];
      Members(all, f, aliases, init, s);
      assert rows == init + [last];
    }
  }

  /** Rows each of which rewrites to itself, or to itself and a dependency already listed. */
  lemma {:induction false} RepeatsOnly(all: seq<CodeEntity>, f: ParsedFile, aliases: map<string, string>,
                                       rows: seq<CodeRelationship>, listed: seq<CodeRelationship>)
    requires forall r :: r in rows ==> Repeats(Rewritten(all, f, aliases, r), r, listed)
    ensures Kept(RepositoryRows(all, f, aliases, rows)) == Kept(rows)
    ensures forall s :: s in RepositoryRows(all, f, aliases, rows) ==> s in rows || s in listed
    ensures forall s :: s in rows ==> s in RepositoryRows(all, f, aliases, rows)
    decreases |rows|
  {
    hide Rewritten, Kept, Repeats;
    if rows != [] {
      var init, last := rows[..|rows| - 1], rows[|rows| - 1];
      assert rows == init + [last] && last in rows;
      RepeatsOnly(all, f, aliases, init, listed);
      var before, more := RepositoryRows(all, f, aliases, init), Rewritten(all, f, aliases, last);
      RepeatKeeps(before, more, last, listed);
      KeptSnoc(init, last);
    }
  }

  /** A relationship, or it and a dependency listed already. */
  ghost predicate Repeats(out: seq<CodeRelationship>, r: CodeRelationship, listed: seq<CodeRelationship>) {
    out == [r] || (|out| == 2 && out[0] == r && out[1].kind == DependsOn && out[1] in listed)
  }

  lemma RepeatKeeps(before: seq<CodeRelationship>, out: seq<CodeRelationship>, r: CodeRelationship,
                    listed: seq<CodeRelationship>)
    requires Repeats(out, r, listed)
    ensures Kept(before + out) == if r.kind == DependsOn then Kept(before) else Kept(before) + [r]
    ensures r in out && forall s :: s in out ==> s == r || s in listed
  {
    hide Kept;
    KeptSnoc(before, r);
    if |out| == 2 {
      assert before + out == (before + [r]) + [out[1]];
      KeptSnoc(before + [r], out[1]);
    }
  }

  /** What an edge of the output rewrites to is in the output. */
  lemma OutputRewritesToItself(all: seq<CodeEntity>, f: ParsedFile, aliases: map<string, string>, s: CodeRelationship)
    requires s in RepositoryRows(all, f, aliases, f.relationships)
    ensures var out := Rewritten(all, f, aliases, s);
            out == [s] || (|out| == 2 && out[0] == s && out[1].kind == DependsOn
                           && out[1] in RepositoryRows(all, f, aliases, f.relationships))
  {
    hide RepositoryRows, Rewritten;
    Members(all, f, aliases, f.relationships, s);
    var r :| r in f.relationships && s in Rewritten(all, f, aliases, r);
    RewrittenAgain(all, f, aliases, r, s);
    RewrittenShape(all, f, aliases, r);
    var out := Rewritten(all, f, aliases, r);
    if s.kind == Imports && |out| == 2 {
      Members(all, f, aliases, f.relationships, out[1]);
    }
  }

  /** A second pass over the output repeats dependencies that are already there and does nothing
      else. */
  lemma SecondPassAddsOnlyRepeats(files: seq<ParsedFile>, i: nat)
    requires i < |files|
    ensures var once := ResolveRepository(files);
            AddsOnlyRepeats(once[i].relationships, ResolveRepository(once)[i].relationships)
  {
    hide RepositoryRows, LocalRows, Aliases, Rewritten, Kept;
    var once := ResolveRepository(files);
    var f := ResolveLocal(files[i]);
    var all := All(files);
    var aliases := Aliases(f.entities, PackageOf(f.moduleName, f.filePath));
    SameEntities(files, once);
    LocalAfterRepository(files, i);
    var g := once[i];
    forall s | s in g.relationships
      ensures Repeats(Rewritten(all, g, aliases, s), s, g.relationships)
    {
      OutputRewritesToItself(all, f, aliases, s);
      RewrittenOfEntities(all, f, g, aliases, s);
    }
    RepeatsOnly(all, g, aliases, g.relationships, g.relationships);
  }

  lemma {:induction false} SameEntities(files: seq<ParsedFile>, gs: seq<ParsedFile>)
    requires |files| == |gs| && forall i :: 0 <= i < |files| ==> files[i].entities == gs[i].entities
    ensures All(files) == All(gs)
    decreases |files|
  {
    if files != [] {
      SameEntities(files[..|files| - 1], gs[..|gs| - 1]);
    }
  }
}

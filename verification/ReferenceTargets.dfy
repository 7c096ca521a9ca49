/** Which entity a reference is resolved to across the repository: names in order of priority. */
module ReferenceTargets {
  import opened Contracts
  import opened DottedNames
  import opened GraphRepositories
  import opened Resolutions

  // ---------------------------------------------------------------- the only one of a name

  /** The one entity of some kinds with a qualified name, in one place. */
  ghost predicate SoleNamed(all: seq<CodeEntity>, name: string, kinds: set<EntityKind>, t: CodeEntity) {
    exists n :: 0 <= n < |all| && all[n] == t && t.qualifiedName == name && t.kind in kinds
      && forall m :: 0 <= m < |all| && m != n ==> !(all[m].qualifiedName == name && all[m].kind in kinds)
  }

  /** The one entity of some kinds with a simple name, in one place. */
  ghost predicate SoleSimple(all: seq<CodeEntity>, name: string, kinds: set<EntityKind>, t: CodeEntity) {
    exists n :: 0 <= n < |all| && all[n] == t && t.name == name && t.kind in kinds
      && forall m :: 0 <= m < |all| && m != n ==> !(all[m].name == name && all[m].kind in kinds)
  }

  /** The one entity, of any kind, with a qualified name, in one place. */
  ghost predicate SoleEntity(all: seq<CodeEntity>, name: string, t: CodeEntity) {
    exists n :: 0 <= n < |all| && all[n] == t && t.qualifiedName == name
      && forall m :: 0 <= m < |all| && m != n ==> all[m].qualifiedName != name
  }

  function Picked(all: seq<CodeEntity>, p: CodeEntity -> bool): seq<CodeEntity> {
    if all == [] then []
    else
      var init, last := all[..|all| - 1], all[|all| - 1];
      Picked(init, p) + if p(last) then [last] else []
  }

  lemma {:induction false} SelectedArePicked(all: seq<CodeEntity>, key: CodeEntity -> string, name: string,
                                             p: CodeEntity -> bool)
    requires forall e :: p(e) <==> key(e) == name
    ensures Select(all, key, name) == Picked(all, p)
    decreases |all|
  {
    if all != [] {
      SelectedArePicked(all[..|all| - 1], key, name, p);
    }
  }

  lemma OfKindsSnoc(rows: seq<CodeEntity>, last: CodeEntity, kinds: set<EntityKind>)
    ensures OfKinds(rows + [last], kinds) == OfKinds(rows, kinds) + if last.kind in kinds then [last] else []
  {
    assert (rows + [last])[..|rows|] == rows;
  }

  lemma {:induction false} KindsArePicked(all: seq<CodeEntity>, key: CodeEntity -> string, name: string,
                                          kinds: set<EntityKind>, p: CodeEntity -> bool)
    requires forall e :: p(e) <==> key(e) == name && e.kind in kinds
    ensures OfKinds(Select(all, key, name), kinds) == Picked(all, p)
    decreases |all|
  {
    if all != [] {
      var init, last := all[..|all| - 1], all[|all| - 1];
      KindsArePicked(init, key, name, kinds, p);
      if key(last) == name {
        OfKindsSnoc(Select(init, key, name), last, kinds);
      }
    }
  }

  lemma {:induction false} NonePicked(all: seq<CodeEntity>, p: CodeEntity -> bool)
    ensures Picked(all, p) == [] <==> forall n :: 0 <= n < |all| ==> !p(all[n])
    decreases |all|
  {
    if all != [] {
      NonePicked(all[..|all| - 1], p);
    }
  }

  ghost predicate OnlyAt(all: seq<CodeEntity>, p: CodeEntity -> bool, t: CodeEntity, n: int) {
    && 0 <= n < |all| && all[n] == t && p(t)
    && forall m :: 0 <= m < |all| && m != n ==> !p(all[m])
  }

  lemma {:induction false} OnePicked(all: seq<CodeEntity>, p: CodeEntity -> bool, t: CodeEntity)
    ensures Picked(all, p) == [t] <==> exists n :: OnlyAt(all, p, t, n)
    decreases |all|
  {
    if all != [] {
      var init, last := all[..|all| - 1], all[|all| - 1];
      OnePicked(init, p, t);
      NonePicked(init, p);
      if Picked(all, p) == [t] {
        if p(last) {
          assert (Picked(init, p) + [last])[|Picked(init, p)|] == last;
          assert OnlyAt(all, p, t, |init|);
        } else {
          var n :| OnlyAt(init, p, t, n);
          assert OnlyAt(all, p, t, n);
        }
      }
      if n :| OnlyAt(all, p, t, n) {
        if n < |init| {
          assert OnlyAt(init, p, t, n);
        }
      }
    }
  }

  lemma OneOf(found: seq<CodeEntity>, t: CodeEntity)
    ensures found == [t] <==> |found| == 1 && found[0] == t
  {
  }

  lemma MatchesExactly(all: seq<CodeEntity>, name: string, kinds: set<EntityKind>, t: CodeEntity)
    ensures Matches(all, name, kinds) == [t] <==> SoleNamed(all, name, kinds, t)
  {
    hide Select, OfKinds, Picked;
    var p := (e: CodeEntity) => e.qualifiedName == name && e.kind in kinds;
    KindsArePicked(all, QualifiedNameOf, name, kinds, p);
    OnePicked(all, p, t);
    if n :| OnlyAt(all, p, t, n) {
      assert all[n] == t;
    }
    if SoleNamed(all, name, kinds, t) {
      var n :| 0 <= n < |all| && all[n] == t && t.qualifiedName == name && t.kind in kinds
               && forall m :: 0 <= m < |all| && m != n ==> !(all[m].qualifiedName == name && all[m].kind in kinds);
      assert OnlyAt(all, p, t, n);
    }
  }

  lemma SimpleExactly(all: seq<CodeEntity>, name: string, kinds: set<EntityKind>, t: CodeEntity)
    ensures OfKinds(Select(all, NameOf, name), kinds) == [t] <==> SoleSimple(all, name, kinds, t)
  {
    hide Select, OfKinds, Picked;
    var p := (e: CodeEntity) => e.name == name && e.kind in kinds;
    KindsArePicked(all, NameOf, name, kinds, p);
    OnePicked(all, p, t);
    if n :| OnlyAt(all, p, t, n) {
      assert all[n] == t;
    }
    if SoleSimple(all, name, kinds, t) {
      var n :| 0 <= n < |all| && all[n] == t && t.name == name && t.kind in kinds
               && forall m :: 0 <= m < |all| && m != n ==> !(all[m].name == name && all[m].kind in kinds);
      assert OnlyAt(all, p, t, n);
    }
  }

  lemma EntityExactly(all: seq<CodeEntity>, name: string, t: CodeEntity)
    ensures Select(all, QualifiedNameOf, name) == [t] <==> SoleEntity(all, name, t)
  {
    hide Select, Picked;
    var p := (e: CodeEntity) => e.qualifiedName == name;
    SelectedArePicked(all, QualifiedNameOf, name, p);
    OnePicked(all, p, t);
    if n :| OnlyAt(all, p, t, n) {
      assert all[n] == t;
    }
    if SoleEntity(all, name, t) {
      var n :| 0 <= n < |all| && all[n] == t && t.qualifiedName == name
               && forall m :: 0 <= m < |all| && m != n ==> all[m].qualifiedName != name;
      assert OnlyAt(all, p, t, n);
    }
  }

  /** The last entity with an identity. */
  ghost predicate Latest(entities: seq<CodeEntity>, id: NodeId, e: CodeEntity) {
    exists n :: 0 <= n < |entities| && entities[n] == e && e.id == id
      && forall m :: n < m < |entities| ==> entities[m].id != id
  }

  lemma {:induction false} ByIdExactly(entities: seq<CodeEntity>, id: NodeId, e: CodeEntity)
    ensures ById(entities, id) == Some(e) <==> Latest(entities, id, e)
  {
    if entities != [] {
      var init, last := entities[..|entities| - 1], entities[|entities| - 1];
      assert entities == init + [last];
      ByIdExactly(init, id, e);
      LatestSnoc(init, last, id, e);
    }
  }

  lemma LatestSnoc(init: seq<CodeEntity>, last: CodeEntity, id: NodeId, e: CodeEntity)
    ensures Latest(init + [last], id, e) <==> if last.id == id then e == last else Latest(init, id, e)
  {
    var entities := init + [last];
    assert entities[|init|] == last;
    if Latest(init, id, e) && last.id != id {
      var n :| 0 <= n < |init| && init[n] == e && e.id == id && forall m :: n < m < |init| ==> init[m].id != id;
      assert entities[n] == e;
    }
    if Latest(entities, id, e) && last.id != id {
      var n :| 0 <= n < |entities| && entities[n] == e && e.id == id
               && forall m :: n < m < |entities| ==> entities[m].id != id;
      assert init[n] == e;
      assert forall m :: n < m < |init| ==> init[m] == entities[m];
    }
  }

  // ---------------------------------------------------------------- what imports bind

  /** The last part of a name. */
  ghost predicate Ends(s: string, x: string) {
    '.' !in x && (s == x || exists c :: s == c + "." + x)
  }

  /** An import entity binds a name: its alias to what it imports, if it has one; otherwise, at
      level zero with a dot, the first part of what it imports to itself; otherwise the last part
      to what it imports. */
  ghost predicate Binds(e: CodeEntity, package: string, x: string, name: string) {
    var m := if e.metadata.ImportMetadata? then e.metadata else ImportMetadata(e.name, None, 0);
    && e.kind == Import
    && if m.alias.Some? && m.alias.value != "" then
         x == m.alias.value && name == AbsoluteImport(m.importedName, package)
       else if m.alias.None? && m.level == 0 && '.' in m.importedName then Under(m.importedName, x) && name == x
       else Ends(m.importedName, x) && name == AbsoluteImport(m.importedName, package)
  }

  /** The last import of a file that binds a name, and what it binds it to. */
  ghost predicate LastBinding(entities: seq<CodeEntity>, package: string, x: string, name: string) {
    exists n :: 0 <= n < |entities| && Binds(entities[n], package, x, name)
      && forall k, other :: n < k < |entities| ==> !Binds(entities[k], package, x, other)
  }

  lemma {:induction false} LastPartSplits(s: string) returns (c: string)
    ensures s == LastPart(s) || s == c + "." + LastPart(s)
    decreases |s|
  {
    c := "";
    if s != "" {
      var init := s[..|s| - 1];
      assert s == init + [s[|s| - 1]];
      if s[|s| - 1] == '.' {
        c := init;
      } else {
        c := LastPartSplits(init);
      }
    }
  }

  lemma {:induction false} LastPartOf(c: string, x: string)
    requires '.' !in x
    ensures LastPart(x) == x && LastPart(c + "." + x) == x
    decreases |x|
  {
    var s := c + "." + x;
    if x == "" {
      assert s[|s| - 1] == '.';
    } else {
      var y := x[..|x| - 1];
      assert x == y + [x[|x| - 1]] && s[..|s| - 1] == c + "." + y && s[|s| - 1] == x[|x| - 1];
      LastPartOf(c, y);
    }
  }

  lemma LastPartExactly(s: string, x: string)
    ensures Ends(s, x) <==> x == LastPart(s)
  {
    hide LastPart;
    var c := LastPartSplits(s);
    if Ends(s, x) {
      LastPartOf("", x);
      if d :| s == d + "." + x {
        LastPartOf(d, x);
      }
    }
  }

  lemma {:induction false} StrippedEnds(s: string)
    ensures LastPart(Stripped(s)) == LastPart(s)
  {
    hide LastPart;
    if s != "" && s[0] == '.' {
      StrippedEnds(s[1..]);
      DotThenEnds(s);
    }
  }

  lemma DotThenEnds(s: string)
    requires s != "" && s[0] == '.'
    ensures LastPart(s) == LastPart(s[1..])
  {
    hide LastPart;
    var x := LastPart(s[1..]);
    var c := LastPartSplits(s[1..]);
    assert s == "." + s[1..];
    if s[1..] == x {
      assert s == "" + "." + x;
      LastPartOf("", x);
    } else {
      assert s == ("." + c) + "." + x;
      LastPartOf("." + c, x);
    }
  }

  /** What the dictionary of aliases gains from an entity. */
  function BoundBy(e: CodeEntity, package: string): Option<(string, string)> {
    if e.kind != Import then None
    else if BindsFirst(e) then Some((First(Imported(e)), First(Imported(e))))
    else Some((Binding(e), AbsoluteImport(Imported(e), package)))
  }

  lemma BindsExactly(e: CodeEntity, package: string, x: string, name: string)
    ensures Binds(e, package, x, name) <==> BoundBy(e, package) == Some((x, name))
  {
    hide AbsoluteImport, First, LastPart, Stripped, Ends, Under;
    UnderExactly(Imported(e), x);
    StrippedEnds(Imported(e));
    LastPartExactly(Imported(e), x);
  }

  lemma AliasesSnoc(init: seq<CodeEntity>, last: CodeEntity, package: string)
    ensures Aliases(init + [last], package)
            == match BoundBy(last, package)
               case None => Aliases(init, package)
               case Some(b) => Aliases(init, package)[b.0 := b.1]
  {
    hide AbsoluteImport, First, Binding;
    assert (init + [last])[..|init|] == init;
  }

  lemma {:induction false} AliasesExactly(entities: seq<CodeEntity>, package: string, x: string, name: string)
    ensures x in Aliases(entities, package) && Aliases(entities, package)[x] == name
            <==> LastBinding(entities, package, x, name)
    decreases |entities|
  {
    if entities != [] {
      var init, last := entities[..|entities| - 1], entities[|entities| - 1];
      assert entities == init + [last];
      AliasesExactly(init, package, x, name);
      AliasesStep(init, last, package, x, name);
    }
  }

  lemma AliasesStep(init: seq<CodeEntity>, last: CodeEntity, package: string, x: string, name: string)
    requires x in Aliases(init, package) && Aliases(init, package)[x] == name
             <==> LastBinding(init, package, x, name)
    ensures x in Aliases(init + [last], package) && Aliases(init + [last], package)[x] == name
            <==> LastBinding(init + [last], package, x, name)
  {
    hide Binds, BoundBy, Aliases, LastBinding;
    AliasesSnoc(init, last, package);
    forall other
      ensures Binds(last, package, x, other) <==> BoundBy(last, package) == Some((x, other))
    {
      BindsExactly(last, package, x, other);
    }
    LastBindingSnoc(init, last, package, x, name);
    if BoundBy(last, package).Some? && BoundBy(last, package).value.0 == x {
      assert Binds(last, package, x, BoundBy(last, package).value.1);
    }
  }

  lemma LastBindingSnoc(init: seq<CodeEntity>, last: CodeEntity, package: string, x: string, name: string)
    ensures LastBinding(init + [last], package, x, name) <==>
              Binds(last, package, x, name)
              || (LastBinding(init, package, x, name) && forall other :: !Binds(last, package, x, other))
  {
    hide Binds;
    var entities := init + [last];
    if LastBinding(entities, package, x, name) {
      var n :| 0 <= n < |entities| && Binds(entities[n], package, x, name)
               && forall k, other :: n < k < |entities| ==> !Binds(entities[k], package, x, other);
      if n < |init| {
        assert Binds(init[n], package, x, name);
        forall k, other | n < k < |init|
          ensures !Binds(init[k], package, x, other)
        {
          assert init[k] == entities[k];
        }
        forall other
          ensures !Binds(last, package, x, other)
        {
          assert entities[|init|] == last;
        }
      }
    }
    if Binds(last, package, x, name) {
      assert entities[|init|] == last;
    } else if LastBinding(init, package, x, name) && forall other :: !Binds(last, package, x, other) {
      var n :| 0 <= n < |init| && Binds(init[n], package, x, name)
               && forall k, other :: n < k < |init| ==> !Binds(init[k], package, x, other);
      assert entities[n] == init[n];
      forall k, other | n < k < |entities|
        ensures !Binds(entities[k], package, x, other)
      {
        assert k < |init| ==> entities[k] == init[k];
      }
    }
  }

  // ---------------------------------------------------------------- the names a reference may mean

  function Wanted(kind: RelationshipKind): set<EntityKind> {
    if kind == InheritsFrom then {Class} else {Function, Method, Class}
  }

  /** In a method, self or cls followed by a dot stands for the class. */
  ghost predicate InstanceName(source: CodeEntity, reference: string, name: string) {
    source.kind == Method
    && exists c, w :: Outer(source.qualifiedName, c) && (w == "self" || w == "cls") && w + "." <= reference
                      && name == c + "." + reference[|w| + 1..]
  }

  /** A reference to a bound name, or to something inside it, means what the name is bound to. */
  ghost predicate ImportedAs(f: ParsedFile, reference: string, name: string) {
    exists x, m :: LastBinding(f.entities, PackageOf(f.moduleName, f.filePath), x, m) && Under(reference, x)
                   && |x| <= |reference| && name == m + reference[|x|..]
  }

  ghost predicate OnInstance(all: seq<CodeEntity>, source: CodeEntity, r: CodeRelationship, t: CodeEntity) {
    exists name :: InstanceName(source, r.targetName, name) && SoleNamed(all, name, Wanted(r.kind), t)
  }

  ghost predicate ByImport(all: seq<CodeEntity>, f: ParsedFile, r: CodeRelationship, t: CodeEntity) {
    exists name :: ImportedAs(f, r.targetName, name) && SoleNamed(all, name, Wanted(r.kind), t)
  }

  ghost predicate ByItself(all: seq<CodeEntity>, r: CodeRelationship, t: CodeEntity) {
    SoleNamed(all, r.targetName, Wanted(r.kind), t)
  }

  ghost predicate InModule(all: seq<CodeEntity>, f: ParsedFile, r: CodeRelationship, t: CodeEntity) {
    SoleNamed(all, f.moduleName + "." + r.targetName, Wanted(r.kind), t)
  }

  ghost predicate BySimpleName(all: seq<CodeEntity>, r: CodeRelationship, t: CodeEntity) {
    '.' !in r.targetName && SoleSimple(all, r.targetName, Wanted(r.kind), t)
  }

  /** Where a reference goes: to the only entity of the wanted kinds with the first of its names
      that has exactly one - the instance's class's, the imported one, its own, its module's - or,
      if none has and it has no dot, to the only one with its simple name.  Confidence is in
      hundredths. */
  ghost predicate Goes(all: seq<CodeEntity>, f: ParsedFile, source: CodeEntity, r: CodeRelationship, t: CodeEntity,
                       strategy: string, confidence: nat)
  {
    if exists e :: OnInstance(all, source, r, e) then
      OnInstance(all, source, r, t) && strategy == "instance_method" && confidence == 95
    else if exists e :: ByImport(all, f, r, e) then
      ByImport(all, f, r, t) && strategy == "import_alias" && confidence == 100
    else if exists e :: ByItself(all, r, e) then
      ByItself(all, r, t) && strategy == "qualified_name" && confidence == 95
    else if exists e :: InModule(all, f, r, e) then
      InModule(all, f, r, t) && strategy == "module_scope" && confidence == 90
    else BySimpleName(all, r, t) && strategy == "unique_repository_symbol" && confidence == 75
  }

  lemma InstanceNameExactly(source: CodeEntity, reference: string, name: string)
    ensures InstanceName(source, reference, name) <==>
              source.kind == Method && '.' in reference && (First(reference) == "self" || First(reference) == "cls")
              && name == Container(source.qualifiedName) + "." + Rest(reference)
  {
    hide Outer, Container, First, Rest;
    forall d
      ensures Outer(source.qualifiedName, d) <==> d == Container(source.qualifiedName)
    {
      OuterExactly(source.qualifiedName, d);
    }
    DottedExactly(reference, "self");
    DottedExactly(reference, "cls");
    if '.' in reference && (First(reference) == "self" || First(reference) == "cls") {
      var w := First(reference);
      assert Outer(source.qualifiedName, Container(source.qualifiedName)) && w + "." <= reference;
    }
  }

  lemma DottedExactly(reference: string, w: string)
    requires '.' !in w
    ensures w + "." <= reference <==> '.' in reference && First(reference) == w
    ensures w + "." <= reference ==> reference[|w| + 1..] == Rest(reference)
  {
    if w + "." <= reference {
      var tail := reference[|w| + 1..];
      assert reference == w + "." + tail;
      FirstOf(w, tail);
    }
    if '.' in reference && First(reference) == w {
      UnderFirst(reference);
    }
  }

  lemma ImportedAsExactly(f: ParsedFile, reference: string, name: string)
    ensures var aliases, x := Aliases(f.entities, PackageOf(f.moduleName, f.filePath)), First(reference);
            ImportedAs(f, reference, name) <==>
              x in aliases && name == aliases[x] + if '.' in reference then "." + Rest(reference) else ""
  {
    hide Aliases, LastBinding, First, Rest, PackageOf, Under;
    var package, x := PackageOf(f.moduleName, f.filePath), First(reference);
    UnderExactly(reference, x);
    if x in Aliases(f.entities, package) {
      AliasesExactly(f.entities, package, x, Aliases(f.entities, package)[x]);
    }
    if ImportedAs(f, reference, name) {
      var y, m :| LastBinding(f.entities, package, y, m) && Under(reference, y) && |y| <= |reference|
                  && name == m + reference[|y|..];
      UnderExactly(reference, y);
      AliasesExactly(f.entities, package, y, m);
    }
  }

  lemma {:induction false} FirstUniqueConcat(all: seq<CodeEntity>, a: seq<Attempt>, b: seq<Attempt>,
                                             kinds: set<EntityKind>)
    ensures FirstUnique(all, a + b, kinds)
            == if FirstUnique(all, a, kinds).Some? then FirstUnique(all, a, kinds) else FirstUnique(all, b, kinds)
    decreases |a|
  {
    hide Matches;
    if a == [] {
      assert a + b == b;
    } else {
      assert (a + b)[1..] == a[1..] + b;
      FirstUniqueConcat(all, a[1..], b, kinds);
    }
  }

  /** One attempt finds the only entity of its name, if there is one. */
  lemma OneAttempt(all: seq<CodeEntity>, a: Attempt, kinds: set<EntityKind>)
    ensures match FirstUnique(all, [a], kinds)
            case Some(t) => t.confidence == a.confidence && t.strategy == a.strategy
                            && SoleNamed(all, a.name, kinds, t.entity)
            case None => forall e :: !SoleNamed(all, a.name, kinds, e)
  {
    hide Matches, SoleNamed;
    var found := Matches(all, a.name, kinds);
    assert [a][1..] == [];
    forall e
      ensures SoleNamed(all, a.name, kinds, e) <==> |found| == 1 && found[0] == e
    {
      MatchesExactly(all, a.name, kinds, e);
      OneOf(found, e);
    }
  }

  lemma SoleOnce(all: seq<CodeEntity>, name: string, kinds: set<EntityKind>, t: CodeEntity, e: CodeEntity)
    requires SoleNamed(all, name, kinds, t) && SoleNamed(all, name, kinds, e)
    ensures t == e
  {
    MatchesExactly(all, name, kinds, t);
    MatchesExactly(all, name, kinds, e);
  }

  /** A list of at most one attempt. */
  lemma OptionalAttempt(all: seq<CodeEntity>, c: bool, a: Attempt, kinds: set<EntityKind>)
    ensures match FirstUnique(all, if c then [a] else [], kinds)
            case Some(t) => c && t.confidence == a.confidence && t.strategy == a.strategy
                            && SoleNamed(all, a.name, kinds, t.entity)
            case None => forall e :: !(c && SoleNamed(all, a.name, kinds, e))
  {
    hide SoleNamed;
    OneAttempt(all, a, kinds);
  }

  function InstanceAttempts(source: CodeEntity, reference: string): seq<Attempt> {
    if (First(reference) == "self" || First(reference) == "cls") && '.' in reference && source.kind == Method
    then [Attempt(Container(source.qualifiedName) + "." + Rest(reference), 95, "instance_method")] else []
  }

  function ImportAttempts(aliases: map<string, string>, reference: string): seq<Attempt> {
    var first := First(reference);
    if first in aliases
    then [Attempt(aliases[first] + (if '.' in reference then "." + Rest(reference) else ""), 100, "import_alias")]
    else []
  }

  lemma InstanceAttempt(all: seq<CodeEntity>, source: CodeEntity, r: CodeRelationship)
    ensures match FirstUnique(all, InstanceAttempts(source, r.targetName), Wanted(r.kind))
            case Some(t) => t.confidence == 95 && t.strategy == "instance_method"
                            && OnInstance(all, source, r, t.entity)
            case None => forall e :: !OnInstance(all, source, r, e)
  {
    hide First, Rest, Container, FirstUnique, SoleNamed, InstanceName;
    var reference, name := r.targetName, Container(source.qualifiedName) + "." + Rest(r.targetName);
    var c := (First(reference) == "self" || First(reference) == "cls") && '.' in reference && source.kind == Method;
    var a := Attempt(name, 95, "instance_method");
    OptionalAttempt(all, c, a, Wanted(r.kind));
    forall other
      ensures InstanceName(source, reference, other) <==> c && other == name
    {
      InstanceNameExactly(source, reference, other);
    }
  }

  lemma ImportAttempt(all: seq<CodeEntity>, f: ParsedFile, aliases: map<string, string>, r: CodeRelationship)
    requires aliases == Aliases(f.entities, PackageOf(f.moduleName, f.filePath))
    ensures match FirstUnique(all, ImportAttempts(aliases, r.targetName), Wanted(r.kind))
            case Some(t) => t.confidence == 100 && t.strategy == "import_alias" && ByImport(all, f, r, t.entity)
            case None => forall e :: !ByImport(all, f, r, e)
  {
    hide First, Rest, FirstUnique, SoleNamed, ImportedAs, Aliases, PackageOf;
    var x := First(r.targetName);
    var name := (if x in aliases then aliases[x] else "")
                + if '.' in r.targetName then "." + Rest(r.targetName) else "";
    OptionalAttempt(all, x in aliases, Attempt(name, 100, "import_alias"), Wanted(r.kind));
    forall other
      ensures ImportedAs(f, r.targetName, other) <==> x in aliases && other == name
    {
      ImportedAsExactly(f, r.targetName, other);
    }
  }

  /** The search finds where the reference goes, and nothing when it goes nowhere. */
  lemma TargetGoes(all: seq<CodeEntity>, f: ParsedFile, aliases: map<string, string>, source: CodeEntity,
                   r: CodeRelationship)
    requires aliases == Aliases(f.entities, PackageOf(f.moduleName, f.filePath))
    ensures match RepositoryTarget(all, f, aliases, source, r)
            case Some(t) => Goes(all, f, source, r, t.entity, t.strategy, t.confidence)
            case None => forall e, strategy, confidence :: !Goes(all, f, source, r, e, strategy, confidence)
  {
    hide First, Rest, Container, FirstUnique, SoleNamed, SoleSimple, OnInstance, ByImport, Aliases, PackageOf,
         Select, OfKinds, InstanceAttempts, ImportAttempts, Attempts;
    var reference, kinds := r.targetName, Wanted(r.kind);
    var own, scoped := Attempt(reference, 95, "qualified_name"),
                       Attempt(f.moduleName + "." + reference, 90, "module_scope");
    var instance, imported := InstanceAttempts(source, reference), ImportAttempts(aliases, reference);
    AttemptsAre(f, aliases, source, reference);
    FirstUniqueConcat(all, instance + imported, [own] + [scoped], kinds);
    FirstUniqueConcat(all, instance, imported, kinds);
    FirstUniqueConcat(all, [own], [scoped], kinds);
    InstanceAttempt(all, source, r);
    ImportAttempt(all, f, aliases, r);
    OneAttempt(all, own, kinds);
    OneAttempt(all, scoped, kinds);
    var simple := OfKinds(Select(all, NameOf, reference), kinds);
    forall e
      ensures SoleSimple(all, reference, kinds, e) <==> |simple| == 1 && simple[0] == e
    {
      SimpleExactly(all, reference, kinds, e);
      OneOf(simple, e);
    }
    var t := RepositoryTarget(all, f, aliases, source, r);
    if FirstUnique(all, instance, kinds).Some? {
      assert OnInstance(all, source, r, t.value.entity);
    } else if FirstUnique(all, imported, kinds).Some? {
      assert ByImport(all, f, r, t.value.entity);
    } else if FirstUnique(all, [own], kinds).Some? {
      assert ByItself(all, r, t.value.entity);
    } else if FirstUnique(all, [scoped], kinds).Some? {
      assert InModule(all, f, r, t.value.entity);
    } else if t.Some? {
      assert BySimpleName(all, r, t.value.entity);
    }
  }

  lemma AttemptsAre(f: ParsedFile, aliases: map<string, string>, source: CodeEntity, reference: string)
    ensures Attempts(reference, source, f.moduleName, aliases)
            == (InstanceAttempts(source, reference) + ImportAttempts(aliases, reference))
               + ([Attempt(reference, 95, "qualified_name")]
                  + [Attempt(f.moduleName + "." + reference, 90, "module_scope")])
  {
    hide First, Rest, Container;
  }

  /** There is only one place to go. */
  lemma GoesOnce(all: seq<CodeEntity>, f: ParsedFile, source: CodeEntity, r: CodeRelationship, t: CodeEntity,
                 strategy: string, confidence: nat, t': CodeEntity, strategy': string, confidence': nat)
    requires Goes(all, f, source, r, t, strategy, confidence) && Goes(all, f, source, r, t', strategy', confidence')
    ensures t == t' && strategy == strategy' && confidence == confidence'
  {
    hide SoleNamed, SoleSimple, InstanceName, ImportedAs;
    var kinds := Wanted(r.kind);
    if OnInstance(all, source, r, t) && OnInstance(all, source, r, t') {
      var a :| InstanceName(source, r.targetName, a) && SoleNamed(all, a, kinds, t);
      var b :| InstanceName(source, r.targetName, b) && SoleNamed(all, b, kinds, t');
      InstanceNameExactly(source, r.targetName, a);
      InstanceNameExactly(source, r.targetName, b);
      SoleOnce(all, a, kinds, t, t');
    } else if ByImport(all, f, r, t) && ByImport(all, f, r, t') {
      var a :| ImportedAs(f, r.targetName, a) && SoleNamed(all, a, kinds, t);
      var b :| ImportedAs(f, r.targetName, b) && SoleNamed(all, b, kinds, t');
      ImportedAsExactly(f, r.targetName, a);
      ImportedAsExactly(f, r.targetName, b);
      SoleOnce(all, a, kinds, t, t');
    } else if ByItself(all, r, t) && ByItself(all, r, t') {
      SoleOnce(all, r.targetName, kinds, t, t');
    } else if InModule(all, f, r, t) && InModule(all, f, r, t') {
      SoleOnce(all, f.moduleName + "." + r.targetName, kinds, t, t');
    } else {
      SimpleExactly(all, r.targetName, kinds, t);
      SimpleExactly(all, r.targetName, kinds, t');
    }
  }

  // ---------------------------------------------------------------- what becomes of each relationship

  /** The relationship with its target found. */
  ghost function Found(r: CodeRelationship, kind: RelationshipKind, t: CodeEntity, strategy: string, confidence: nat,
                       importEntity: Option<NodeId>): CodeRelationship {
    CodeRelationship(kind, r.sourceId, t.id, t.qualifiedName, true, r.filePath, r.line,
                     Marked(strategy, confidence, importEntity))
  }

  function EarlierImport(r: CodeRelationship): Option<NodeId> {
    if r.resolution.Marked? then r.resolution.importEntity else None
  }

  /** The name an import entity means, read with its own module's package. */
  function ImportName(e: CodeEntity): string {
    AbsoluteImport(if e.metadata.ImportMetadata? then e.metadata.importedName else "",
                   PackageOf(ModuleOfImport(e), e.filePath))
  }

  /** An import is followed by a dependency if and only if exactly one entity has its name. */
  ghost predicate ImportBecomes(all: seq<CodeEntity>, f: ParsedFile, r: CodeRelationship, out: seq<CodeRelationship>) {
    || (exists e, t :: Latest(f.entities, r.targetId, e) && SoleEntity(all, ImportName(e), t)
                       && out == [r, Found(r, DependsOn, t, "cross_file_import", 100, Some(e.id))])
    || (out == [r] && forall e, t :: !(Latest(f.entities, r.targetId, e) && SoleEntity(all, ImportName(e), t)))
  }

  /** An open call or base goes where its name does, or stays. */
  ghost predicate ReferenceBecomes(all: seq<CodeEntity>, f: ParsedFile, r: CodeRelationship,
                                   out: seq<CodeRelationship>)
  {
    || (exists source, t, strategy, confidence ::
          Latest(f.entities, r.sourceId, source) && Goes(all, f, source, r, t, strategy, confidence)
          && out == [Found(r, r.kind, t, strategy, confidence, EarlierImport(r))])
    || (out == [r]
        && forall source, t, strategy, confidence ::
             !(Latest(f.entities, r.sourceId, source) && Goes(all, f, source, r, t, strategy, confidence)))
  }

  ghost predicate Becomes(all: seq<CodeEntity>, f: ParsedFile, r: CodeRelationship, out: seq<CodeRelationship>) {
    if r.kind == Imports then ImportBecomes(all, f, r, out)
    else if !r.resolved && (r.kind == Calls || r.kind == InheritsFrom) then ReferenceBecomes(all, f, r, out)
    else out == [r]
  }

  lemma ImportIsRewritten(all: seq<CodeEntity>, f: ParsedFile, aliases: map<string, string>, r: CodeRelationship)
    requires r.kind == Imports
    ensures ImportBecomes(all, f, r, Rewritten(all, f, aliases, r))
  {
    hide ById, Latest, SoleEntity, Select, AbsoluteImport, PackageOf, ModuleOfImport;
    forall e
      ensures ById(f.entities, r.targetId) == Some(e) <==> Latest(f.entities, r.targetId, e)
    {
      ByIdExactly(f.entities, r.targetId, e);
    }
    if ById(f.entities, r.targetId).Some? {
      var e := ById(f.entities, r.targetId).value;
      var found := Select(all, QualifiedNameOf, ImportName(e));
      forall t
        ensures SoleEntity(all, ImportName(e), t) <==> |found| == 1 && found[0] == t
      {
        EntityExactly(all, ImportName(e), t);
        OneOf(found, t);
      }
      if |found| == 1 {
        assert Latest(f.entities, r.targetId, e) && SoleEntity(all, ImportName(e), found[0]);
        assert ImportTarget(all, e) == Some(found[0]);
      }
    }
  }

  lemma ReferenceIsRewritten(all: seq<CodeEntity>, f: ParsedFile, aliases: map<string, string>, r: CodeRelationship)
    requires aliases == Aliases(f.entities, PackageOf(f.moduleName, f.filePath))
    requires !r.resolved && (r.kind == Calls || r.kind == InheritsFrom)
    ensures ReferenceBecomes(all, f, r, Rewritten(all, f, aliases, r))
  {
    hide ById, Latest, Goes, RepositoryTarget, Aliases, PackageOf;
    forall e
      ensures ById(f.entities, r.sourceId) == Some(e) <==> Latest(f.entities, r.sourceId, e)
    {
      ByIdExactly(f.entities, r.sourceId, e);
    }
    if ById(f.entities, r.sourceId).Some? {
      TargetGoes(all, f, aliases, ById(f.entities, r.sourceId).value, r);
    }
  }

  lemma RewrittenBecomes(all: seq<CodeEntity>, f: ParsedFile, aliases: map<string, string>, r: CodeRelationship)
    requires aliases == Aliases(f.entities, PackageOf(f.moduleName, f.filePath))
    ensures Becomes(all, f, r, Rewritten(all, f, aliases, r))
  {
    hide ById, ImportBecomes, ReferenceBecomes, RepositoryTarget, Aliases, PackageOf;
    if r.kind == Imports {
      ImportIsRewritten(all, f, aliases, r);
    } else if !r.resolved && (r.kind == Calls || r.kind == InheritsFrom) {
      ReferenceIsRewritten(all, f, aliases, r);
    }
  }

  function Flat(pieces: seq<seq<CodeRelationship>>): seq<CodeRelationship> {
    if pieces == [] then [] else Flat(pieces[..|pieces| - 1]) + pieces[|pieces| - 1]
  }

  /** Each relationship becomes what it becomes, in its place. */
  ghost predicate EachBecomes(all: seq<CodeEntity>, f: ParsedFile, rows: seq<CodeRelationship>,
                              pieces: seq<seq<CodeRelationship>>)
  {
    |pieces| == |rows| && forall n :: 0 <= n < |rows| ==> Becomes(all, f, rows[n], pieces[n])
  }

  lemma {:induction false} RowsBecome(all: seq<CodeEntity>, f: ParsedFile, aliases: map<string, string>,
                                      rows: seq<CodeRelationship>)
      returns (pieces: seq<seq<CodeRelationship>>)
    requires aliases == Aliases(f.entities, PackageOf(f.moduleName, f.filePath))
    ensures EachBecomes(all, f, rows, pieces) && RepositoryRows(all, f, aliases, rows) == Flat(pieces)
    decreases |rows|
  {
    hide Becomes, Rewritten, Aliases, PackageOf;
    pieces := [];
    if rows != [] {
      var init, last := rows[..|rows| - 1], rows[|rows| - 1];
      var before := RowsBecome(all, f, aliases, init);
      RewrittenBecomes(all, f, aliases, last);
      pieces := before + [Rewritten(all, f, aliases, last)];
      assert pieces[..|before|] == before;
    }
  }

  /** Every file of the repository, relationship by relationship: each goes to the only entity with
      the first name it may mean that has exactly one, and stays open if and only if none has. */
  lemma ReferencesGo(files: seq<ParsedFile>, i: nat) returns (pieces: seq<seq<CodeRelationship>>)
    requires i < |files|
    ensures var f := ResolveLocal(files[i]);
            EachBecomes(All(files), f, f.relationships, pieces)
            && ResolveRepository(files)[i].relationships == Flat(pieces)
  {
    hide RepositoryRows, Aliases, LocalRows, EachBecomes, All;
    var f := ResolveLocal(files[i]);
    pieces := RowsBecome(All(files), f, Aliases(f.entities, PackageOf(f.moduleName, f.filePath)), f.relationships);
  }
}

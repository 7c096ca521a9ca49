/** Which name each form of import binds, and to what: in this program and in Python. */
module ImportBindings {
  import opened Contracts
  import opened DottedNames
  import opened GraphRepositories
  import opened Resolutions
  import opened ResolutionProperties
  import opened ReferenceTargets

  /** One name of an import statement: import a.b, import a.b as x, from ..a.b import n, from . import n
      as x, from a import *. */
  datatype Clause =
    | Plain(parts: seq<string>, alias: Option<string>)
    | From(level: nat, fromModule: seq<string>, name: string, alias: Option<string>)

  ghost predicate Grammatical(c: Clause) {
    && (c.alias.Some? ==> Identifier(c.alias.value))
    && (c.Plain? ==> Dotted(c.parts))
    && (c.From? ==>
          && (if c.fromModule == [] then c.level > 0 else Dotted(c.fromModule))
          && (Identifier(c.name) || (c.name == "*" && c.alias.None?)))
  }

  /** The entity the parser emits for it, as far as the resolver reads it. */
  ghost predicate Emitted(e: CodeEntity, c: Clause) {
    && e.kind == EntityKind.Import
    && e.metadata == match c
                     case Plain(parts, alias) => ImportMetadata(Join(parts), alias, 0)
                     case From(level, fromModule, name, alias) =>
                       ImportMetadata(ImportedName(level, Join(fromModule), name), alias, level)
  }

  /** The module path and the name after the dots. */
  function Tail(c: Clause): seq<string> {
    if c.Plain? then c.parts else c.fromModule + if c.name == "*" then [] else [c.name]
  }

  function Level(c: Clause): nat {
    if c.Plain? then 0 else c.level
  }

  /** What is imported, by its absolute name; a level beyond the package is taken from the top. */
  function Meant(c: Clause, package: seq<string>): string {
    if 0 < Level(c) <= |package| then Join(Absolute(package, c.level, c.fromModule, c.name)) else Join(Tail(c))
  }

  /** What the program binds.  Without an alias and without dots in front it is always the first
      part of the path, and bound to itself - also of a from-import. */
  function Bound(c: Clause, package: seq<string>): (string, string)
    requires Level(c) == 0 ==> Tail(c) != []
  {
    if c.alias.Some? then (c.alias.value, Meant(c, package))
    else if Level(c) == 0 then (Tail(c)[0], Tail(c)[0])
    else (if Tail(c) == [] then "" else Tail(c)[|Tail(c)| - 1], Meant(c, package))
  }

  /** What Python binds: section 7.11 of The Python Language Reference. */
  function PythonBinds(c: Clause, package: seq<string>): (string, string)
    requires c.Plain? ==> c.parts != []
  {
    if c.alias.Some? then (c.alias.value, Meant(c, package))
    else if c.Plain? then (c.parts[0], c.parts[0])
    else (c.name, Meant(c, package))
  }

  lemma TailDotted(c: Clause)
    requires Grammatical(c)
    ensures Level(c) == 0 ==> Tail(c) != []
    ensures Tail(c) != [] ==> Dotted(Tail(c)) && Join(Tail(c)) != "" && Join(Tail(c))[0] != '.'
  {
    hide Join;
    if Tail(c) != [] {
      assert forall i :: 0 <= i < |Tail(c)| ==> Identifier(Tail(c)[i]);
      JoinNonEmpty(Tail(c));
    }
  }

  /** What the entity says is imported: the dots, then the path. */
  lemma ImportedIs(e: CodeEntity, c: Clause)
    requires Grammatical(c) && Emitted(e, c)
    ensures e.metadata.importedName == Dots(Level(c)) + Join(Tail(c))
  {
    hide Join, Dots, ImportedName;
    NoDots();
    if c.From? {
      if c.level > 0 {
        EncodedTail(c.level, c.fromModule, c.name);
      } else {
        EncodedAtTop(c.fromModule, c.name);
      }
    }
  }

  lemma NoDots()
    ensures Dots(0) == "" && forall s: string :: "" + s == s
  {
  }

  lemma EncodedAtTop(fromModule: seq<string>, name: string)
    requires Dotted(fromModule) && (Identifier(name) || name == "*")
    ensures ImportedName(0, Join(fromModule), name) == Join(fromModule + if name == "*" then [] else [name])
  {
    hide Join;
    JoinNonEmpty(fromModule);
    assert Dots(0) + Join(fromModule) == Join(fromModule);
    if name == "*" {
      assert fromModule + [] == fromModule;
    } else {
      JoinConcat(fromModule, [name]);
      JoinOne(name);
    }
  }

  lemma MeantIsAbsolute(e: CodeEntity, c: Clause, package: seq<string>)
    requires Grammatical(c) && Emitted(e, c) && (package == [] || Dotted(package))
    ensures AbsoluteImport(e.metadata.importedName, Join(package)) == Meant(c, package)
  {
    hide Join, AbsoluteImport, ImportedName, Dotted, Dots;
    if Level(c) == 0 {
      ImportedIs(e, c);
      NoDots();
      TailDotted(c);
      UndottedIsAbsolute(Join(Tail(c)), Join(package));
    } else if c.level <= |package| {
      RelativeImportRoundTrip(package, c.level, c.fromModule, c.name);
    } else {
      LevelBeyondPackage(package, c.level, c.fromModule, c.name);
    }
  }

  lemma UndottedIsAbsolute(imported: string, package: string)
    requires imported != "" && imported[0] != '.'
    ensures AbsoluteImport(imported, package) == imported
  {
  }

  lemma {:induction false} FirstOfPath(parts: seq<string>)
    requires Dotted(parts)
    ensures First(Join(parts)) == parts[0]
    ensures '.' in Join(parts) <==> |parts| > 1
  {
    assert Identifier(parts[0]);
    JoinCons(parts);
    if |parts| > 1 {
      FirstOf(parts[0], Join(parts[1..]));
    } else {
      FirstUnder(parts[0], parts[0]);
    }
  }

  lemma {:induction false} LastOfPath(level: nat, parts: seq<string>)
    requires parts == [] || Dotted(parts)
    requires level > 0 || parts != []
    ensures LastPart(Dots(level) + Join(parts)) == if parts == [] then "" else parts[|parts| - 1]
  {
    hide Join, LastPart, Dots;
    var last := if parts == [] then "" else parts[|parts| - 1];
    assert parts != [] ==> Identifier(last);
    if |parts| > 1 {
      var init := parts[..|parts| - 1];
      assert parts == init + [last];
      JoinConcat(init, [last]);
      JoinOne(last);
      assert Dots(level) + Join(parts) == (Dots(level) + Join(init)) + "." + last;
      LastPartOf(Dots(level) + Join(init), last);
    } else {
      JoinNone();
      assert parts == [] || parts == [last];
      JoinOne(last);
      NoDots();
      if level > 0 {
        DotsSnoc(level);
        assert Dots(level) + Join(parts) == Dots(level - 1) + "." + last;
      }
      LastPartOf(if level > 0 then Dots(level - 1) else "", last);
    }
  }

  lemma DotsSnoc(level: nat)
    requires level > 0
    ensures Dots(level) == Dots(level - 1) + "."
  {
  }

  /** Of every form of import the program binds this name, and no other, to this. */
  lemma ClauseBinds(e: CodeEntity, c: Clause, package: seq<string>, x: string, name: string)
    requires Grammatical(c) && Emitted(e, c) && (package == [] || Dotted(package))
    ensures Level(c) == 0 ==> Tail(c) != []
    ensures Binds(e, Join(package), x, name) <==> (x, name) == Bound(c, package)
  {
    hide Join, Binds, Meant, Tail, Grammatical, Emitted;
    TailDotted(c);
    if c.alias.Some? {
      AliasBinds(e, c, package, x, name);
    } else if Level(c) == 0 {
      FirstPartBinds(e, c, package, x, name);
    } else {
      LastPartBinds(e, c, package, x, name);
    }
  }

  lemma AliasBinds(e: CodeEntity, c: Clause, package: seq<string>, x: string, name: string)
    requires Grammatical(c) && Emitted(e, c) && (package == [] || Dotted(package)) && c.alias.Some?
    ensures Binds(e, Join(package), x, name) <==> x == c.alias.value && name == Meant(c, package)
  {
    hide Join, AbsoluteImport, ImportedName, Meant;
    MeantIsAbsolute(e, c, package);
  }

  lemma FirstPartBinds(e: CodeEntity, c: Clause, package: seq<string>, x: string, name: string)
    requires Grammatical(c) && Emitted(e, c) && (package == [] || Dotted(package)) && c.alias.None? && Level(c) == 0
    requires Tail(c) != []
    ensures Binds(e, Join(package), x, name) <==> x == Tail(c)[0] == name
  {
    hide Join, AbsoluteImport, ImportedName, Meant, Ends, Under, Grammatical, Tail, LastPart, First;
    TailDotted(c);
    ImportedIs(e, c);
    NoDots();
    FirstOfPath(Tail(c));
    LevelZero(e, c);
    if |Tail(c)| > 1 {
      UnderExactly(e.metadata.importedName, x);
    } else {
      LastPartExactly(e.metadata.importedName, x);
      LastOfPath(0, Tail(c));
      MeantIsAbsolute(e, c, package);
      AtTop(c, package);
    }
  }

  lemma LastPartBinds(e: CodeEntity, c: Clause, package: seq<string>, x: string, name: string)
    requires Grammatical(c) && Emitted(e, c) && (package == [] || Dotted(package)) && c.alias.None? && Level(c) > 0
    ensures Binds(e, Join(package), x, name) <==>
              x == (if Tail(c) == [] then "" else Tail(c)[|Tail(c)| - 1]) && name == Meant(c, package)
  {
    hide Join, AbsoluteImport, ImportedName, Meant, Ends, Under, Grammatical, Tail, Dots, LastPart;
    TailDotted(c);
    ImportedIs(e, c);
    LevelZero(e, c);
    LastPartExactly(e.metadata.importedName, x);
    LastOfPath(Level(c), Tail(c));
    MeantIsAbsolute(e, c, package);
  }

  lemma LevelZero(e: CodeEntity, c: Clause)
    requires Emitted(e, c)
    ensures e.metadata.ImportMetadata? && e.metadata.level == Level(c) && e.metadata.alias == c.alias
  {
    hide Join, ImportedName;
  }

  lemma AtTop(c: Clause, package: seq<string>)
    requires Grammatical(c) && Level(c) == 0
    ensures Tail(c) != [] && (|Tail(c)| == 1 ==> Meant(c, package) == Tail(c)[0])
  {
    TailDotted(c);
  }

  /** The program binds what Python binds if and only if the import is no from-import without dots
      and without an alias: from m import x binds m's first part instead of x. */
  lemma BindsAsPythonExactly(c: Clause, package: seq<string>)
    requires Grammatical(c) && (c.From? ==> c.name != "*" && c.level <= |package|)
    ensures Level(c) == 0 ==> Tail(c) != []
    ensures Bound(c, package) == PythonBinds(c, package) <==> c.Plain? || c.alias.Some? || c.level > 0
  {
    hide Join;
    TailDotted(c);
    if c.From? && c.level == 0 {
      FirstOfPath(Tail(c));
      assert Identifier(c.fromModule[0]);
    }
  }

  // ---------------------------------------------------------------- the package of a file

  lemma {:induction false} FileNameOf(directory: string, name: string)
    requires '/' !in name
    ensures FileName(name) == name && FileName(directory + "/" + name) == name
    decreases |name|
  {
    var path := directory + "/" + name;
    if name == "" {
      assert path[|path| - 1] == '/';
    } else {
      var init, last := name[..|name| - 1], name[|name| - 1];
      assert name == init + [last] && path[..|path| - 1] == directory + "/" + init && path[|path| - 1] == last;
      FileNameOf(directory, init);
    }
  }

  /** Relative imports start from the module itself in a package's __init__.py, and from the package
      around it in every other file, at the top or in a directory. */
  lemma PackageIs(parts: seq<string>, directory: string, name: string)
    requires Dotted(parts) && '/' !in name
    ensures var package := Join(if name == "__init__.py" then parts else parts[..|parts| - 1]);
            PackageOf(Join(parts), name) == package && PackageOf(Join(parts), directory + "/" + name) == package
  {
    hide Join, FileName, Parent;
    FileNameOf(directory, name);
    forall i | 0 <= i < |parts|
      ensures '.' !in parts[i]
    {
      assert Identifier(parts[i]);
    }
    ParentOf(parts);
  }

  // ---------------------------------------------------------------- an import that is passed over

  function Func(path: string, name: string, qualifiedName: string): CodeEntity {
    CodeEntity(EntityNode("r", path, Function, qualifiedName), Function, name, qualifiedName, path, 1, 2, "h",
               NoMetadata)
  }

  const IMPORTING := CodeEntity(EntityNode("r", "a.py", EntityKind.Import, "a.__import__.1.0"), EntityKind.Import,
                                "pkg.util.run", "a.__import__.1.0", "a.py", 1, 1, "h",
                                ImportMetadata("pkg.util.run", None, 0))

  const CALLER := Func("a.py", "f", "a.f")
  const MEANT := Func("pkg/util.py", "run", "pkg.util.run")
  const HOMONYM := Func("pkg/other.py", "run", "pkg.other.run")

  const CALL := CodeRelationship(Calls, CALLER.id, SymbolNode("r", Function, "run"), "run", false, "a.py", 3, Unmarked)

  const CALLING := ParsedFile("r", "a.py", "a", "h", [IMPORTING, CALLER], [CALL], false)
  const FILES := [CALLING, ParsedFile("r", "pkg/util.py", "pkg.util", "h", [MEANT], [], false),
                  ParsedFile("r", "pkg/other.py", "pkg.other", "h", [HOMONYM], [], false)]

  const IMPORTED := From(0, ["pkg", "util"], "run", None)

  /** from pkg.util import run, then a call of run: the import names exactly one entity of the
      repository, Python calls it, and the call stays open because another module has a run too. */
  lemma ImportIsPassedOver()
    ensures Grammatical(IMPORTED) && Emitted(IMPORTING, IMPORTED)
    ensures PythonBinds(IMPORTED, []) == ("run", "pkg.util.run")
    ensures SoleNamed(All(FILES), "pkg.util.run", {Function, Method, Class}, MEANT)
    ensures ResolveRepository(FILES)[0].relationships == [CALL]
  {
    hide Join, ResolveRepository, ResolveLocal, All, EachBecomes, SoleNamed, Grammatical, Emitted;
    ImportedRun();
    MeantIsSole();
    CallStaysLocally();
    var pieces := ReferencesGo(FILES, 0);
    OnePiece(pieces);
  }

  lemma OnePiece(pieces: seq<seq<CodeRelationship>>)
    requires EachBecomes(All(FILES), CALLING, [CALL], pieces)
    ensures Flat(pieces) == [CALL]
  {
    hide Goes, Latest, All;
    assert Becomes(All(FILES), CALLING, [CALL][0], pieces[0]);
    CallerIsLatest();
    NowhereToGo();
    assert pieces[0] == [CALL];
    assert pieces == [[CALL]] && pieces[..0] == [];
    assert Flat(pieces[..0]) == [];
  }

  lemma CallerIsLatest()
    ensures forall e :: Latest(CALLING.entities, CALL.sourceId, e) ==> e == CALLER
  {
  }

  lemma ImportedRun()
    ensures Grammatical(IMPORTED) && Emitted(IMPORTING, IMPORTED) && Meant(IMPORTED, []) == "pkg.util.run"
  {
    var fromModule := ["pkg", "util"];
    assert Dotted(fromModule) && Identifier("run");
    assert fromModule[1..] == ["util"];
    assert Join(fromModule) == "pkg.util";
    assert Dots(0) + "pkg.util" == "pkg.util";
    assert ImportedName(0, "pkg.util", "run") == "pkg.util.run";
    EncodedAtTop(fromModule, "run");
  }

  lemma AllOfThem()
    ensures All(FILES) == [IMPORTING, CALLER, MEANT, HOMONYM]
  {
    assert FILES[..2][..1] == FILES[..1] && FILES[..1][..0] == [];
    assert FILES[..2][1] == FILES[1] && FILES[..1][0] == CALLING;
    assert All(FILES[..1]) == [IMPORTING, CALLER];
    assert All(FILES[..2]) == [IMPORTING, CALLER, MEANT];
  }

  lemma MeantIsSole()
    ensures SoleNamed(All(FILES), "pkg.util.run", {Function, Method, Class}, MEANT)
  {
    AllOfThem();
    assert All(FILES)[2] == MEANT;
  }

  lemma CallStaysLocally()
    ensures ResolveLocal(FILES[0]) == CALLING
  {
    hide Answers;
    var rows := ResolveLocal(CALLING).relationships;
    LocalResolutionExactly(CALLING, 0);
    forall e
      ensures !Answers(CALLING, CALLER, CALL, e)
    {
      NoLocalAnswer(e);
    }
    CallerById();
    assert rows == [CALL];
  }

  lemma CallerById()
    ensures ById(CALLING.entities, CALL.sourceId) == Some(CALLER)
  {
  }

  lemma NoLocalAnswer(e: CodeEntity)
    ensures !Answers(CALLING, CALLER, CALL, e)
  {
    assert !MayMean(CALLING, CALLER, "run", "a.__import__.1.0");
    assert !MayMean(CALLING, CALLER, "run", "a.f");
  }

  lemma NowhereToGo()
    ensures forall t, strategy, confidence :: !Goes(All(FILES), CALLING, CALLER, CALL, t, strategy, confidence)
  {
    hide SoleNamed, SoleSimple, ImportedAs;
    forall name
      ensures !ImportedAs(CALLING, "run", name)
    {
      NotImported(name);
    }
    forall t
      ensures !SoleNamed(All(FILES), "run", Wanted(Calls), t)
      ensures !SoleNamed(All(FILES), "a.run", Wanted(Calls), t)
      ensures !SoleSimple(All(FILES), "run", Wanted(Calls), t)
    {
      NoneOrTwo(t);
    }
    assert "a" + "." + "run" == "a.run";
  }

  lemma NoneOrTwo(t: CodeEntity)
    ensures !SoleNamed(All(FILES), "run", Wanted(Calls), t)
    ensures !SoleNamed(All(FILES), "a.run", Wanted(Calls), t)
    ensures !SoleSimple(All(FILES), "run", Wanted(Calls), t)
  {
    AllOfThem();
    var all := All(FILES);
    assert all[2] == MEANT && all[3] == HOMONYM;
  }

  /** The import binds pkg only. */
  lemma NotImported(name: string)
    ensures !ImportedAs(CALLING, "run", name)
  {
    hide LastBinding, PackageOf;
    var package := PackageOf("a", "a.py");
    forall x, m | LastBinding(CALLING.entities, package, x, m)
      ensures x == "pkg"
    {
      OnlyPkg(package, x, m);
    }
    assert !Under("run", "pkg");
  }

  lemma OnlyPkg(package: string, x: string, m: string)
    requires LastBinding(CALLING.entities, package, x, m)
    ensures x == "pkg"
  {
    hide Binds, LastBinding, First, Binding, AbsoluteImport, Imported, BindsFirst;
    FirstIsPkg();
    BindsExactly(IMPORTING, package, x, m);
    BindsExactly(CALLER, package, x, m);
    var n := BoundSomewhere(CALLING.entities, package, x, m);
  }

  lemma BoundSomewhere(entities: seq<CodeEntity>, package: string, x: string, m: string) returns (n: nat)
    requires LastBinding(entities, package, x, m)
    ensures n < |entities| && Binds(entities[n], package, x, m)
  {
    hide Binds;
    n :| 0 <= n < |entities| && Binds(entities[n], package, x, m);
  }

  lemma FirstIsPkg()
    ensures BindsFirst(IMPORTING) && First(Imported(IMPORTING)) == "pkg"
  {
    var s := "pkg.util.run";
    assert s[3] == '.' && s == "pkg" + "." + s[4..];
    FirstOf("pkg", s[4..]);
  }
}

/** What the extraction of a file looks like: a tree of entities, and references to names. */
module ExtractionTree {
  import opened Contracts
  import opened DottedNames
  import opened IndexJobs
  import opened Resolutions
  import opened PythonAstParsers

  predicate Structural(kind: RelationshipKind) {
    kind == Contains || kind == Imports || kind == DocumentedBy || kind == DecoratedBy || kind == HasParameter
  }

  function StructuralEdges(rows: seq<CodeRelationship>): seq<CodeRelationship> {
    if rows == [] then []
    else
      var init, last := rows[..|rows| - 1], rows[|rows| - 1];
      if Structural(last.kind) then StructuralEdges(init) + [last] else StructuralEdges(init)
  }

  /** The kinds of entity that can hold others, by the edge they hold them with. */
  predicate Holds(parent: EntityKind, edge: RelationshipKind, child: EntityKind) {
    match child
    case File => false
    case Module => edge == Contains && parent == File
    case Class => edge == Contains && (parent == Module || parent == Class || parent == Function || parent == Method)
    case Method => edge == Contains && parent == Class
    case Function => edge == Contains && (parent == Module || parent == Function || parent == Method)
    case Parameter => edge == HasParameter && (parent == Function || parent == Method)
    case Decorator => edge == DecoratedBy && (parent == Class || parent == Function || parent == Method)
    case Import => edge == Imports && (parent == Module || parent == Class || parent == Function || parent == Method)
    case Docstring =>
      edge == DocumentedBy && (parent == Module || parent == Class || parent == Function || parent == Method)
  }

  /** A name within its parent's: the parent's, a dot, and more; definitions at the top of an
      unnamed module keep their own name. */
  predicate Extends(parent: CodeEntity, e: CodeEntity) {
    || (parent.qualifiedName == "" && e.qualifiedName == e.name)
    || (parent.qualifiedName + "." <= e.qualifiedName)
  }

  /** An entity of the file, with the edge that hangs it below an entity emitted before. */
  ghost predicate Parented(u: Unit, e: CodeEntity, r: CodeRelationship, parent: CodeEntity) {
    && EntityOfFile(e, u.repository, u.path, u.hash)
    && r.sourceId == parent.id && r.targetId == e.id && r.targetName == e.qualifiedName
    && r.resolved && r.line == e.startLine && r.filePath == u.path
    && Holds(parent.kind, r.kind, e.kind)
    && (parent.kind == File || Extends(parent, e))
  }

  ghost predicate Known(known: set<CodeEntity>, entities: seq<CodeEntity>, k: nat, p: CodeEntity)
    requires k <= |entities|
  {
    p in known || p in entities[..k]
  }

  ghost predicate Hung(u: Unit, known: set<CodeEntity>, entities: seq<CodeEntity>, edges: seq<CodeRelationship>, k: nat)
    requires k < |entities| == |edges|
  {
    exists p :: Known(known, entities, k, p) && Parented(u, entities[k], edges[k], p)
  }

  /** The k-th structural edge hangs the k-th entity below one known before it. */
  ghost predicate Tree(u: Unit, known: set<CodeEntity>, out: Output) {
    var edges := StructuralEdges(out.relationships);
    |edges| == |out.entities| && forall k :: 0 <= k < |edges| ==> Hung(u, known, out.entities, edges, k)
  }

  /** A reference is open, names a symbol, and comes from a class (its bases) or from the function
      or method it is in (its calls). */
  ghost predicate Reference(u: Unit, r: CodeRelationship, source: CodeEntity) {
    && !r.resolved && r.sourceId == source.id && r.filePath == u.path
    && ((r.kind == InheritsFrom && source.kind == Class && r.targetId == SymbolNode(u.repository, Class, r.targetName))
        || (r.kind == Calls && CallScope(source.kind)
            && r.targetId == SymbolNode(u.repository, Function, r.targetName)))
  }

  ghost predicate References(u: Unit, known: set<CodeEntity>, out: Output) {
    forall r :: r in out.relationships && !Structural(r.kind) ==>
      exists p :: Known(known, out.entities, |out.entities|, p) && Reference(u, r, p)
  }

  ghost predicate Sound(u: Unit, known: set<CodeEntity>, out: Output) {
    Tree(u, known, out) && References(u, known, out)
  }

  ghost function Elements(entities: seq<CodeEntity>): set<CodeEntity> {
    set e | e in entities
  }

  // ---------------------------------------------------------------- putting pieces together

  lemma {:induction false} StructuralConcat(first: seq<CodeRelationship>, second: seq<CodeRelationship>)
    ensures StructuralEdges(first + second) == StructuralEdges(first) + StructuralEdges(second)
    decreases |second|
  {
    if second == [] {
      assert first + second == first;
    } else {
      StructuralConcat(first, second[..|second| - 1]);
      assert (first + second)[..|first + second| - 1] == first + second[..|second| - 1];
    }
  }

  lemma TreeThen(u: Unit, known: set<CodeEntity>, a: Output, b: Output)
    requires Tree(u, known, a) && Tree(u, known + Elements(a.entities), b)
    ensures Tree(u, known, Then(a, b))
  {
    hide Parented, StructuralEdges;
    var out := Then(a, b);
    StructuralConcat(a.relationships, b.relationships);
    var edges, ea, eb := StructuralEdges(out.relationships), StructuralEdges(a.relationships),
                         StructuralEdges(b.relationships);
    forall k | 0 <= k < |edges|
      ensures Hung(u, known, out.entities, edges, k)
    {
      if k < |ea| {
        assert Hung(u, known, a.entities, ea, k);
        var p :| Known(known, a.entities, k, p) && Parented(u, a.entities[k], ea[k], p);
        assert out.entities[..k] == a.entities[..k];
        assert Known(known, out.entities, k, p);
      } else {
        var j := k - |ea|;
        assert Hung(u, known + Elements(a.entities), b.entities, eb, j);
        var p :| Known(known + Elements(a.entities), b.entities, j, p) && Parented(u, b.entities[j], eb[j], p);
        assert out.entities[..k] == a.entities + b.entities[..j];
        assert Known(known, out.entities, k, p);
      }
    }
  }

  lemma ReferencesThen(u: Unit, known: set<CodeEntity>, a: Output, b: Output)
    requires References(u, known, a) && References(u, known + Elements(a.entities), b)
    ensures References(u, known, Then(a, b))
  {
    hide Reference;
    var out := Then(a, b);
    assert a.entities[..|a.entities|] == a.entities && b.entities[..|b.entities|] == b.entities;
    assert out.entities[..|out.entities|] == out.entities;
    forall r | r in out.relationships && !Structural(r.kind)
      ensures exists p :: Known(known, out.entities, |out.entities|, p) && Reference(u, r, p)
    {
      if r in a.relationships {
        var p :| Known(known, a.entities, |a.entities|, p) && Reference(u, r, p);
        assert Known(known, out.entities, |out.entities|, p);
      } else {
        var p :| Known(known + Elements(a.entities), b.entities, |b.entities|, p) && Reference(u, r, p);
        assert Known(known, out.entities, |out.entities|, p);
      }
    }
  }

  lemma SoundThen(u: Unit, known: set<CodeEntity>, a: Output, b: Output)
    requires Sound(u, known, a) && Sound(u, known + Elements(a.entities), b)
    ensures Sound(u, known, Then(a, b))
  {
    hide Tree, References;
    TreeThen(u, known, a, b);
    ReferencesThen(u, known, a, b);
  }

  lemma SoundNothing(u: Unit, known: set<CodeEntity>)
    ensures Sound(u, known, NOTHING)
  {
  }

  lemma SoundEmit(u: Unit, known: set<CodeEntity>, e: CodeEntity, kind: RelationshipKind, source: CodeEntity)
    requires source in known && Parented(u, e, Edge(u, kind, source, e, e.startLine), source) && Structural(kind)
    ensures Sound(u, known, Emit(u, e, kind, source))
  {
    var out := Emit(u, e, kind, source);
    assert out.relationships[..0] == [];
    assert StructuralEdges(out.relationships) == out.relationships;
    assert Known(known, out.entities, 0, source);
  }

  // ---------------------------------------------------------------- each part

  predicate Scope(kind: EntityKind) {
    kind == Module || kind == Class || kind == Function || kind == Method
  }

  lemma {:induction false} DecoratorsSound(u: Unit, known: set<CodeEntity>, owner: CodeEntity, decorators: seq<Text>)
    requires owner in known && owner.kind in {Class, Function, Method}
    ensures Sound(u, known, DecoratorParts(u, owner, decorators))
    decreases |decorators|
  {
    hide Sound, Digits;
    if decorators == [] {
      SoundNothing(u, known);
    } else {
      var n := |decorators| - 1;
      var before := DecoratorParts(u, owner, decorators[..n]);
      DecoratorsSound(u, known, owner, decorators[..n]);
      SoundEmit(u, known + Elements(before.entities), DecoratorEntity(u, owner, decorators[n], n), DecoratedBy, owner);
      SoundThen(u, known, before, Emit(u, DecoratorEntity(u, owner, decorators[n], n), DecoratedBy, owner));
    }
  }

  lemma {:induction false} ParametersSound(u: Unit, known: set<CodeEntity>, owner: CodeEntity, parameters: seq<Slot>)
    requires owner in known && CallScope(owner.kind)
    ensures Sound(u, known, ParameterParts(u, owner, parameters))
    decreases |parameters|
  {
    hide Sound, Digits;
    if parameters == [] {
      SoundNothing(u, known);
    } else {
      var n := |parameters| - 1;
      var before := ParameterParts(u, owner, parameters[..n]);
      ParametersSound(u, known, owner, parameters[..n]);
      SoundEmit(u, known + Elements(before.entities), ParameterEntity(u, owner, parameters[n], n), HasParameter, owner);
      SoundThen(u, known, before, Emit(u, ParameterEntity(u, owner, parameters[n], n), HasParameter, owner));
    }
  }

  lemma {:induction false} ImportsSound(u: Unit, known: set<CodeEntity>, scope: CodeEntity, names: seq<Name>,
                                        place: Place, level: nat, fromModule: Option<string>)
    requires scope in known && Scope(scope.kind)
    ensures Sound(u, known, ImportParts(u, scope, names, place, level, fromModule))
    decreases |names|
  {
    hide Sound, Digits, ImportedName;
    if names == [] {
      SoundNothing(u, known);
    } else {
      var n := |names| - 1;
      var before := ImportParts(u, scope, names[..n], place, level, fromModule);
      var imported := if fromModule.None? then names[n].name else ImportedName(level, fromModule.value, names[n].name);
      var e := ImportEntity(u, scope, place, imported, names[n].asname, level, n);
      ImportsSound(u, known, scope, names[..n], place, level, fromModule);
      ImportParented(u, scope, place, imported, names[n].asname, level, n);
      SoundEmit(u, known + Elements(before.entities), e, Imports, scope);
      SoundThen(u, known, before, Emit(u, e, Imports, scope));
    }
  }

  lemma ImportParented(u: Unit, scope: CodeEntity, place: Place, imported: string, alias: Option<string>, level: nat,
                       n: nat)
    requires Scope(scope.kind)
    ensures var e := ImportEntity(u, scope, place, imported, alias, level, n);
            Parented(u, e, Edge(u, Imports, scope, e, e.startLine), scope)
  {
    hide Digits;
    var e := ImportEntity(u, scope, place, imported, alias, level, n);
    assert e.qualifiedName[..|scope.qualifiedName| + 1] == scope.qualifiedName + ".";
  }

  lemma DocSound(u: Unit, known: set<CodeEntity>, owner: CodeEntity, doc: Option<Text>)
    requires owner in known && Scope(owner.kind) && DocPart(u, owner, doc).Some?
    ensures Sound(u, known, DocPart(u, owner, doc).value)
  {
    hide Sound;
    if doc.None? {
      SoundNothing(u, known);
    } else {
      var e := Entity(u, Docstring, "__doc__", owner.qualifiedName + ".__doc__", doc.value.place,
                      Opaque(doc.value.text));
      assert e.qualifiedName[..|owner.qualifiedName| + 1] == owner.qualifiedName + ".";
      SoundEmit(u, known, e, DocumentedBy, owner);
    }
  }

  lemma {:induction false} BasesSound(u: Unit, known: set<CodeEntity>, owner: CodeEntity, bases: seq<Text>)
    requires owner in known && owner.kind == Class
    ensures Sound(u, known, Output([], BaseEdges(u, owner, bases)))
    decreases |bases|
  {
    if bases == [] {
      SoundNothing(u, known);
    } else {
      var init, last := bases[..|bases| - 1], bases[|bases| - 1];
      BasesSound(u, known, owner, init);
      var r := OpenEdge(u, InheritsFrom, owner, Class, last.text, last.place.line);
      OpenSound(u, known, owner, r);
      assert Elements([]) == {};
      assert known + {} == known;
      hide Sound;
      SoundThen(u, known, Output([], BaseEdges(u, owner, init)), Output([], [r]));
      assert Then(Output([], BaseEdges(u, owner, init)), Output([], [r])) == Output([], BaseEdges(u, owner, bases));
    }
  }

  lemma OpenSound(u: Unit, known: set<CodeEntity>, source: CodeEntity, r: CodeRelationship)
    requires source in known && Reference(u, r, source)
    ensures Sound(u, known, Output([], [r]))
  {
    var out := Output([], [r]);
    assert [r][..0] == [];
    assert StructuralEdges([r]) == [];
    assert Known(known, out.entities, 0, source);
  }

  lemma CallSound(u: Unit, known: set<CodeEntity>, scope: CodeEntity, name: string, place: Place)
    requires scope in known
    ensures Sound(u, known, CallPart(u, scope, name, place))
  {
    if CallScope(scope.kind) {
      OpenSound(u, known, scope, OpenEdge(u, Calls, scope, Function, name, place.line));
    } else {
      SoundNothing(u, known);
    }
  }

  lemma HeadSound(u: Unit, known: set<CodeEntity>, scope: CodeEntity, node: Node)
    requires scope in known && Scope(scope.kind) && (node.ClassDef? || node.FunctionDef?)
    requires Head(u, scope, node).1.Some?
    ensures Sound(u, known, Head(u, scope, node).1.value)
    ensures Head(u, scope, node).0 in Head(u, scope, node).1.value.entities && Scope(Head(u, scope, node).0.kind)
  {
    hide Sound, DocPart, DecoratorParts, ParameterParts, BaseEdges, AllParameters;
    var (e, out) := Head(u, scope, node);
    var emitted := Emit(u, e, Contains, scope);
    var bases := Output([], if node.ClassDef? then BaseEdges(u, e, node.bases) else []);
    var decorators := DecoratorParts(u, e, node.decorators);
    var parameters := if node.FunctionDef? then ParameterParts(u, e, AllParameters(node.parameters)) else NOTHING;
    var doc := DocPart(u, e, node.doc).value;
    DefinitionParented(u, scope, node);
    SoundEmit(u, known, e, Contains, scope);
    var own, parts := Then(emitted, bases), Then(decorators, parameters);
    assert own.entities == [e];
    if node.ClassDef? {
      BasesSound(u, known + Elements([e]), e, node.bases);
    } else {
      SoundNothing(u, known + Elements([e]));
    }
    SoundThen(u, known, emitted, bases);
    PartsSound(u, known + Elements(own.entities), e, node, parts);
    SoundThen(u, known, own, parts);
    assert Then(own, parts).entities[0] == e;
    DocSound(u, known + Elements(Then(own, parts).entities), e, node.doc);
    SoundThen(u, known, Then(own, parts), doc);
  }

  lemma PartsSound(u: Unit, known: set<CodeEntity>, e: CodeEntity, node: Node, parts: Output)
    requires e in known && (node.ClassDef? || node.FunctionDef?)
    requires e.kind in {Class, Function, Method} && (node.FunctionDef? ==> CallScope(e.kind))
    requires parts == Then(DecoratorParts(u, e, node.decorators),
                           if node.FunctionDef? then ParameterParts(u, e, AllParameters(node.parameters)) else NOTHING)
    ensures Sound(u, known, parts)
  {
    hide Sound, DecoratorParts, ParameterParts;
    var decorators := DecoratorParts(u, e, node.decorators);
    DecoratorsSound(u, known, e, node.decorators);
    if node.FunctionDef? {
      ParametersSound(u, known + Elements(decorators.entities), e, AllParameters(node.parameters));
      SoundThen(u, known, decorators, ParameterParts(u, e, AllParameters(node.parameters)));
    } else {
      SoundNothing(u, known + Elements(decorators.entities));
      SoundThen(u, known, decorators, NOTHING);
    }
  }

  lemma DefinitionParented(u: Unit, scope: CodeEntity, node: Node)
    requires Scope(scope.kind) && (node.ClassDef? || node.FunctionDef?)
    ensures var e := Head(u, scope, node).0;
            Parented(u, e, Edge(u, Contains, scope, e, e.startLine), scope) && Scope(e.kind)
            && (node.ClassDef? ==> e.kind == Class) && (node.FunctionDef? ==> CallScope(e.kind))
  {
    hide DocPart, DecoratorParts, ParameterParts, BaseEdges;
    var e := Head(u, scope, node).0;
    if scope.qualifiedName != "" {
      assert e.qualifiedName[..|scope.qualifiedName| + 1] == scope.qualifiedName + ".";
    }
  }

  lemma ExtractSound(u: Unit, known: set<CodeEntity>, scope: CodeEntity, node: Node)
    requires scope in known && Scope(scope.kind) && Extract(u, scope, node).Some?
    ensures Sound(u, known, Extract(u, scope, node).value)
    decreases node
  {
    hide Sound, Head, ImportParts, CallPart;
    match node
    case ClassDef(_, _, _, _, _, body) => DefinitionSound(u, known, scope, node);
    case FunctionDef(_, _, _, _, _, body) => DefinitionSound(u, known, scope, node);
    case Import(names, place) => ImportsSound(u, known, scope, names, place, 0, None);
    case ImportFrom(fromModule, names, level, place) =>
      ImportsSound(u, known, scope, names, place, level, Some(if fromModule.Some? then fromModule.value else ""));
    case Call(name, place, below) =>
      CallSound(u, known, scope, name, place);
      ExtractAllSound(u, known + Elements(CallPart(u, scope, name, place).entities), scope, below);
      SoundThen(u, known, CallPart(u, scope, name, place), ExtractAll(u, scope, below).value);
    case Other(below) => ExtractAllSound(u, known, scope, below);
  }

  lemma DefinitionSound(u: Unit, known: set<CodeEntity>, scope: CodeEntity, node: Node)
    requires scope in known && Scope(scope.kind) && (node.ClassDef? || node.FunctionDef?)
             && Extract(u, scope, node).Some?
    ensures Sound(u, known, Extract(u, scope, node).value)
    decreases node, 0
  {
    hide Sound, Head;
    var (e, head) := Head(u, scope, node);
    HeadSound(u, known, scope, node);
    ExtractAllSound(u, known + Elements(head.value.entities), e, node.body);
    SoundThen(u, known, head.value, ExtractAll(u, e, node.body).value);
  }

  lemma ExtractAllSound(u: Unit, known: set<CodeEntity>, scope: CodeEntity, nodes: seq<Node>)
    requires scope in known && Scope(scope.kind) && ExtractAll(u, scope, nodes).Some?
    ensures Sound(u, known, ExtractAll(u, scope, nodes).value)
    decreases nodes
  {
    hide Sound, Extract;
    if nodes == [] {
      SoundNothing(u, known);
    } else {
      var init, last := nodes[..|nodes| - 1], nodes[|nodes| - 1];
      ExtractAllSound(u, known, scope, init);
      var before := ExtractAll(u, scope, init).value;
      ExtractSound(u, known + Elements(before.entities), scope, last);
      SoundThen(u, known, before, Extract(u, scope, last).value);
    }
  }

  // ---------------------------------------------------------------- the file

  /** The parsed file is a tree under its file entity: every other entity has exactly one incoming
      structural edge, the structural edges come in the order of the entities, each from an entity
      emitted earlier, so there is one fewer of them than entities; a function is a method exactly
      when the scope that holds it is a class, and qualified names extend their parent's. */
  lemma ExtractionIsATree(u: Unit, source: Source)
    requires source.Parsable? && ParsedSource(u, source).Some?
    ensures var f := ParsedSource(u, source).value;
            var edges := StructuralEdges(f.relationships);
            && |edges| == |f.entities| - 1
            && f.entities[0] == FileEntity(u, source.lines)
            && (forall k :: 1 <= k < |f.entities| ==>
                  exists j :: 0 <= j < k && Parented(u, f.entities[k], edges[k - 1], f.entities[j]))
            && (forall r :: r in f.relationships && !Structural(r.kind) ==>
                  exists p :: p in f.entities && Reference(u, r, p))
  {
    hide Extract, ExtractAll, Parented, Reference, StructuralEdges, DocPart, Emit;
    var file, top := FileEntity(u, source.lines), ModuleEntity(u, source.lines);
    var f := ParsedSource(u, source).value;
    var out := WithoutFile(u, source);
    var edges := StructuralEdges(f.relationships);
    forall k | 1 <= k < |f.entities|
      ensures exists j :: 0 <= j < k && Parented(u, f.entities[k], edges[k - 1], f.entities[j])
    {
      assert Hung(u, {file}, out.entities, edges, k - 1);
      var p :| Known({file}, out.entities, k - 1, p) && Parented(u, out.entities[k - 1], edges[k - 1], p);
      assert f.entities[..k] == [file] + out.entities[..k - 1];
      assert p in f.entities[..k];
    }
    forall r | r in f.relationships && !Structural(r.kind)
      ensures exists p :: p in f.entities && Reference(u, r, p)
    {
      var p :| Known({file}, out.entities, |out.entities|, p) && Reference(u, r, p);
      assert p in f.entities;
    }
  }

  /** All that parse() emits after the file entity. */
  ghost function BelowFile(u: Unit, source: Source): Output
    requires source.Parsable? && ParsedSource(u, source).Some?
  {
    var file, top := FileEntity(u, source.lines), ModuleEntity(u, source.lines);
    Then(Then(Emit(u, top, Contains, file), DocPart(u, top, source.doc).value), ExtractAll(u, top, source.body).value)
  }

  lemma WithoutFile(u: Unit, source: Source) returns (out: Output)
    requires source.Parsable? && ParsedSource(u, source).Some?
    ensures var f := ParsedSource(u, source).value;
            f.entities == [FileEntity(u, source.lines)] + out.entities && f.relationships == out.relationships
    ensures Sound(u, {FileEntity(u, source.lines)}, out)
  {
    out := BelowFile(u, source);
    BelowFileSound(u, source);
    FileShape(u, source);
  }

  lemma FileShape(u: Unit, source: Source)
    requires source.Parsable? && ParsedSource(u, source).Some?
    ensures var f := ParsedSource(u, source).value;
            f.entities == [FileEntity(u, source.lines)] + BelowFile(u, source).entities
            && f.relationships == BelowFile(u, source).relationships
  {
    hide ExtractAll, DocPart, FileEntity, ModuleEntity, Edge;
  }

  lemma BelowFileSound(u: Unit, source: Source)
    requires source.Parsable? && ParsedSource(u, source).Some?
    ensures Sound(u, {FileEntity(u, source.lines)}, BelowFile(u, source))
  {
    hide ExtractAll, Sound, DocPart, Parented, FileEntity, Edge;
    var file, top := FileEntity(u, source.lines), ModuleEntity(u, source.lines);
    var emitted, doc, body := Emit(u, top, Contains, file), DocPart(u, top, source.doc).value,
                              ExtractAll(u, top, source.body).value;
    TopParented(u, source);
    SoundEmit(u, {file}, top, Contains, file);
    assert top in Elements(emitted.entities);
    DocSound(u, {file} + Elements(emitted.entities), top, source.doc);
    SoundThen(u, {file}, emitted, doc);
    assert Then(emitted, doc).entities[0] == top;
    ExtractAllSound(u, {file} + Elements(Then(emitted, doc).entities), top, source.body);
    SoundThen(u, {file}, Then(emitted, doc), body);
  }

  lemma TopParented(u: Unit, source: Source)
    requires source.Parsable?
    ensures var file, top := FileEntity(u, source.lines), ModuleEntity(u, source.lines);
            Parented(u, top, Edge(u, Contains, file, top, top.startLine), file)
  {
    hide LastPart;
  }

  // ---------------------------------------------------------------- when parsing raises

  predicate BlankDoc(doc: Option<Text>) {
    doc.Some? && Blank(doc.value.text)
  }

  predicate HasBlank(node: Node)
    decreases node
  {
    match node
    case ClassDef(_, _, _, _, doc, body) => BlankDoc(doc) || exists i :: 0 <= i < |body| && HasBlank(body[i])
    case FunctionDef(_, _, _, _, doc, body) => BlankDoc(doc) || exists i :: 0 <= i < |body| && HasBlank(body[i])
    case Call(_, _, below) => exists i :: 0 <= i < |below| && HasBlank(below[i])
    case Other(below) => exists i :: 0 <= i < |below| && HasBlank(below[i])
    case _ => false
  }

  lemma ExtractRaises(u: Unit, scope: CodeEntity, node: Node)
    ensures Extract(u, scope, node).None? <==> HasBlank(node)
    decreases node
  {
    hide ImportParts, DecoratorParts, ParameterParts, BaseEdges, Blank, Entity, Then;
    match node
    case ClassDef(_, _, _, _, _, body) => ExtractAllRaises(u, Head(u, scope, node).0, body);
    case FunctionDef(_, _, _, _, _, body) => ExtractAllRaises(u, Head(u, scope, node).0, body);
    case Call(_, _, below) => ExtractAllRaises(u, scope, below);
    case Other(below) => ExtractAllRaises(u, scope, below);
    case _ =>
  }

  lemma ExtractAllRaises(u: Unit, scope: CodeEntity, nodes: seq<Node>)
    ensures ExtractAll(u, scope, nodes).None? <==> exists i :: 0 <= i < |nodes| && HasBlank(nodes[i])
    decreases nodes
  {
    hide Extract, HasBlank;
    if nodes != [] {
      var init := nodes[..|nodes| - 1];
      ExtractAllRaises(u, scope, init);
      ExtractRaises(u, scope, nodes[|nodes| - 1]);
      if i :| 0 <= i < |init| && HasBlank(init[i]) {
        assert HasBlank(nodes[i]);
      }
      if i :| 0 <= i < |nodes| && HasBlank(nodes[i]) {
        assert i < |init| ==> HasBlank(init[i]);
      }
    }
  }

  /** Source that Python accepts is parsed without an exception if and only if no docstring of its
      module, classes or functions is blank; a blank one has no first line to summarize. */
  lemma ParseRaisesExactly(u: Unit, source: Source)
    ensures ParsedSource(u, source).None? <==>
              source.Parsable? && (BlankDoc(source.doc)
                                   || exists i :: 0 <= i < |source.body| && HasBlank(source.body[i]))
  {
    hide Extract, ExtractAll, Blank, Entity, Then;
    if source.Parsable? {
      ExtractAllRaises(u, ModuleEntity(u, source.lines), source.body);
    }
  }

  /** A function whose docstring is the empty string stops the parse. */
  lemma EmptyDocstringRaises(u: Unit, place: Place)
    ensures ParsedSource(u, Source.Parsable(None, [FunctionDef("f", place, [], NO_ARGUMENTS,
                                                               Some(Text("", place)), [])], 2)).None?
  {
    var node := FunctionDef("f", place, [], NO_ARGUMENTS, Some(Text("", place)), []);
    var source := Source.Parsable(None, [node], 2);
    assert HasBlank(node);
    assert source.body[0] == node;
    ParseRaisesExactly(u, source);
  }

  // ---------------------------------------------------------------- what the indexer relies on

  /** The analyzer the indexer uses, for a way to read a content hash's source. */
  function AnalyzerOf(read: string -> Source, moduleName: string -> string,
                      text: (string, CodeEntity) -> string): Analyzer {
    Analyzer((repository: string, path: string, hash: string) =>
               var f := ParsedSource(Unit(repository, path, moduleName(path), hash), read(hash));
               if f.Some? && !f.value.fatal then Some(f.value.entities) else None,
             text)
  }

  /** Every entity the parser emits is identified by its file, kind and name and carries the
      file's path and hash, which is what the indexer's results assume of an analyzer. */
  lemma ParserIsAValidAnalyzer(read: string -> Source, moduleName: string -> string,
                               text: (string, CodeEntity) -> string)
    ensures ValidAnalyzer(AnalyzerOf(read, moduleName, text))
  {
    var a := AnalyzerOf(read, moduleName, text);
    forall repository, path, hash, e | e in Entities(a, repository, path, hash)
      ensures EntityOfFile(e, repository, path, hash)
    {
      hide ParsedSource;
      EntitiesOfFile(Unit(repository, path, moduleName(path), hash), read(hash), e);
    }
  }

  lemma EntitiesOfFile(u: Unit, source: Source, e: CodeEntity)
    requires ParsedSource(u, source).Some? && e in ParsedSource(u, source).value.entities
    ensures EntityOfFile(e, u.repository, u.path, u.hash)
  {
    hide ExtractAll, StructuralEdges, DocPart, Reference, Holds;
    if source.Parsable? {
      var f := ParsedSource(u, source).value;
      ExtractionIsATree(u, source);
      var k :| 0 <= k < |f.entities| && f.entities[k] == e;
      if k > 0 {
        var j :| 0 <= j < k && Parented(u, f.entities[k], StructuralEdges(f.relationships)[k - 1], f.entities[j]);
      }
    }
  }

  // ---------------------------------------------------------------- relative imports of a module

  /** A from-import at the top of a module, parsed and then resolved: the name looked up is the
      one section 5.7 of The Python Language Reference gives, if the module's own name does not
      contain the marker of import entities. */
  lemma ModuleImportsResolve(u: Unit, lines: nat, place: Place, parts: seq<string>, level: nat, fromModule: seq<string>,
                             name: string, alias: Option<string>, position: nat)
    requires Dotted(parts) && u.moduleName == Join(parts)
    requires var package := if FileName(u.path) == "__init__.py" then parts else parts[..|parts| - 1];
             package != [] && 0 < level <= |package|
    requires fromModule == [] || Dotted(fromModule)
    requires Identifier(name) || name == "*"
    requires StartsAfter(u.moduleName, ".__import__.", Digits(place.line) + "." + Digits(position))
    ensures var package := if FileName(u.path) == "__init__.py" then parts else parts[..|parts| - 1];
            var e := ImportEntity(u, ModuleEntity(u, lines), place, ImportedName(level, Join(fromModule), name),
                                  alias, level, position);
            AbsoluteImport(e.metadata.importedName, PackageOf(ModuleOfImport(e), e.filePath))
            == Join(Absolute(package, level, fromModule, name))
  {
    hide Join, AbsoluteImport, ImportedName, Before, FileName, Digits, LastPart, Parent;
    var package := if FileName(u.path) == "__init__.py" then parts else parts[..|parts| - 1];
    var rest := Digits(place.line) + "." + Digits(position);
    var e := ImportEntity(u, ModuleEntity(u, lines), place, ImportedName(level, Join(fromModule), name),
                          alias, level, position);
    assert e.qualifiedName == u.moduleName + ".__import__." + rest;
    BeforeExactly(u.moduleName, ".__import__.", rest);
    forall i | 0 <= i < |parts|
      ensures '.' !in parts[i]
    {
      assert Identifier(parts[i]);
    }
    ParentOf(parts);
    assert Before(e.qualifiedName, ".__import__.") == u.moduleName;
    assert PackageOf(ModuleOfImport(e), e.filePath) == Join(package);
    assert e.metadata.importedName == ImportedName(level, Join(fromModule), name);
    RelativeImportRoundTrip(package, level, fromModule, name);
  }
}

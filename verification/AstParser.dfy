/** Extraction of entities and relationships from a syntax tree. */
module PythonAstParsers {
  import opened Contracts
  import opened DottedNames

  // ---------------------------------------------------------------- the tree, as far as it is read

  datatype Place = Place(line: nat, endLine: nat)

  datatype Text = Text(text: string, place: Place)

  datatype Argument = Argument(name: string, place: Place, annotation: Option<string>)

  datatype Arguments =
    Arguments(posonly: seq<Argument>, args: seq<Argument>, vararg: Option<Argument>, kwonly: seq<Argument>,
              kwDefaults: seq<Option<string>>, kwarg: Option<Argument>, defaults: seq<string>)

  const NO_ARGUMENTS := Arguments([], [], None, [], [], None, [])

  /** As the parser yields them: at most one default for each positional parameter, and exactly
      one entry for each keyword-only one. */
  type Parameters = p: Arguments | |p.defaults| <= |p.posonly + p.args| && |p.kwDefaults| == |p.kwonly|
    witness NO_ARGUMENTS

  datatype Name = Name(name: string, asname: Option<string>)

  /** Definitions and imports are visited by their own methods, a call is recorded and then
      searched, every other node is only searched for the nodes below it. */
  datatype Node =
    | ClassDef(name: string, place: Place, bases: seq<Text>, decorators: seq<Text>, doc: Option<Text>, body: seq<Node>)
    | FunctionDef(name: string, place: Place, decorators: seq<Text>, parameters: Parameters, doc: Option<Text>,
                  body: seq<Node>)
    | Import(names: seq<Name>, place: Place)
    | ImportFrom(fromModule: Option<string>, names: seq<Name>, level: nat, place: Place)
    | Call(target: string, place: Place, below: seq<Node>)
    | Other(below: seq<Node>)

  /** A file that does not parse, or its module. */
  datatype Source = Unparsable | Parsable(doc: Option<Text>, body: seq<Node>, lines: nat)

  datatype Unit = Unit(repository: string, path: string, moduleName: string, hash: string)

  // ---------------------------------------------------------------- what is emitted

  datatype Output = Output(entities: seq<CodeEntity>, relationships: seq<CodeRelationship>)

  function Then(first: Output, more: Output): Output {
    Output(first.entities + more.entities, first.relationships + more.relationships)
  }

  lemma ThenAssociates(a: Output, b: Output, c: Output)
    ensures Then(Then(a, b), c) == Then(a, Then(b, c))
  {
  }

  lemma ThenNothing(a: Output)
    ensures Then(a, NOTHING) == a && Then(NOTHING, a) == a
  {
  }

  const NOTHING := Output([], [])

  function Entity(u: Unit, kind: EntityKind, name: string, qualifiedName: string, place: Place,
                  metadata: Metadata): CodeEntity {
    CodeEntity(EntityNode(u.repository, u.path, kind, qualifiedName), kind, name, qualifiedName, u.path,
               place.line, place.endLine, u.hash, metadata)
  }

  function Edge(u: Unit, kind: RelationshipKind, source: CodeEntity, target: CodeEntity, line: nat): CodeRelationship {
    CodeRelationship(kind, source.id, target.id, target.qualifiedName, true, u.path, line, Unmarked)
  }

  /** An edge to a name: its target is a symbol of the repository. */
  function OpenEdge(u: Unit, kind: RelationshipKind, source: CodeEntity, symbol: EntityKind, name: string,
                    line: nat): CodeRelationship {
    CodeRelationship(kind, source.id, SymbolNode(u.repository, symbol, name), name, false, u.path, line, Unmarked)
  }

  function Emit(u: Unit, e: CodeEntity, kind: RelationshipKind, source: CodeEntity): Output {
    Output([e], [Edge(u, kind, source, e, e.startLine)])
  }

  function Qualified(scope: CodeEntity, name: string): string {
    if scope.qualifiedName == "" then name else scope.qualifiedName + "." + name
  }

  function Digits(n: nat): string
    decreases n
  {
    if n < 10 then [('0' as int + n) as char] else Digits(n / 10) + [('0' as int + n % 10) as char]
  }

  predicate Space(c: char) {
    var n := c as int;
    || 9 <= n <= 13 || 28 <= n <= 32 || n == 0x85 || n == 0xA0 || n == 0x1680 || 0x2000 <= n <= 0x200A
    || n == 0x2028 || n == 0x2029 || n == 0x202F || n == 0x205F || n == 0x3000
  }

  /** Nothing is left of it after strip(), so it has no first line. */
  predicate Blank(s: string) {
    forall i :: 0 <= i < |s| ==> Space(s[i])
  }

  /** _add_docstring; the summary of a blank docstring is an IndexError (None). */
  function DocPart(u: Unit, owner: CodeEntity, doc: Option<Text>): Option<Output> {
    match doc
    case None => Some(NOTHING)
    case Some(d) =>
      if Blank(d.text) then None
      else Some(Emit(u, Entity(u, Docstring, "__doc__", owner.qualifiedName + ".__doc__", d.place, Opaque(d.text)),
                     DocumentedBy, owner))
  }

  function DecoratorEntity(u: Unit, owner: CodeEntity, d: Text, position: nat): CodeEntity {
    Entity(u, Decorator, d.text, owner.qualifiedName + ".__decorator__." + Digits(position), d.place, Opaque(d.text))
  }

  function DecoratorParts(u: Unit, owner: CodeEntity, decorators: seq<Text>): Output {
    if decorators == [] then NOTHING
    else
      var n := |decorators| - 1;
      Then(DecoratorParts(u, owner, decorators[..n]),
           Emit(u, DecoratorEntity(u, owner, decorators[n], n), DecoratedBy, owner))
  }

  /** A parameter with its kind and its default. */
  datatype Slot = Slot(argument: Argument, kind: ParameterKind, default: Option<string>)

  /** The default of a positional parameter: defaults are given for the last ones. */
  function DefaultAt(p: Parameters, i: nat): Option<string>
    requires i < |p.posonly + p.args|
  {
    var without := |p.posonly + p.args| - |p.defaults|;
    if i < without then None else Some(p.defaults[i - without])
  }

  function Starred(argument: Option<Argument>, kind: ParameterKind): seq<Slot> {
    if argument.Some? then [Slot(argument.value, kind, None)] else []
  }

  function AllParameters(p: Parameters): seq<Slot> {
    seq(|p.posonly + p.args|, i requires 0 <= i < |p.posonly + p.args| =>
          Slot((p.posonly + p.args)[i], Positional, DefaultAt(p, i)))
    + Starred(p.vararg, VarPositional)
    + seq(|p.kwonly|, i requires 0 <= i < |p.kwonly| => Slot(p.kwonly[i], KeywordOnly, p.kwDefaults[i]))
    + Starred(p.kwarg, VarKeyword)
  }

  function ParameterEntity(u: Unit, owner: CodeEntity, p: Slot, position: nat): CodeEntity {
    Entity(u, Parameter, p.argument.name, owner.qualifiedName + "." + p.argument.name, p.argument.place,
           ParameterMetadata(position, p.kind, p.argument.annotation, p.default))
  }

  function ParameterParts(u: Unit, owner: CodeEntity, parameters: seq<Slot>): Output {
    if parameters == [] then NOTHING
    else
      var n := |parameters| - 1;
      Then(ParameterParts(u, owner, parameters[..n]),
           Emit(u, ParameterEntity(u, owner, parameters[n], n), HasParameter, owner))
  }

  function BaseEdges(u: Unit, owner: CodeEntity, bases: seq<Text>): seq<CodeRelationship> {
    if bases == [] then []
    else
      var last := bases[|bases| - 1];
      BaseEdges(u, owner, bases[..|bases| - 1]) + [OpenEdge(u, InheritsFrom, owner, Class, last.text, last.place.line)]
  }

  function ImportEntity(u: Unit, scope: CodeEntity, place: Place, imported: string, alias: Option<string>, level: nat,
                        position: nat): CodeEntity {
    Entity(u, EntityKind.Import, imported,
           scope.qualifiedName + ".__import__." + Digits(place.line) + "." + Digits(position), place,
           ImportMetadata(imported, alias, level))
  }

  function ImportParts(u: Unit, scope: CodeEntity, names: seq<Name>, place: Place, level: nat,
                       fromModule: Option<string>): Output {
    if names == [] then NOTHING
    else
      var n := |names| - 1;
      var imported := if fromModule.None? then names[n].name else ImportedName(level, fromModule.value, names[n].name);
      Then(ImportParts(u, scope, names[..n], place, level, fromModule),
           Emit(u, ImportEntity(u, scope, place, imported, names[n].asname, level, n), Imports, scope))
  }

  predicate CallScope(kind: EntityKind) {
    kind == Function || kind == Method
  }

  /** Calls are recorded inside functions and methods only. */
  function CallPart(u: Unit, scope: CodeEntity, name: string, place: Place): Output {
    Output([], if CallScope(scope.kind) then [OpenEdge(u, Calls, scope, Function, name, place.line)] else [])
  }

  /** Everything before the body of a definition. */
  function Head(u: Unit, scope: CodeEntity, node: Node): (CodeEntity, Option<Output>)
    requires node.ClassDef? || node.FunctionDef?
  {
    var kind := if node.ClassDef? then Class else if scope.kind == Class then Method else Function;
    var e := Entity(u, kind, node.name, Qualified(scope, node.name), node.place, NoMetadata);
    var doc := DocPart(u, e, node.doc);
    var own := Then(Emit(u, e, Contains, scope),
                    Output([], if node.ClassDef? then BaseEdges(u, e, node.bases) else []));
    var parts := Then(DecoratorParts(u, e, node.decorators),
                      if node.FunctionDef? then ParameterParts(u, e, AllParameters(node.parameters)) else NOTHING);
    (e, if doc.None? then None else Some(Then(Then(own, parts), doc.value)))
  }

  function Both(first: Option<Output>, second: Option<Output>): Option<Output> {
    if first.Some? && second.Some? then Some(Then(first.value, second.value)) else None
  }

  function Extract(u: Unit, scope: CodeEntity, node: Node): Option<Output>
    decreases node
  {
    match node
    case ClassDef(_, _, _, _, _, body) =>
      var (e, head) := Head(u, scope, node);
      Both(head, ExtractAll(u, e, body))
    case FunctionDef(_, _, _, _, _, body) =>
      var (e, head) := Head(u, scope, node);
      Both(head, ExtractAll(u, e, body))
    case Import(names, place) => Some(ImportParts(u, scope, names, place, 0, None))
    case ImportFrom(fromModule, names, level, place) =>
      Some(ImportParts(u, scope, names, place, level, Some(if fromModule.Some? then fromModule.value else "")))
    case Call(name, place, below) =>
      Both(Some(CallPart(u, scope, name, place)), ExtractAll(u, scope, below))
    case Other(below) => ExtractAll(u, scope, below)
  }

  function ExtractAll(u: Unit, scope: CodeEntity, nodes: seq<Node>): Option<Output>
    decreases nodes
  {
    if nodes == [] then Some(NOTHING)
    else Both(ExtractAll(u, scope, nodes[..|nodes| - 1]), Extract(u, scope, nodes[|nodes| - 1]))
  }

  function FileEntity(u: Unit, lines: nat): CodeEntity {
    Entity(u, File, u.path, u.path, Place(1, if lines == 0 then 1 else lines), NoMetadata)
  }

  function ModuleEntity(u: Unit, lines: nat): CodeEntity {
    Entity(u, EntityKind.Module, if u.moduleName == "" then u.path else LastPart(u.moduleName), u.moduleName,
           Place(1, if lines == 0 then 1 else lines), NoMetadata)
  }

  /** What parse() returns: a fatal file, nothing because it raised, or the whole extraction. */
  function ParsedSource(u: Unit, source: Source): Option<ParsedFile> {
    match source
    case Unparsable => Some(ParsedFile(u.repository, u.path, u.moduleName, u.hash, [], [], true))
    case Parsable(doc, body, lines) =>
      var top := Then(Output([FileEntity(u, lines)], []),
                      Emit(u, ModuleEntity(u, lines), Contains, FileEntity(u, lines)));
      var out := Both(Both(Some(top), DocPart(u, ModuleEntity(u, lines), doc)),
                      ExtractAll(u, ModuleEntity(u, lines), body));
      if out.None? then None
      else Some(ParsedFile(u.repository, u.path, u.moduleName, u.hash,
                           out.value.entities, out.value.relationships, false))
  }

  // ---------------------------------------------------------------- the visitor

  class PythonAstParser {
    const u: Unit
    var entities: seq<CodeEntity>
    var relationships: seq<CodeRelationship>
    var scopes: seq<CodeEntity>

    constructor (u: Unit)
      ensures this.u == u && Emitted() == NOTHING && scopes == []
    {
      this.u := u;
      entities, relationships, scopes := [], [], [];
    }

    function Emitted(): Output
      reads this
    {
      Output(entities, relationships)
    }

    method Add(e: CodeEntity, kind: RelationshipKind, source: CodeEntity)
      modifies this`entities, this`relationships
      ensures Emitted() == Then(old(Emitted()), Emit(u, e, kind, source))
    {
      entities := entities + [e];
      relationships := relationships + [Edge(u, kind, source, e, e.startLine)];
    }

    method AddDocstring(owner: CodeEntity, doc: Option<Text>) returns (ok: bool)
      modifies this`entities, this`relationships
      ensures ok <==> DocPart(u, owner, doc).Some?
      ensures ok ==> Emitted() == Then(old(Emitted()), DocPart(u, owner, doc).value)
    {
      ok := doc.None? || !Blank(doc.value.text);
      if ok && doc.Some? {
        Add(Entity(u, Docstring, "__doc__", owner.qualifiedName + ".__doc__", doc.value.place, Opaque(doc.value.text)),
            DocumentedBy, owner);
      }
    }

    method AddDecorators(owner: CodeEntity, decorators: seq<Text>)
      modifies this`entities, this`relationships
      ensures Emitted() == Then(old(Emitted()), DecoratorParts(u, owner, decorators))
    {
      for i := 0 to |decorators|
        invariant Emitted() == Then(old(Emitted()), DecoratorParts(u, owner, decorators[..i]))
      {
        assert decorators[..i + 1][..i] == decorators[..i];
        Add(DecoratorEntity(u, owner, decorators[i], i), DecoratedBy, owner);
      }
      assert decorators[..|decorators|] == decorators;
    }

    /** The parameters in signature order, defaults aligned with the last positional ones. */
    method Slots(arguments: Parameters) returns (parameters: seq<Slot>)
      ensures parameters == AllParameters(arguments)
    {
      var positional := arguments.posonly + arguments.args;
      var without: seq<Option<string>> := seq(|positional| - |arguments.defaults|, _ => None);
      var given := seq(|arguments.defaults|, i requires 0 <= i < |arguments.defaults| => Some(arguments.defaults[i]));
      var defaults := without + given;
      parameters := seq(|positional|, i requires 0 <= i < |positional| => Slot(positional[i], Positional, defaults[i]));
      if arguments.vararg.Some? {
        parameters := parameters + [Slot(arguments.vararg.value, VarPositional, None)];
      }
      parameters := parameters
        + seq(|arguments.kwonly|, i requires 0 <= i < |arguments.kwonly| =>
                Slot(arguments.kwonly[i], KeywordOnly, arguments.kwDefaults[i]));
      if arguments.kwarg.Some? {
        parameters := parameters + [Slot(arguments.kwarg.value, VarKeyword, None)];
      }
    }

    method AddParameters(owner: CodeEntity, arguments: Parameters)
      modifies this`entities, this`relationships
      ensures Emitted() == Then(old(Emitted()), ParameterParts(u, owner, AllParameters(arguments)))
    {
      hide AllParameters;
      var parameters := Slots(arguments);
      for i := 0 to |parameters|
        invariant Emitted() == Then(old(Emitted()), ParameterParts(u, owner, parameters[..i]))
      {
        assert parameters[..i + 1][..i] == parameters[..i];
        Add(ParameterEntity(u, owner, parameters[i], i), HasParameter, owner);
      }
      assert parameters[..|parameters|] == parameters;
    }

    method AddBases(owner: CodeEntity, bases: seq<Text>)
      modifies this`relationships
      ensures Emitted() == Then(old(Emitted()), Output([], BaseEdges(u, owner, bases)))
    {
      for i := 0 to |bases|
        invariant relationships == old(relationships) + BaseEdges(u, owner, bases[..i])
      {
        assert bases[..i + 1][..i] == bases[..i];
        relationships := relationships + [OpenEdge(u, InheritsFrom, owner, Class, bases[i].text, bases[i].place.line)];
      }
      assert bases[..|bases|] == bases;
    }

    method AddImports(names: seq<Name>, place: Place, level: nat, fromModule: Option<string>)
      requires scopes != []
      modifies this`entities, this`relationships
      ensures Emitted() == Then(old(Emitted()), ImportParts(u, scopes[|scopes| - 1], names, place, level, fromModule))
    {
      hide ImportedName, ImportEntity, Emit, Digits;
      var scope := scopes[|scopes| - 1];
      for i := 0 to |names|
        invariant Emitted() == Then(old(Emitted()), ImportParts(u, scope, names[..i], place, level, fromModule))
      {
        assert names[..i + 1][..i] == names[..i];
        var imported := if fromModule.None? then names[i].name
                        else ImportedName(level, fromModule.value, names[i].name);
        Add(ImportEntity(u, scope, place, imported, names[i].asname, level, i), Imports, scope);
      }
      assert names[..|names|] == names;
    }

    /** The head of a class or function definition, in the order the visitor emits it. */
    method AddHead(node: Node) returns (ok: bool, e: CodeEntity)
      requires scopes != [] && (node.ClassDef? || node.FunctionDef?)
      modifies this`entities, this`relationships
      ensures var (f, head) := Head(u, scopes[|scopes| - 1], node);
              e == f && (ok <==> head.Some?) && (ok ==> Emitted() == Then(old(Emitted()), head.value))
    {
      hide Then, DocPart, DecoratorParts, ParameterParts, BaseEdges, Emit, Entity, Qualified, AllParameters;
      var scope := scopes[|scopes| - 1];
      ghost var start := Emitted();
      var kind := if node.ClassDef? then Class else if scope.kind == Class then Method else Function;
      e := Entity(u, kind, node.name, Qualified(scope, node.name), node.place, NoMetadata);
      Add(e, Contains, scope);
      ghost var own := Emit(u, e, Contains, scope);
      if node.ClassDef? {
        AddBases(e, node.bases);
        ThenAssociates(start, own, Output([], BaseEdges(u, e, node.bases)));
        own := Then(own, Output([], BaseEdges(u, e, node.bases)));
      } else {
        ThenNothing(own);
      }
      assert own == Then(Emit(u, e, Contains, scope),
                         Output([], if node.ClassDef? then BaseEdges(u, e, node.bases) else []));
      assert Emitted() == Then(start, own);
      AddDecorators(e, node.decorators);
      ghost var parts := DecoratorParts(u, e, node.decorators);
      ThenAssociates(start, own, parts);
      if node.FunctionDef? {
        AddParameters(e, node.parameters);
        ghost var more := ParameterParts(u, e, AllParameters(node.parameters));
        ThenAssociates(start, Then(own, parts), more);
        ThenAssociates(own, parts, more);
        parts := Then(parts, more);
      } else {
        ThenNothing(parts);
      }
      assert Emitted() == Then(start, Then(own, parts));
      ok := AddDocstring(e, node.doc);
      if ok {
        ThenAssociates(start, Then(own, parts), DocPart(u, e, node.doc).value);
        ThenNothing(Then(start, Then(own, parts)));
      }
    }

    method AddCall(scope: CodeEntity, name: string, place: Place)
      modifies this`relationships
      ensures Emitted() == Then(old(Emitted()), CallPart(u, scope, name, place))
      ensures relationships == old(relationships)
        + if scope.kind == Function || scope.kind == Method
          then [CodeRelationship(Calls, scope.id, SymbolNode(u.repository, Function, name), name, false, u.path,
                                 place.line, Unmarked)]
          else []
    {
      if CallScope(scope.kind) {
        relationships := relationships + [OpenEdge(u, Calls, scope, Function, name, place.line)];
      }
    }

    /** Visiting appends the node's extraction and leaves the scopes as they were. */
    method Visit(node: Node) returns (ok: bool)
      requires scopes != []
      modifies this
      ensures scopes == old(scopes)
      ensures var out := Extract(u, old(scopes)[|old(scopes)| - 1], node);
              (ok <==> out.Some?) && (ok ==> Emitted() == Then(old(Emitted()), out.value))
      decreases node, 1
    {
      hide Then, Head, ImportParts, OpenEdge;
      var scope := scopes[|scopes| - 1];
      ghost var start := Emitted();
      match node {
        case ClassDef(_, _, _, _, _, body) =>
          ok := VisitDefinition(node, body);
        case FunctionDef(_, _, _, _, _, body) =>
          ok := VisitDefinition(node, body);
        case Import(names, place) =>
          AddImports(names, place, 0, None);
          ok := true;
        case ImportFrom(fromModule, names, level, place) =>
          AddImports(names, place, level, Some(if fromModule.Some? then fromModule.value else ""));
          ok := true;
        case Call(name, place, below) =>
          AddCall(scope, name, place);
          ok := VisitAll(below);
          if ok {
            ThenAssociates(start, CallPart(u, scope, name, place), ExtractAll(u, scope, below).value);
          }
        case Other(below) =>
          ok := VisitAll(below);
      }
    }

    method VisitDefinition(node: Node, body: seq<Node>) returns (ok: bool)
      requires scopes != []
      requires (node.ClassDef? && body == node.body) || (node.FunctionDef? && body == node.body)
      modifies this
      ensures scopes == old(scopes)
      ensures var out := Extract(u, old(scopes)[|old(scopes)| - 1], node);
              (ok <==> out.Some?) && (ok ==> Emitted() == Then(old(Emitted()), out.value))
      decreases node, 0
    {
      hide Then, Head;
      ghost var start, scope := Emitted(), scopes[|scopes| - 1];
      var e;
      ok, e := AddHead(node);
      if !ok { return; }
      ghost var head := Head(u, scope, node).1;
      scopes := scopes + [e];
      ok := VisitAll(body);
      if ok {
        ThenAssociates(start, head.value, ExtractAll(u, e, body).value);
      }
      scopes := scopes[..|scopes| - 1];
    }

    method VisitAll(nodes: seq<Node>) returns (ok: bool)
      requires scopes != []
      modifies this
      ensures scopes == old(scopes)
      ensures var out := ExtractAll(u, old(scopes)[|old(scopes)| - 1], nodes);
              (ok <==> out.Some?) && (ok ==> Emitted() == Then(old(Emitted()), out.value))
      decreases nodes
    {
      hide Then, Extract;
      var scope := scopes[|scopes| - 1];
      ghost var start := Emitted();
      ThenNothing(start);
      ok := true;
      for i := 0 to |nodes|
        invariant ok && scopes == old(scopes)
        invariant ExtractAll(u, scope, nodes[..i]).Some?
        invariant Emitted() == Then(old(Emitted()), ExtractAll(u, scope, nodes[..i]).value)
      {
        assert nodes[..i + 1][..i] == nodes[..i];
        ok := Visit(nodes[i]);
        if !ok {
          StaysNone(u, scope, nodes, i + 1);
          return;
        }
        ThenAssociates(start, ExtractAll(u, scope, nodes[..i]).value, Extract(u, scope, nodes[i]).value);
      }
      assert nodes[..|nodes|] == nodes;
    }

    /** parse(): None when a summary raises. */
    method Parse(source: Source) returns (f: Option<ParsedFile>)
      requires Emitted() == NOTHING && scopes == []
      modifies this
      ensures f == ParsedSource(u, source)
      ensures scopes == [] || f.None?
    {
      if source.Unparsable? {
        return Some(ParsedFile(u.repository, u.path, u.moduleName, u.hash, [], [], true));
      }
      var file, top := FileEntity(u, source.lines), ModuleEntity(u, source.lines);
      entities := [file];
      Add(top, Contains, file);
      scopes := [top];
      var ok := AddDocstring(top, source.doc);
      if !ok { return None; }
      ok := VisitAll(source.body);
      if !ok { return None; }
      scopes := [];
      f := Some(ParsedFile(u.repository, u.path, u.moduleName, u.hash, entities, relationships, false));
    }
  }

  lemma {:induction false} StaysNone(u: Unit, scope: CodeEntity, nodes: seq<Node>, n: nat)
    requires n <= |nodes| && ExtractAll(u, scope, nodes[..n]).None?
    ensures ExtractAll(u, scope, nodes).None?
    decreases |nodes|
  {
    if n == |nodes| {
      assert nodes[..n] == nodes;
    } else {
      assert nodes[..|nodes| - 1][..n] == nodes[..n];
      StaysNone(u, scope, nodes[..|nodes| - 1], n);
    }
  }
}

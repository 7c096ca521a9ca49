/** What the extraction of a file leaves out: nothing.  Every node of the tree, with the definitions
    around it, and what it stands for. */
module ExtractionCompleteness {
  import opened Contracts
  import opened DottedNames
  import opened GraphRepositories
  import opened PythonAstParsers

  // ---------------------------------------------------------------- the tree, node by node

  predicate Definition(node: Node) {
    node.ClassDef? || node.FunctionDef?
  }

  type Definitions = ds: seq<Node> | forall d :: d in ds ==> Definition(d)

  /** A node, and the definitions it is inside of, outermost first. */
  datatype Sighting = Sighting(node: Node, within: Definitions)

  /** Every node of a tree, before those below it. */
  function Sightings(node: Node, within: Definitions): seq<Sighting>
    decreases node
  {
    [Sighting(node, within)]
    + match node
      case ClassDef(_, _, _, _, _, body) => AllSightings(body, within + [node])
      case FunctionDef(_, _, _, _, _, body) => AllSightings(body, within + [node])
      case Call(_, _, below) => AllSightings(below, within)
      case Other(below) => AllSightings(below, within)
      case _ => []
  }

  function AllSightings(nodes: seq<Node>, within: Definitions): seq<Sighting>
    decreases nodes
  {
    if nodes == [] then []
    else AllSightings(nodes[..|nodes| - 1], within) + Sightings(nodes[|nodes| - 1], within)
  }

  /** A function directly inside a class is a method; nothing around it is the module. */
  function KindWithin(within: Definitions): EntityKind {
    if within == [] then EntityKind.Module
    else if within[|within| - 1].ClassDef? then Class
    else if |within| > 1 && within[|within| - 2].ClassDef? then Method
    else Function
  }

  /** The module's name and the definitions', joined by dots. */
  function NameWithin(u: Unit, within: Definitions): string {
    if within == [] then u.moduleName
    else
      var prefix, name := NameWithin(u, within[..|within| - 1]), within[|within| - 1].name;
      if prefix == "" then name else prefix + "." + name
  }

  function IdWithin(u: Unit, within: Definitions): NodeId {
    EntityNode(u.repository, u.path, KindWithin(within), NameWithin(u, within))
  }

  // ---------------------------------------------------------------- what a node stands for

  function Placed(u: Unit, kind: EntityKind, name: string, qualifiedName: string, place: Place,
                  metadata: Metadata): CodeEntity {
    CodeEntity(EntityNode(u.repository, u.path, kind, qualifiedName), kind, name, qualifiedName, u.path,
               place.line, place.endLine, u.hash, metadata)
  }

  /** The parameters by their place in the signature; the last default is the last positional
      parameter's, the one before it that of the parameter before, and so on. */
  function SlotAt(p: Parameters, i: nat): Slot
    requires i < SignatureLength(p)
  {
    var positional, stars := p.posonly + p.args, if p.vararg.Some? then 1 else 0;
    if i < |positional| then
      var fromEnd := |positional| - i;
      Slot(positional[i], Positional,
           if fromEnd <= |p.defaults| then Some(p.defaults[|p.defaults| - fromEnd]) else None)
    else if i < |positional| + stars then Slot(p.vararg.value, VarPositional, None)
    else if i < |positional| + stars + |p.kwonly| then
      var j := i - |positional| - stars;
      Slot(p.kwonly[j], KeywordOnly, p.kwDefaults[j])
    else Slot(p.kwarg.value, VarKeyword, None)
  }

  function SignatureLength(p: Parameters): nat {
    |p.posonly| + |p.args| + (if p.vararg.Some? then 1 else 0) + |p.kwonly| + if p.kwarg.Some? then 1 else 0
  }

  function DecoratorsOf(u: Unit, owner: string, decorators: seq<Text>): seq<CodeEntity> {
    seq(|decorators|, i requires 0 <= i < |decorators| =>
          Placed(u, Decorator, decorators[i].text, owner + ".__decorator__." + Digits(i), decorators[i].place,
                 Opaque(decorators[i].text)))
  }

  function ParametersOf(u: Unit, owner: string, p: Parameters): seq<CodeEntity> {
    seq(SignatureLength(p), i requires 0 <= i < SignatureLength(p) =>
          var slot := SlotAt(p, i);
          Placed(u, Parameter, slot.argument.name, owner + "." + slot.argument.name, slot.argument.place,
                 ParameterMetadata(i, slot.kind, slot.argument.annotation, slot.default)))
  }

  function DocstringOf(u: Unit, owner: string, doc: Option<Text>): seq<CodeEntity> {
    match doc
    case None => []
    case Some(d) => [Placed(u, Docstring, "__doc__", owner + ".__doc__", d.place, Opaque(d.text))]
  }

  /** One entity for each name; of a from-import dots for its level, its module and the name. */
  function ImportsOf(u: Unit, scope: string, node: Node): seq<CodeEntity>
    requires node.Import? || node.ImportFrom?
  {
    seq(|node.names|, i requires 0 <= i < |node.names| =>
          var level := if node.Import? then 0 else node.level;
          var imported := if node.Import? then node.names[i].name
                          else ImportedName(level, if node.fromModule.Some? then node.fromModule.value else "",
                                            node.names[i].name);
          Placed(u, EntityKind.Import, imported, scope + ".__import__." + Digits(node.place.line) + "." + Digits(i),
                 node.place, ImportMetadata(imported, node.names[i].asname, level)))
  }

  /** Every definition is one entity, every decorator, parameter, docstring and imported name
      another. */
  function EntitiesAt(u: Unit, k: EntityKind, node: Node, within: Definitions): seq<CodeEntity> {
    if Definition(node) then
      var owner := NameWithin(u, within + [node]);
      match k
      case Decorator => DecoratorsOf(u, owner, node.decorators)
      case Parameter => if node.FunctionDef? then ParametersOf(u, owner, node.parameters) else []
      case Docstring => DocstringOf(u, owner, node.doc)
      case _ =>
        if k == KindWithin(within + [node]) then [Placed(u, k, node.name, owner, node.place, NoMetadata)] else []
    else if (node.Import? || node.ImportFrom?) && k == EntityKind.Import then
      ImportsOf(u, NameWithin(u, within), node)
    else []
  }

  /** Each entity hangs below the one it belongs to. */
  function Hanging(u: Unit, kind: RelationshipKind, owner: NodeId, entities: seq<CodeEntity>): seq<CodeRelationship> {
    seq(|entities|, i requires 0 <= i < |entities| =>
          CodeRelationship(kind, owner, entities[i].id, entities[i].qualifiedName, true, u.path,
                           entities[i].startLine, Unmarked))
  }

  function BasesOf(u: Unit, owner: NodeId, bases: seq<Text>): seq<CodeRelationship> {
    seq(|bases|, i requires 0 <= i < |bases| =>
          CodeRelationship(InheritsFrom, owner, SymbolNode(u.repository, Class, bases[i].text), bases[i].text, false,
                           u.path, bases[i].place.line, Unmarked))
  }

  /** A call belongs to the nearest definition around it, if that is a function or a method. */
  function CallOf(u: Unit, node: Node, within: Definitions): seq<CodeRelationship>
    requires node.Call?
  {
    if within == [] || within[|within| - 1].ClassDef? then []
    else [CodeRelationship(Calls, IdWithin(u, within), SymbolNode(u.repository, Function, node.target), node.target,
                           false, u.path, node.place.line, Unmarked)]
  }

  function RowsAt(u: Unit, r: RelationshipKind, node: Node, within: Definitions): seq<CodeRelationship> {
    if Definition(node) then
      var inside := within + [node];
      var owner := IdWithin(u, inside);
      match r
      case Contains => Hanging(u, Contains, IdWithin(u, within), EntitiesAt(u, KindWithin(inside), node, within))
      case InheritsFrom => if node.ClassDef? then BasesOf(u, owner, node.bases) else []
      case DecoratedBy => Hanging(u, DecoratedBy, owner, EntitiesAt(u, Decorator, node, within))
      case HasParameter => Hanging(u, HasParameter, owner, EntitiesAt(u, Parameter, node, within))
      case DocumentedBy => Hanging(u, DocumentedBy, owner, EntitiesAt(u, Docstring, node, within))
      case _ => []
    else if node.Call? && r == Calls then CallOf(u, node, within)
    else if (node.Import? || node.ImportFrom?) && r == Imports then
      Hanging(u, Imports, IdWithin(u, within), EntitiesAt(u, EntityKind.Import, node, within))
    else []
  }

  function EachEntity(u: Unit, k: EntityKind, seen: seq<Sighting>): seq<CodeEntity>
  {
    if seen == [] then []
    else
      var last := seen[|seen| - 1];
      EachEntity(u, k, seen[..|seen| - 1]) + EntitiesAt(u, k, last.node, last.within)
  }

  function EachRow(u: Unit, r: RelationshipKind, seen: seq<Sighting>): seq<CodeRelationship>
  {
    if seen == [] then []
    else
      var last := seen[|seen| - 1];
      EachRow(u, r, seen[..|seen| - 1]) + RowsAt(u, r, last.node, last.within)
  }

  // ---------------------------------------------------------------- lists of one kind

  lemma {:induction false} SelectConcat<T, K>(first: seq<T>, second: seq<T>, key: T -> K, k: K)
    ensures Select(first + second, key, k) == Select(first, key, k) + Select(second, key, k)
    decreases |second|
  {
    if second == [] {
      assert first + second == first;
    } else {
      SelectConcat(first, second[..|second| - 1], key, k);
      assert (first + second)[..|first + second| - 1] == first + second[..|second| - 1];
    }
  }

  lemma {:induction false} SelectUniform<T, K>(items: seq<T>, key: T -> K, kind: K, k: K)
    requires forall i :: 0 <= i < |items| ==> key(items[i]) == kind
    ensures Select(items, key, k) == if kind == k then items else []
    decreases |items|
  {
    if items != [] {
      SelectUniform(items[..|items| - 1], key, kind, k);
      assert items == items[..|items| - 1] + [items[|items| - 1]];
    }
  }

  /** The entities and the rows of one kind each in an output. */
  ghost predicate Has(out: Output, k: EntityKind, r: RelationshipKind, entities: seq<CodeEntity>,
                      rows: seq<CodeRelationship>)
  {
    Select(out.entities, KindOf, k) == entities && Select(out.relationships, RelationshipKindOf, r) == rows
  }

  lemma HasThen(a: Output, b: Output, k: EntityKind, r: RelationshipKind, entities: seq<CodeEntity>,
                rows: seq<CodeRelationship>, more: seq<CodeEntity>, others: seq<CodeRelationship>)
    requires Has(a, k, r, entities, rows) && Has(b, k, r, more, others)
    ensures Has(Then(a, b), k, r, entities + more, rows + others)
  {
    SelectConcat(a.entities, b.entities, KindOf, k);
    SelectConcat(a.relationships, b.relationships, RelationshipKindOf, r);
  }

  function If<T>(c: bool, s: seq<T>): seq<T> {
    if c then s else []
  }

  /** An output all of one kind of entity, hung by one kind of row. */
  lemma HasUniform(u: Unit, out: Output, kind: EntityKind, row: RelationshipKind, owner: NodeId, k: EntityKind,
                   r: RelationshipKind)
    requires forall i :: 0 <= i < |out.entities| ==> out.entities[i].kind == kind
    requires out.relationships == Hanging(u, row, owner, out.entities)
    ensures Has(out, k, r, If(k == kind, out.entities), If(r == row, out.relationships))
  {
    SelectUniform(out.entities, KindOf, kind, k);
    SelectUniform(out.relationships, RelationshipKindOf, row, r);
  }

  lemma HasNothing(k: EntityKind, r: RelationshipKind)
    ensures Has(NOTHING, k, r, [], [])
  {
  }

  // ---------------------------------------------------------------- each part

  lemma EmitHangs(u: Unit, e: CodeEntity, row: RelationshipKind, source: CodeEntity)
    ensures Emit(u, e, row, source).relationships == Hanging(u, row, source.id, [e])
  {
  }

  lemma HangingSnoc(u: Unit, row: RelationshipKind, owner: NodeId, entities: seq<CodeEntity>, e: CodeEntity)
    ensures Hanging(u, row, owner, entities + [e])
            == Hanging(u, row, owner, entities) + Hanging(u, row, owner, [e])
  {
  }

  lemma {:induction false} DecoratorsListed(u: Unit, owner: CodeEntity, decorators: seq<Text>)
    ensures var out := DecoratorParts(u, owner, decorators);
            && out.entities == DecoratorsOf(u, owner.qualifiedName, decorators)
            && out.relationships == Hanging(u, DecoratedBy, owner.id, out.entities)
    decreases |decorators|
  {
    hide Digits;
    if decorators != [] {
      var n := |decorators| - 1;
      DecoratorsListed(u, owner, decorators[..n]);
      var e := DecoratorEntity(u, owner, decorators[n], n);
      EmitHangs(u, e, DecoratedBy, owner);
      HangingSnoc(u, DecoratedBy, owner.id, DecoratorParts(u, owner, decorators[..n]).entities, e);
    }
  }

  lemma {:induction false} ParametersListed(u: Unit, owner: CodeEntity, parameters: seq<Slot>)
    ensures var out := ParameterParts(u, owner, parameters);
            && |out.entities| == |parameters|
            && (forall i :: 0 <= i < |parameters| ==> out.entities[i] == ParameterEntity(u, owner, parameters[i], i))
            && out.relationships == Hanging(u, HasParameter, owner.id, out.entities)
    decreases |parameters|
  {
    if parameters != [] {
      var n := |parameters| - 1;
      ParametersListed(u, owner, parameters[..n]);
      var e := ParameterEntity(u, owner, parameters[n], n);
      EmitHangs(u, e, HasParameter, owner);
      HangingSnoc(u, HasParameter, owner.id, ParameterParts(u, owner, parameters[..n]).entities, e);
    }
  }

  lemma SlotsBySignature(p: Parameters)
    ensures |AllParameters(p)| == SignatureLength(p)
    ensures forall i :: 0 <= i < SignatureLength(p) ==> AllParameters(p)[i] == SlotAt(p, i)
  {
  }

  lemma SignatureListed(u: Unit, owner: CodeEntity, p: Parameters)
    ensures var out := ParameterParts(u, owner, AllParameters(p));
            && out.entities == ParametersOf(u, owner.qualifiedName, p)
            && out.relationships == Hanging(u, HasParameter, owner.id, out.entities)
  {
    hide AllParameters, SlotAt, SignatureLength, ParameterParts;
    ParametersListed(u, owner, AllParameters(p));
    SlotsBySignature(p);
  }

  lemma {:induction false} BasesListed(u: Unit, owner: CodeEntity, bases: seq<Text>)
    ensures BaseEdges(u, owner, bases) == BasesOf(u, owner.id, bases)
    decreases |bases|
  {
    if bases != [] {
      BasesListed(u, owner, bases[..|bases| - 1]);
    }
  }

  function ImportLevel(node: Node): nat
    requires node.Import? || node.ImportFrom?
  {
    if node.Import? then 0 else node.level
  }

  function ImportModule(node: Node): Option<string>
    requires node.Import? || node.ImportFrom?
  {
    if node.Import? then None else Some(if node.fromModule.Some? then node.fromModule.value else "")
  }

  lemma ImportsSnoc(u: Unit, scope: CodeEntity, node: Node, n: nat)
    requires (node.Import? || node.ImportFrom?) && n < |node.names|
    ensures ImportParts(u, scope, node.names[..n + 1], node.place, ImportLevel(node), ImportModule(node))
            == Then(ImportParts(u, scope, node.names[..n], node.place, ImportLevel(node), ImportModule(node)),
                    Emit(u, ImportsOf(u, scope.qualifiedName, node)[n], Imports, scope))
  {
    hide Digits, ImportedName, Emit, Then;
    assert node.names[..n + 1][..n] == node.names[..n];
  }

  lemma ImportsLength(u: Unit, scope: string, node: Node)
    requires node.Import? || node.ImportFrom?
    ensures |ImportsOf(u, scope, node)| == |node.names|
  {
  }

  lemma {:induction false} ImportsListed(u: Unit, scope: CodeEntity, node: Node, n: nat)
    requires (node.Import? || node.ImportFrom?) && n <= |node.names|
    ensures var out := ImportParts(u, scope, node.names[..n], node.place, ImportLevel(node), ImportModule(node));
            && out.entities == ImportsOf(u, scope.qualifiedName, node)[..n]
            && out.relationships == Hanging(u, Imports, scope.id, out.entities)
  {
    hide ImportParts, ImportsOf, Emit, Hanging;
    ImportsLength(u, scope.qualifiedName, node);
    if n == 0 {
      HangsNothing(u, Imports, scope.id);
      assert node.names[..0] == [];
      NoImports(u, scope, node.place, ImportLevel(node), ImportModule(node));
    } else {
      ImportsListed(u, scope, node, n - 1);
      ImportsSnoc(u, scope, node, n - 1);
      var e := ImportsOf(u, scope.qualifiedName, node)[n - 1];
      var before := ImportParts(u, scope, node.names[..n - 1], node.place, ImportLevel(node), ImportModule(node));
      EmitIsOne(u, e, Imports, scope);
      EmitHangs(u, e, Imports, scope);
      HangingSnoc(u, Imports, scope.id, before.entities, e);
      assert ImportsOf(u, scope.qualifiedName, node)[..n] == ImportsOf(u, scope.qualifiedName, node)[..n - 1] + [e];
    }
  }

  lemma NoImports(u: Unit, scope: CodeEntity, place: Place, level: nat, fromModule: Option<string>)
    ensures ImportParts(u, scope, [], place, level, fromModule) == NOTHING
  {
  }

  lemma EmitIsOne(u: Unit, e: CodeEntity, row: RelationshipKind, source: CodeEntity)
    ensures Emit(u, e, row, source).entities == [e]
  {
  }

  lemma DocListed(u: Unit, owner: CodeEntity, doc: Option<Text>)
    requires DocPart(u, owner, doc).Some?
    ensures var out := DocPart(u, owner, doc).value;
            && out.entities == DocstringOf(u, owner.qualifiedName, doc)
            && out.relationships == Hanging(u, DocumentedBy, owner.id, out.entities)
  {
    hide Blank;
  }

  /** An entity the visitor keeps as its scope is that of the innermost definition. */
  ghost predicate Stands(u: Unit, scope: CodeEntity, within: Definitions) {
    && scope.kind == KindWithin(within) && scope.qualifiedName == NameWithin(u, within)
    && scope.id == IdWithin(u, within)
  }

  lemma HeadStands(u: Unit, scope: CodeEntity, node: Node, within: Definitions)
    requires Definition(node) && Stands(u, scope, within)
    ensures var e := Head(u, scope, node).0;
            && Stands(u, e, within + [node])
            && e == Placed(u, KindWithin(within + [node]), node.name, NameWithin(u, within + [node]), node.place,
                           NoMetadata)
  {
    hide DocPart, DecoratorParts, ParameterParts, BaseEdges, AllParameters;
    assert (within + [node])[..|within|] == within;
  }

  lemma HeadComplete(u: Unit, scope: CodeEntity, node: Node, within: Definitions, k: EntityKind, r: RelationshipKind)
    requires Definition(node) && Stands(u, scope, within) && Head(u, scope, node).1.Some?
    ensures Has(Head(u, scope, node).1.value, k, r, EntitiesAt(u, k, node, within), RowsAt(u, r, node, within))
  {
    hide Has, DocPart, DecoratorParts, ParameterParts, BaseEdges, AllParameters, Emit, NameWithin;
    var (e, out) := Head(u, scope, node);
    HeadStands(u, scope, node, within);
    var bases := if node.ClassDef? then BasesOf(u, e.id, node.bases) else [];
    var decorators, doc := DecoratorParts(u, e, node.decorators), DocPart(u, e, node.doc).value;
    var parameters := if node.FunctionDef? then ParameterParts(u, e, AllParameters(node.parameters)) else NOTHING;
    OwnHas(u, scope, e, node, k, r);
    DecoratorsListed(u, e, node.decorators);
    HasUniform(u, decorators, Decorator, DecoratedBy, e.id, k, r);
    if node.FunctionDef? {
      SignatureListed(u, e, node.parameters);
    }
    HasUniform(u, parameters, Parameter, HasParameter, e.id, k, r);
    DocListed(u, e, node.doc);
    HasUniform(u, doc, Docstring, DocumentedBy, e.id, k, r);
    var own := Then(Emit(u, e, Contains, scope),
                    Output([], if node.ClassDef? then BaseEdges(u, e, node.bases) else []));
    HasThen(decorators, parameters, k, r, If(k == Decorator, decorators.entities),
            If(r == DecoratedBy, decorators.relationships), If(k == Parameter, parameters.entities),
            If(r == HasParameter, parameters.relationships));
    var parts := Then(decorators, parameters);
    HasThen(own, parts, k, r, If(k == e.kind, [e]),
            If(r == Contains, Hanging(u, Contains, scope.id, [e])) + If(r == InheritsFrom, bases),
            If(k == Decorator, decorators.entities) + If(k == Parameter, parameters.entities),
            If(r == DecoratedBy, decorators.relationships) + If(r == HasParameter, parameters.relationships));
    HasThen(Then(own, parts), doc, k, r,
            If(k == e.kind, [e]) + (If(k == Decorator, decorators.entities) + If(k == Parameter, parameters.entities)),
            (If(r == Contains, Hanging(u, Contains, scope.id, [e])) + If(r == InheritsFrom, bases))
            + (If(r == DecoratedBy, decorators.relationships) + If(r == HasParameter, parameters.relationships)),
            If(k == Docstring, doc.entities), If(r == DocumentedBy, doc.relationships));
    EntitiesAddUp(u, e, node, within, k);
    RowsAddUp(u, scope, e, node, within, r, bases);
    HasMeans(out.value, k, r);
  }

  /** What the parts of a definition's head add up to. */
  lemma EntitiesAddUp(u: Unit, e: CodeEntity, node: Node, within: Definitions, k: EntityKind)
    requires Definition(node)
    requires e == Placed(u, KindWithin(within + [node]), node.name, NameWithin(u, within + [node]), node.place,
                         NoMetadata)
    ensures var name := e.qualifiedName;
            var decorators, doc := DecoratorsOf(u, name, node.decorators), DocstringOf(u, name, node.doc);
            var parameters := if node.FunctionDef? then ParametersOf(u, name, node.parameters) else [];
            EntitiesAt(u, k, node, within)
            == If(k == e.kind, [e]) + (If(k == Decorator, decorators) + If(k == Parameter, parameters))
               + If(k == Docstring, doc)
  {
    hide NameWithin, DecoratorsOf, ParametersOf, DocstringOf;
  }

  lemma RowsAddUp(u: Unit, scope: CodeEntity, e: CodeEntity, node: Node, within: Definitions, r: RelationshipKind,
                  bases: seq<CodeRelationship>)
    requires Definition(node) && Stands(u, scope, within)
    requires e == Placed(u, KindWithin(within + [node]), node.name, NameWithin(u, within + [node]), node.place,
                         NoMetadata)
    requires bases == if node.ClassDef? then BasesOf(u, e.id, node.bases) else []
    ensures var name := e.qualifiedName;
            var decorators, doc := DecoratorsOf(u, name, node.decorators), DocstringOf(u, name, node.doc);
            var parameters := if node.FunctionDef? then ParametersOf(u, name, node.parameters) else [];
            RowsAt(u, r, node, within)
            == If(r == Contains, Hanging(u, Contains, scope.id, [e])) + If(r == InheritsFrom, bases)
               + (If(r == DecoratedBy, Hanging(u, DecoratedBy, e.id, decorators))
                  + If(r == HasParameter, Hanging(u, HasParameter, e.id, parameters)))
               + If(r == DocumentedBy, Hanging(u, DocumentedBy, e.id, doc))
  {
    hide NameWithin, DecoratorsOf, ParametersOf, DocstringOf, BasesOf, Hanging;
    HangsNothing(u, r, e.id);
  }

  lemma HangsNothing(u: Unit, r: RelationshipKind, owner: NodeId)
    ensures Hanging(u, r, owner, []) == []
  {
  }

  lemma OwnHas(u: Unit, scope: CodeEntity, e: CodeEntity, node: Node, k: EntityKind, r: RelationshipKind)
    requires Definition(node)
    ensures var bases := if node.ClassDef? then BasesOf(u, e.id, node.bases) else [];
            Has(Then(Emit(u, e, Contains, scope),
                     Output([], if node.ClassDef? then BaseEdges(u, e, node.bases) else [])),
                k, r, If(k == e.kind, [e]),
                If(r == Contains, Hanging(u, Contains, scope.id, [e])) + If(r == InheritsFrom, bases))
  {
    hide Has, BaseEdges;
    var emitted := Emit(u, e, Contains, scope);
    EmitHangs(u, e, Contains, scope);
    HasUniform(u, emitted, e.kind, Contains, scope.id, k, r);
    var bases := if node.ClassDef? then BasesOf(u, e.id, node.bases) else [];
    if node.ClassDef? {
      BasesListed(u, e, node.bases);
    }
    BasesHave(bases, k, r);
    HasThen(emitted, Output([], bases), k, r, If(k == e.kind, [e]),
            If(r == Contains, Hanging(u, Contains, scope.id, [e])), [], If(r == InheritsFrom, bases));
    assert If(k == e.kind, [e]) + [] == If(k == e.kind, [e]);
  }

  lemma BasesHave(bases: seq<CodeRelationship>, k: EntityKind, r: RelationshipKind)
    requires forall i :: 0 <= i < |bases| ==> bases[i].kind == InheritsFrom
    ensures Has(Output([], bases), k, r, [], If(r == InheritsFrom, bases))
  {
    SelectUniform(bases, RelationshipKindOf, InheritsFrom, r);
  }

  // ---------------------------------------------------------------- the whole tree

  lemma EachSnoc(u: Unit, k: EntityKind, r: RelationshipKind, seen: seq<Sighting>, last: Sighting)
    ensures EachEntity(u, k, seen + [last]) == EachEntity(u, k, seen) + EntitiesAt(u, k, last.node, last.within)
    ensures EachRow(u, r, seen + [last]) == EachRow(u, r, seen) + RowsAt(u, r, last.node, last.within)
  {
    hide EntitiesAt, RowsAt;
    assert (seen + [last])[..|seen|] == seen;
  }

  lemma EachNone(u: Unit, k: EntityKind, r: RelationshipKind)
    ensures EachEntity(u, k, []) == [] && EachRow(u, r, []) == []
  {
  }

  lemma {:induction false} EachConcat(u: Unit, k: EntityKind, r: RelationshipKind, first: seq<Sighting>,
                                      second: seq<Sighting>)
    ensures EachEntity(u, k, first + second) == EachEntity(u, k, first) + EachEntity(u, k, second)
    ensures EachRow(u, r, first + second) == EachRow(u, r, first) + EachRow(u, r, second)
    decreases |second|
  {
    hide EachEntity, EachRow, EntitiesAt, RowsAt;
    if second == [] {
      assert first + second == first;
      EachNone(u, k, r);
    } else {
      var init, last := second[..|second| - 1], second[|second| - 1];
      assert second == init + [last] && first + second == (first + init) + [last];
      EachConcat(u, k, r, first, init);
      EachSnoc(u, k, r, first + init, last);
      EachSnoc(u, k, r, init, last);
    }
  }

  lemma EachOne(u: Unit, k: EntityKind, r: RelationshipKind, node: Node, within: Definitions)
    ensures EachEntity(u, k, [Sighting(node, within)]) == EntitiesAt(u, k, node, within)
    ensures EachRow(u, r, [Sighting(node, within)]) == RowsAt(u, r, node, within)
  {
    hide EntitiesAt, RowsAt;
    assert [Sighting(node, within)][..0] == [];
  }

  /** A node's own part, then what is below it. */
  lemma NodeThenBelow(u: Unit, k: EntityKind, r: RelationshipKind, node: Node, within: Definitions,
                      below: seq<Sighting>, own: Output, rest: Output)
    requires Sightings(node, within) == [Sighting(node, within)] + below
    requires Has(own, k, r, EntitiesAt(u, k, node, within), RowsAt(u, r, node, within))
    requires Has(rest, k, r, EachEntity(u, k, below), EachRow(u, r, below))
    ensures Has(Then(own, rest), k, r, EachEntity(u, k, Sightings(node, within)),
                EachRow(u, r, Sightings(node, within)))
  {
    hide Has, EntitiesAt, RowsAt, Then, Sightings;
    EachOne(u, k, r, node, within);
    EachConcat(u, k, r, [Sighting(node, within)], below);
    HasThen(own, rest, k, r, EntitiesAt(u, k, node, within), RowsAt(u, r, node, within),
            EachEntity(u, k, below), EachRow(u, r, below));
  }

  ghost predicate Complete(u: Unit, k: EntityKind, r: RelationshipKind, seen: seq<Sighting>, out: Output) {
    Has(out, k, r, EachEntity(u, k, seen), EachRow(u, r, seen))
  }

  lemma {:induction false} ExtractComplete(u: Unit, scope: CodeEntity, node: Node, within: Definitions, k: EntityKind,
                                           r: RelationshipKind)
    requires Stands(u, scope, within) && Extract(u, scope, node).Some?
    ensures Complete(u, k, r, Sightings(node, within), Extract(u, scope, node).value)
    decreases node, 1
  {
    hide Has, Head, ImportParts, CallPart, Then, EntitiesAt, RowsAt, EachEntity, EachRow;
    match node
    case ClassDef(_, _, _, _, _, body) => DefinitionComplete(u, scope, node, within, k, r);
    case FunctionDef(_, _, _, _, _, body) => DefinitionComplete(u, scope, node, within, k, r);
    case Import(names, place) => ImportComplete(u, scope, node, within, k, r);
    case ImportFrom(fromModule, names, level, place) => ImportComplete(u, scope, node, within, k, r);
    case Call(name, place, below) =>
      CallComplete(u, scope, node, within, k, r);
      ExtractAllComplete(u, scope, below, within, k, r);
      NodeThenBelow(u, k, r, node, within, AllSightings(below, within), CallPart(u, scope, name, place),
                    ExtractAll(u, scope, below).value);
    case Other(below) =>
      ExtractAllComplete(u, scope, below, within, k, r);
      OtherStandsForNothing(u, k, r, node, within);
      NodeThenBelow(u, k, r, node, within, AllSightings(below, within), NOTHING, ExtractAll(u, scope, below).value);
      ThenNothing(ExtractAll(u, scope, below).value);
  }

  lemma OtherStandsForNothing(u: Unit, k: EntityKind, r: RelationshipKind, node: Node, within: Definitions)
    requires node.Other?
    ensures Has(NOTHING, k, r, EntitiesAt(u, k, node, within), RowsAt(u, r, node, within))
  {
  }

  lemma CallComplete(u: Unit, scope: CodeEntity, node: Node, within: Definitions, k: EntityKind, r: RelationshipKind)
    requires Stands(u, scope, within) && node.Call?
    ensures Has(CallPart(u, scope, node.target, node.place), k, r, EntitiesAt(u, k, node, within),
                RowsAt(u, r, node, within))
  {
    hide NameWithin;
    var rows := CallPart(u, scope, node.target, node.place).relationships;
    assert rows == CallOf(u, node, within);
    SelectUniform(rows, RelationshipKindOf, Calls, r);
  }

  lemma ImportComplete(u: Unit, scope: CodeEntity, node: Node, within: Definitions, k: EntityKind, r: RelationshipKind)
    requires Stands(u, scope, within) && (node.Import? || node.ImportFrom?)
    ensures Complete(u, k, r, Sightings(node, within), Extract(u, scope, node).value)
  {
    hide NameWithin, ImportParts, Has, ImportedName, Digits;
    var out := Extract(u, scope, node).value;
    assert node.names[..|node.names|] == node.names;
    ImportsListed(u, scope, node, |node.names|);
    assert out.entities == ImportsOf(u, scope.qualifiedName, node);
    HasUniform(u, out, EntityKind.Import, Imports, scope.id, k, r);
    EachOne(u, k, r, node, within);
  }

  lemma {:induction false} DefinitionComplete(u: Unit, scope: CodeEntity, node: Node, within: Definitions,
                                              k: EntityKind, r: RelationshipKind)
    requires Definition(node) && Stands(u, scope, within) && Extract(u, scope, node).Some?
    ensures Complete(u, k, r, Sightings(node, within), Extract(u, scope, node).value)
    decreases node, 0
  {
    hide Has, Head, Then, EntitiesAt, RowsAt, EachEntity, EachRow, Stands;
    var (e, head) := Head(u, scope, node);
    HeadStands(u, scope, node, within);
    HeadComplete(u, scope, node, within, k, r);
    ExtractAllComplete(u, e, node.body, within + [node], k, r);
    NodeThenBelow(u, k, r, node, within, AllSightings(node.body, within + [node]), head.value,
                  ExtractAll(u, e, node.body).value);
  }

  lemma {:induction false} ExtractAllComplete(u: Unit, scope: CodeEntity, nodes: seq<Node>, within: Definitions,
                                              k: EntityKind, r: RelationshipKind)
    requires Stands(u, scope, within) && ExtractAll(u, scope, nodes).Some?
    ensures Complete(u, k, r, AllSightings(nodes, within), ExtractAll(u, scope, nodes).value)
    decreases nodes
  {
    hide Has, Extract, Stands, Sightings;
    if nodes == [] {
      HasNothing(k, r);
    } else {
      var init, last := nodes[..|nodes| - 1], nodes[|nodes| - 1];
      ExtractAllComplete(u, scope, init, within, k, r);
      ExtractComplete(u, scope, last, within, k, r);
      var before, more := AllSightings(init, within), Sightings(last, within);
      EachConcat(u, k, r, before, more);
      HasThen(ExtractAll(u, scope, init).value, Extract(u, scope, last).value, k, r,
              EachEntity(u, k, before), EachRow(u, r, before), EachEntity(u, k, more), EachRow(u, r, more));
    }
  }

  // ---------------------------------------------------------------- the file

  function LastLine(lines: nat): nat {
    if lines == 0 then 1 else lines
  }

  function TopEntities(u: Unit, k: EntityKind, doc: Option<Text>, lines: nat): seq<CodeEntity> {
    match k
    case File => [Placed(u, File, u.path, u.path, Place(1, LastLine(lines)), NoMetadata)]
    case Module =>
      [Placed(u, EntityKind.Module, if u.moduleName == "" then u.path else LastPart(u.moduleName), u.moduleName,
              Place(1, LastLine(lines)), NoMetadata)]
    case Docstring => DocstringOf(u, u.moduleName, doc)
    case _ => []
  }

  function TopRows(u: Unit, r: RelationshipKind, doc: Option<Text>, lines: nat): seq<CodeRelationship> {
    match r
    case Contains =>
      Hanging(u, Contains, EntityNode(u.repository, u.path, File, u.path),
              TopEntities(u, EntityKind.Module, doc, lines))
    case DocumentedBy => Hanging(u, DocumentedBy, IdWithin(u, []), DocstringOf(u, u.moduleName, doc))
    case _ => []
  }

  /** Of every kind the parsed file has, in the order of the tree, exactly the entities and the rows
      its nodes stand for: one class, function or method for each definition at any depth, one
      decorator, parameter, docstring and import for each there is, with its place, its text, its
      own default and its alias, hung below its own definition; one open base for each base; and
      one open call for each call whose nearest definition is a function or a method, from that
      definition - a call in a class or at the top of the module is none. */
  lemma ExtractionIsComplete(u: Unit, source: Source, k: EntityKind, r: RelationshipKind)
    requires source.Parsable? && ParsedSource(u, source).Some?
    ensures var f, seen := ParsedSource(u, source).value, AllSightings(source.body, []);
            && Select(f.entities, KindOf, k) == TopEntities(u, k, source.doc, source.lines) + EachEntity(u, k, seen)
            && Select(f.relationships, RelationshipKindOf, r)
               == TopRows(u, r, source.doc, source.lines) + EachRow(u, r, seen)
  {
    hide ParsedSource, ExtractAll, DocPart, Has, LastPart, EachEntity, EachRow, AllSightings, TopEntities, TopRows,
         ModuleEntity, Then, If;
    var top := ModuleEntity(u, source.lines);
    var seen := AllSightings(source.body, []);
    ParsedParts(u, source);
    var head, body := TopPart(u, source), ExtractAll(u, top, source.body).value;
    TopComplete(u, source, k, r);
    ModuleStands(u, source.lines);
    ExtractAllComplete(u, top, source.body, [], k, r);
    HasThen(head, body, k, r, TopEntities(u, k, source.doc, source.lines), TopRows(u, r, source.doc, source.lines),
            EachEntity(u, k, seen), EachRow(u, r, seen));
    HasMeans(Then(head, body), k, r);
  }

  /** A file is fatal if and only if it does not parse; then nothing of it is kept.  Whatever is
      returned is about the file it was made from. */
  lemma FatalExactly(u: Unit, source: Source)
    requires ParsedSource(u, source).Some?
    ensures var f := ParsedSource(u, source).value;
            && (f.fatal <==> source.Unparsable?)
            && (f.fatal ==> f.entities == [] && f.relationships == [])
            && f.repositoryId == u.repository && f.filePath == u.path && f.moduleName == u.moduleName
            && f.contentHash == u.hash
  {
    hide ExtractAll, DocPart;
  }

  lemma ModuleStands(u: Unit, lines: nat)
    ensures Stands(u, ModuleEntity(u, lines), [])
  {
    hide LastPart;
  }

  /** What is emitted before the module's statements. */
  ghost function TopPart(u: Unit, source: Source): Output
    requires source.Parsable? && DocPart(u, ModuleEntity(u, source.lines), source.doc).Some?
  {
    var top := ModuleEntity(u, source.lines);
    Then(Then(Output([FileEntity(u, source.lines)], []), Emit(u, top, Contains, FileEntity(u, source.lines))),
         DocPart(u, top, source.doc).value)
  }

  lemma ParsedParts(u: Unit, source: Source)
    requires source.Parsable? && ParsedSource(u, source).Some?
    ensures var f, top := ParsedSource(u, source).value, ModuleEntity(u, source.lines);
            && DocPart(u, top, source.doc).Some? && ExtractAll(u, top, source.body).Some?
            && Output(f.entities, f.relationships) == Then(TopPart(u, source), ExtractAll(u, top, source.body).value)
  {
    hide ExtractAll, DocPart, Emit, FileEntity, ModuleEntity, Then;
  }

  lemma TopComplete(u: Unit, source: Source, k: EntityKind, r: RelationshipKind)
    requires source.Parsable? && DocPart(u, ModuleEntity(u, source.lines), source.doc).Some?
    ensures Has(TopPart(u, source), k, r, TopEntities(u, k, source.doc, source.lines),
                TopRows(u, r, source.doc, source.lines))
  {
    hide DocPart, Has, Then, TopEntities, TopRows, ModuleEntity, FileEntity, If, DocstringOf;
    var top := ModuleEntity(u, source.lines);
    var doc := DocPart(u, top, source.doc).value;
    TopHas(u, source.doc, source.lines, k, r);
    DocListed(u, top, source.doc);
    DocHas(u, top, source.doc, k, r);
    var emitted := Then(Output([FileEntity(u, source.lines)], []),
                        Emit(u, top, Contains, FileEntity(u, source.lines)));
    HasThen(emitted, doc, k, r, If(k == File || k == EntityKind.Module, TopEntities(u, k, source.doc, source.lines)),
            If(r == Contains, TopRows(u, Contains, source.doc, source.lines)),
            If(k == Docstring, doc.entities), If(r == DocumentedBy, doc.relationships));
    TopAddsUp(u, source.doc, source.lines, k, r);
  }

  lemma DocHas(u: Unit, owner: CodeEntity, doc: Option<Text>, k: EntityKind, r: RelationshipKind)
    requires DocPart(u, owner, doc).Some?
    ensures var out := DocPart(u, owner, doc).value;
            Has(out, k, r, If(k == Docstring, out.entities), If(r == DocumentedBy, out.relationships))
  {
    hide Has, DocPart;
    DocListed(u, owner, doc);
    HasUniform(u, DocPart(u, owner, doc).value, Docstring, DocumentedBy, owner.id, k, r);
  }

  lemma TopAddsUp(u: Unit, doc: Option<Text>, lines: nat, k: EntityKind, r: RelationshipKind)
    ensures var docs, top := DocstringOf(u, u.moduleName, doc), ModuleEntity(u, lines);
            && top.qualifiedName == u.moduleName
            && If(k == File || k == EntityKind.Module, TopEntities(u, k, doc, lines)) + If(k == Docstring, docs)
               == TopEntities(u, k, doc, lines)
            && If(r == Contains, TopRows(u, Contains, doc, lines))
               + If(r == DocumentedBy, Hanging(u, DocumentedBy, top.id, docs))
               == TopRows(u, r, doc, lines)
  {
    hide LastPart, DocstringOf, Hanging;
  }

  lemma HasMeans(out: Output, k: EntityKind, r: RelationshipKind)
    ensures Has(out, k, r, Select(out.entities, KindOf, k), Select(out.relationships, RelationshipKindOf, r))
    ensures forall entities, rows :: Has(out, k, r, entities, rows) ==>
              entities == Select(out.entities, KindOf, k) && rows == Select(out.relationships, RelationshipKindOf, r)
  {
  }

  lemma TopHas(u: Unit, doc: Option<Text>, lines: nat, k: EntityKind, r: RelationshipKind)
    ensures var file, top := FileEntity(u, lines), ModuleEntity(u, lines);
            Has(Then(Output([file], []), Emit(u, top, Contains, file)), k, r,
                If(k == File || k == EntityKind.Module, TopEntities(u, k, doc, lines)),
                If(r == Contains, TopRows(u, Contains, doc, lines)))
  {
    hide Has, LastPart;
    var file, top := FileEntity(u, lines), ModuleEntity(u, lines);
    var emitted := Emit(u, top, Contains, file);
    EmitHangs(u, top, Contains, file);
    HasUniform(u, emitted, EntityKind.Module, Contains, file.id, k, r);
    FileHas(file, k, r);
    HasThen(Output([file], []), emitted, k, r, If(k == File, [file]), [],
            If(k == EntityKind.Module, [top]), If(r == Contains, emitted.relationships));
    assert If(k == File, [file]) + If(k == EntityKind.Module, [top])
           == If(k == File || k == EntityKind.Module, TopEntities(u, k, doc, lines));
    assert [] + If(r == Contains, emitted.relationships) == If(r == Contains, TopRows(u, Contains, doc, lines));
  }

  lemma FileHas(file: CodeEntity, k: EntityKind, r: RelationshipKind)
    requires file.kind == File
    ensures Has(Output([file], []), k, r, If(k == File, [file]), [])
  {
    SelectUniform([file], KindOf, File, k);
  }

  // ---------------------------------------------------------------- positions as digits

  function Value(s: string): nat {
    if s == "" then 0
    else
      var last := s[|s| - 1];
      10 * Value(s[..|s| - 1]) + if '0' <= last <= '9' then last as int - '0' as int else 0
  }

  /** A position is written in decimal, so no two entities of a definition or of an import share
      a name by it. */
  lemma {:induction false} DigitsRead(n: nat)
    ensures Value(Digits(n)) == n
  {
    var s := Digits(n);
    if n < 10 {
      assert s[..0] == "" && s == [('0' as int + n) as char];
    } else {
      DigitsRead(n / 10);
      assert s[..|s| - 1] == Digits(n / 10);
    }
  }
}

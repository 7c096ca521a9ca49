/** Conservative symbol resolution, in one file and across a revision. */
module Resolutions {
  import opened Contracts
  import opened DottedNames
  import opened GraphRepositories

  function QualifiedNameOf(e: CodeEntity): string { e.qualifiedName }

  function NameOf(e: CodeEntity): string { e.name }

  /** The relationships the resolver looks targets up for. */
  predicate Symbolic(kind: RelationshipKind) {
    kind == Calls || kind == InheritsFrom
  }

  function OfKinds(entities: seq<CodeEntity>, kinds: set<EntityKind>): seq<CodeEntity> {
    if entities == [] then []
    else
      var init, last := entities[..|entities| - 1], entities[|entities| - 1];
      if last.kind in kinds then OfKinds(init, kinds) + [last] else OfKinds(init, kinds)
  }

  /** {entity.id: entity}[id]: the last entity with the id. */
  function ById(entities: seq<CodeEntity>, id: NodeId): Option<CodeEntity> {
    if entities == [] then None
    else
      var last := entities[|entities| - 1];
      if last.id == id then Some(last) else ById(entities[..|entities| - 1], id)
  }

  // ---------------------------------------------------------------- within a file

  function CandidateNames(reference: string, moduleName: string, source: CodeEntity): seq<string> {
    Unrepeated(
      [reference]
      + (if '.' in reference then []
         else (if source.kind == Method then [Container(source.qualifiedName) + "." + reference] else [])
              + [moduleName + "." + reference]))
  }

  function Gather(entities: seq<CodeEntity>, names: seq<string>): seq<CodeEntity> {
    if names == [] then []
    else Gather(entities, names[..|names| - 1]) + Select(entities, QualifiedNameOf, names[|names| - 1])
  }

  function LocalKinds(kind: RelationshipKind): set<EntityKind> {
    if kind == InheritsFrom then {Class} else {Function, Method}
  }

  /** Candidates that share one identity; the dictionary keeps the last of them. */
  function OnlyOne(candidates: seq<CodeEntity>): Option<CodeEntity> {
    if candidates != [] && forall e :: e in candidates ==> e.id == candidates[|candidates| - 1].id
    then Some(candidates[|candidates| - 1]) else None
  }

  function LocalCandidates(f: ParsedFile, source: CodeEntity, reference: string): seq<CodeEntity> {
    var named := Gather(f.entities, CandidateNames(reference, f.moduleName, source));
    if named == [] && '.' !in reference then Select(f.entities, NameOf, reference) else named
  }

  function LocalTarget(f: ParsedFile, r: CodeRelationship): Option<CodeEntity> {
    match ById(f.entities, r.sourceId)
    case None => None
    case Some(source) => OnlyOne(OfKinds(LocalCandidates(f, source, r.targetName), LocalKinds(r.kind)))
  }

  function ResolvedLocally(f: ParsedFile, r: CodeRelationship): CodeRelationship {
    if r.resolved || !Symbolic(r.kind) then r
    else
      match LocalTarget(f, r)
      case None => r
      case Some(t) => r.(targetId := t.id, targetName := t.qualifiedName, resolved := true)
  }

  function LocalRows(f: ParsedFile, rows: seq<CodeRelationship>): (out: seq<CodeRelationship>)
    ensures |out| == |rows|
    ensures forall i :: 0 <= i < |rows| ==> out[i] == ResolvedLocally(f, rows[i])
  {
    if rows == [] then []
    else LocalRows(f, rows[..|rows| - 1]) + [ResolvedLocally(f, rows[|rows| - 1])]
  }

  function ResolveLocal(f: ParsedFile): ParsedFile {
    f.(relationships := LocalRows(f, f.relationships))
  }

  // ---------------------------------------------------------------- across files

  function All(files: seq<ParsedFile>): seq<CodeEntity> {
    if files == [] then [] else All(files[..|files| - 1]) + files[|files| - 1].entities
  }

  function FileName(path: string): string {
    if path == "" || path[|path| - 1] == '/' then "" else FileName(path[..|path| - 1]) + [path[|path| - 1]]
  }

  function PackageOf(moduleName: string, path: string): string {
    if FileName(path) == "__init__.py" then moduleName else Parent(moduleName)
  }

  function Imported(e: CodeEntity): string {
    if e.metadata.ImportMetadata? then e.metadata.importedName else e.name
  }

  function Binding(e: CodeEntity): string {
    var imported := Imported(e);
    if e.metadata.ImportMetadata? && e.metadata.alias.Some? && e.metadata.alias.value != "" then e.metadata.alias.value
    else LastPart(Stripped(imported))
  }

  /** `import a.b` without an alias binds `a`. */
  predicate BindsFirst(e: CodeEntity) {
    '.' in Imported(e) && (e.metadata.ImportMetadata? ==> e.metadata.level == 0 && e.metadata.alias.None?)
  }

  function Aliases(entities: seq<CodeEntity>, package: string): map<string, string> {
    if entities == [] then map[]
    else
      var e := entities[|entities| - 1];
      var before := Aliases(entities[..|entities| - 1], package);
      if e.kind != Import then before
      else if BindsFirst(e) then before[First(Imported(e)) := First(Imported(e))]
      else before[Binding(e) := AbsoluteImport(Imported(e), package)]
  }

  /** The module an import entity is in, read off its qualified name. */
  function ModuleOfImport(e: CodeEntity): string {
    Before(e.qualifiedName, ".__import__.")
  }

  function ImportTarget(all: seq<CodeEntity>, e: CodeEntity): Option<CodeEntity> {
    var imported := if e.metadata.ImportMetadata? then e.metadata.importedName else "";
    var found := Select(all, QualifiedNameOf, AbsoluteImport(imported, PackageOf(ModuleOfImport(e), e.filePath)));
    if |found| == 1 then Some(found[0]) else None
  }

  function RepositoryKinds(kind: RelationshipKind): set<EntityKind> {
    if kind == InheritsFrom then {Class} else {Function, Method, Class}
  }

  /** A name to look up, with the confidence (in hundredths) and the strategy it stands for. */
  datatype Attempt = Attempt(name: string, confidence: nat, strategy: string)

  datatype Target = Target(entity: CodeEntity, confidence: nat, strategy: string)

  function Attempts(reference: string, source: CodeEntity, moduleName: string,
                    aliases: map<string, string>): seq<Attempt> {
    var first := First(reference);
    var dotted := '.' in reference;
    (if (first == "self" || first == "cls") && dotted && source.kind == Method
     then [Attempt(Container(source.qualifiedName) + "." + Rest(reference), 95, "instance_method")] else [])
    + (if first in aliases
       then [Attempt(aliases[first] + (if dotted then "." + Rest(reference) else ""), 100, "import_alias")] else [])
    + [Attempt(reference, 95, "qualified_name"), Attempt(moduleName + "." + reference, 90, "module_scope")]
  }

  function Matches(all: seq<CodeEntity>, name: string, kinds: set<EntityKind>): seq<CodeEntity> {
    OfKinds(Select(all, QualifiedNameOf, name), kinds)
  }

  /** The first attempt with exactly one match. */
  function FirstUnique(all: seq<CodeEntity>, attempts: seq<Attempt>, kinds: set<EntityKind>): Option<Target> {
    if attempts == [] then None
    else
      var a := attempts[0];
      var found := Matches(all, a.name, kinds);
      if |found| == 1 then Some(Target(found[0], a.confidence, a.strategy))
      else FirstUnique(all, attempts[1..], kinds)
  }

  function RepositoryTarget(all: seq<CodeEntity>, f: ParsedFile, aliases: map<string, string>, source: CodeEntity,
                            r: CodeRelationship): Option<Target> {
    var kinds := RepositoryKinds(r.kind);
    var found := FirstUnique(all, Attempts(r.targetName, source, f.moduleName, aliases), kinds);
    var simple := OfKinds(Select(all, NameOf, r.targetName), kinds);
    if found.Some? then found
    else if '.' !in r.targetName && |simple| == 1 then Some(Target(simple[0], 75, "unique_repository_symbol"))
    else None
  }

  function Resolved(r: CodeRelationship, t: Target, importEntity: Option<NodeId>): CodeRelationship {
    r.(targetId := t.entity.id, targetName := t.entity.qualifiedName, resolved := true,
       resolution := Marked(t.strategy, t.confidence,
                            if importEntity.None? && r.resolution.Marked? then r.resolution.importEntity
                            else importEntity))
  }

  /** An import keeps its edge and gains a dependency; an open reference may gain its target. */
  function Rewritten(all: seq<CodeEntity>, f: ParsedFile, aliases: map<string, string>,
                     r: CodeRelationship): seq<CodeRelationship> {
    if r.kind == Imports then
      match ById(f.entities, r.targetId)
      case None => [r]
      case Some(e) =>
        match ImportTarget(all, e)
        case None => [r]
        case Some(t) => [r, Resolved(r.(kind := DependsOn), Target(t, 100, "cross_file_import"), Some(e.id))]
    else if !r.resolved && Symbolic(r.kind) then
      match ById(f.entities, r.sourceId)
      case None => [r]
      case Some(source) =>
        match RepositoryTarget(all, f, aliases, source, r)
        case None => [r]
        case Some(t) => [Resolved(r, t, None)]
    else [r]
  }

  function RepositoryRows(all: seq<CodeEntity>, f: ParsedFile, aliases: map<string, string>,
                          rows: seq<CodeRelationship>): seq<CodeRelationship> {
    if rows == [] then []
    else RepositoryRows(all, f, aliases, rows[..|rows| - 1]) + Rewritten(all, f, aliases, rows[|rows| - 1])
  }

  function ResolveAgainst(all: seq<CodeEntity>, f: ParsedFile): ParsedFile {
    f.(relationships := RepositoryRows(all, f, Aliases(f.entities, PackageOf(f.moduleName, f.filePath)),
                                       f.relationships))
  }

  function ResolveFiles(all: seq<CodeEntity>, files: seq<ParsedFile>): (out: seq<ParsedFile>)
    ensures |out| == |files|
    ensures forall i :: 0 <= i < |files| ==> out[i] == ResolveAgainst(all, ResolveLocal(files[i]))
  {
    if files == [] then []
    else ResolveFiles(all, files[..|files| - 1]) + [ResolveAgainst(all, ResolveLocal(files[|files| - 1]))]
  }

  function ResolveRepository(files: seq<ParsedFile>): seq<ParsedFile> {
    ResolveFiles(All(files), files)
  }

  // ---------------------------------------------------------------- the passes as they run

  method IndexById(entities: seq<CodeEntity>) returns (byId: map<NodeId, CodeEntity>)
    ensures forall id :: ById(entities, id) == if id in byId then Some(byId[id]) else None
  {
    byId := map[];
    for i := 0 to |entities|
      invariant forall id :: ById(entities[..i], id) == if id in byId then Some(byId[id]) else None
    {
      assert entities[..i + 1][..i] == entities[..i];
      byId := byId[entities[i].id := entities[i]];
    }
    assert entities[..|entities|] == entities;
  }

  /** A dictionary by identity has one entry exactly when the candidates share one identity. */
  lemma OneKey(unique: map<NodeId, CodeEntity>, seen: seq<CodeEntity>)
    requires forall e :: e in seen ==> e.id in unique
    requires forall id :: id in unique ==> unique[id] in seen && unique[id].id == id
    requires seen != [] ==> unique[seen[|seen| - 1].id] == seen[|seen| - 1]
    ensures |unique| == 1 <==> OnlyOne(seen).Some?
    ensures |unique| == 1 ==> forall id :: id in unique ==> OnlyOne(seen) == Some(unique[id])
  {
    assert |unique.Keys| == |unique|;
    if |unique| == 1 {
      var id :| id in unique;
      assert unique.Keys == {id} + (unique.Keys - {id});
    }
    if OnlyOne(seen).Some? {
      assert unique.Keys == {seen[|seen| - 1].id};
    }
  }

  /** The candidates of the expected kinds by identity; one identity is one target. */
  method UniqueTarget(candidates: seq<CodeEntity>, kinds: set<EntityKind>) returns (t: Option<CodeEntity>)
    ensures t == OnlyOne(OfKinds(candidates, kinds))
  {
    var unique: map<NodeId, CodeEntity> := map[];
    ghost var seen: seq<CodeEntity> := [];
    for i := 0 to |candidates|
      invariant seen == OfKinds(candidates[..i], kinds)
      invariant forall e :: e in seen ==> e.id in unique
      invariant forall id :: id in unique ==> unique[id] in seen && unique[id].id == id
      invariant seen != [] ==> unique[seen[|seen| - 1].id] == seen[|seen| - 1]
    {
      assert candidates[..i + 1][..i] == candidates[..i];
      if candidates[i].kind in kinds {
        unique := unique[candidates[i].id := candidates[i]];
        seen := seen + [candidates[i]];
      }
    }
    assert candidates[..|candidates|] == candidates;
    OneKey(unique, seen);
    if |unique| == 1 {
      var id :| id in unique;
      t := Some(unique[id]);
    } else {
      t := None;
    }
  }

  /** One relationship of the local pass. */
  method ResolveOneLocally(f: ParsedFile, byId: map<NodeId, CodeEntity>, byQualified: map<string, seq<CodeEntity>>,
                           bySimple: map<string, seq<CodeEntity>>, r: CodeRelationship) returns (out: CodeRelationship)
    requires forall id :: ById(f.entities, id) == if id in byId then Some(byId[id]) else None
    requires forall k :: Select(f.entities, QualifiedNameOf, k) == if k in byQualified then byQualified[k] else []
    requires forall k :: Select(f.entities, NameOf, k) == if k in bySimple then bySimple[k] else []
    ensures out == ResolvedLocally(f, r)
  {
    hide ById, Select, Gather, CandidateNames, OfKinds, OnlyOne;
    out := r;
    if r.resolved || !Symbolic(r.kind) || r.sourceId !in byId { return; }
    var candidates := LookUp(f, byQualified, CandidateNames(r.targetName, f.moduleName, byId[r.sourceId]));
    if candidates == [] && '.' !in r.targetName {
      candidates := if r.targetName in bySimple then bySimple[r.targetName] else [];
    }
    var t := UniqueTarget(candidates, LocalKinds(r.kind));
    if t.Some? {
      out := r.(targetId := t.value.id, targetName := t.value.qualifiedName, resolved := true);
    }
  }

  method ResolveLocalRelationships(f: ParsedFile) returns (out: ParsedFile)
    ensures out == ResolveLocal(f)
  {
    hide ById, Select, ResolvedLocally;
    var byId := IndexById(f.entities);
    var order, byQualified := GroupBy(f.entities, QualifiedNameOf);
    var names, bySimple := GroupBy(f.entities, NameOf);
    var rows: seq<CodeRelationship> := [];
    for i := 0 to |f.relationships|
      invariant rows == LocalRows(f, f.relationships[..i])
    {
      assert f.relationships[..i + 1][..i] == f.relationships[..i];
      var r := ResolveOneLocally(f, byId, byQualified, bySimple, f.relationships[i]);
      rows := rows + [r];
    }
    assert f.relationships[..|f.relationships|] == f.relationships;
    out := f.(relationships := rows);
  }

  method LookUp(f: ParsedFile, byQualified: map<string, seq<CodeEntity>>, names: seq<string>)
      returns (found: seq<CodeEntity>)
    requires forall k :: Select(f.entities, QualifiedNameOf, k) == if k in byQualified then byQualified[k] else []
    ensures found == Gather(f.entities, names)
  {
    found := [];
    for i := 0 to |names|
      invariant found == Gather(f.entities, names[..i])
    {
      assert names[..i + 1][..i] == names[..i];
      found := found + if names[i] in byQualified then byQualified[names[i]] else [];
    }
    assert names[..|names|] == names;
  }

  method ImportAliases(f: ParsedFile) returns (aliases: map<string, string>)
    ensures aliases == Aliases(f.entities, PackageOf(f.moduleName, f.filePath))
  {
    aliases := map[];
    var package := PackageOf(f.moduleName, f.filePath);
    for i := 0 to |f.entities|
      invariant aliases == Aliases(f.entities[..i], package)
    {
      assert f.entities[..i + 1][..i] == f.entities[..i];
      var e := f.entities[i];
      if e.kind == Import {
        var binding, absolute := Binding(e), AbsoluteImport(Imported(e), package);
        if BindsFirst(e) {
          binding := First(Imported(e));
          absolute := binding;
        }
        aliases := aliases[binding := absolute];
      }
    }
    assert f.entities[..|f.entities|] == f.entities;
  }

  /** The search through the candidate names, the simple names last. */
  method FindTarget(all: seq<CodeEntity>, byQualified: map<string, seq<CodeEntity>>,
                    bySimple: map<string, seq<CodeEntity>>,
                    f: ParsedFile, aliases: map<string, string>, source: CodeEntity, r: CodeRelationship)
      returns (t: Option<Target>)
    requires forall k :: Select(all, QualifiedNameOf, k) == if k in byQualified then byQualified[k] else []
    requires forall k :: Select(all, NameOf, k) == if k in bySimple then bySimple[k] else []
    ensures t == RepositoryTarget(all, f, aliases, source, r)
  {
    hide Attempts, Select, OfKinds;
    var kinds := RepositoryKinds(r.kind);
    var attempts := Attempts(r.targetName, source, f.moduleName, aliases);
    assert attempts[0..] == attempts;
    for i := 0 to |attempts|
      invariant FirstUnique(all, attempts, kinds) == FirstUnique(all, attempts[i..], kinds)
    {
      assert attempts[i..][1..] == attempts[i + 1..];
      var a := attempts[i];
      var found := OfKinds(if a.name in byQualified then byQualified[a.name] else [], kinds);
      if |found| == 1 {
        return Some(Target(found[0], a.confidence, a.strategy));
      }
    }
    var simple := OfKinds(if r.targetName in bySimple then bySimple[r.targetName] else [], kinds);
    t := if '.' !in r.targetName && |simple| == 1 then Some(Target(simple[0], 75, "unique_repository_symbol"))
         else None;
  }

  /** One relationship of the repository pass. */
  method RewriteOne(all: seq<CodeEntity>, byQualified: map<string, seq<CodeEntity>>,
                    bySimple: map<string, seq<CodeEntity>>,
                    f: ParsedFile, byId: map<NodeId, CodeEntity>, aliases: map<string, string>, r: CodeRelationship)
      returns (out: seq<CodeRelationship>)
    requires forall k :: Select(all, QualifiedNameOf, k) == if k in byQualified then byQualified[k] else []
    requires forall k :: Select(all, NameOf, k) == if k in bySimple then bySimple[k] else []
    requires forall id :: ById(f.entities, id) == if id in byId then Some(byId[id]) else None
    ensures out == Rewritten(all, f, aliases, r)
  {
    hide RepositoryTarget, ImportTarget, Aliases, ById, Select;
    out := [r];
    if r.kind == Imports {
      if r.targetId in byId {
        var e := byId[r.targetId];
        var t := FindImport(all, byQualified, e);
        if t.Some? {
          out := [r, Resolved(r.(kind := DependsOn), Target(t.value, 100, "cross_file_import"), Some(e.id))];
        }
      }
    } else if !r.resolved && Symbolic(r.kind) {
      if r.sourceId in byId {
        var t := FindTarget(all, byQualified, bySimple, f, aliases, byId[r.sourceId], r);
        if t.Some? {
          out := [Resolved(r, t.value, None)];
        }
      }
    }
  }

  /** One file of the repository pass. */
  method ResolveOneFile(all: seq<CodeEntity>, byQualified: map<string, seq<CodeEntity>>,
                        bySimple: map<string, seq<CodeEntity>>, f: ParsedFile) returns (out: ParsedFile)
    requires forall k :: Select(all, QualifiedNameOf, k) == if k in byQualified then byQualified[k] else []
    requires forall k :: Select(all, NameOf, k) == if k in bySimple then bySimple[k] else []
    ensures out == ResolveAgainst(all, f)
  {
    hide Rewritten, Aliases, ById, Select;
    var byId := IndexById(f.entities);
    var aliases := ImportAliases(f);
    var rows: seq<CodeRelationship> := [];
    for i := 0 to |f.relationships|
      invariant rows == RepositoryRows(all, f, aliases, f.relationships[..i])
    {
      assert f.relationships[..i + 1][..i] == f.relationships[..i];
      var more := RewriteOne(all, byQualified, bySimple, f, byId, aliases, f.relationships[i]);
      rows := rows + more;
    }
    assert f.relationships[..|f.relationships|] == f.relationships;
    out := f.(relationships := rows);
  }

  method FindImport(all: seq<CodeEntity>, byQualified: map<string, seq<CodeEntity>>, e: CodeEntity)
      returns (t: Option<CodeEntity>)
    requires forall k :: Select(all, QualifiedNameOf, k) == if k in byQualified then byQualified[k] else []
    ensures t == ImportTarget(all, e)
  {
    hide AbsoluteImport, PackageOf, ModuleOfImport, Select;
    var imported := if e.metadata.ImportMetadata? then e.metadata.importedName else "";
    var name := AbsoluteImport(imported, PackageOf(ModuleOfImport(e), e.filePath));
    var found := if name in byQualified then byQualified[name] else [];
    t := if |found| == 1 then Some(found[0]) else None;
  }

  method ResolveRepositoryRelationships(files: seq<ParsedFile>) returns (out: seq<ParsedFile>)
    ensures out == ResolveRepository(files)
  {
    hide ResolveAgainst, LocalRows;
    var local: seq<ParsedFile> := [];
    var all: seq<CodeEntity> := [];
    for i := 0 to |files|
      invariant |local| == i && forall k :: 0 <= k < i ==> local[k] == ResolveLocal(files[k])
      invariant all == All(files[..i])
    {
      assert files[..i + 1][..i] == files[..i];
      var f := ResolveLocalRelationships(files[i]);
      local := local + [f];
      all := all + f.entities;
    }
    assert files[..|files|] == files;
    var order, byQualified := GroupBy(all, QualifiedNameOf);
    var names, bySimple := GroupBy(all, NameOf);
    out := [];
    for i := 0 to |files|
      invariant out == ResolveFiles(all, files[..i])
    {
      assert files[..i + 1][..i] == files[..i];
      var f := ResolveOneFile(all, byQualified, bySimple, local[i]);
      out := out + [f];
    }
  }
}

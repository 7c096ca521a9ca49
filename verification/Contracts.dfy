/** The records the indexer, the resolver and the stores exchange. */
module Contracts {

  datatype Option<+T> = None | Some(value: T)

  datatype EntityKind =
    | File | Module | Class | Function | Method | Parameter | Decorator | Import | Docstring

  datatype RelationshipKind =
    | Contains | Imports | InheritsFrom | Calls | DecoratedBy | HasParameter | DocumentedBy | DependsOn

  /** Identities the source digests with SHA-256.  The digest is taken to be injective, so a
      node's identity is the tuple that is digested; the entity and the symbol forms carry
      different prefixes and never meet. */
  datatype NodeId =
    | EntityNode(repository: string, path: string, kind: EntityKind, qualifiedName: string)
    | SymbolNode(repository: string, kind: EntityKind, qualifiedName: string)

  datatype ParameterKind = Positional | VarPositional | KeywordOnly | VarKeyword

  /** What an edge's or entity's metadata dictionary says to the code modelled here. */
  datatype Metadata =
    | NoMetadata
    | ImportMetadata(importedName: string, alias: Option<string>, level: nat)
    | ParameterMetadata(position: nat, kind: ParameterKind, annotation: Option<string>, default: Option<string>)
    | Opaque(text: string)

  datatype CodeEntity = CodeEntity(
    id: NodeId,
    kind: EntityKind,
    name: string,
    qualifiedName: string,
    filePath: string,
    startLine: nat,
    endLine: nat,
    contentHash: string,
    metadata: Metadata)

  /** How the repository-wide pass found a target; confidence is in hundredths. */
  datatype Resolution = Unmarked | Marked(strategy: string, confidence: nat, importEntity: Option<NodeId>)

  datatype CodeRelationship = CodeRelationship(
    kind: RelationshipKind,
    sourceId: NodeId,
    targetId: NodeId,
    targetName: string,
    resolved: bool,
    filePath: string,
    line: nat,
    resolution: Resolution)

  datatype ParsedFile = ParsedFile(
    repositoryId: string,
    filePath: string,
    moduleName: string,
    contentHash: string,
    entities: seq<CodeEntity>,
    relationships: seq<CodeRelationship>,
    fatal: bool)

  /** What every entity of a parsed file looks like: the identity is built from the file,
      the kind and the qualified name, and the row carries the file's path and hash. */
  ghost predicate EntityOfFile(e: CodeEntity, repository: string, path: string, hash: string) {
    && e.id == EntityNode(repository, path, e.kind, e.qualifiedName)
    && e.filePath == path
    && e.contentHash == hash
  }

  /** dict.fromkeys: the first of each. */
  function Unrepeated<T(==)>(s: seq<T>): seq<T> {
    if s == [] then []
    else
      var init, last := s[..|s| - 1], s[|s| - 1];
      if last in init then Unrepeated(init) else Unrepeated(init) + [last]
  }

  lemma {:induction false} OnlyOnce<T>(s: seq<T>)
    ensures forall x :: x in Unrepeated(s) <==> x in s
    ensures forall i, j :: 0 <= i < j < |Unrepeated(s)| ==> Unrepeated(s)[i] != Unrepeated(s)[j]
  {
    if s != [] {
      OnlyOnce(s[..|s| - 1]);
      assert s == s[..|s| - 1] + [s[|s| - 1]];
    }
  }
}

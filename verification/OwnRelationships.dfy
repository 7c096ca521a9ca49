/** The relationships a job is given stay within its repository. */
module OwnRelationships {
  import opened Contracts
  import opened RepositoryFrames
  import opened PythonAstParsers
  import opened ExtractionTree
  import opened Resolutions
  import opened ResolutionProperties

  predicate EntitiesWithin(r: string, entities: seq<CodeEntity>) {
    forall e :: e in entities ==> e.id.repository == r
  }

  lemma {:induction false} StructuralMember(rows: seq<CodeRelationship>, r: CodeRelationship)
    requires r in rows && Structural(r.kind)
    ensures r in StructuralEdges(rows)
  {
    var init, last := rows[..|rows| - 1], rows[|rows| - 1];
    assert rows == init + [last];
    if r in init {
      StructuralMember(init, r);
    }
  }

  /** What the parser extracts from a file has both ends in the file's repository. */
  lemma ParsedWithin(u: Unit, source: Source)
    requires ParsedSource(u, source).Some?
    ensures var f := ParsedSource(u, source).value;
            EntitiesWithin(u.repository, f.entities) && RowsWithin(u.repository, f.relationships)
  {
    hide ExtractAll, StructuralEdges, DocPart, Holds;
    var f := ParsedSource(u, source).value;
    forall e | e in f.entities
      ensures e.id.repository == u.repository
    {
      EntitiesOfFile(u, source, e);
    }
    if source.Parsable? {
      ExtractionIsATree(u, source);
      forall r | r in f.relationships
        ensures r.sourceId.repository == u.repository && r.targetId.repository == u.repository
      {
        if Structural(r.kind) {
          StructuralMember(f.relationships, r);
          var k :| 0 <= k < |StructuralEdges(f.relationships)| && StructuralEdges(f.relationships)[k] == r;
          var j :| 0 <= j < k + 1 && Parented(u, f.entities[k + 1], r, f.entities[j]);
        } else {
          var p :| p in f.entities && Reference(u, r, p);
        }
      }
    }
  }

  lemma LocallyWithin(r: string, f: ParsedFile)
    requires EntitiesWithin(r, f.entities) && RowsWithin(r, f.relationships)
    ensures RowsWithin(r, ResolveLocal(f).relationships)
  {
    hide LocalRows, SoleAnswer, ById;
    forall i | 0 <= i < |f.relationships|
      ensures var s := ResolveLocal(f).relationships[i]; s.sourceId.repository == r && s.targetId.repository == r
    {
      LocalResolutionExactly(f, i);
      var s := ResolveLocal(f).relationships[i];
      var source := ById(f.entities, f.relationships[i].sourceId);
      if s != f.relationships[i] {
        var t :| SoleAnswer(f, source.value, f.relationships[i], t) && s.targetId == t.id;
        AnswersAreEntities(f, source.value, f.relationships[i], t);
      }
    }
  }

  lemma AnswersAreEntities(f: ParsedFile, source: CodeEntity, r: CodeRelationship, t: CodeEntity)
    requires SoleAnswer(f, source, r, t)
    ensures t in f.entities
  {
  }

  lemma RewrittenSource(all: seq<CodeEntity>, f: ParsedFile, aliases: map<string, string>, r: CodeRelationship,
                        s: CodeRelationship)
    requires s in Rewritten(all, f, aliases, r)
    ensures s.sourceId == r.sourceId
  {
    hide RepositoryTarget, ImportTarget, ById;
  }

  lemma {:induction false} RowsWithinAll(r: string, all: seq<CodeEntity>, f: ParsedFile, aliases: map<string, string>,
                                         rows: seq<CodeRelationship>)
    requires EntitiesWithin(r, all) && RowsWithin(r, rows)
    ensures RowsWithin(r, RepositoryRows(all, f, aliases, rows))
  {
    hide Rewritten, SoundEdge;
    if rows != [] {
      var init, last := rows[..|rows| - 1], rows[|rows| - 1];
      RowsWithinAll(r, all, f, aliases, init);
      forall s | s in Rewritten(all, f, aliases, last)
        ensures s.sourceId.repository == r && s.targetId.repository == r
      {
        RewrittenSource(all, f, aliases, last, s);
        RewrittenSound(all, f, aliases, last, [last], s);
        SoundTarget(all, last, s);
      }
    }
  }

  lemma SoundTarget(all: seq<CodeEntity>, r: CodeRelationship, s: CodeRelationship)
    requires SoundEdge(all, [r], s)
    ensures s == r || exists e :: e in all && e.id == s.targetId
  {
    hide Graded, Matches, OfKinds;
  }

  lemma {:induction false} AllWithinRepository(r: string, files: seq<ParsedFile>)
    requires forall i :: 0 <= i < |files| ==> EntitiesWithin(r, files[i].entities)
    ensures EntitiesWithin(r, All(files))
  {
    if files != [] {
      AllWithinRepository(r, files[..|files| - 1]);
    }
  }

  /** And the repository-wide resolution keeps it so: the hypothesis under which jobs of different
      repositories do not meet. */
  lemma ResolvedWithin(r: string, files: seq<ParsedFile>, i: nat)
    requires forall k :: 0 <= k < |files| ==>
               EntitiesWithin(r, files[k].entities) && RowsWithin(r, files[k].relationships)
    requires i < |files|
    ensures RowsWithin(r, ResolveRepository(files)[i].relationships)
  {
    hide RepositoryRows, LocalRows, Aliases, EntitiesWithin, RowsWithin;
    var f := ResolveLocal(files[i]);
    LocallyWithin(r, files[i]);
    AllWithinRepository(r, files);
    RowsWithinAll(r, All(files), f, Aliases(f.entities, PackageOf(f.moduleName, f.filePath)), f.relationships);
  }
}

/** The graph repository as the indexer uses it: each method is one transaction or query. */
module GraphRepositories {
  import opened Contracts
  import opened IndexStores
  import opened IndexJobs
  import opened GraphInvariants
  import opened IncrementalRefinesFull
  import opened ExactEdges

  // ---------------------------------------------------------------- grouping

  function Select<T, K(==)>(items: seq<T>, key: T -> K, k: K): seq<T> {
    if items == [] then []
    else
      var init, last := items[..|items| - 1], items[|items| - 1];
      if key(last) == k then Select(init, key, k) + [last] else Select(init, key, k)
  }

  lemma {:induction false} SelectMembers<T, K>(items: seq<T>, key: T -> K, k: K, x: T)
    ensures x in Select(items, key, k) <==> x in items && key(x) == k
  {
    if items != [] {
      var init, last := items[..|items| - 1], items[|items| - 1];
      SelectMembers(init, key, k, x);
      assert items == init + [last];
    }
  }

  /** A dictionary of lists filled in one pass; its keys are in order of first appearance. */
  method GroupBy<T, K(==)>(items: seq<T>, key: T -> K) returns (order: seq<K>, groups: map<K, seq<T>>)
    ensures forall k :: k in order <==> k in groups
    ensures forall i, j :: 0 <= i < j < |order| ==> order[i] != order[j]
    ensures forall k :: Select(items, key, k) == if k in groups then groups[k] else []
    ensures forall x :: x in items ==> key(x) in groups
  {
    order, groups := [], map[];
    for i := 0 to |items|
      invariant forall k :: k in order <==> k in groups
      invariant forall i, j :: 0 <= i < j < |order| ==> order[i] != order[j]
      invariant forall k :: Select(items[..i], key, k) == if k in groups then groups[k] else []
      invariant forall x :: x in items[..i] ==> key(x) in groups
    {
      var item := items[i];
      var k := key(item);
      assert items[..i + 1][..i] == items[..i] && items[..i + 1] == items[..i] + [item];
      if k !in groups {
        order := order + [k];
      }
      groups := groups[k := (if k in groups then groups[k] else []) + [item]];
    }
    assert items[..|items|] == items;
  }

  // ---------------------------------------------------------------- entity rows

  function KindOf(e: CodeEntity): EntityKind { e.kind }

  /** An entity's identity is digested from its kind, among others. */
  ghost predicate KindsByIdentity(entities: seq<CodeEntity>) {
    forall d, e :: d in entities && e in entities && d.id == e.id ==> d.kind == e.kind
  }

  function MergeNode(nodes: Nodes, repository: string, revision: string, row: CodeEntity): Nodes {
    nodes[row.id := GraphNode(row, repository, revision, RevisionsOf(nodes, row.id) + {revision})]
  }

  lemma WriteOneMore(nodes: Nodes, repository: string, revision: string, rows: seq<CodeEntity>, row: CodeEntity)
    ensures WriteNodes(nodes, repository, revision, rows + [row])
            == MergeNode(WriteNodes(nodes, repository, revision, rows), repository, revision, row)
  {
    assert (rows + [row])[..|rows|] == rows;
  }

  lemma {:induction false} RowMapConcat(first: seq<CodeEntity>, second: seq<CodeEntity>)
    ensures RowMap(first + second) == RowMap(first) + RowMap(second)
    decreases |second|
  {
    if second == [] {
      assert first + second == first;
    } else {
      RowMapConcat(first, second[..|second| - 1]);
      assert (first + second)[..|first + second| - 1] == first + second[..|second| - 1];
    }
  }

  lemma WriteTwice(nodes: Nodes, repository: string, revision: string, first: seq<CodeEntity>, second: seq<CodeEntity>)
    ensures WriteNodes(WriteNodes(nodes, repository, revision, first), repository, revision, second)
            == WriteNodes(nodes, repository, revision, first + second)
  {
    RowMapConcat(first, second);
  }

  lemma RowMapSnoc(rows: seq<CodeEntity>, last: CodeEntity)
    ensures RowMap(rows + [last]) == RowMap(rows)[last.id := last]
  {
    assert (rows + [last])[..|rows|] == rows;
  }

  lemma SelectSnoc(rows: seq<CodeEntity>, last: CodeEntity, k: EntityKind)
    ensures Select(rows + [last], KindOf, k)
            == Select(rows, KindOf, k) + (if last.kind == k then [last] else [])
  {
    assert (rows + [last])[..|rows|] == rows;
  }

  /** One map holds of another exactly what is of the kinds, at an identity. */
  ghost predicate KindsPicked(some: map<NodeId, CodeEntity>, all: map<NodeId, CodeEntity>, kinds: seq<EntityKind>,
                              id: NodeId)
  {
    && (id in some <==> id in all && all[id].kind in kinds)
    && (id in some ==> some[id] == all[id])
  }

  lemma NoRows(id: NodeId)
    ensures id !in RowMap([])
  {
  }

  lemma NoneOfKind(k: EntityKind, id: NodeId)
    ensures KindsPicked(RowMap(Select([], KindOf, k)), RowMap([]), [k], id)
  {
  }

  /** The kind of an earlier row is the kind of the last row with its identity. */
  lemma LastKind(init: seq<CodeEntity>, last: CodeEntity, id: NodeId)
    requires KindsByIdentity(init + [last])
    ensures KindsByIdentity(init)
    ensures last.id in RowMap(init) ==> RowMap(init)[last.id].kind == last.kind
  {
    hide RowMap;
    assert forall e :: e in init ==> e in init + [last];
    assert last in init + [last];
    RowMapKeys(init, last.id);
  }

  /** Within a file the last row for an identity is the last row of its kind for it. */
  lemma {:induction false} RowMapOfKind(entities: seq<CodeEntity>, k: EntityKind, id: NodeId)
    requires KindsByIdentity(entities)
    ensures KindsPicked(RowMap(Select(entities, KindOf, k)), RowMap(entities), [k], id)
  {
    hide RowMap, Select, KindsByIdentity;
    if entities == [] {
      NoneOfKind(k, id);
    } else {
      var init, last := entities[..|entities| - 1], entities[|entities| - 1];
      assert entities == init + [last];
      LastKind(init, last, id);
      RowMapOfKind(init, k, id);
      RowMapSnoc(init, last);
      RowMapSnoc(Select(init, KindOf, k), last);
      SelectSnoc(init, last, k);
      assert Select(init, KindOf, k) + [] == Select(init, KindOf, k);
    }
  }

  /** The rows of the kinds seen so far. */
  ghost function RowsOfKinds(entities: seq<CodeEntity>, kinds: seq<EntityKind>): seq<CodeEntity> {
    if kinds == [] then []
    else RowsOfKinds(entities, kinds[..|kinds| - 1]) + Select(entities, KindOf, kinds[|kinds| - 1])
  }

  lemma {:induction false} RowMapOfKinds(entities: seq<CodeEntity>, kinds: seq<EntityKind>, id: NodeId)
    requires KindsByIdentity(entities)
    ensures KindsPicked(RowMap(RowsOfKinds(entities, kinds)), RowMap(entities), kinds, id)
  {
    hide RowMap, Select, KindsByIdentity;
    if kinds == [] {
      NoRows(id);
    } else {
      var init, last := kinds[..|kinds| - 1], kinds[|kinds| - 1];
      assert kinds == init + [last];
      RowMapOfKinds(entities, init, id);
      RowMapOfKind(entities, last, id);
      RowMapConcat(RowsOfKinds(entities, init), Select(entities, KindOf, last));
    }
  }

  /** Writing the rows kind by kind is writing them in order. */
  lemma BatchesAreTheRows(entities: seq<CodeEntity>, kinds: seq<EntityKind>)
    requires KindsByIdentity(entities)
    requires forall e :: e in entities ==> e.kind in kinds
    ensures RowMap(RowsOfKinds(entities, kinds)) == RowMap(entities)
  {
    hide RowMap, RowsOfKinds, KindsByIdentity;
    forall id
      ensures KindsPicked(RowMap(RowsOfKinds(entities, kinds)), RowMap(entities), kinds, id)
      ensures id in RowMap(entities) ==> RowMap(entities)[id].kind in kinds
    {
      RowMapOfKinds(entities, kinds, id);
      RowMapKeys(entities, id);
    }
  }

  // ---------------------------------------------------------------- relationship rows

  function RelationshipKindOf(r: CodeRelationship): RelationshipKind { r.kind }

  lemma {:induction false} EdgeRowsOfKind(nodes: Nodes, symbols: Symbols, rows: seq<CodeRelationship>,
                                          k: RelationshipKind, key: EdgeKey)
    ensures var some, all := EdgeRows(nodes, symbols, Select(rows, RelationshipKindOf, k)),
                           EdgeRows(nodes, symbols, rows);
            (key in some <==> key in all && key.kind == k) && (key in some ==> some[key] == all[key])
  {
    hide EdgeRows, Endpoints, PropertiesOf;
    if rows != [] {
      var init, last := rows[..|rows| - 1], rows[|rows| - 1];
      EdgeRowsOfKind(nodes, symbols, init, k, key);
      EdgeRowsMore(nodes, symbols, Select(init, RelationshipKindOf, k), last);
      EdgeRowsMore(nodes, symbols, init, last);
      assert rows == init + [last];
    } else {
      EdgeRowsNone(nodes, symbols);
    }
  }

  lemma EdgeRowsNone(nodes: Nodes, symbols: Symbols)
    ensures EdgeRows(nodes, symbols, []) == map[]
  {
  }

  lemma EdgeRowsMore(nodes: Nodes, symbols: Symbols, rows: seq<CodeRelationship>, r: CodeRelationship)
    ensures EdgeRows(nodes, symbols, rows + [r])
            == if Endpoints(nodes, symbols, r) then EdgeRows(nodes, symbols, rows)[KeyOf(r) := PropertiesOf(r)]
               else EdgeRows(nodes, symbols, rows)
  {
    assert (rows + [r])[..|rows|] == rows;
  }

  lemma SupersededByKind(symbols: Symbols, key: EdgeKey, p: EdgeProperties, rows: seq<CodeRelationship>,
                         k: RelationshipKind)
    ensures Superseded(symbols, key, p, Select(rows, RelationshipKindOf, k))
            <==> key.kind == k && Superseded(symbols, key, p, rows)
  {
    var selected := Select(rows, RelationshipKindOf, k);
    forall r
      ensures r in selected <==> r in rows && r.kind == k
    {
      SelectMembers(rows, RelationshipKindOf, k, r);
    }
    if Superseded(symbols, key, p, selected) {
      var i :| 0 <= i < |selected| && selected[i].resolved && selected[i].sourceId == key.source
               && selected[i].kind == key.kind
               && selected[i].filePath == p.filePath && selected[i].line == p.line;
      assert selected[i] in rows;
    }
    if key.kind == k && Superseded(symbols, key, p, rows) {
      var i :| 0 <= i < |rows| && rows[i].resolved && rows[i].sourceId == key.source && rows[i].kind == key.kind
               && rows[i].filePath == p.filePath && rows[i].line == p.line;
      assert rows[i] in selected;
    }
  }

  /** Edges of the kinds written so far are as after the whole batch, the others untouched. */
  ghost predicate WrittenForKinds(before: Edges, after: Edges, nodes: Nodes, symbols: Symbols,
                                  rows: seq<CodeRelationship>, kinds: seq<RelationshipKind>) {
    var all := WriteEdges(before, nodes, symbols, rows);
    forall key: EdgeKey :: if key.kind in kinds
                  then (key in after <==> key in all) && (key in after ==> after[key] == all[key])
                  else (key in after <==> key in before) && (key in after ==> after[key] == before[key])
  }

  lemma OneMoreKind(before: Edges, edges: Edges, nodes: Nodes, symbols: Symbols, rows: seq<CodeRelationship>,
                    kinds: seq<RelationshipKind>, k: RelationshipKind)
    requires WrittenForKinds(before, edges, nodes, symbols, rows, kinds) && k !in kinds
    ensures WrittenForKinds(before, WriteEdges(edges, nodes, symbols, Select(rows, RelationshipKindOf, k)),
                            nodes, symbols, rows, kinds + [k])
  {
    var some := Select(rows, RelationshipKindOf, k);
    var after := WriteEdges(edges, nodes, symbols, some);
    var all := WriteEdges(before, nodes, symbols, rows);
    forall key: EdgeKey
      ensures if key.kind in kinds + [k]
              then (key in after <==> key in all) && (key in after ==> after[key] == all[key])
              else (key in after <==> key in before) && (key in after ==> after[key] == before[key])
    {
      EdgeRowsOfKind(nodes, symbols, rows, k, key);
      if key in edges {
        SupersededByKind(symbols, key, edges[key], rows, k);
      }
    }
  }

  lemma KindsWritten(before: Edges, after: Edges, nodes: Nodes, symbols: Symbols, rows: seq<CodeRelationship>,
                     kinds: seq<RelationshipKind>)
    requires WrittenForKinds(before, after, nodes, symbols, rows, kinds)
    requires forall r :: r in rows ==> r.kind in kinds
    ensures after == WriteEdges(before, nodes, symbols, rows)
  {
    var all := WriteEdges(before, nodes, symbols, rows);
    forall key: EdgeKey | key.kind !in kinds
      ensures (key in all <==> key in before) && (key in all ==> all[key] == before[key])
    {
      EdgeRowsKeys(nodes, symbols, rows, key);
    }
    assert forall key :: (key in after <==> key in all) && (key in after ==> after[key] == all[key]);
  }

  // ---------------------------------------------------------------- the repository

  class GraphRepository {
    var nodes: Nodes
    var edges: Edges
    var symbols: Symbols
    var known: set<(string, string)>
    var snapshots: Snapshots

    ghost function State(): Graph
      reads this
    {
      Graph(nodes, edges, symbols, known, snapshots)
    }

    constructor ()
      ensures State() == Graph(map[], map[], map[], {}, map[])
    {
      nodes, edges, symbols, known, snapshots := map[], map[], map[], {}, map[];
    }

    /** One parsed file: its entities kind by kind, its external symbols, its relationships.
        A call that
        raises has either committed or not; the ghost result says which. */
    method WriteParsedFile(repository: string, revision: string, entities: seq<CodeEntity>, rows: seq<CodeRelationship>)
        returns (ok: bool, ghost effect: bool)
      requires KindsByIdentity(entities)
      modifies this
      ensures ok ==> effect
      ensures State() == if effect then WriteFile(old(State()), repository, revision, entities, rows) else old(State())
    {
      ok, effect := *, false;
      if !ok { return; }
      hide WriteNodes, WriteRelationships;
      known := known + {(repository, revision)};
      WriteEntities(repository, revision, entities);
      WriteRelationshipRows(rows);
      ok, effect := *, true;
    }

    method WriteEntities(repository: string, revision: string, entities: seq<CodeEntity>)
      requires KindsByIdentity(entities)
      modifies this`nodes
      ensures nodes == WriteNodes(old(nodes), repository, revision, entities)
    {
      var order, groups := GroupBy(entities, KindOf);
      for i := 0 to |order|
        invariant nodes == WriteNodes(old(nodes), repository, revision, RowsOfKinds(entities, order[..i]))
      {
        assert order[..i + 1][..i] == order[..i];
        WriteEntityBatch(repository, revision, groups[order[i]]);
        WriteTwice(old(nodes), repository, revision, RowsOfKinds(entities, order[..i]), groups[order[i]]);
      }
      assert order[..|order|] == order;
      BatchesAreTheRows(entities, order);
    }

    method WriteEntityBatch(repository: string, revision: string, rows: seq<CodeEntity>)
      modifies this`nodes
      ensures nodes == WriteNodes(old(nodes), repository, revision, rows)
    {
      assert rows[..0] == [];
      for i := 0 to |rows|
        invariant nodes == WriteNodes(old(nodes), repository, revision, rows[..i])
      {
        WriteOneMore(old(nodes), repository, revision, rows[..i], rows[i]);
        assert rows[..i + 1] == rows[..i] + [rows[i]];
        nodes := MergeNode(nodes, repository, revision, rows[i]);
      }
      assert rows[..|rows|] == rows;
    }

    method WriteRelationshipRows(rows: seq<CodeRelationship>)
      modifies this`edges, this`symbols
      ensures State() == WriteRelationships(old(State()), rows)
    {
      WriteExternalSymbols(rows);
      var order, groups := GroupBy(rows, RelationshipKindOf);
      for i := 0 to |order|
        invariant symbols == WriteSymbols(old(symbols), rows)
        invariant WrittenForKinds(old(edges), edges, nodes, symbols, rows, order[..i])
      {
        OneMoreKind(old(edges), edges, nodes, symbols, rows, order[..i], order[i]);
        assert order[..i + 1] == order[..i] + [order[i]];
        WriteRelationshipBatch(groups[order[i]]);
      }
      assert order[..|order|] == order;
      KindsWritten(old(edges), edges, nodes, symbols, rows, order);
    }

    method WriteExternalSymbols(rows: seq<CodeRelationship>)
      modifies this`symbols
      ensures symbols == WriteSymbols(old(symbols), rows)
    {
      for i := 0 to |rows|
        invariant symbols == WriteSymbols(old(symbols), rows[..i])
      {
        assert rows[..i + 1][..i] == rows[..i];
        if !rows[i].resolved {
          symbols := symbols[rows[i].targetId := rows[i].targetName];
        }
      }
      assert rows[..|rows|] == rows;
    }

    /** The cleanup of superseded edges, then one MERGE per row. */
    method WriteRelationshipBatch(rows: seq<CodeRelationship>)
      modifies this`edges
      ensures edges == WriteEdges(old(edges), nodes, symbols, rows)
      ensures forall k :: BatchLeaves(old(edges), edges, nodes, symbols, rows, k)
    {
      hide BatchLeaves;
      edges := map k | k in edges && !Superseded(symbols, k, edges[k], rows) :: edges[k];
      ghost var kept := edges;
      assert kept == KeepEdges(old(edges), symbols, rows);
      for i := 0 to |rows|
        invariant edges == kept + EdgeRows(nodes, symbols, rows[..i])
      {
        assert rows[..i + 1][..i] == rows[..i];
        if Endpoints(nodes, symbols, rows[i]) {
          edges := edges[KeyOf(rows[i]) := PropertiesOf(rows[i])];
        }
      }
      assert rows[..|rows|] == rows;
      forall k
        ensures BatchLeaves(old(edges), edges, nodes, symbols, rows, k)
      {
        BatchExactly(old(edges), nodes, symbols, rows, k);
      }
    }

    /** The relationships of the files that parsed. */
    method WriteRepositoryRelationships(a: Analyzer, repository: string, files: seq<SourceFile>)
        returns (ok: bool, ghost effect: bool)
      modifies this
      ensures ok ==> effect
      ensures State() == if effect then WriteRelationships(old(State()), FinalRows(a, repository, files))
                         else old(State())
    {
      var rows: seq<CodeRelationship> := [];
      for i := 0 to |files|
        invariant rows == FinalRows(a, repository, files[..i])
        modifies {}
      {
        assert files[..i + 1][..i] == files[..i];
        if !Fatal(a, repository, files[i].path, files[i].hash) {
          rows := rows + files[i].relationships;
        }
      }
      assert files[..|files|] == files;
      ok, effect := *, false;
      if !ok { return; }
      WriteRelationshipRows(rows);
      ok, effect := *, true;
    }

    method CarryForwardFile(repository: string, source: string, target: string, path: string, hash: string)
        returns (ok: bool, ghost effect: bool)
      modifies this`nodes, this`known
      ensures ok ==> effect
      ensures State() == if effect then CarryFile(old(State()), repository, source, target, path, hash)
                         else old(State())
    {
      ok, effect := *, false;
      if !ok { return; }
      known := known + {(repository, target)};
      var matched := set id | id in nodes && Carried(nodes[id], repository, source, path, hash);
      Join(matched, target);
      assert nodes == CarryNodes(old(nodes), repository, source, target, path, hash);
      ok, effect := *, true;
    }

    /** Each of the entities joins the revision, which becomes its latest. */
    method Join(joining: set<NodeId>, target: string)
      requires joining <= nodes.Keys
      modifies this`nodes
      ensures nodes.Keys == old(nodes).Keys
      ensures forall id :: id in nodes ==>
                nodes[id] == if id in joining
                             then old(nodes)[id].(latest := target, revisions := old(nodes)[id].revisions + {target})
                             else old(nodes)[id]
    {
      var pending := joining;
      while pending != {}
        invariant pending <= joining && nodes.Keys == old(nodes).Keys
        invariant forall id :: id in nodes ==>
          nodes[id] == if id in joining - pending
                       then old(nodes)[id].(latest := target, revisions := old(nodes)[id].revisions + {target})
                       else old(nodes)[id]
        decreases |pending|
      {
        var id :| id in pending;
        nodes := nodes[id := nodes[id].(latest := target, revisions := nodes[id].revisions + {target})];
        pending := pending - {id};
      }
    }

    method RemoveFileFromRevision(server: Server, repository: string, revision: string, path: string)
        returns (ok: bool, ghost effect: bool)
      modifies this
      ensures ok ==> effect
      ensures State() == if effect then RemoveFile(server, old(State()), repository, revision, path) else old(State())
    {
      ok, effect := *, false;
      if !ok { return; }
      var matched := set id | id in nodes && InFileAt(nodes[id], repository, revision, path);
      var orphans := set id | id in matched && nodes[id].revisions - {revision} == {};
      nodes := map id | id in nodes && id !in orphans ::
        if id in matched
        then nodes[id].(latest := server.pick(nodes[id].revisions - {revision}),
                        revisions := nodes[id].revisions - {revision})
        else nodes[id];
      edges := map k | k in edges && k.source !in orphans && k.target !in orphans :: edges[k];
      assert nodes == RemoveNodes(server, old(nodes), repository, revision, path);
      assert old(nodes).Keys - nodes.Keys == orphans;
      ok, effect := *, true;
    }

    method RecordRevisionSnapshot(repository: string, revision: string, provenance: Provenance)
        returns (ok: bool, ghost effect: bool)
      modifies this`snapshots
      ensures ok ==> effect
      ensures State() == if effect then RecordRevision(old(State()), repository, revision, provenance) else old(State())
    {
      ok, effect := *, false;
      if !ok { return; }
      if (repository, revision) in known {
        snapshots := snapshots[(repository, revision) := provenance];
      }
      ok, effect := *, true;
    }
  }
}

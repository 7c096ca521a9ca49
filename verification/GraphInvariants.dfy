/** What the graph and the manifests keep across store calls. */
module GraphInvariants {
  import opened Contracts
  import opened IndexStores
  import opened IndexJobs

  ghost function Rows(a: Analyzer, repository: string, path: string, hash: string): map<NodeId, CodeEntity> {
    RowMap(Entities(a, repository, path, hash))
  }

  /** Every node is the row some parse of its file gave it, and its latest revision is one of
      the revisions it belongs to: the join of find_entity always finds a revision. */
  ghost predicate NodeSound(a: Analyzer, id: NodeId, n: GraphNode) {
    var rows := Rows(a, n.repository, n.row.filePath, n.row.contentHash);
    id in rows && rows[id] == n.row && n.latest in n.revisions
  }

  ghost predicate GraphSound(a: Analyzer, nodes: Nodes) {
    forall id :: id in nodes ==> NodeSound(a, id, nodes[id])
  }

  /** The graph at revision r holds the parse of (path, hash), row for row. */
  ghost predicate Holds(a: Analyzer, nodes: Nodes, repository: string, revision: string, path: string, hash: string) {
    forall id :: id in Rows(a, repository, path, hash) ==>
      && id in nodes
      && nodes[id].row == Rows(a, repository, path, hash)[id]
      && nodes[id].repository == repository
      && revision in nodes[id].revisions
  }

  ghost predicate ManifestHolds(a: Analyzer, nodes: Nodes, repository: string, path: string, m: Manifest) {
    m.version == ANALYSIS_VERSION ==>
      !Fatal(a, repository, path, m.contentHash) && Holds(a, nodes, repository, m.revision, path, m.contentHash)
  }

  /** Every manifest tells the truth about the graph, except perhaps those of torn files. */
  ghost predicate ManifestsHold(a: Analyzer, nodes: Nodes, manifests: Manifests, torn: set<(string, string)>) {
    forall k :: k in manifests && k !in torn ==> ManifestHolds(a, nodes, k.0, k.1, manifests[k])
  }

  ghost predicate Invariant(a: Analyzer, w: World, torn: set<(string, string)>) {
    GraphSound(a, w.graph.nodes) && ManifestsHold(a, w.graph.nodes, w.manifests, torn)
  }

  /** The files whose manifests no longer tell the truth. */
  ghost function Broken(a: Analyzer, w: World): set<(string, string)> {
    set k | k in w.manifests && !ManifestHolds(a, w.graph.nodes, k.0, k.1, w.manifests[k])
  }

  /** Torn files may still be whole; the invariant holds of the broken ones alone. */
  lemma OnlyBroken(a: Analyzer, w: World, torn: set<(string, string)>)
    requires Invariant(a, w, torn)
    ensures Invariant(a, w, Broken(a, w)) && Broken(a, w) <= torn
  {
    hide ManifestHolds;
  }

  lemma {:induction false} RowMapKeys(entities: seq<CodeEntity>, id: NodeId)
    ensures id in RowMap(entities) <==> exists e :: e in entities && e.id == id
    ensures id in RowMap(entities) ==> RowMap(entities)[id] in entities && RowMap(entities)[id].id == id
  {
    if entities != [] {
      var init, last := entities[..|entities| - 1], entities[|entities| - 1];
      RowMapKeys(init, id);
      assert entities == init + [last];
    }
  }

  /** A row's identity gives away the file it came from. */
  lemma RowOfFile(a: Analyzer, repository: string, path: string, hash: string, id: NodeId)
    requires ValidAnalyzer(a) && id in Rows(a, repository, path, hash)
    ensures id.EntityNode? && id.repository == repository && id.path == path
    ensures EntityOfFile(Rows(a, repository, path, hash)[id], repository, path, hash)
    ensures Rows(a, repository, path, hash)[id].id == id
  {
    RowMapKeys(Entities(a, repository, path, hash), id);
  }

  lemma NodeOfFile(a: Analyzer, nodes: Nodes, id: NodeId)
    requires ValidAnalyzer(a) && GraphSound(a, nodes) && id in nodes
    ensures id == EntityNode(nodes[id].repository, nodes[id].row.filePath, nodes[id].row.kind,
                             nodes[id].row.qualifiedName)
  {
    assert NodeSound(a, id, nodes[id]);
    RowOfFile(a, nodes[id].repository, nodes[id].row.filePath, nodes[id].row.contentHash, id);
  }

  // ---------------------------------------------------------------- carrying forward is writing

  /** The graph already says at source what a write would say at target. */
  ghost predicate CarryReady(a: Analyzer, nodes: Nodes, repository: string, source: string, target: string,
                             path: string, hash: string) {
    forall id :: id in Rows(a, repository, path, hash) ==>
      && id in nodes
      && nodes[id].row == Rows(a, repository, path, hash)[id]
      && nodes[id].repository == repository
      && (source in nodes[id].revisions || (target in nodes[id].revisions && nodes[id].latest == target))
  }

  /** carry_forward_file leaves exactly the nodes write_parsed_file would leave, if and only
      if every entity of the parse is still stored with that parse's row at the source revision. */
  lemma CarryIsWriteExactly(a: Analyzer, nodes: Nodes, repository: string, source: string, target: string,
                            path: string, hash: string)
    requires ValidAnalyzer(a) && GraphSound(a, nodes)
    ensures CarryNodes(nodes, repository, source, target, path, hash)
            == WriteNodes(nodes, repository, target, Entities(a, repository, path, hash))
            <==> CarryReady(a, nodes, repository, source, target, path, hash)
  {
    var rows := Rows(a, repository, path, hash);
    var carried := CarryNodes(nodes, repository, source, target, path, hash);
    var written := WriteNodes(nodes, repository, target, Entities(a, repository, path, hash));
    forall id | id in nodes
      ensures NodeSound(a, id, nodes[id])
      ensures Carried(nodes[id], repository, source, path, hash) ==> id in rows && rows[id] == nodes[id].row
    {
    }
    if carried == written {
      forall id | id in rows
        ensures id in nodes && nodes[id].row == rows[id] && nodes[id].repository == repository
        ensures source in nodes[id].revisions || (target in nodes[id].revisions && nodes[id].latest == target)
      {
        assert id in written && carried[id] == written[id];
        RowOfFile(a, repository, path, hash, id);
      }
    }
    if CarryReady(a, nodes, repository, source, target, path, hash) {
      ReadyCarriesWhole(a, nodes, repository, source, target, path, hash);
    }
  }

  lemma ReadyCarriesWhole(a: Analyzer, nodes: Nodes, repository: string, source: string, target: string,
                          path: string, hash: string)
    requires ValidAnalyzer(a) && GraphSound(a, nodes) && CarryReady(a, nodes, repository, source, target, path, hash)
    ensures CarryNodes(nodes, repository, source, target, path, hash)
            == WriteNodes(nodes, repository, target, Entities(a, repository, path, hash))
  {
    hide CarryReady, GraphSound;
    var carried := CarryNodes(nodes, repository, source, target, path, hash);
    var written := WriteNodes(nodes, repository, target, Entities(a, repository, path, hash));
    forall id
      ensures (id in carried <==> id in written) && (id in written ==> carried[id] == written[id])
    {
      ReadyNode(a, nodes, repository, source, target, path, hash, id);
    }
    assert carried.Keys == written.Keys;
  }

  lemma ReadyNode(a: Analyzer, nodes: Nodes, repository: string, source: string, target: string,
                  path: string, hash: string, id: NodeId)
    requires ValidAnalyzer(a) && GraphSound(a, nodes) && CarryReady(a, nodes, repository, source, target, path, hash)
    ensures var carried := CarryNodes(nodes, repository, source, target, path, hash);
            var written := WriteNodes(nodes, repository, target, Entities(a, repository, path, hash));
            (id in carried <==> id in written) && (id in written ==> carried[id] == written[id])
  {
    if id in nodes {
      assert NodeSound(a, id, nodes[id]);
    }
    if id in Rows(a, repository, path, hash) {
      RowOfFile(a, repository, path, hash, id);
    }
  }

  // ---------------------------------------------------------------- what each graph call keeps

  lemma WriteKeeps(a: Analyzer, nodes: Nodes, manifests: Manifests, repository: string, revision: string,
                   path: string, hash: string, torn: set<(string, string)>)
    requires ValidAnalyzer(a) && GraphSound(a, nodes)
    requires ManifestsHold(a, nodes, manifests, torn)
    ensures var after := WriteNodes(nodes, repository, revision, Entities(a, repository, path, hash));
            && GraphSound(a, after)
            && Holds(a, after, repository, revision, path, hash)
            && ManifestsHold(a, after, manifests, torn + {(repository, path)})
  {
    var entities := Entities(a, repository, path, hash);
    var rows := RowMap(entities);
    var after := WriteNodes(nodes, repository, revision, entities);
    forall id | id in after
      ensures NodeSound(a, id, after[id])
    {
      if id in rows {
        RowOfFile(a, repository, path, hash, id);
      } else {
        assert NodeSound(a, id, nodes[id]);
      }
    }
    forall k | k in manifests && k !in torn + {(repository, path)}
      ensures ManifestHolds(a, after, k.0, k.1, manifests[k])
    {
      var m := manifests[k];
      assert ManifestHolds(a, nodes, k.0, k.1, m);
      if m.version == ANALYSIS_VERSION {
        forall id | id in Rows(a, k.0, k.1, m.contentHash)
          ensures id in after && after[id] == nodes[id]
        {
          RowOfFile(a, k.0, k.1, m.contentHash, id);
          if id in rows {
            RowOfFile(a, repository, path, hash, id);
          }
        }
      }
    }
  }

  /** Carrying only adds memberships, so it keeps every manifest true whatever is carried. */
  lemma CarryKeeps(a: Analyzer, nodes: Nodes, manifests: Manifests, torn: set<(string, string)>,
                   repository: string, source: string, target: string, path: string, hash: string)
    requires GraphSound(a, nodes) && ManifestsHold(a, nodes, manifests, torn)
    ensures var after := CarryNodes(nodes, repository, source, target, path, hash);
            GraphSound(a, after) && ManifestsHold(a, after, manifests, torn)
  {
    var after := CarryNodes(nodes, repository, source, target, path, hash);
    forall id | id in after
      ensures NodeSound(a, id, after[id])
    {
      assert NodeSound(a, id, nodes[id]);
    }
    forall k | k in manifests && k !in torn
      ensures ManifestHolds(a, after, k.0, k.1, manifests[k])
    {
      assert ManifestHolds(a, nodes, k.0, k.1, manifests[k]);
    }
  }

  lemma RemoveKeeps(server: Server, a: Analyzer, nodes: Nodes, manifests: Manifests, repository: string,
                    revision: string, path: string, torn: set<(string, string)>)
    requires ValidAnalyzer(a) && GraphSound(a, nodes)
    requires ManifestsHold(a, nodes, manifests, torn)
    ensures var after := RemoveNodes(server, nodes, repository, revision, path);
            && GraphSound(a, after)
            && ManifestsHold(a, after, manifests, torn + {(repository, path)})
  {
    var after := RemoveNodes(server, nodes, repository, revision, path);
    forall id | id in after
      ensures NodeSound(a, id, after[id])
    {
      assert NodeSound(a, id, nodes[id]);
    }
    forall k | k in manifests && k !in torn + {(repository, path)}
      ensures ManifestHolds(a, after, k.0, k.1, manifests[k])
    {
      var m := manifests[k];
      assert ManifestHolds(a, nodes, k.0, k.1, m);
      if m.version == ANALYSIS_VERSION {
        forall id | id in Rows(a, k.0, k.1, m.contentHash)
          ensures id in after && after[id] == nodes[id]
        {
          RowOfFile(a, k.0, k.1, m.contentHash, id);
          NodeOfFile(a, nodes, id);
        }
      }
    }
  }
}

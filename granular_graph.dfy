/**
 * The first `EnhancedTaxLawGraph` (graph_retriever/test_enhanced_graph.py):
 * the same three granularity levels, but only the parent relation is queued,
 * the queue is never cleared, a finalized relation is appended to the edges
 * as it stands, and edges carry no confidence and no law.
 */
module GranularGraph {
  import opened Strings
  import opened GraphRecords
  import EnhancedGraph

  /** A node record of this graph: no chapter, section or status. */
  datatype Node = Node(
    id: string,
    content: string,
    law: string,
    paragraph: string,
    stk: string,
    nr: string,
    entityType: string,
    parentParagraph: string,
    granularityLevel: nat,
    title: string)

  function NodeOf(law: string, id: string, content: string, m: Meta): Node
  {
    Node(id, content, law, Get(m.paragraphNumber, ""), Get(m.stykkeNumber, ""), Get(m.nummer, ""),
      EntityType(m), Get(m.parentParagraph, ""), EnhancedGraph.GranularityLevel(EntityType(m)), Get(m.title, id))
  }

  /** `"Hierarkisk: <parent> → <id>"`. */
  function Explanation(source: string, target: string): string
  {
    "Hierarkisk: " + source + " \U{2192} " + target
  }

  /** The relation `_queue_hierarchical_relations` queues for entity `id`, if any. */
  function QueuedFor(id: string, m: Meta): (r: seq<Relation>)
    ensures |r| <= 1
    ensures r != [] <==> EnhancedGraph.ParentRule(m)
    ensures r != [] ==> (r[0].source == m.parentParagraph.value && r[0].target == id
      && r[0].subtype == EntityType(m) && r[0].explanation == Explanation(r[0].source, id))
  {
    if EnhancedGraph.ParentRule(m) then
      var p := m.parentParagraph.value;
      [Relation(p, id, EntityType(m), Explanation(p, id))]
    else []
  }

  /** A queued relation as an edge: the relation record itself, with no confidence and no law. */
  function RelEdge(x: Relation): Edge
  {
    Edge(x.source, x.target, "hierarchical", 100, None, x.explanation, None, true, Some(x.subtype))
  }

  function RelEdges(q: seq<Relation>): (r: seq<Edge>)
    ensures |r| == |q|
    ensures forall i :: 0 <= i < |q| ==>
      r[i].source == q[i].source && r[i].target == q[i].target && r[i].autoGenerated
  {
    seq(|q|, i requires 0 <= i < |q| => RelEdge(q[i]))
  }

  lemma RelEdgesAppend(q: seq<Relation>, x: Relation)
    ensures RelEdges(q + [x]) == RelEdges(q) + [RelEdge(x)]
  {
    assert forall i :: 0 <= i < |q| ==> (q + [x])[i] == q[i];
  }

  /** The loop of `finalize_hierarchical_relations`: it appends the resolvable relations and counts them. */
  method AppendResolvable(pending: seq<Relation>, keys: set<string>, edges: seq<Edge>)
    returns (finalized: nat, appended: seq<Edge>)
    ensures finalized == |Kept(pending, keys)|
    ensures appended == edges + RelEdges(Kept(pending, keys))
  {
    finalized, appended := 0, edges;
    ghost var kept: seq<Relation> := [];
    for i := 0 to |pending|
      invariant kept == Kept(pending[..i], keys)
      invariant finalized == |kept| && appended == edges + RelEdges(kept)
    {
      KeptPrefix(pending, i, keys);
      kept, finalized, appended := ResolveOne(pending[i], keys, edges, kept, finalized, appended);
    }
    assert pending[..|pending|] == pending;
  }

  /** The body of the finalize loop for one queued relation. */
  method ResolveOne(relation: Relation, keys: set<string>, edges: seq<Edge>, ghost kept: seq<Relation>, finalized: nat, appended: seq<Edge>)
    returns (ghost kept': seq<Relation>, finalized': nat, appended': seq<Edge>)
    requires finalized == |kept| && appended == edges + RelEdges(kept)
    ensures kept' == if relation.source in keys && relation.target in keys then kept + [relation] else kept
    ensures finalized' == |kept'| && appended' == edges + RelEdges(kept')
  {
    kept', finalized', appended' := kept, finalized, appended;
    if relation.source in keys && relation.target in keys {
      RelEdgesAppend(kept, relation);
      kept' := kept + [relation];
      appended' := appended + [RelEdge(relation)];
      finalized' := finalized + 1;
    }
  }

  /** The entity types of the nodes, in node order. */
  function NodeTypes(nodes: map<string, Node>, order: seq<string>): (r: seq<string>)
    requires forall k :: k in order ==> k in nodes
    ensures |r| == |order|
  {
    seq(|order|, i requires 0 <= i < |order| => nodes[order[i]].entityType)
  }

  /** The result of `get_statistics`. */
  datatype Stats = Stats(totalNodes: nat, totalEdges: nat, hierarchicalEdges: nat, contentEdges: int, nodeTypes: Counts)

  class EnhancedTaxLawGraph {
    const lawName: string
    var nodes: map<string, Node>
    /** The keys of `nodes` in insertion order. */
    var order: seq<string>
    var edges: seq<Edge>
    /** `hierarchical_relations`: every relation ever queued. */
    var queue: seq<Relation>

    /**
     * The node map and its key order agree, and every auto-generated edge
     * joins two nodes: nodes are never removed, and `finalize` only appends
     * relations whose endpoints are nodes.
     */
    ghost predicate Valid()
      reads this
    {
      && (forall k :: k in nodes <==> k in order)
      && (forall i, j :: 0 <= i < j < |order| ==> order[i] != order[j])
      && (forall k :: k in nodes ==> nodes[k].id == k)
      && (forall i :: 0 <= i < |edges| && edges[i].autoGenerated ==> edges[i].source in nodes && edges[i].target in nodes)
    }

    constructor (lawName: string)
      ensures Valid()
      ensures this.lawName == lawName && nodes == map[] && order == [] && edges == [] && queue == []
    {
      this.lawName := lawName;
      nodes, order, edges, queue := map[], [], [], [];
    }

    /** Stores (or overwrites) the node for `entityId` and queues its parent relation. */
    method AddLegalEntityNode(entityId: string, content: string, m: Meta)
      requires Valid()
      modifies this
      ensures Valid()
      ensures nodes == old(nodes)[entityId := NodeOf(lawName, entityId, content, m)]
      ensures order == if entityId in old(nodes) then old(order) else old(order) + [entityId]
      ensures edges == old(edges)
      ensures queue == old(queue) + QueuedFor(entityId, m)
    {
      if entityId !in nodes {
        order := order + [entityId];
      }
      nodes := nodes[entityId := NodeOf(lawName, entityId, content, m)];
      QueueHierarchicalRelations(entityId, m);
    }

    /** `_queue_hierarchical_relations`. */
    method QueueHierarchicalRelations(entityId: string, m: Meta)
      modifies this
      ensures queue == old(queue) + QueuedFor(entityId, m)
      ensures nodes == old(nodes) && order == old(order) && edges == old(edges)
    {
      var entityType := Get(m.entityType, "paragraph");
      var parent := Get(m.parentParagraph, "");
      if (entityType == "stykke" || entityType == "nummer") && parent != [] {
        queue := queue + [Relation(parent, entityId, entityType, Explanation(parent, entityId))];
      }
    }

    /**
     * Appends every queued relation whose endpoints are both nodes and returns
     * their number; the queue is left as it is.
     */
    method FinalizeHierarchicalRelations() returns (finalized: nat)
      requires Valid()
      modifies this
      ensures Valid()
      ensures nodes == old(nodes) && order == old(order) && queue == old(queue)
      ensures edges == old(edges) + RelEdges(Kept(queue, nodes.Keys))
      ensures finalized == |Kept(queue, nodes.Keys)|
    {
      var appended;
      finalized, appended := AppendResolvable(queue, nodes.Keys, edges);
      KeptMembers(queue, nodes.Keys);
      ghost var kept := Kept(queue, nodes.Keys);
      forall i | |edges| <= i < |appended|
        ensures appended[i].source in nodes && appended[i].target in nodes
      {
        assert kept[i - |edges|] in kept;
      }
      edges := appended;
    }

    /** Appends one content edge, which is never auto-generated. */
    method AddRelation(source: string, target: string, relationType: string, strength: int, explanation: string)
      requires Valid()
      modifies this
      ensures Valid()
      ensures edges == old(edges) + [Edge(source, target, relationType, strength, None, explanation, None, false, None)]
      ensures nodes == old(nodes) && order == old(order) && queue == old(queue)
    {
      edges := edges + [Edge(source, target, relationType, strength, None, explanation, None, false, None)];
    }

    /**
     * `get_statistics`: hierarchical and content edges add up to all edges,
     * and the node-type table counts every node once.
     */
    method GetStatistics() returns (s: Stats)
      requires Valid()
      ensures s.totalNodes == |nodes| && s.totalEdges == |edges|
      ensures s.hierarchicalEdges == AutoCount(edges)
      ensures s.hierarchicalEdges + s.contentEdges == s.totalEdges
      ensures s.nodeTypes == TypeCounts(NodeTypes(nodes, order))
      ensures KeysDistinct(s.nodeTypes) && Total(s.nodeTypes) == s.totalNodes
      ensures forall t :: CountOf(s.nodeTypes, t) == Occurrences(NodeTypes(nodes, order), t)
    {
      var hierarchical := 0;
      for i := 0 to |edges|
        invariant hierarchical == AutoCount(edges[..i])
      {
        assert edges[..i + 1] == edges[..i] + [edges[i]];
        AutoCountAppend(edges[..i], edges[i]);
        if edges[i].autoGenerated {
          hierarchical := hierarchical + 1;
        }
      }
      assert edges[..|edges|] == edges;
      var nodeTypes: Counts := [];
      for i := 0 to |order|
        invariant nodeTypes == TypeCounts(NodeTypes(nodes, order)[..i])
      {
        assert NodeTypes(nodes, order)[..i + 1][..i] == NodeTypes(nodes, order)[..i];
        nodeTypes := Bump(nodeTypes, nodes[order[i]].entityType);
      }
      assert NodeTypes(nodes, order)[..|order|] == NodeTypes(nodes, order);
      TypeCountsFacts(NodeTypes(nodes, order));
      EnhancedGraph.DistinctKeysCount(nodes, order);
      s := Stats(|nodes|, |edges|, hierarchical, |edges| - hierarchical, nodeTypes);
    }
  }

  /**
   * Finalizing twice appends the resolvable relations twice: the queue is
   * never cleared, so every call adds as many edges as the first.
   */
  lemma FinalizeTwice(q: seq<Relation>, keys: set<string>, edges: seq<Edge>)
    ensures var once := edges + RelEdges(Kept(q, keys));
      var twice := once + RelEdges(Kept(q, keys));
      |twice| == |edges| + 2 * |Kept(q, keys)| && AutoCount(twice) == AutoCount(edges) + 2 * |Kept(q, keys)|
  {
    AutoCountRelEdges(edges, Kept(q, keys));
    AutoCountRelEdges(edges + RelEdges(Kept(q, keys)), Kept(q, keys));
  }

  /** Every appended relation edge is auto-generated. */
  lemma {:induction false} AutoCountRelEdges(edges: seq<Edge>, q: seq<Relation>)
    ensures AutoCount(edges + RelEdges(q)) == AutoCount(edges) + |q|
    decreases |q|
  {
    if q != [] {
      var init := q[..|q| - 1];
      AutoCountRelEdges(edges, init);
      assert q == init + [q[|q| - 1]];
      RelEdgesAppend(init, q[|q| - 1]);
      assert edges + RelEdges(q) == (edges + RelEdges(init)) + [RelEdge(q[|q| - 1])];
      AutoCountAppend(edges + RelEdges(init), RelEdge(q[|q| - 1]));
    } else {
      assert edges + RelEdges(q) == edges;
    }
  }

  // ---------------------------------------------------------------------------
  // The demonstration data of `demo_problem_and_solution`.

  function ParagraphMeta(p: string, title: string): Meta
  {
    Meta(Some("paragraph"), Some(p), None, None, None, None, None, None, None, None, Some(title), None)
  }

  function StykkeMeta(p: string, s: string, parent: string, title: string): Meta
  {
    Meta(Some("stykke"), Some(p), None, Some(s), None, None, None, Some(parent), None, None, Some(title), None)
  }

  /** The parent relation queued for stykke `id` of paragraph `parent`. */
  function StykkeRel(parent: string, id: string): Relation
  {
    Relation(parent, id, "stykke", Explanation(parent, id))
  }

  /** Adds one paragraph whose id is new: one node and nothing queued. */
  method AddDemoParagraph(g: EnhancedTaxLawGraph, p: string, id: string, content: string)
    requires g.Valid() && id !in g.order
    modifies g
    ensures g.Valid()
    ensures g.nodes == old(g.nodes)[id := NodeOf(g.lawName, id, content, ParagraphMeta(p, id))]
    ensures g.nodes[id].entityType == "paragraph"
    ensures g.order == old(g.order) + [id]
    ensures g.edges == old(g.edges) && g.queue == old(g.queue)
  {
    assert QueuedFor(id, ParagraphMeta(p, id)) == [];
    g.AddLegalEntityNode(id, content, ParagraphMeta(p, id));
    assert g.queue == old(g.queue) + [];
  }

  /** Adds one stykke whose id is new: one node and one queued parent relation. */
  method AddDemoStykke(g: EnhancedTaxLawGraph, p: string, s: string, parent: string, id: string, content: string)
    requires g.Valid() && parent != [] && id !in g.order
    modifies g
    ensures g.Valid()
    ensures g.nodes == old(g.nodes)[id := NodeOf(g.lawName, id, content, StykkeMeta(p, s, parent, id))]
    ensures g.nodes[id].entityType == "stykke"
    ensures g.order == old(g.order) + [id]
    ensures g.edges == old(g.edges)
    ensures g.queue == old(g.queue) + [StykkeRel(parent, id)]
  {
    assert QueuedFor(id, StykkeMeta(p, s, parent, id)) == [StykkeRel(parent, id)];
    g.AddLegalEntityNode(id, content, StykkeMeta(p, s, parent, id));
  }

  /** The five ids of the demonstration are pairwise different. */
  ghost predicate DemoIds(o: string, o1: string, o2: string, p: string, p1: string)
  {
    && o != o1 && o != o2 && o != p && o != p1
    && o1 != o2 && o1 != p && o1 != p1
    && o2 != p && o2 != p1
    && p != p1
  }

  /** Paragraph `o` and its two stykker `o1` and `o2`, in a new graph. */
  method BuildFirstParagraph(o: string, o1: string, o2: string, c: string, c1: string, c2: string)
    returns (g: EnhancedTaxLawGraph)
    requires o != o1 && o != o2 && o1 != o2 && o != []
    ensures fresh(g) && g.Valid()
    ensures g.order == [o, o1, o2]
    ensures g.nodes[o].entityType == "paragraph" && g.nodes[o1].entityType == "stykke" && g.nodes[o2].entityType == "stykke"
    ensures g.edges == [] && g.queue == [StykkeRel(o, o1), StykkeRel(o, o2)]
  {
    g := new EnhancedTaxLawGraph("Ligningsloven");
    AddDemoParagraph(g, "15O", o, c);
    AddDemoStykke(g, "15O", "1", o, o1, c1);
    AddDemoStykke(g, "15O", "2", o, o2, c2);
  }

  /**
   * The four entities: paragraph `o` with stykker `o1` and `o2`, and stykke
   * `p1` of a paragraph `p` that is never added.
   */
  method BuildDemoGraph(o: string, o1: string, o2: string, p: string, p1: string, c: string, c1: string, c2: string, c3: string)
    returns (g: EnhancedTaxLawGraph)
    requires DemoIds(o, o1, o2, p, p1) && o != [] && p != []
    ensures fresh(g) && g.Valid()
    ensures g.order == [o, o1, o2, p1]
    ensures g.nodes[o].entityType == "paragraph"
    ensures g.nodes[o1].entityType == "stykke" && g.nodes[o2].entityType == "stykke" && g.nodes[p1].entityType == "stykke"
    ensures g.edges == [] && g.queue == [StykkeRel(o, o1), StykkeRel(o, o2), StykkeRel(p, p1)]
  {
    g := BuildFirstParagraph(o, o1, o2, c, c1, c2);
    AddDemoStykke(g, "15P", "1", p, p1, c3);
  }

  /** The relation to the missing paragraph `p` is the one finalize drops. */
  lemma DemoKept(o: string, o1: string, o2: string, p: string, p1: string, keys: set<string>)
    requires o in keys && o1 in keys && o2 in keys && p !in keys
    ensures Kept([StykkeRel(o, o1), StykkeRel(o, o2), StykkeRel(p, p1)], keys) == [StykkeRel(o, o1), StykkeRel(o, o2)]
  {
    var q := [StykkeRel(o, o1), StykkeRel(o, o2), StykkeRel(p, p1)];
    assert Kept(q[1..][1..], keys) == [];
    assert Kept(q[1..], keys) == [StykkeRel(o, o2)];
  }

  lemma DemoNodeTypes(nodes: map<string, Node>, order: seq<string>)
    requires |order| == 4 && forall k :: k in order ==> k in nodes
    requires nodes[order[0]].entityType == "paragraph"
    requires forall i :: 1 <= i < 4 ==> nodes[order[i]].entityType == "stykke"
    ensures TypeCounts(NodeTypes(nodes, order)) == [("paragraph", 1), ("stykke", 3)]
  {
    var ts := NodeTypes(nodes, order);
    assert ts == ["paragraph", "stykke", "stykke", "stykke"];
    assert "paragraph"[0] != "stykke"[0];
    var c1 := [("paragraph", 1)];
    var c2 := c1 + [("stykke", 1)];
    var c3 := [("paragraph", 1), ("stykke", 2)];
    assert ts[..1][..0] == [];
    assert TypeCounts(ts[..1]) == c1;
    assert ts[..2][..1] == ts[..1];
    assert TypeCounts(ts[..2]) == c2;
    assert ts[..3][..2] == ts[..2];
    assert c2[1].0 == "stykke" && c2[..1] == c1;
    assert TypeCounts(ts[..3]) == Inc(c2, "stykke") == c3;
    assert ts[..3] == ts[..|ts| - 1];
    assert c3[1].0 == "stykke" && c3[..1] == c1;
  }

  /** Finalizing the demonstration graph materialises the two relations inside paragraph `o`. */
  method FinalizeDemo(g: EnhancedTaxLawGraph, o: string, o1: string, o2: string, p: string, p1: string) returns (count: nat)
    requires DemoIds(o, o1, o2, p, p1) && g.Valid() && g.order == [o, o1, o2, p1]
    requires g.edges == [] && g.queue == [StykkeRel(o, o1), StykkeRel(o, o2), StykkeRel(p, p1)]
    modifies g
    ensures g.Valid() && count == 2
    ensures g.nodes == old(g.nodes) && g.order == old(g.order)
    ensures g.edges == RelEdges([StykkeRel(o, o1), StykkeRel(o, o2)])
  {
    DemoKept(o, o1, o2, p, p1, g.nodes.Keys);
    count := g.FinalizeHierarchicalRelations();
    assert [] + RelEdges([StykkeRel(o, o1), StykkeRel(o, o2)]) == RelEdges([StykkeRel(o, o1), StykkeRel(o, o2)]);
  }

  /** Two hierarchical edges followed by two content edges hold two auto-generated edges. */
  lemma DemoAutoCount(edges: seq<Edge>, q: seq<Relation>, c1: Edge, c2: Edge)
    requires edges == RelEdges(q) + [c1] + [c2] && !c1.autoGenerated && !c2.autoGenerated
    ensures AutoCount(edges) == |q|
  {
    AutoCountRelEdges([], q);
    assert [] + RelEdges(q) == RelEdges(q);
    AutoCountAppend(RelEdges(q), c1);
    AutoCountAppend(RelEdges(q) + [c1], c2);
  }

  /**
   * The demonstration with its ids as parameters: two of the three queued
   * relations are finalized, two content relations are added, and the
   * statistics count four nodes (one paragraph, three stykker) and four
   * edges, two of each kind.
   */
  method RunDemo(o: string, o1: string, o2: string, p: string, p1: string, c: string, c1: string, c2: string, c3: string)
    returns (count: nat, stats: Stats)
    requires DemoIds(o, o1, o2, p, p1) && o != [] && p != []
    ensures count == 2
    ensures stats == Stats(4, 4, 2, 2, [("paragraph", 1), ("stykke", 3)])
  {
    var g := BuildDemoGraph(o, o1, o2, p, p1, c, c1, c2, c3);
    count := FinalizeDemo(g, o, o1, o2, p, p1);
    var e1 := "Begge stykker omhandler bundfradrag beregning";
    var e2 := "Valgmulighed: bundfradrag eller faktiske udgifter";
    g.AddRelation(o1, p1, "conceptual", 90, e1);
    g.AddRelation(o1, o2, "alternative", 95, e2);
    stats := DemoStatistics(g, o, o1, o2, p, p1, [StykkeRel(o, o1), StykkeRel(o, o2)],
      Edge(o1, p1, "conceptual", 90, None, e1, None, false, None), Edge(o1, o2, "alternative", 95, None, e2, None, false, None));
  }

  /** The statistics of a four-entity graph holding two hierarchical and two content edges. */
  method DemoStatistics(g: EnhancedTaxLawGraph, o: string, o1: string, o2: string, p: string, p1: string,
                        q: seq<Relation>, c1: Edge, c2: Edge) returns (stats: Stats)
    requires DemoIds(o, o1, o2, p, p1) && g.Valid() && g.order == [o, o1, o2, p1] && |q| == 2
    requires g.nodes[o].entityType == "paragraph"
    requires g.nodes[o1].entityType == "stykke" && g.nodes[o2].entityType == "stykke" && g.nodes[p1].entityType == "stykke"
    requires g.edges == RelEdges(q) + [c1] + [c2] && !c1.autoGenerated && !c2.autoGenerated
    ensures stats == Stats(4, 4, 2, 2, [("paragraph", 1), ("stykke", 3)])
  {
    DemoNodeTypes(g.nodes, g.order);
    EnhancedGraph.DistinctKeysCount(g.nodes, g.order);
    DemoAutoCount(g.edges, q, c1, c2);
    stats := g.GetStatistics();
  }

  /** `demo_problem_and_solution` with its own ids (`\U{A7}` is the section sign). */
  method DemoProblemAndSolution() returns (count: nat, stats: Stats)
    ensures count == 2
    ensures stats == Stats(4, 4, 2, 2, [("paragraph", 1), ("stykke", 3)])
  {
    assert DemoIds("\U{A7}15O", "\U{A7}15O, stk. 1", "\U{A7}15O, stk. 2", "\U{A7}15P", "\U{A7}15P, stk. 1") by {
      assert "\U{A7}15O"[3] != "\U{A7}15P"[3];
      assert "\U{A7}15O, stk. 1"[11] != "\U{A7}15O, stk. 2"[11];
      assert "\U{A7}15O, stk. 1"[3] != "\U{A7}15P, stk. 1"[3];
      assert "\U{A7}15O, stk. 2"[3] != "\U{A7}15P, stk. 1"[3];
    }
    count, stats := RunDemo("\U{A7}15O", "\U{A7}15O, stk. 1", "\U{A7}15O, stk. 2", "\U{A7}15P", "\U{A7}15P, stk. 1",
      "Hovedparagraf om fritidsbolig bundfradrag...",
      "Bundfradrag beregnes som standardfradrag...",
      "Alternativt kan skatteyder v\U{00E6}lge faktiske udgifter...",
      "For hel\U{00E5}rsboliger beregnes bundfradrag som...");
  }
}

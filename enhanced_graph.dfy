/**
 * `EnhancedTaxLawGraph` (graph_retriever/enhanced_graph_retriever_strategy.py):
 * legal entities at paragraph, stykke and nummer granularity, hierarchical
 * relations queued as entities arrive and materialised as edges by
 * `finalize_hierarchical_relations`, content relations appended directly,
 * and the depth-bounded walk, hierarchy query and statistics over them.
 */
module EnhancedGraph {
  import opened Strings
  import opened GraphRecords
  import Walks

  /** A node record; the constant `type`, `embedding` and timestamp keys are not kept. */
  datatype Node = Node(
    id: string,
    content: string,
    law: string,
    chapter: string,
    section: string,
    paragraph: string,
    stk: string,
    nr: string,
    entityType: string,
    parentParagraph: string,
    granularityLevel: nat,
    title: string,
    status: string)

  /** `_determine_granularity_level`: paragraph 1, stykke 2, nummer 3, anything else 0. */
  function GranularityLevel(entityType: string): (r: nat)
    ensures r <= 3
    ensures r == 1 <==> entityType == "paragraph"
    ensures r == 2 <==> entityType == "stykke"
    ensures r == 3 <==> entityType == "nummer"
  {
    if entityType == "paragraph" then 1
    else if entityType == "stykke" then 2
    else if entityType == "nummer" then 3
    else 0
  }

  /** The node `add_legal_entity_node` stores for `id`. */
  function NodeOf(law: string, id: string, content: string, m: Meta): Node
  {
    Node(id, content, law, Get(m.chapter, ""), Get(m.section, ""), ParagraphNumber(m),
      Get(m.stykkeNumber, Get(m.stk, "")), Get(m.nummer, Get(m.nr, "")), EntityType(m),
      Get(m.parentParagraph, ""), GranularityLevel(EntityType(m)), Get(m.title, id),
      Get(m.status, "g\U{00E6}ldende"))
  }

  function Explanation(source: string, target: string): string
  {
    "Hierarkisk relation: " + source + " indeholder " + target
  }

  /** A stykke or nummer with a parent paragraph is contained in that parent. */
  predicate ParentRule(m: Meta)
  {
    (EntityType(m) == "stykke" || EntityType(m) == "nummer") && Truthy(m.parentParagraph)
  }

  /** A nummer with a stykke number and a paragraph number is contained in that stykke. */
  predicate StkRule(m: Meta)
  {
    EntityType(m) == "nummer" && Truthy(m.stykkeNumber) && ParagraphNumber(m) != []
  }

  /** The relations `_queue_hierarchical_relations` queues for entity `id`. */
  function QueuedFor(id: string, m: Meta): (r: seq<Relation>)
    ensures |r| <= 2
    ensures forall x :: x in r ==> x.target == id && x.explanation == Explanation(x.source, id)
    ensures EntityType(m) != "stykke" && EntityType(m) != "nummer" ==> r == []
    ensures ParentRule(m) <==> (r != [] && r[0].subtype == EntityType(m))
    ensures ParentRule(m) ==> r[0].source == m.parentParagraph.value
    ensures StkRule(m) <==> (r != [] && r[|r| - 1].subtype == "stk_to_nr")
    ensures StkRule(m) ==> r[|r| - 1].source == StkId(ParagraphNumber(m), m.stykkeNumber.value)
  {
    var parent := if ParentRule(m) then
        var p := m.parentParagraph.value;
        [Relation(p, id, EntityType(m), Explanation(p, id))]
      else [];
    var stk := if StkRule(m) then
        var s := StkId(ParagraphNumber(m), m.stykkeNumber.value);
        [Relation(s, id, "stk_to_nr", Explanation(s, id))]
      else [];
    parent + stk
  }

  /** The edge `finalize_hierarchical_relations` appends for a kept relation. */
  function HierEdge(law: string, x: Relation): Edge
  {
    Edge(x.source, x.target, "hierarchical", 100, Some(100), x.explanation, Some(law), true, Some(x.subtype))
  }

  function HierEdges(law: string, q: seq<Relation>): (r: seq<Edge>)
    ensures |r| == |q|
    ensures forall i :: 0 <= i < |q| ==>
      r[i].source == q[i].source && r[i].target == q[i].target && r[i].autoGenerated && r[i].relType == "hierarchical"
  {
    seq(|q|, i requires 0 <= i < |q| => HierEdge(law, q[i]))
  }

  lemma HierEdgesAppend(law: string, q: seq<Relation>, x: Relation)
    ensures HierEdges(law, q + [x]) == HierEdges(law, q) + [HierEdge(law, x)]
  {
    assert forall i :: 0 <= i < |q| ==> (q + [x])[i] == q[i];
  }

  /** The loop of `finalize_hierarchical_relations` over the queue. */
  method KeepResolvable(law: string, pending: seq<Relation>, keys: set<string>, edges: seq<Edge>)
    returns (finalized: seq<Relation>, appended: seq<Edge>)
    ensures finalized == Kept(pending, keys)
    ensures appended == edges + HierEdges(law, finalized)
  {
    finalized, appended := [], edges;
    for i := 0 to |pending|
      invariant finalized == Kept(pending[..i], keys)
      invariant appended == edges + HierEdges(law, finalized)
    {
      var relation := pending[i];
      KeptPrefix(pending, i, keys);
      if relation.source in keys && relation.target in keys {
        HierEdgesAppend(law, finalized, relation);
        finalized := finalized + [relation];
        appended := appended + [HierEdge(law, relation)];
      }
    }
    assert pending[..|pending|] == pending;
  }

  /** Finalizing a second time keeps the same relations but appends their edges again. */
  lemma FinalizeNotIdempotent(law: string, q: seq<Relation>, keys: set<string>, edges: seq<Edge>)
    ensures |Kept(Kept(q, keys), keys)| == |Kept(q, keys)|
    ensures var once := edges + HierEdges(law, Kept(q, keys));
      var twice := once + HierEdges(law, Kept(Kept(q, keys), keys));
      |twice| == |once| + |Kept(q, keys)| && (Kept(q, keys) != [] ==> twice != once)
  {
    KeptIdempotent(q, keys);
  }

  /** The edge list as the walk sees it: auto-generated edges are skipped unless `includeHierarchical`. */
  function Links(edges: seq<Edge>, includeHierarchical: bool): (r: seq<Walks.Link>)
    ensures |r| == |edges|
    ensures forall i :: 0 <= i < |edges| ==> r[i].source == edges[i].source && r[i].target == edges[i].target
    ensures forall i :: 0 <= i < |edges| ==> (r[i].usable <==> includeHierarchical || !edges[i].autoGenerated)
  {
    seq(|edges|, i requires 0 <= i < |edges| => Walks.Link(edges[i].source, edges[i].target, includeHierarchical || !edges[i].autoGenerated))
  }

  /** The result of `get_entity_hierarchy`. */
  datatype Hierarchy = Hierarchy(entity: string, entityType: string, level: nat, parent: string, children: seq<string>)

  predicate IsChildEdge(e: Edge, id: string)
  {
    e.source == id && e.autoGenerated && e.relType == "hierarchical"
  }

  /** The targets of the auto-generated hierarchical edges leaving `id`, in edge order. */
  function Children(edges: seq<Edge>, id: string): (r: seq<string>)
    ensures |r| <= |edges|
    ensures forall c :: c in r <==> exists e :: e in edges && IsChildEdge(e, id) && e.target == c
  {
    if edges == [] then []
    else
      var init := edges[..|edges| - 1];
      var last := edges[|edges| - 1];
      assert forall e :: e in edges <==> e in init || e == last;
      Children(init, id) + (if IsChildEdge(last, id) then [last.target] else [])
  }

  /** The entity types of the nodes, in node order. */
  function NodeTypes(nodes: map<string, Node>, order: seq<string>): (r: seq<string>)
    requires forall k :: k in order ==> k in nodes
    ensures |r| == |order|
  {
    seq(|order|, i requires 0 <= i < |order| => nodes[order[i]].entityType)
  }

  /** The result of `get_statistics`, without the floating-point average. */
  datatype Stats = Stats(
    totalNodes: nat,
    totalEdges: nat,
    hierarchicalEdges: nat,
    contentEdges: int,
    nodeTypes: Counts,
    lawName: string)

  class EnhancedTaxLawGraph {
    const lawName: string
    var nodes: map<string, Node>
    /** The keys of `nodes` in insertion order, as the dict iterates them. */
    var order: seq<string>
    var edges: seq<Edge>
    /** `hierarchical_relations`: the queue, replaced by the kept relations on finalize. */
    var queue: seq<Relation>

    ghost predicate Valid()
      reads this
    {
      && (forall k :: k in nodes <==> k in order)
      && (forall i, j :: 0 <= i < j < |order| ==> order[i] != order[j])
      && (forall k :: k in nodes ==> nodes[k].id == k)
    }

    constructor (lawName: string)
      ensures Valid()
      ensures this.lawName == lawName && nodes == map[] && order == [] && edges == [] && queue == []
    {
      this.lawName := lawName;
      nodes, order, edges, queue := map[], [], [], [];
    }

    /** Stores (or overwrites) the node for `entityId` and queues its hierarchical relations. */
    method AddLegalEntityNode(entityId: string, content: string, m: Meta)
      requires Valid()
      modifies this
      ensures Valid()
      ensures nodes == old(nodes)[entityId := NodeOf(lawName, entityId, content, m)]
      ensures order == if entityId in old(nodes) then old(order) else old(order) + [entityId]
      ensures edges == old(edges)
      ensures queue == old(queue) + QueuedFor(entityId, m)
    {
      if entityId !in nodes {
        order := order + [entityId];
      }
      nodes := nodes[entityId := NodeOf(lawName, entityId, content, m)];
      QueueHierarchicalRelations(entityId, m);
    }

    /** `_queue_hierarchical_relations`. */
    method QueueHierarchicalRelations(entityId: string, m: Meta)
      modifies this
      ensures queue == old(queue) + QueuedFor(entityId, m)
      ensures nodes == old(nodes) && order == old(order) && edges == old(edges)
    {
      var entityType := Get(m.entityType, "paragraph");
      var parent := Get(m.parentParagraph, "");
      if (entityType == "stykke" || entityType == "nummer") && parent != [] {
        queue := queue + [Relation(parent, entityId, entityType, Explanation(parent, entityId))];
      }
      if entityType == "nummer" {
        var paragraphNum := Get(m.paragraphNumber, Get(m.paragraph, ""));
        if m.stykkeNumber.Some? && m.stykkeNumber.value != [] && paragraphNum != [] {
          var stkId := StkId(paragraphNum, m.stykkeNumber.value);
          queue := queue + [Relation(stkId, entityId, "stk_to_nr", Explanation(stkId, entityId))];
        }
      }
    }

    /**
     * Appends an edge for every queued relation whose endpoints are both
     * nodes, keeps exactly those relations in the queue and returns their
     * number.
     */
    method FinalizeHierarchicalRelations() returns (count: nat)
      requires Valid()
      modifies this
      ensures Valid()
      ensures nodes == old(nodes) && order == old(order)
      ensures queue == Kept(old(queue), nodes.Keys)
      ensures edges == old(edges) + HierEdges(lawName, queue)
      ensures count == |queue|
    {
      var finalized, appended := KeepResolvable(lawName, queue, nodes.Keys, edges);
      edges := appended;
      queue := finalized;
      count := |finalized|;
    }

    /** Appends one content edge; neither a self-loop nor an unknown endpoint is refused. */
    method AddRelation(source: string, target: string, relationType: string, strength: int,
                       explanation: string, confidence: int := 80)
      requires Valid()
      modifies this
      ensures Valid()
      ensures edges == old(edges) + [Edge(source, target, relationType, strength, Some(confidence), explanation, Some(lawName), false, None)]
      ensures nodes == old(nodes) && order == old(order) && queue == old(queue)
    {
      edges := edges + [Edge(source, target, relationType, strength, Some(confidence), explanation, Some(lawName), false, None)];
    }

    /**
     * `get_related_entities`: the ids met by the FIFO walk from `entityId`,
     * expanding entries of depth below `maxDepth` and skipping
     * auto-generated edges unless `includeHierarchical`.
     */
    method GetRelatedEntities(entityId: string, maxDepth: int := 2, includeHierarchical: bool := true)
      returns (related: set<string>)
      ensures related == Walks.Reach(Links(edges, includeHierarchical), entityId, Walks.Budget(maxDepth, 0))
      ensures related <= Walks.Endpoints(Links(edges, includeHierarchical))
      ensures maxDepth <= 0 ==> related == {}
    {
      related := Walks.Explore(Links(edges, includeHierarchical), entityId, maxDepth);
      Walks.ReachInEndpoints(Links(edges, includeHierarchical), entityId, Walks.Budget(maxDepth, 0));
    }

    /** `get_entity_hierarchy`: `None` for an unknown id, else the node's level, parent and children. */
    method GetEntityHierarchy(entityId: string) returns (h: Option<Hierarchy>)
      ensures entityId !in nodes <==> h.None?
      ensures h.Some? ==> h.value == Hierarchy(entityId, nodes[entityId].entityType,
        nodes[entityId].granularityLevel, nodes[entityId].parentParagraph, Children(edges, entityId))
    {
      if entityId !in nodes {
        return None;
      }
      var node := nodes[entityId];
      var children: seq<string> := [];
      for i := 0 to |edges|
        invariant children == Children(edges[..i], entityId)
      {
        assert edges[..i + 1][..i] == edges[..i];
        if edges[i].source == entityId && edges[i].autoGenerated && edges[i].relType == "hierarchical" {
          children := children + [edges[i].target];
        }
      }
      assert edges[..|edges|] == edges;
      h := Some(Hierarchy(entityId, node.entityType, node.granularityLevel, node.parentParagraph, children));
    }

    /**
     * `get_statistics`: hierarchical and content edges add up to all edges,
     * and the node-type table counts every node once.
     */
    method GetStatistics() returns (s: Stats)
      requires Valid()
      ensures s.totalNodes == |nodes| && s.totalEdges == |edges|
      ensures s.hierarchicalEdges == AutoCount(edges)
      ensures s.hierarchicalEdges + s.contentEdges == s.totalEdges
      ensures s.nodeTypes == TypeCounts(NodeTypes(nodes, order))
      ensures KeysDistinct(s.nodeTypes) && Total(s.nodeTypes) == s.totalNodes
      ensures forall t :: CountOf(s.nodeTypes, t) == Occurrences(NodeTypes(nodes, order), t)
    {
      var hierarchical := 0;
      for i := 0 to |edges|
        invariant hierarchical == AutoCount(edges[..i])
      {
        assert edges[..i + 1] == edges[..i] + [edges[i]];
        AutoCountAppend(edges[..i], edges[i]);
        if edges[i].autoGenerated {
          hierarchical := hierarchical + 1;
        }
      }
      assert edges[..|edges|] == edges;
      var nodeTypes: Counts := [];
      for i := 0 to |order|
        invariant nodeTypes == TypeCounts(NodeTypes(nodes, order)[..i])
      {
        assert NodeTypes(nodes, order)[..i + 1][..i] == NodeTypes(nodes, order)[..i];
        nodeTypes := Bump(nodeTypes, nodes[order[i]].entityType);
      }
      assert NodeTypes(nodes, order)[..|order|] == NodeTypes(nodes, order);
      TypeCountsFacts(NodeTypes(nodes, order));
      DistinctKeysCount(nodes, order);
      s := Stats(|nodes|, |edges|, hierarchical, |edges| - hierarchical, nodeTypes, lawName);
    }
  }

  /** A duplicate-free listing of a map's keys is as long as the map. */
  lemma DistinctKeysCount<V>(m: map<string, V>, order: seq<string>)
    requires forall k :: k in m <==> k in order
    requires forall i, j :: 0 <= i < j < |order| ==> order[i] != order[j]
    ensures |m| == |order|
  {
    assert m.Keys == set k | k in order;
    DistinctSetSize(order);
  }

  lemma {:induction false} DistinctSetSize(s: seq<string>)
    requires forall i, j :: 0 <= i < j < |s| ==> s[i] != s[j]
    ensures |set k | k in s| == |s|
    decreases |s|
  {
    if s != [] {
      var init := s[..|s| - 1];
      DistinctSetSize(init);
      assert (set k | k in s) == (set k | k in init) + {s[|s| - 1]};
      assert s[|s| - 1] !in (set k | k in init);
    }
  }

  // ---------------------------------------------------------------------------
  // The demonstration data of `demo_enhanced_graph_with_real_data`.

  function ParagraphMeta(p: string, id: string): Meta
  {
    Meta(Some("paragraph"), Some(p), None, None, None, None, None, None,
      Some("Ligningsloven"), Some(id), Some(id), Some("g\U{00E6}ldende"))
  }

  function StykkeMeta(p: string, s: string, parent: string, id: string): Meta
  {
    Meta(Some("stykke"), Some(p), None, Some(s), None, None, None, Some(parent),
      None, None, Some(id), Some("g\U{00E6}ldende"))
  }

  /** The parent relation queued for stykke `id` of paragraph `idP`. */
  function StykkeRel(idP: string, id: string): Relation
  {
    Relation(idP, id, "stykke", Explanation(idP, id))
  }

  /** Adds one stykke of paragraph `idP`: one node and one queued parent relation. */
  method AddDemoStykke(g: EnhancedTaxLawGraph, p: string, s: string, idP: string, id: string, content: string)
    requires g.Valid() && idP != []
    modifies g
    ensures g.Valid()
    ensures id in g.nodes && forall k :: k in old(g.nodes) ==> k in g.nodes
    ensures g.edges == old(g.edges)
    ensures g.queue == old(g.queue) + [StykkeRel(idP, id)]
  {
    assert QueuedFor(id, StykkeMeta(p, s, idP, id)) == [StykkeRel(idP, id)];
    g.AddLegalEntityNode(id, content, StykkeMeta(p, s, idP, id));
  }

  /** Adds one paragraph node, which queues nothing, and its two stykker. */
  method AddDemoParagraph(g: EnhancedTaxLawGraph, p: string, id: string, id1: string, id2: string,
                          content: string, content1: string, content2: string)
    requires g.Valid() && id != []
    modifies g
    ensures g.Valid()
    ensures id in g.nodes && id1 in g.nodes && id2 in g.nodes && forall k :: k in old(g.nodes) ==> k in g.nodes
    ensures g.edges == old(g.edges)
    ensures g.queue == old(g.queue) + [StykkeRel(id, id1), StykkeRel(id, id2)]
  {
    assert QueuedFor(id, ParagraphMeta(p, id)) == [];
    g.AddLegalEntityNode(id, content, ParagraphMeta(p, id));
    ghost var q0 := g.queue;
    AddDemoStykke(g, p, "1", id, id1, content1);
    AddDemoStykke(g, p, "2", id, id2, content2);
    AppendTwo(q0, StykkeRel(id, id1), StykkeRel(id, id2));
  }

  lemma AppendTwo(q: seq<Relation>, a: Relation, b: Relation)
    ensures q + [a] + [b] == q + [a, b]
  {
  }

  /** The six demonstration ids are pairwise different. */
  ghost predicate DemoIds(o: string, o1: string, o2: string, p: string, p1: string, p2: string)
  {
    && o != o1 && o != o2 && o != p && o != p1 && o != p2
    && o1 != o2 && o1 != p && o1 != p1 && o1 != p2
    && o2 != p && o2 != p1 && o2 != p2
    && p != p1 && p != p2
    && p1 != p2
  }

  /** The walk over the demonstration's seven edges, at one and at two levels. */
  lemma DemoReach(links: seq<Walks.Link>, o: string, o1: string, o2: string, p: string, p1: string, p2: string)
    requires DemoIds(o, o1, o2, p, p1, p2)
    requires links == DemoLinks7(o, o1, o2, p, p1, p2)
    ensures Walks.Reach(links, o1, 2) == {o, o1, o2, p, p1, p2}
  {
    assert Walks.Reach(links, o, 1) == {o1, o2} by {
      assert Walks.From(links, 7, o, 1) == {};
      assert Walks.From(links, 6, o, 1) == {};
      assert Walks.From(links, 5, o, 1) == {};
      assert Walks.From(links, 4, o, 1) == {};
      assert Walks.From(links, 3, o, 1) == {};
      assert Walks.From(links, 2, o, 1) == {};
      assert Walks.From(links, 1, o, 1) == {o2};
      assert Walks.From(links, 0, o, 1) == {o1, o2};
    }
    assert Walks.Reach(links, p1, 1) == {o1, p, p2} by {
      assert Walks.From(links, 7, p1, 1) == {};
      assert Walks.From(links, 6, p1, 1) == {p2};
      assert Walks.From(links, 5, p1, 1) == {p2};
      assert Walks.From(links, 4, p1, 1) == {o1, p2};
      assert Walks.From(links, 3, p1, 1) == {o1, p2};
      assert Walks.From(links, 2, p1, 1) == {o1, p, p2};
      assert Walks.From(links, 1, p1, 1) == {o1, p, p2};
      assert Walks.From(links, 0, p1, 1) == {o1, p, p2};
    }
    assert Walks.Reach(links, o2, 1) == {o, o1} by {
      assert Walks.From(links, 7, o2, 1) == {};
      assert Walks.From(links, 6, o2, 1) == {};
      assert Walks.From(links, 5, o2, 1) == {o1};
      assert Walks.From(links, 4, o2, 1) == {o1};
      assert Walks.From(links, 3, o2, 1) == {o1};
      assert Walks.From(links, 2, o2, 1) == {o1};
      assert Walks.From(links, 1, o2, 1) == {o, o1};
      assert Walks.From(links, 0, o2, 1) == {o, o1};
    }
    assert Walks.From(links, 7, o1, 2) == {};
    assert Walks.From(links, 6, o1, 2) == {};
    assert Walks.From(links, 5, o1, 2) == {o, o1, o2};
    assert Walks.From(links, 4, o1, 2) == {o, o1, o2, p, p1, p2};
    assert Walks.From(links, 3, o1, 2) == {o, o1, o2, p, p1, p2};
    assert Walks.From(links, 2, o1, 2) == {o, o1, o2, p, p1, p2};
    assert Walks.From(links, 1, o1, 2) == {o, o1, o2, p, p1, p2};
    assert Walks.From(links, 0, o1, 2) == {o, o1, o2, p, p1, p2};
  }

  function DemoQueue(o: string, o1: string, o2: string, p: string, p1: string, p2: string): seq<Relation>
  {
    [StykkeRel(o, o1), StykkeRel(o, o2),
     StykkeRel(p, p1), StykkeRel(p, p2)]
  }

  /** The six demonstration entities: two paragraphs with two stykker each. */
  method BuildDemoGraph(o: string, o1: string, o2: string, p: string, p1: string, p2: string)
    returns (g: EnhancedTaxLawGraph)
    requires o != [] && p != []
    ensures fresh(g) && g.Valid()
    ensures o in g.nodes && o1 in g.nodes && o2 in g.nodes && p in g.nodes && p1 in g.nodes && p2 in g.nodes
    ensures g.lawName == "Ligningsloven"
    ensures g.edges == [] && g.queue == DemoQueue(o, o1, o2, p, p1, p2)
  {
    g := new EnhancedTaxLawGraph("Ligningsloven");
    AddDemoParagraph(g, "15O", o, o1, o2,
      "Ved opg\U{00F8}relsen af den skattepligtige indkomst...",
      "Bundfradrag ved opg\U{00F8}relse af ejendomsv\U{00E6}rdiskat...",
      "Alternativt kan skatteyder v\U{00E6}lge faktiske udgifter...");
    AddDemoParagraph(g, "15P", p, p1, p2,
      "Ved opg\U{00F8}relsen af den skattepligtige indkomst for hel\U{00E5}rsboliger...",
      "Bundfradrag for hel\U{00E5}rsboliger beregnes som...",
      "S\U{00E6}rlige regler g\U{00E6}lder for ejendomme erhvervet efter...");
    DemoQueueSplit(o, o1, o2, p, p1, p2);
  }

  lemma DemoQueueSplit(o: string, o1: string, o2: string, p: string, p1: string, p2: string)
    ensures [] + [StykkeRel(o, o1), StykkeRel(o, o2)] + [StykkeRel(p, p1), StykkeRel(p, p2)] == DemoQueue(o, o1, o2, p, p1, p2)
  {
  }

  function DemoLinks7(o: string, o1: string, o2: string, p: string, p1: string, p2: string): seq<Walks.Link>
  {
    [Walks.Link(o, o1, true), Walks.Link(o, o2, true), Walks.Link(p, p1, true), Walks.Link(p, p2, true),
     Walks.Link(o1, p1, true), Walks.Link(o1, o2, true), Walks.Link(p1, p2, true)]
  }

  lemma DemoLinks(edges: seq<Edge>, o: string, o1: string, o2: string, p: string, p1: string, p2: string, e4: Edge, e5: Edge, e6: Edge)
    requires edges == HierEdges("Ligningsloven", DemoQueue(o, o1, o2, p, p1, p2)) + [e4, e5, e6]
    requires e4.source == o1 && e4.target == p1
    requires e5.source == o1 && e5.target == o2
    requires e6.source == p1 && e6.target == p2
    ensures Links(edges, true) == DemoLinks7(o, o1, o2, p, p1, p2)
  {
  }

  /** Finalizing the demonstration graph turns all four queued relations into edges. */
  method FinalizeDemo(g: EnhancedTaxLawGraph, o: string, o1: string, o2: string, p: string, p1: string, p2: string)
    returns (count: nat)
    requires g.Valid() && g.lawName == "Ligningsloven"
    requires o in g.nodes && o1 in g.nodes && o2 in g.nodes && p in g.nodes && p1 in g.nodes && p2 in g.nodes
    requires g.edges == [] && g.queue == DemoQueue(o, o1, o2, p, p1, p2)
    modifies g
    ensures g.Valid()
    ensures count == 4 && g.edges == HierEdges("Ligningsloven", DemoQueue(o, o1, o2, p, p1, p2))
  {
    KeptAll(g.queue, g.nodes.Keys);
    count := g.FinalizeHierarchicalRelations();
    assert [] + HierEdges("Ligningsloven", g.queue) == HierEdges("Ligningsloven", g.queue);
  }

  /**
   * The demonstration with its six entity ids as parameters: the entities
   * finalized, then three content relations, then the depth-2 walk from the
   * first stykke.
   */
  method RunDemo(o: string, o1: string, o2: string, p: string, p1: string, p2: string)
    returns (finalized: nat, related: set<string>)
    requires DemoIds(o, o1, o2, p, p1, p2)
    requires o != [] && p != []
    ensures finalized == 4
    ensures related == {o, o1, o2, p, p1, p2}
  {
    var g := BuildDemoGraph(o, o1, o2, p, p1, p2);
    finalized := FinalizeDemo(g, o, o1, o2, p, p1, p2);
    g.AddRelation(o1, p1, "conceptual", 90, "Begge stykker omhandler bundfradrag beregning", 95);
    g.AddRelation(o1, o2, "alternative", 95, "Valgmulighed mellem bundfradrag og faktiske udgifter", 98);
    g.AddRelation(p1, p2, "procedural", 80, "S\U{00E6}rlige regler f\U{00F8}lger efter hovedregel", 85);
    DemoLinks(g.edges, o, o1, o2, p, p1, p2, g.edges[4], g.edges[5], g.edges[6]);
    related := g.GetRelatedEntities(o1, 2);
    DemoReach(Links(g.edges, true), o, o1, o2, p, p1, p2);
  }

  /**
   * `demo_enhanced_graph_with_real_data`: finalize returns 4, and the
   * depth-2 walk from the first stykke of paragraph 15 O returns six ids, the seed among them
   * (`\U{A7}` is the section sign).
   */
  method DemoWithRealData() returns (finalized: nat, related: set<string>)
    ensures finalized == 4
    ensures related == {"\U{A7}15O", "\U{A7}15O, stk. 1", "\U{A7}15O, stk. 2", "\U{A7}15P", "\U{A7}15P, stk. 1", "\U{A7}15P, stk. 2"}
    ensures "\U{A7}15O, stk. 1" in related && |related| == 6
  {
    assert DemoIds("\U{A7}15O", "\U{A7}15O, stk. 1", "\U{A7}15O, stk. 2", "\U{A7}15P", "\U{A7}15P, stk. 1", "\U{A7}15P, stk. 2") by {
      assert "\U{A7}15O"[3] != "\U{A7}15P"[3];
      assert "\U{A7}15O, stk. 1"[3] != "\U{A7}15P, stk. 1"[3] && "\U{A7}15O, stk. 1"[11] != "\U{A7}15O, stk. 2"[11];
      assert "\U{A7}15O, stk. 2"[3] != "\U{A7}15P, stk. 2"[3] && "\U{A7}15P, stk. 1"[11] != "\U{A7}15P, stk. 2"[11];
      assert "\U{A7}15O, stk. 1"[3] != "\U{A7}15P, stk. 2"[3] && "\U{A7}15O, stk. 2"[3] != "\U{A7}15P, stk. 1"[3];
    }
    finalized, related := RunDemo("\U{A7}15O", "\U{A7}15O, stk. 1", "\U{A7}15O, stk. 2", "\U{A7}15P", "\U{A7}15P, stk. 1", "\U{A7}15P, stk. 2");
  }
}

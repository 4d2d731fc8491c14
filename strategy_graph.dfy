/**
 * `TaxLawGraph` (graph_retriever/graph_retriever_strategy.py): paragraph
 * nodes whose hierarchical relations are queued but never turned into
 * edges, content relations appended as edges, and the depth-bounded walk
 * with no visited set.
 */
module StrategyGraph {
  import opened Strings
  import opened GraphRecords
  import EnhancedGraph
  import Walks

  /** A node record; the constant `type` and `embedding` keys are not kept. */
  datatype Node = Node(
    id: string,
    content: string,
    law: string,
    chapter: Option<string>,
    section: Option<string>,
    paragraph: string,
    stk: string,
    nr: string,
    entityType: string,
    parentParagraph: string)

  function NodeOf(law: string, id: string, content: string, m: Meta): Node
  {
    Node(id, content, law, m.chapter, m.section, ParagraphNumber(m), Get(m.stykkeNumber, Get(m.stk, "")),
      Get(m.nummer, Get(m.nr, "")), EntityType(m), Get(m.parentParagraph, ""))
  }

  /**
   * An edge record: `strength` is whatever the caller passes (the validation
   * passes use "strong", "medium" and "weak"), and `score` is `None` until
   * the validation passes score the edge.
   */
  datatype GraphEdge = GraphEdge(
    source: string,
    target: string,
    relType: string,
    strength: string,
    explanation: string,
    law: string,
    score: Option<int>)

  /** The edges as undirected, always-usable links for the walk. */
  function Links(edges: seq<GraphEdge>): (r: seq<Walks.Link>)
    ensures |r| == |edges|
    ensures forall i :: 0 <= i < |edges| ==> r[i] == Walks.Link(edges[i].source, edges[i].target, true)
  {
    seq(|edges|, i requires 0 <= i < |edges| => Walks.Link(edges[i].source, edges[i].target, true))
  }

  ghost predicate Distinct(s: seq<string>)
  {
    forall i, j :: 0 <= i < j < |s| ==> s[i] != s[j]
  }

  /** What makes two edges duplicates of each other: source, target and type. */
  function EdgeKey(e: GraphEdge): (string, string, string)
  {
    (e.source, e.target, e.relType)
  }

  ghost predicate UniqueKeys(edges: seq<GraphEdge>)
  {
    forall i, j :: 0 <= i < j < |edges| ==> EdgeKey(edges[i]) != EdgeKey(edges[j])
  }

  /** Some edge joins `a` and `b`, in either direction and of any type. */
  predicate Joined(edges: seq<GraphEdge>, a: string, b: string)
  {
    exists k :: 0 <= k < |edges| && ((edges[k].source == a && edges[k].target == b) || (edges[k].source == b && edges[k].target == a))
  }

  class TaxLawGraph {
    const lawName: string
    var nodes: map<string, Node>
    /** The node ids in the order the dictionary first received them. */
    var order: seq<string>
    var edges: seq<GraphEdge>
    /**
     * `hierarchical_relations`. Every queued relation also carries this
     * graph's law name, which is constant and so not stored.
     */
    var queue: seq<Relation>

    /** `order` lists every node id once, in insertion order, and every node carries this graph's law. */
    ghost predicate Valid()
      reads this
    {
      (forall id :: id in nodes <==> id in order) && Distinct(order) &&
      (forall id :: id in nodes ==> nodes[id].law == lawName)
    }

    constructor (lawName: string)
      ensures Valid()
      ensures this.lawName == lawName && nodes == map[] && order == [] && edges == [] && queue == []
    {
      this.lawName := lawName;
      nodes, order, edges, queue := map[], [], [], [];
    }

    /**
     * `add_paragraph_node`: stores (or overwrites) the node and queues its
     * hierarchical relations by the same rules as the enhanced graph; the
     * edges are never touched, and nothing ever moves the queue into them.
     */
    method AddParagraphNode(paragraphId: string, content: string, m: Meta)
      requires Valid()
      modifies this
      ensures Valid()
      ensures nodes == old(nodes)[paragraphId := NodeOf(lawName, paragraphId, content, m)]
      ensures order == if paragraphId in old(nodes) then old(order) else old(order) + [paragraphId]
      ensures edges == old(edges)
      ensures queue == old(queue) + EnhancedGraph.QueuedFor(paragraphId, m)
    {
      if paragraphId !in nodes {
        order := order + [paragraphId];
      }
      nodes := nodes[paragraphId := NodeOf(lawName, paragraphId, content, m)];
      CreateHierarchicalRelations(paragraphId, m);
    }

    /** `_create_hierarchical_relations`. */
    method CreateHierarchicalRelations(paragraphId: string, m: Meta)
      modifies this
      ensures queue == old(queue) + EnhancedGraph.QueuedFor(paragraphId, m)
      ensures nodes == old(nodes) && order == old(order) && edges == old(edges)
    {
      var entityType := Get(m.entityType, "paragraph");
      var parent := Get(m.parentParagraph, "");
      if (entityType == "stykke" || entityType == "nummer") && parent != [] {
        queue := queue + [Relation(parent, paragraphId, entityType, EnhancedGraph.Explanation(parent, paragraphId))];
      }
      if entityType == "nummer" {
        var paragraphNum := Get(m.paragraphNumber, Get(m.paragraph, ""));
        if m.stykkeNumber.Some? && m.stykkeNumber.value != [] && paragraphNum != [] {
          var stkId := StkId(paragraphNum, m.stykkeNumber.value);
          queue := queue + [Relation(stkId, paragraphId, "stk_to_nr", EnhancedGraph.Explanation(stkId, paragraphId))];
        }
      }
    }

    /** `add_relation`: appends one unscored edge carrying this graph's law, whatever its endpoints. */
    method AddRelation(source: string, target: string, relationType: string, strength: string, explanation: string)
      modifies this
      ensures edges == old(edges) + [GraphEdge(source, target, relationType, strength, explanation, lawName, None)]
      ensures nodes == old(nodes) && order == old(order) && queue == old(queue)
    {
      edges := edges + [GraphEdge(source, target, relationType, strength, explanation, lawName, None)];
    }

    /**
     * `get_related_paragraphs`: exactly the ids at the end of a walk of 1 to
     * `maxDepth` edges from `paragraphId`, each edge crossed in either
     * direction; nothing for `maxDepth <= 0`, and the seed is not excluded.
     */
    method GetRelatedParagraphs(paragraphId: string, maxDepth: int := 2) returns (related: set<string>)
      ensures related == Walks.Reach(Links(edges), paragraphId, Walks.Budget(maxDepth, 0))
      ensures forall y :: y in related <==> Walks.Within(Links(edges), paragraphId, y, Walks.Budget(maxDepth, 0))
      ensures maxDepth <= 0 ==> related == {}
    {
      related := Walks.Explore(Links(edges), paragraphId, maxDepth);
      forall y ensures y in related <==> Walks.Within(Links(edges), paragraphId, y, Walks.Budget(maxDepth, 0)) {
        Walks.ReachIsWithin(Links(edges), paragraphId, y, Walks.Budget(maxDepth, 0));
      }
    }
  }

  /** With a depth of two or more, any edge at the seed brings the seed back. */
  lemma RelatedParagraphsHaveSeed(edges: seq<GraphEdge>, i: nat, paragraphId: string, maxDepth: int)
    requires i < |edges| && (edges[i].source == paragraphId || edges[i].target == paragraphId) && maxDepth >= 2
    ensures paragraphId in Walks.Reach(Links(edges), paragraphId, Walks.Budget(maxDepth, 0))
  {
    var links := Links(edges);
    assert Walks.Across(links[i], paragraphId).Some?;
    Walks.SeedReturned(links, i, paragraphId, Walks.Budget(maxDepth, 0));
  }
}

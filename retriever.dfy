/**
 * graph_retriever/graph_retriever.py: a `TaxLawGraph` whose adjacency lists
 * are cached until the next node or relation is added, a breadth-first
 * traversal with a visited set, and `GraphRetriever`, which widens search
 * results with the paragraphs related to them.
 *
 * Float scores are integer hundredths (0.6 is 60).
 */
module Retriever {
  import opened Strings
  import opened BreadthFirst

  /** `GraphRelation`; `score` defaults to 0 and is never read here. */
  datatype GraphRelation = GraphRelation(
    source: string,
    target: string,
    relationType: string,
    strength: string,
    explanation: string,
    score: int)

  /** A value in a search-result or metadata dictionary: only strings are told apart. */
  datatype Value = Str(s: string) | Num(n: int) | Dict(fields: map<string, Value>) | Other

  type SearchResult = map<string, Value>

  /** `GraphNode`. */
  datatype GraphNode = GraphNode(
    id: string,
    content: string,
    metadata: map<string, Value>,
    law: string,
    chapter: Option<string>,
    section: Option<string>)

  // ---------------------------------------------------------------------------
  // The adjacency cache

  /** One relation entered into the lists: its target after its source, its source after its target, where each has a list. */
  function Link(adj: Adjacency, r: GraphRelation): Adjacency
  {
    var a := if r.source in adj then adj[r.source := adj[r.source] + [r.target]] else adj;
    if r.target in a then a[r.target := a[r.target] + [r.source]] else a
  }

  /** `_build_adjacency_cache`: an empty list per node id, then the relations in order. */
  function AdjacencyOf(ids: set<string>, rels: seq<GraphRelation>): Adjacency
  {
    if rels == [] then map id | id in ids :: []
    else Link(AdjacencyOf(ids, rels[..|rels| - 1]), rels[|rels| - 1])
  }

  /** `r` joins `x` to `y`, in either direction. */
  predicate Touches(r: GraphRelation, x: string, y: string)
  {
    (r.source == x && r.target == y) || (r.target == x && r.source == y)
  }

  /**
   * The other end of every relation at `x`, in relation order; a relation
   * from `x` to itself contributes `x` twice.
   */
  function Ends(x: string, rels: seq<GraphRelation>): (r: seq<string>)
    ensures forall y :: y in r <==> exists i :: 0 <= i < |rels| && Touches(rels[i], x, y)
  {
    if rels == [] then []
    else
      var last := rels[|rels| - 1];
      var r := Ends(x, rels[..|rels| - 1]) + (if last.source == x then [last.target] else []) +
        (if last.target == x then [last.source] else []);
      assert forall i :: 0 <= i < |rels| - 1 ==> rels[..|rels| - 1][i] == rels[i];
      r
  }

  /** What one relation does to each list. */
  lemma LinkAt(adj: Adjacency, r: GraphRelation)
    ensures Link(adj, r).Keys == adj.Keys
    ensures forall x :: x in adj ==>
      Link(adj, r)[x] == adj[x] + (if r.source == x then [r.target] else []) + (if r.target == x then [r.source] else [])
  {
  }

  /** Each node id with the other ends of the relations at it. */
  function ByNode(ids: set<string>, rels: seq<GraphRelation>): Adjacency
  {
    map x | x in ids :: Ends(x, rels)
  }

  /** The cache built relation by relation is the per-node list of other ends. */
  lemma {:induction false} AdjacencyByNode(ids: set<string>, rels: seq<GraphRelation>)
    ensures AdjacencyOf(ids, rels) == ByNode(ids, rels)
    decreases |rels|
  {
    if rels != [] {
      var init := rels[..|rels| - 1];
      var last := rels[|rels| - 1];
      AdjacencyByNode(ids, init);
      LinkAt(ByNode(ids, init), last);
      var linked := Link(ByNode(ids, init), last);
      assert forall x :: x in ids ==> linked[x] == ByNode(ids, rels)[x];
      assert linked == ByNode(ids, rels);
    }
  }

  /** The neighbours in the cache: exactly the other ends of the relations at a node id. */
  lemma CacheNeighbours(ids: set<string>, rels: seq<GraphRelation>, x: string, y: string)
    ensures y in Neighbours(AdjacencyOf(ids, rels), x) <==> x in ids && exists i :: 0 <= i < |rels| && Touches(rels[i], x, y)
  {
    AdjacencyByNode(ids, rels);
  }

  /** The inner loop of `get_related_nodes`: queues each neighbour not yet visited. */
  method EnqueueUnvisited(queue: seq<(string, nat)>, neighbors: seq<string>, visited: set<string>, depth: nat)
    returns (toVisit: seq<(string, nat)>)
    ensures toVisit == Push(queue, neighbors, visited, depth)
  {
    toVisit := queue;
    for j := 0 to |neighbors|
      invariant toVisit == Push(queue, neighbors[..j], visited, depth)
    {
      assert neighbors[..j + 1][..j] == neighbors[..j];
      if neighbors[j] !in visited {
        toVisit := toVisit + [(neighbors[j], depth)];
      }
    }
    assert neighbors[..|neighbors|] == neighbors;
  }

  /**
   * Visiting the id at the front of the queue: it is marked visited,
   * collected when its depth is positive, and its unvisited neighbours are
   * queued one level deeper while the depth is below the limit.
   */
  method VisitFront(adj: Adjacency, maxDepth: int, queue: seq<(string, nat)>, visited: set<string>, related: seq<string>)
    returns (queue': seq<(string, nat)>, visited': set<string>, related': seq<string>)
    requires queue != []
    ensures queue' == Visited(adj, maxDepth, queue[0].1, queue, visited)
    ensures visited' == visited + {queue[0].0}
    ensures related' == if queue[0].1 > 0 then related + [queue[0].0] else related
  {
    var (currentId, depth) := queue[0];
    queue' := queue[1..];
    visited' := visited + {currentId};
    related' := related;
    if depth > 0 {
      related' := related' + [currentId];
    }
    if depth < maxDepth {
      queue' := EnqueueUnvisited(queue', Neighbours(adj, currentId), visited', depth + 1);
    }
  }

  /**
   * One pass of the traversal loop: pops the front of the queue and skips
   * it when already visited or beyond the limit, or visits it.
   */
  method Advance(adj: Adjacency, nodeId: string, maxDepth: int, ghost k: nat,
                 queue: seq<(string, nat)>, visited: set<string>, related: seq<string>)
    returns (ghost k': nat, queue': seq<(string, nat)>, visited': set<string>, related': seq<string>)
    requires BfsInv(adj, nodeId, maxDepth, k, queue, visited, related) && queue != []
    ensures BfsInv(adj, nodeId, maxDepth, k', queue', visited', related')
    ensures (visited' == visited && |queue'| < |queue|) ||
      (queue[0].0 !in visited && queue[0].0 in Universe(adj, nodeId) && visited' == visited + {queue[0].0})
    ensures visited' != visited ==> |Universe(adj, nodeId) - visited'| < |Universe(adj, nodeId) - visited|
  {
    k' := InvLevel(adj, nodeId, maxDepth, k, queue, visited, related);
    var (currentId, depth) := queue[0];
    if currentId in visited || depth > maxDepth {
      InvSkip(adj, nodeId, maxDepth, k', queue, visited, related);
      queue', visited', related' := queue[1..], visited, related;
    } else {
      InvVisit(adj, nodeId, maxDepth, k', queue, visited, related);
      queue', visited', related' := VisitFront(adj, maxDepth, queue, visited, related);
      Shrinks(Universe(adj, nodeId), visited, currentId);
    }
  }

  /** Visiting a new id of a finite universe leaves fewer ids to visit. */
  lemma Shrinks(universe: set<string>, visited: set<string>, x: string)
    requires x in universe && x !in visited
    ensures |universe - (visited + {x})| < |universe - visited|
  {
    assert universe - (visited + {x}) == (universe - visited) - {x};
  }

  /**
   * `get_related_nodes` on a built cache: a queue of (id, depth) pairs
   * popped from the front, skipping visited ids and depths beyond the limit,
   * collecting every id visited at a positive depth.
   */
  method RelatedNodes(adj: Adjacency, nodeId: string, maxDepth: int) returns (related: seq<string>)
    ensures Traversal(adj, nodeId, maxDepth, related)
  {
    var visited: set<string> := {};
    var toVisit: seq<(string, nat)> := [(nodeId, 0)];
    related := [];
    ghost var k: nat := 0;
    ghost var universe := Universe(adj, nodeId);
    InvInit(adj, nodeId, maxDepth);
    while toVisit != []
      invariant BfsInv(adj, nodeId, maxDepth, k, toVisit, visited, related)
      decreases |universe - visited|, |toVisit|
    {
      k, toVisit, visited, related := Advance(adj, nodeId, maxDepth, k, toVisit, visited, related);
    }
    InvDone(adj, nodeId, maxDepth, k, visited, related);
  }

  /** Every id within `k` steps of the seed, other than the seed, is the other end of a relation at a node. */
  lemma {:induction false} BallLinked(ids: set<string>, rels: seq<GraphRelation>, seed: string, k: nat, x: string)
    requires x in Ball(AdjacencyOf(ids, rels), seed, k) && x != seed
    ensures exists i, z :: 0 <= i < |rels| && z in ids && Touches(rels[i], z, x)
    decreases k
  {
    var adj := AdjacencyOf(ids, rels);
    if x in Ball(adj, seed, k - 1) {
      BallLinked(ids, rels, seed, k - 1, x);
    } else {
      var z :| z in Ball(adj, seed, k - 1) && x in Neighbours(adj, z);
      CacheNeighbours(ids, rels, z, x);
    }
  }

  class TaxLawGraph {
    const lawName: string
    var nodes: map<string, GraphNode>
    var relations: seq<GraphRelation>
    /** `_adjacency_cache`: absent, or the lists of the current nodes and relations. */
    var adjacencyCache: Option<Adjacency>

    ghost predicate Valid()
      reads this
    {
      adjacencyCache.Some? ==> adjacencyCache.value == AdjacencyOf(nodes.Keys, relations)
    }

    constructor (lawName: string)
      ensures Valid()
      ensures this.lawName == lawName && nodes == map[] && relations == [] && adjacencyCache == None
    {
      this.lawName := lawName;
      nodes, relations, adjacencyCache := map[], [], None;
    }

    /** `add_node`: stores (or overwrites) the node under its id and drops the cache. */
    method AddNode(node: GraphNode)
      modifies this
      ensures Valid()
      ensures nodes == old(nodes)[node.id := node] && relations == old(relations) && adjacencyCache == None
    {
      nodes := nodes[node.id := node];
      adjacencyCache := None;
    }

    /** `add_relation`: appends the relation, whatever its endpoints, and drops the cache. */
    method AddRelation(relation: GraphRelation)
      modifies this
      ensures Valid()
      ensures relations == old(relations) + [relation] && nodes == old(nodes) && adjacencyCache == None
    {
      relations := relations + [relation];
      adjacencyCache := None;
    }

    /** `_build_adjacency_cache`. */
    method BuildAdjacencyCache()
      modifies this
      ensures Valid()
      ensures adjacencyCache == Some(AdjacencyOf(nodes.Keys, relations))
      ensures nodes == old(nodes) && relations == old(relations)
    {
      var cache: Adjacency := map[];
      var pending := nodes.Keys;
      while pending != {}
        invariant pending <= nodes.Keys
        invariant cache == map id | id in nodes.Keys - pending :: []
        decreases pending
      {
        var id :| id in pending;
        cache := cache[id := []];
        pending := pending - {id};
      }
      for i := 0 to |relations|
        invariant cache == AdjacencyOf(nodes.Keys, relations[..i])
      {
        assert relations[..i + 1][..i] == relations[..i];
        var relation := relations[i];
        if relation.source in cache {
          cache := cache[relation.source := cache[relation.source] + [relation.target]];
        }
        if relation.target in cache {
          cache := cache[relation.target := cache[relation.target] + [relation.source]];
        }
      }
      assert relations[..|relations|] == relations;
      adjacencyCache := Some(cache);
    }

    /**
     * `get_related_nodes`: builds the cache when it is absent, then
     * traverses it; the nodes and relations are left as they were.
     */
    method GetRelatedNodes(nodeId: string, maxDepth: int := 2) returns (related: seq<string>)
      requires Valid()
      modifies this
      ensures Valid()
      ensures nodes == old(nodes) && relations == old(relations)
      ensures adjacencyCache == Some(AdjacencyOf(nodes.Keys, relations))
      ensures Traversal(AdjacencyOf(nodes.Keys, relations), nodeId, maxDepth, related)
    {
      if adjacencyCache.None? {
        BuildAdjacencyCache();
      }
      related := RelatedNodes(adjacencyCache.value, nodeId, maxDepth);
    }
  }

  // ---------------------------------------------------------------------------
  // Widening search results

  /** The result fields tried, in order, for a paragraph id. */
  const IdFields: seq<string> := ["paragraph", "chunk_id", "id", "reference"]

  /** `field` holds a string starting with "§". */
  predicate ParagraphIdAt(result: SearchResult, field: string)
  {
    field in result && result[field].Str? && result[field].s != [] && result[field].s[0] == '§'
  }

  /** The value of the first of `fields` that holds a paragraph id. */
  function FirstParagraphId(result: SearchResult, fields: seq<string>): (r: Option<string>)
    ensures r.Some? <==> exists i :: 0 <= i < |fields| && ParagraphIdAt(result, fields[i])
    ensures r.Some? ==> exists i :: (0 <= i < |fields| && ParagraphIdAt(result, fields[i]) &&
      r.value == result[fields[i]].s && forall j :: 0 <= j < i ==> !ParagraphIdAt(result, fields[j]))
  {
    if fields == [] then None
    else if ParagraphIdAt(result, fields[0]) then Some(result[fields[0]].s)
    else
      assert forall i :: 0 < i < |fields| ==> fields[i] == fields[1..][i - 1];
      FirstParagraphId(result, fields[1..])
  }

  /** `_extract_paragraph_id`. */
  function ExtractParagraphId(result: SearchResult): (r: Option<string>)
    ensures r.Some? ==> r.value != [] && r.value[0] == '§'
  {
    FirstParagraphId(result, IdFields)
  }

  /** The paragraph ids of the base results. */
  function BaseIds(results: seq<SearchResult>): (ids: set<string>)
    ensures forall p :: p in ids <==> exists i :: 0 <= i < |results| && ExtractParagraphId(results[i]) == Some(p)
  {
    if results == [] then {}
    else
      var last := ExtractParagraphId(results[|results| - 1]);
      assert forall i :: 0 <= i < |results| - 1 ==> results[..|results| - 1][i] == results[i];
      BaseIds(results[..|results| - 1]) + (if last.Some? then {last.value} else {})
  }

  /** Python's `s[:k]`: a negative `k` drops that many from the end. */
  function Take<T>(s: seq<T>, k: int): (r: seq<T>)
    ensures |r| <= |s| && r == s[..|r|]
    ensures k >= 0 ==> |r| == if k <= |s| then k else |s|
    ensures k < 0 ==> |r| == if -k <= |s| then |s| + k else 0
  {
    if k >= 0 then (if k <= |s| then s[..k] else s)
    else if -k <= |s| then s[..|s| + k] else []
  }

  /** The record added for a related paragraph. */
  function GraphResult(p: string, node: GraphNode): SearchResult
  {
    map["paragraph" := Str(p), "text" := Str(node.content), "metadata" := Dict(node.metadata),
        "source" := Str("graph_relation"), "score" := Num(60)]
  }

  /** The ids taken from the traversals: the first `maxRelated` of each. */
  ghost predicate Taken(relatedOf: map<string, seq<string>>, maxRelated: int, y: string)
  {
    exists p :: p in relatedOf && y in Take(relatedOf[p], maxRelated)
  }

  /**
   * `get_graph_enhanced_results` on a graph: `base` first, then one record
   * per id taken from the traversals (to depth 2) of the base ids that are
   * nodes, when that id is a node and not itself a base id; every such id
   * once.
   */
  ghost predicate Widened(nodes: map<string, GraphNode>, adj: Adjacency, base: seq<SearchResult>, maxRelated: int,
                          enhanced: seq<SearchResult>, relatedOf: map<string, seq<string>>, added: seq<string>)
  {
    relatedOf.Keys == BaseIds(base) * nodes.Keys &&
    (forall p :: p in relatedOf ==> Traversal(adj, p, 2, relatedOf[p])) &&
    |enhanced| == |base| + |added| && enhanced[..|base|] == base &&
    (forall i :: 0 <= i < |added| ==> added[i] in nodes && enhanced[|base| + i] == GraphResult(added[i], nodes[added[i]])) &&
    (forall i, j :: 0 <= i < j < |added| ==> added[i] != added[j]) &&
    (forall y :: y in added <==> y in nodes && y !in BaseIds(base) && Taken(relatedOf, maxRelated, y))
  }

  /** Every added record is a node within two steps of a base paragraph, and not that paragraph. */
  lemma WidenedSound(nodes: map<string, GraphNode>, adj: Adjacency, base: seq<SearchResult>, maxRelated: int,
                     enhanced: seq<SearchResult>, relatedOf: map<string, seq<string>>, added: seq<string>, y: string)
    requires Widened(nodes, adj, base, maxRelated, enhanced, relatedOf, added) && y in added
    ensures y in nodes && y !in BaseIds(base)
    ensures exists p :: p in BaseIds(base) && p in nodes && y in Ball(adj, p, 2) && y != p
  {
    var p :| p in relatedOf && y in Take(relatedOf[p], maxRelated);
    assert y in relatedOf[p];
  }

  /**
   * When a base paragraph's traversal fits within `maxRelated`, every node
   * within two steps of it that is not a base paragraph is added.
   */
  lemma WidenedComplete(nodes: map<string, GraphNode>, adj: Adjacency, base: seq<SearchResult>, maxRelated: int,
                        enhanced: seq<SearchResult>, relatedOf: map<string, seq<string>>, added: seq<string>, p: string, y: string)
    requires Widened(nodes, adj, base, maxRelated, enhanced, relatedOf, added)
    requires p in BaseIds(base) && p in nodes && |relatedOf[p]| <= maxRelated
    requires y in Ball(adj, p, 2) && y != p && y in nodes && y !in BaseIds(base)
    ensures y in added
  {
    assert p in relatedOf;
    TakenWhole(adj, relatedOf, maxRelated, p, y);
  }

  lemma TakenWhole(adj: Adjacency, relatedOf: map<string, seq<string>>, maxRelated: int, p: string, y: string)
    requires p in relatedOf && Traversal(adj, p, 2, relatedOf[p]) && |relatedOf[p]| <= maxRelated
    requires y in Ball(adj, p, 2) && y != p
    ensures Taken(relatedOf, maxRelated, y)
  {
    assert Take(relatedOf[p], maxRelated) == relatedOf[p];
  }

  /** The loop over the base results collecting their paragraph ids. */
  method CollectBaseIds(results: seq<SearchResult>) returns (ids: set<string>)
    ensures ids == BaseIds(results)
  {
    ids := {};
    for i := 0 to |results|
      invariant ids == BaseIds(results[..i])
    {
      assert results[..i + 1][..i] == results[..i];
      var paraId := ExtractParagraphId(results[i]);
      // an extracted id starts with "§", so it is never the empty string
      if paraId.Some? {
        ids := ids + {paraId.value};
      }
    }
    assert results[..|results|] == results;
  }

  /**
   * The loop over the base ids: each one that is a node of `graph` adds the
   * first `maxRelated` ids of its traversal to depth 2.
   */
  method GatherRelated(graph: TaxLawGraph, baseIds: set<string>, maxRelated: int)
    returns (relatedParagraphs: set<string>, ghost relatedOf: map<string, seq<string>>)
    requires graph.Valid()
    modifies graph
    ensures graph.Valid() && graph.nodes == old(graph.nodes) && graph.relations == old(graph.relations)
    ensures relatedOf.Keys == baseIds * graph.nodes.Keys
    ensures forall p :: p in relatedOf ==> Traversal(AdjacencyOf(graph.nodes.Keys, graph.relations), p, 2, relatedOf[p])
    ensures forall y :: y in relatedParagraphs <==> Taken(relatedOf, maxRelated, y)
  {
    relatedParagraphs, relatedOf := {}, map[];
    var pending := baseIds;
    while pending != {}
      invariant pending <= baseIds
      invariant graph.Valid() && graph.nodes == old(graph.nodes) && graph.relations == old(graph.relations)
      invariant relatedOf.Keys == (baseIds - pending) * graph.nodes.Keys
      invariant forall p :: p in relatedOf ==> Traversal(AdjacencyOf(graph.nodes.Keys, graph.relations), p, 2, relatedOf[p])
      invariant forall y :: y in relatedParagraphs <==> Taken(relatedOf, maxRelated, y)
      decreases pending
    {
      var paraId :| paraId in pending;
      if paraId in graph.nodes {
        var related := graph.GetRelatedNodes(paraId, 2);
        ghost var before := relatedOf;
        relatedParagraphs := relatedParagraphs + Elements(Take(related, maxRelated));
        relatedOf := relatedOf[paraId := related];
        forall y ensures y in relatedParagraphs <==> Taken(relatedOf, maxRelated, y) {
          if Taken(before, maxRelated, y) {
            var q :| q in before && y in Take(before[q], maxRelated);
            assert q in relatedOf && relatedOf[q] == before[q];
          }
          if y in Take(related, maxRelated) {
            assert paraId in relatedOf && relatedOf[paraId] == related;
          }
          if Taken(relatedOf, maxRelated, y) {
            var q :| q in relatedOf && y in Take(relatedOf[q], maxRelated);
            if q != paraId {
              assert q in before && before[q] == relatedOf[q];
            }
          }
        }
      }
      pending := pending - {paraId};
    }
  }

  /** The loop appending a record for each related id that is a node and not a base id. */
  method AppendRecords(base: seq<SearchResult>, relatedParagraphs: set<string>, baseIds: set<string>, nodes: map<string, GraphNode>)
    returns (enhanced: seq<SearchResult>, ghost added: seq<string>)
    ensures |enhanced| == |base| + |added| && enhanced[..|base|] == base
    ensures forall i :: 0 <= i < |added| ==> added[i] in nodes && enhanced[|base| + i] == GraphResult(added[i], nodes[added[i]])
    ensures forall i, j :: 0 <= i < j < |added| ==> added[i] != added[j]
    ensures forall y :: y in added <==> y in relatedParagraphs && y !in baseIds && y in nodes
  {
    enhanced, added := base, [];
    var pending := relatedParagraphs;
    while pending != {}
      invariant pending <= relatedParagraphs
      invariant |enhanced| == |base| + |added| && enhanced[..|base|] == base
      invariant forall i :: 0 <= i < |added| ==> added[i] in nodes && enhanced[|base| + i] == GraphResult(added[i], nodes[added[i]])
      invariant forall i, j :: 0 <= i < j < |added| ==> added[i] != added[j]
      invariant forall y :: y in added <==> y in relatedParagraphs - pending && y !in baseIds && y in nodes
      decreases pending
    {
      var paraId :| paraId in pending;
      if paraId !in baseIds && paraId in nodes {
        enhanced := enhanced + [GraphResult(paraId, nodes[paraId])];
        added := added + [paraId];
      }
      pending := pending - {paraId};
    }
  }

  class GraphRetriever {
    var graphs: map<string, TaxLawGraph>

    ghost predicate Valid()
      reads this, graphs.Values
    {
      forall law :: law in graphs ==> graphs[law].Valid()
    }

    /** The constructor without its storage directory, which is never read. */
    constructor ()
      ensures Valid() && graphs == map[]
    {
      graphs := map[];
    }

    /**
     * `get_graph_enhanced_results`: the base results unchanged when the law
     * has no graph; otherwise widened with the related paragraphs. The query
     * terms are not used.
     */
    method GetGraphEnhancedResults(queryTerms: seq<string>, baseResults: seq<SearchResult>,
                                   lawName: string := "ligningsloven", maxRelated: int := 5)
      returns (enhanced: seq<SearchResult>, ghost relatedOf: map<string, seq<string>>, ghost added: seq<string>)
      requires Valid()
      modifies if lawName in graphs then {graphs[lawName]} else {}
      ensures Valid()
      ensures lawName !in graphs ==> enhanced == baseResults
      ensures lawName in graphs ==>
        graphs[lawName].nodes == old(graphs[lawName].nodes) && graphs[lawName].relations == old(graphs[lawName].relations)
      ensures lawName in graphs ==>
        Widened(graphs[lawName].nodes, AdjacencyOf(graphs[lawName].nodes.Keys, graphs[lawName].relations),
          baseResults, maxRelated, enhanced, relatedOf, added)
    {
      if lawName !in graphs {
        return baseResults, map[], [];
      }
      var graph := graphs[lawName];
      var baseIds := CollectBaseIds(baseResults);
      var relatedParagraphs;
      relatedParagraphs, relatedOf := GatherRelated(graph, baseIds, maxRelated);
      enhanced, added := AppendRecords(baseResults, relatedParagraphs, baseIds, graph.nodes);
    }
  }
}

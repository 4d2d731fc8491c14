/**
 * `_validate_and_optimize_graph` and its passes
 * (graph_retriever/graph_retriever_strategy.py), run over a `TaxLawGraph`:
 * orphaned edges are removed, duplicate keys dropped, inconsistent
 * hierarchical and explicit-reference edges removed, every edge scored, the
 * weakest fifth pruned from large graphs, connectivity counted, and missing
 * same-chapter links added.
 *
 * Scores are integer hundredths.
 */
module GraphValidation {
  import opened Strings
  import GraphRecords
  import opened StrategyGraph
  import opened StructuralRelations

  type Nodes = map<string, Node>

  // ---------------------------------------------------------------------------
  // 1. Orphaned edges

  predicate Attached(nodes: Nodes, e: GraphEdge)
  {
    e.source in nodes && e.target in nodes
  }

  ghost predicate AllAttached(nodes: Nodes, edges: seq<GraphEdge>)
  {
    forall i :: 0 <= i < |edges| ==> Attached(nodes, edges[i])
  }

  /** The edges whose two endpoints are nodes, in order. */
  function Orphanless(nodes: Nodes, edges: seq<GraphEdge>): (r: seq<GraphEdge>)
    ensures forall x :: x in r <==> x in edges && Attached(nodes, x)
  {
    if edges == [] then []
    else
      var last := edges[|edges| - 1];
      Orphanless(nodes, edges[..|edges| - 1]) + (if Attached(nodes, last) then [last] else [])
  }

  /** The edges with an endpoint that is not a node, in order. */
  function Orphans(nodes: Nodes, edges: seq<GraphEdge>): (r: seq<GraphEdge>)
    ensures forall x :: x in r <==> x in edges && !Attached(nodes, x)
  {
    if edges == [] then []
    else
      var last := edges[|edges| - 1];
      Orphans(nodes, edges[..|edges| - 1]) + (if Attached(nodes, last) then [] else [last])
  }

  /** Every edge goes to exactly one of the two lists. */
  lemma {:induction false} OrphanSplit(nodes: Nodes, edges: seq<GraphEdge>)
    ensures |Orphanless(nodes, edges)| + |Orphans(nodes, edges)| == |edges|
    decreases |edges|
  {
    if edges != [] {
      OrphanSplit(nodes, edges[..|edges| - 1]);
    }
  }

  /** Step 1 of `_validate_and_optimize_graph`: the kept edges and the orphaned ones. */
  method RemoveOrphanedEdges(edges: seq<GraphEdge>, nodes: Nodes) returns (valid: seq<GraphEdge>, orphaned: seq<GraphEdge>)
    ensures valid == Orphanless(nodes, edges) && orphaned == Orphans(nodes, edges)
  {
    valid, orphaned := [], [];
    for i := 0 to |edges|
      invariant valid == Orphanless(nodes, edges[..i]) && orphaned == Orphans(nodes, edges[..i])
    {
      var edge := edges[i];
      assert edges[..i + 1][..i] == edges[..i];
      if edge.source in nodes && edge.target in nodes {
        valid := valid + [edge];
      } else {
        orphaned := orphaned + [edge];
      }
    }
    assert edges[..|edges|] == edges;
  }

  // ---------------------------------------------------------------------------
  // 2. Duplicate edges

  function EdgeKeys(edges: seq<GraphEdge>): (r: set<(string, string, string)>)
    ensures forall i :: 0 <= i < |edges| ==> EdgeKey(edges[i]) in r
  {
    if edges == [] then {} else EdgeKeys(edges[..|edges| - 1]) + {EdgeKey(edges[|edges| - 1])}
  }

  /** Every key in the set is the key of some edge. */
  lemma {:induction false} EdgeKeysWitness(edges: seq<GraphEdge>, k: (string, string, string))
    requires k in EdgeKeys(edges)
    ensures exists i :: 0 <= i < |edges| && EdgeKey(edges[i]) == k
    decreases |edges|
  {
    var init := edges[..|edges| - 1];
    if k != EdgeKey(edges[|edges| - 1]) {
      EdgeKeysWitness(init, k);
      var i :| 0 <= i < |init| && EdgeKey(init[i]) == k;
      assert edges[i] == init[i];
    }
  }

  /** The first edge of each key, in order. */
  function DedupEdges(edges: seq<GraphEdge>): seq<GraphEdge>
  {
    if edges == [] then []
    else
      var d := DedupEdges(edges[..|edges| - 1]);
      var last := edges[|edges| - 1];
      if EdgeKey(last) in EdgeKeys(d) then d else d + [last]
  }

  /** Step 2 of `_validate_and_optimize_graph`, with its `seen_edges` set. */
  method DeduplicateEdges(edges: seq<GraphEdge>) returns (deduplicated: seq<GraphEdge>)
    ensures deduplicated == DedupEdges(edges)
  {
    var seen: set<(string, string, string)> := {};
    deduplicated := [];
    for i := 0 to |edges|
      invariant deduplicated == DedupEdges(edges[..i]) && seen == EdgeKeys(deduplicated)
    {
      var edge := edges[i];
      assert edges[..i + 1][..i] == edges[..i];
      if EdgeKey(edge) !in seen {
        seen := seen + {EdgeKey(edge)};
        deduplicated := deduplicated + [edge];
      }
    }
    assert edges[..|edges|] == edges;
  }

  /** Deduplication keeps only input edges. */
  lemma {:induction false} DedupEdgesSubset(edges: seq<GraphEdge>)
    ensures forall x :: x in DedupEdges(edges) ==> x in edges
    decreases |edges|
  {
    if edges != [] {
      DedupEdgesSubset(edges[..|edges| - 1]);
    }
  }

  /** No key occurs twice after deduplication. */
  lemma {:induction false} DedupEdgesUnique(edges: seq<GraphEdge>)
    ensures UniqueKeys(DedupEdges(edges))
    decreases |edges|
  {
    if edges != [] {
      var d := DedupEdges(edges[..|edges| - 1]);
      DedupEdgesUnique(edges[..|edges| - 1]);
      var r := DedupEdges(edges);
      if r != d {
        forall i, j | 0 <= i < j < |r| ensures EdgeKey(r[i]) != EdgeKey(r[j]) {
          if j == |d| {
            assert EdgeKey(d[i]) in EdgeKeys(d);
          } else {
            assert r[i] == d[i] && r[j] == d[j];
          }
        }
      }
    }
  }

  /** Every key of the input survives deduplication. */
  lemma {:induction false} DedupEdgesKeys(edges: seq<GraphEdge>)
    ensures forall i :: 0 <= i < |edges| ==> EdgeKey(edges[i]) in EdgeKeys(DedupEdges(edges))
    decreases |edges|
  {
    if edges != [] {
      var init := edges[..|edges| - 1];
      DedupEdgesKeys(init);
      DedupEdgesKeysStep(edges);
      var ks := EdgeKeys(DedupEdges(edges));
      forall i | 0 <= i < |edges| ensures EdgeKey(edges[i]) in ks {
        if i < |init| {
          assert edges[i] == init[i] && EdgeKey(init[i]) in EdgeKeys(DedupEdges(init));
        } else {
          assert edges[i] == edges[|edges| - 1];
        }
      }
    }
  }

  lemma DedupEdgesKeysStep(edges: seq<GraphEdge>)
    requires edges != []
    ensures EdgeKeys(DedupEdges(edges[..|edges| - 1])) + {EdgeKey(edges[|edges| - 1])} <= EdgeKeys(DedupEdges(edges))
  {
    var d := DedupEdges(edges[..|edges| - 1]);
    var last := edges[|edges| - 1];
    if EdgeKey(last) !in EdgeKeys(d) {
      assert (d + [last])[..|d|] == d;
    }
  }

  /** The first edge of each key is the one kept. */
  lemma {:induction false} DedupEdgesKeepsFirst(edges: seq<GraphEdge>, i: nat)
    requires i < |edges| && forall j :: 0 <= j < i ==> EdgeKey(edges[j]) != EdgeKey(edges[i])
    ensures edges[i] in DedupEdges(edges)
    decreases |edges|
  {
    var init := edges[..|edges| - 1];
    var d := DedupEdges(init);
    var last := edges[|edges| - 1];
    assert DedupEdges(edges) == if EdgeKey(last) in EdgeKeys(d) then d else d + [last];
    if i < |init| {
      assert forall j :: 0 <= j <= i ==> init[j] == edges[j];
      DedupEdgesKeepsFirst(init, i);
      assert edges[i] in d;
    } else if EdgeKey(edges[i]) in EdgeKeys(d) {
      KeyOccursBefore(edges);
    }
  }

  lemma KeyOccursBefore(edges: seq<GraphEdge>)
    requires edges != []
    requires EdgeKey(edges[|edges| - 1]) in EdgeKeys(DedupEdges(edges[..|edges| - 1]))
    ensures exists j :: 0 <= j < |edges| - 1 && EdgeKey(edges[j]) == EdgeKey(edges[|edges| - 1])
  {
    var init := edges[..|edges| - 1];
    var d := DedupEdges(init);
    EdgeKeysWitness(d, EdgeKey(edges[|edges| - 1]));
    var k :| 0 <= k < |d| && EdgeKey(d[k]) == EdgeKey(edges[|edges| - 1]);
    DedupEdgesSubset(init);
    assert d[k] in init;
    var j :| 0 <= j < |init| && init[j] == d[k];
    assert edges[j] == init[j];
  }

  // ---------------------------------------------------------------------------
  // 3. Edge consistency

  /** `_validate_hierarchical_relation`: same law, and no two differing truthy chapters. */
  predicate HierarchicalOk(s: Node, t: Node)
  {
    s.law == t.law && !(GraphRecords.Truthy(s.chapter) && GraphRecords.Truthy(t.chapter) && s.chapter != t.chapter)
  }

  /**
   * `_validate_explicit_reference`: the lower-cased source content holds one
   * of the reference phrases followed by the lower-cased target id.
   */
  predicate ExplicitOk(e: GraphEdge, s: Node)
  {
    var content := Lower(s.content);
    var t := Lower(e.target);
    Contains(content, "jf. " + t) || Contains(content, "j\U{00E6}vnf\U{00F8}r " + t) || Contains(content, "se " + t) ||
    Contains(content, "efter " + t) || Contains(content, "i medf\U{00F8}r af " + t)
  }

  /** Whether `_validate_edge_consistency` keeps an edge; an edge with a missing endpoint is skipped, hence kept. */
  predicate EdgeConsistent(nodes: Nodes, e: GraphEdge)
  {
    if e.source !in nodes || e.target !in nodes then true
    else if e.relType == "hierarchical" then HierarchicalOk(nodes[e.source], nodes[e.target])
    else if e.relType == "explicit_reference" then ExplicitOk(e, nodes[e.source])
    else true
  }

  /** The elements satisfying `p`, in order. */
  function Filter<T(!new)>(s: seq<T>, p: T -> bool): (r: seq<T>)
    ensures forall x :: x in r <==> x in s && p(x)
  {
    if s == [] then [] else (if p(s[0]) then [s[0]] else []) + Filter(s[1..], p)
  }

  /** The elements failing `p`, collected front to back. */
  function Rejected<T(!new)>(s: seq<T>, p: T -> bool): (r: seq<T>)
    ensures forall x :: x in r ==> x in s && !p(x)
  {
    if s == [] then [] else Rejected(s[..|s| - 1], p) + (if p(s[|s| - 1]) then [] else [s[|s| - 1]])
  }

  lemma {:induction false} RejectedCons<T(!new)>(s: seq<T>, p: T -> bool)
    requires s != []
    ensures Rejected(s, p) == (if p(s[0]) then [] else [s[0]]) + Rejected(s[1..], p)
    decreases |s|
  {
    if |s| > 1 {
      var init := s[..|s| - 1];
      RejectedCons(init, p);
      assert init[1..] == s[1..][..|s| - 2];
    }
  }

  /** Python's `list.remove(x)`: drops the first occurrence of `x`. */
  function RemoveFirst<T(==)>(s: seq<T>, x: T): seq<T>
  {
    if s == [] then [] else if s[0] == x then s[1..] else [s[0]] + RemoveFirst(s[1..], x)
  }

  /** `s` after `s.remove(x)` for each `x` of `xs` in turn. */
  function Without<T(==)>(s: seq<T>, xs: seq<T>): seq<T>
  {
    if xs == [] then s else RemoveFirst(Without(s, xs[..|xs| - 1]), xs[|xs| - 1])
  }

  lemma {:induction false} WithoutHead<T>(a: T, t: seq<T>, xs: seq<T>)
    requires forall i :: 0 <= i < |xs| ==> xs[i] != a
    ensures Without([a] + t, xs) == [a] + Without(t, xs)
    decreases |xs|
  {
    if xs != [] {
      WithoutHead(a, t, xs[..|xs| - 1]);
      assert ([a] + Without(t, xs[..|xs| - 1]))[1..] == Without(t, xs[..|xs| - 1]);
    }
  }

  lemma {:induction false} WithoutCons<T>(s: seq<T>, x: T, xs: seq<T>)
    ensures Without(s, [x] + xs) == Without(RemoveFirst(s, x), xs)
    decreases |xs|
  {
    if xs == [] {
      assert ([x] + xs)[..0] == [];
    } else {
      var ys := xs[..|xs| - 1];
      WithoutCons(s, x, ys);
      assert ([x] + xs)[..|xs|] == [x] + ys;
    }
  }

  /** Removing every rejected element, one `remove` at a time, leaves exactly the accepted ones in order. */
  lemma {:induction false} WithoutRejected<T(!new)>(s: seq<T>, p: T -> bool)
    ensures Without(s, Rejected(s, p)) == Filter(s, p)
    decreases |s|
  {
    if s != [] {
      var xs := Rejected(s[1..], p);
      var ys := Filter(s[1..], p);
      WithoutRejected(s[1..], p);
      assert Without(s[1..], xs) == ys;
      RejectedCons(s, p);
      if p(s[0]) {
        assert Rejected(s, p) == xs;
        assert Filter(s, p) == [s[0]] + ys;
        AcceptedHead(s, p);
      } else {
        assert Rejected(s, p) == [s[0]] + xs;
        assert Filter(s, p) == ys;
        RejectedHead(s, p);
      }
    }
  }

  lemma AcceptedHead<T(!new)>(s: seq<T>, p: T -> bool)
    requires s != [] && p(s[0])
    ensures Without(s, Rejected(s[1..], p)) == [s[0]] + Without(s[1..], Rejected(s[1..], p))
  {
    var xs := Rejected(s[1..], p);
    assert forall i :: 0 <= i < |xs| ==> xs[i] != s[0] by {
      forall i | 0 <= i < |xs| ensures xs[i] != s[0] {
        assert xs[i] in xs;
      }
    }
    WithoutHead(s[0], s[1..], xs);
    assert [s[0]] + s[1..] == s;
  }

  lemma RejectedHead<T(!new)>(s: seq<T>, p: T -> bool)
    requires s != []
    ensures Without(s, [s[0]] + Rejected(s[1..], p)) == Without(s[1..], Rejected(s[1..], p))
  {
    WithoutCons(s, s[0], Rejected(s[1..], p));
    assert RemoveFirst(s, s[0]) == s[1..];
  }

  function Keep(nodes: Nodes): GraphEdge -> bool
  {
    e => EdgeConsistent(nodes, e)
  }

  /** The consistent edges, in order. */
  function Consistent(nodes: Nodes, edges: seq<GraphEdge>): (r: seq<GraphEdge>)
    ensures forall x :: x in r <==> x in edges && EdgeConsistent(nodes, x)
  {
    Filter(edges, Keep(nodes))
  }

  /** The list `inconsistent_edges` collects. */
  function Inconsistent(nodes: Nodes, edges: seq<GraphEdge>): seq<GraphEdge>
  {
    Rejected(edges, Keep(nodes))
  }

  /**
   * `_validate_edge_consistency`: collects the inconsistent edges, then
   * removes each one with `list.remove`; what remains is the consistent
   * edges in their order.
   */
  method ValidateEdgeConsistency(graph: TaxLawGraph)
    modifies graph
    ensures graph.edges == Consistent(graph.nodes, old(graph.edges))
    ensures graph.nodes == old(graph.nodes) && graph.order == old(graph.order) && graph.queue == old(graph.queue)
  {
    var inconsistentEdges: seq<GraphEdge> := [];
    for i := 0 to |graph.edges|
      invariant inconsistentEdges == Inconsistent(graph.nodes, graph.edges[..i])
    {
      var edge := graph.edges[i];
      assert graph.edges[..i + 1][..i] == graph.edges[..i];
      if !EdgeConsistent(graph.nodes, edge) {
        inconsistentEdges := inconsistentEdges + [edge];
      }
    }
    assert graph.edges[..|graph.edges|] == graph.edges;
    ghost var original := graph.edges;
    for k := 0 to |inconsistentEdges|
      invariant graph.edges == Without(original, inconsistentEdges[..k])
      invariant graph.nodes == old(graph.nodes) && graph.order == old(graph.order) && graph.queue == old(graph.queue)
    {
      assert inconsistentEdges[..k + 1][..k] == inconsistentEdges[..k];
      graph.edges := RemoveFirst(graph.edges, inconsistentEdges[k]);
    }
    assert inconsistentEdges[..|inconsistentEdges|] == inconsistentEdges;
    WithoutRejected(original, Keep(graph.nodes));
  }

  /** Filtering keeps keys unique. */
  lemma {:induction false} FilterUnique(edges: seq<GraphEdge>, p: GraphEdge -> bool)
    requires UniqueKeys(edges)
    ensures UniqueKeys(Filter(edges, p))
    decreases |edges|
  {
    if edges != [] {
      var t := edges[1..];
      FilterUnique(t, p);
      var c := Filter(t, p);
      if p(edges[0]) {
        var r := [edges[0]] + c;
        forall i, j | 0 <= i < j < |r| ensures EdgeKey(r[i]) != EdgeKey(r[j]) {
          if i == 0 {
            assert r[j] in t;
            var k :| 0 <= k < |t| && t[k] == r[j];
            assert edges[k + 1] == r[j];
          } else {
            assert r[i] == c[i - 1] && r[j] == c[j - 1];
          }
        }
      }
    }
  }

  // ---------------------------------------------------------------------------
  // 4. Scoring

  /**
   * `_score_graph_edges` for one edge: the existing score (50 when there is
   * none), plus 20 for an explicit reference or 10 for a hierarchical edge,
   * plus 30 for a strong or 10 for a medium edge, capped at 100.
   */
  function EdgeScore(e: GraphEdge): (s: int)
    ensures s <= 100
    ensures e.score.Some? ==> s >= (if e.score.value < 100 then e.score.value else 100)
    ensures e.score.None? ==> 50 <= s
    ensures e.score.None? ==> (s == 100 <==> e.relType == "explicit_reference" && e.strength == "strong")
    ensures e.score.None? ==> (s == 50 <==> e.relType != "explicit_reference" && e.relType != "hierarchical" && e.strength != "strong" && e.strength != "medium")
  {
    var start := if e.score.Some? then e.score.value else 50;
    var byType := if e.relType == "explicit_reference" then 20 else if e.relType == "hierarchical" then 10 else 0;
    var byStrength := if e.strength == "strong" then 30 else if e.strength == "medium" then 10 else 0;
    if start + byType + byStrength < 100 then start + byType + byStrength else 100
  }

  function ScoreAll(edges: seq<GraphEdge>): (r: seq<GraphEdge>)
    ensures |r| == |edges|
    ensures forall i :: 0 <= i < |edges| ==> r[i] == edges[i].(score := Some(EdgeScore(edges[i])))
  {
    seq(|edges|, i requires 0 <= i < |edges| => edges[i].(score := Some(EdgeScore(edges[i]))))
  }

  /** `_score_graph_edges`: every edge gets its score, in place. */
  method ScoreGraphEdges(graph: TaxLawGraph)
    modifies graph
    ensures graph.edges == ScoreAll(old(graph.edges))
    ensures graph.nodes == old(graph.nodes) && graph.order == old(graph.order) && graph.queue == old(graph.queue)
  {
    for i := 0 to |graph.edges|
      invariant |graph.edges| == |old(graph.edges)|
      invariant forall j :: 0 <= j < i ==> graph.edges[j] == old(graph.edges)[j].(score := Some(EdgeScore(old(graph.edges)[j])))
      invariant forall j :: i <= j < |graph.edges| ==> graph.edges[j] == old(graph.edges)[j]
      invariant graph.nodes == old(graph.nodes) && graph.order == old(graph.order) && graph.queue == old(graph.queue)
    {
      var edge := graph.edges[i];
      graph.edges := graph.edges[i := edge.(score := Some(EdgeScore(edge)))];
    }
  }

  /**
   * Scoring is not idempotent: scoring an already scored edge adds the
   * boosts again, so a boosted edge below the cap gains.
   */
  lemma RescoringRaises(e: GraphEdge)
    requires e.relType == "explicit_reference" || e.relType == "hierarchical" || e.strength == "strong" || e.strength == "medium"
    requires EdgeScore(e) < 100
    ensures EdgeScore(e.(score := Some(EdgeScore(e)))) > EdgeScore(e)
  {
  }

  // ---------------------------------------------------------------------------
  // 5. Pruning weak edges

  /** `x.get('score', 0)`. */
  function ScoreOf(e: GraphEdge): int
  {
    if e.score.Some? then e.score.value else 0
  }

  /** Inserts `x` after every element scoring at least as much, which keeps the sort stable. */
  function InsertByScore(s: seq<GraphEdge>, x: GraphEdge): (r: seq<GraphEdge>)
    ensures |r| == |s| + 1
    ensures multiset(r) == multiset(s) + multiset{x}
  {
    if s == [] then [x]
    else if ScoreOf(s[0]) >= ScoreOf(x) then
      assert s == [s[0]] + s[1..];
      [s[0]] + InsertByScore(s[1..], x)
    else [x] + s
  }

  /** `sorted(edges, key=score, reverse=True)`, by stable insertion. */
  function SortByScore(s: seq<GraphEdge>): (r: seq<GraphEdge>)
    ensures |r| == |s|
    ensures multiset(r) == multiset(s)
  {
    if s == [] then []
    else
      assert s == s[..|s| - 1] + [s[|s| - 1]];
      InsertByScore(SortByScore(s[..|s| - 1]), s[|s| - 1])
  }

  ghost predicate SortedByScore(s: seq<GraphEdge>)
  {
    forall i, j :: 0 <= i < j < |s| ==> ScoreOf(s[i]) >= ScoreOf(s[j])
  }

  lemma {:induction false} InsertSorted(s: seq<GraphEdge>, x: GraphEdge)
    requires SortedByScore(s)
    ensures SortedByScore(InsertByScore(s, x))
    decreases |s|
  {
    if s != [] && ScoreOf(s[0]) >= ScoreOf(x) {
      InsertSorted(s[1..], x);
      var r := InsertByScore(s, x);
      forall j | 0 < j < |r| ensures ScoreOf(r[0]) >= ScoreOf(r[j]) {
        assert r[j] in multiset(s[1..]) + multiset{x};
        if r[j] != x {
          var k :| 0 <= k < |s[1..]| && s[1..][k] == r[j];
          assert s[k + 1] == r[j];
        }
      }
    }
  }

  lemma {:induction false} InsertUnique(s: seq<GraphEdge>, x: GraphEdge)
    requires UniqueKeys(s) && forall i :: 0 <= i < |s| ==> EdgeKey(s[i]) != EdgeKey(x)
    ensures UniqueKeys(InsertByScore(s, x))
    decreases |s|
  {
    if s != [] && ScoreOf(s[0]) >= ScoreOf(x) {
      InsertUnique(s[1..], x);
      var r := InsertByScore(s, x);
      forall j | 0 < j < |r| ensures EdgeKey(r[0]) != EdgeKey(r[j]) {
        assert r[j] in multiset(s[1..]) + multiset{x};
        if r[j] != x {
          var k :| 0 <= k < |s[1..]| && s[1..][k] == r[j];
          assert s[k + 1] == r[j];
        }
      }
    }
  }

  /** The sort orders by descending score and keeps keys unique. */
  lemma {:induction false} SortFacts(s: seq<GraphEdge>)
    ensures SortedByScore(SortByScore(s))
    ensures UniqueKeys(s) ==> UniqueKeys(SortByScore(s))
    decreases |s|
  {
    if s != [] {
      var init := s[..|s| - 1];
      var last := s[|s| - 1];
      SortFacts(init);
      InsertSorted(SortByScore(init), last);
      if UniqueKeys(s) {
        var t := SortByScore(init);
        forall i | 0 <= i < |t| ensures EdgeKey(t[i]) != EdgeKey(last) {
          assert t[i] in multiset(init);
          var k :| 0 <= k < |init| && init[k] == t[i];
        }
        InsertUnique(t, last);
      }
    }
  }

  /** `_filter_weak_edges`: the `int(len * 0.8)` best-scoring edges, best first. */
  function FilterWeakEdges(edges: seq<GraphEdge>): (r: seq<GraphEdge>)
    ensures |r| == |edges| * 4 / 5
    ensures multiset(r) <= multiset(edges)
  {
    var sorted := SortByScore(edges);
    assert sorted == sorted[..|edges| * 4 / 5] + sorted[|edges| * 4 / 5..];
    sorted[..|edges| * 4 / 5]
  }

  /** An edge scoring strictly more than some kept edge is kept as well. */
  lemma FilterWeakEdgesKeepsBest(edges: seq<GraphEdge>, x: GraphEdge, y: GraphEdge)
    requires x in FilterWeakEdges(edges) && y in edges && ScoreOf(y) > ScoreOf(x)
    ensures y in FilterWeakEdges(edges)
  {
    var sorted := SortByScore(edges);
    var n := |edges| * 4 / 5;
    SortFacts(edges);
    assert y in multiset(sorted);
    var j :| 0 <= j < |sorted| && sorted[j] == y;
    var i :| 0 <= i < n && sorted[i] == x;
    assert j < n;
    assert sorted[..n][j] == y;
  }

  /** Pruning only applies above 1000 edges. */
  function Pruned(edges: seq<GraphEdge>): seq<GraphEdge>
  {
    if |edges| > 1000 then FilterWeakEdges(edges) else edges
  }

  lemma PrunedFacts(edges: seq<GraphEdge>)
    ensures forall x :: x in Pruned(edges) ==> x in edges
    ensures UniqueKeys(edges) ==> UniqueKeys(Pruned(edges))
  {
    if |edges| > 1000 {
      SortFacts(edges);
      var r := FilterWeakEdges(edges);
      forall x | x in r ensures x in edges {
        assert x in multiset(r);
      }
      assert r == SortByScore(edges)[..|r|];
    }
  }

  // ---------------------------------------------------------------------------
  // 6. Connectivity

  /** `connection_counts[id]`: the edge endpoints equal to `id` (a self-loop counts twice). */
  function Degree(edges: seq<GraphEdge>, id: string): nat
  {
    if edges == [] then 0
    else
      var last := edges[|edges| - 1];
      Degree(edges[..|edges| - 1], id) + (if last.source == id then 1 else 0) + (if last.target == id then 1 else 0)
  }

  function SumDegrees(ids: seq<string>, edges: seq<GraphEdge>): nat
  {
    if ids == [] then 0 else SumDegrees(ids[..|ids| - 1], edges) + Degree(edges, ids[|ids| - 1])
  }

  function MaxDegree(ids: seq<string>, edges: seq<GraphEdge>): (r: nat)
    requires ids != []
    ensures forall i :: 0 <= i < |ids| ==> Degree(edges, ids[i]) <= r
    ensures exists i :: 0 <= i < |ids| && Degree(edges, ids[i]) == r
  {
    var d := Degree(edges, ids[|ids| - 1]);
    if |ids| == 1 then d
    else
      var m := MaxDegree(ids[..|ids| - 1], edges);
      if m >= d then m else d
  }

  function MinDegree(ids: seq<string>, edges: seq<GraphEdge>): (r: nat)
    requires ids != []
    ensures forall i :: 0 <= i < |ids| ==> r <= Degree(edges, ids[i])
    ensures exists i :: 0 <= i < |ids| && Degree(edges, ids[i]) == r
  {
    var d := Degree(edges, ids[|ids| - 1]);
    if |ids| == 1 then d
    else
      var m := MinDegree(ids[..|ids| - 1], edges);
      if m <= d then m else d
  }

  /** The number of ids no edge touches. */
  function Isolated(ids: seq<string>, edges: seq<GraphEdge>): (r: nat)
    ensures r <= |ids|
  {
    if ids == [] then 0 else Isolated(ids[..|ids| - 1], edges) + (if Degree(edges, ids[|ids| - 1]) == 0 then 1 else 0)
  }

  /**
   * The result of `_analyze_graph_connectivity`: empty for a graph without
   * nodes, the `KeyError` an edge endpoint that is not a node raises, or the
   * counts (the average is the connection total over the node count).
   */
  datatype Connectivity =
    | NoNodes
    | MissingNode
    | Stats(totalNodes: nat, totalEdges: nat, totalConnections: nat, maxConnections: nat, minConnections: nat, isolatedNodes: nat)

  function AnalyzeGraphConnectivity(nodes: Nodes, order: seq<string>, edges: seq<GraphEdge>): (r: Connectivity)
    requires forall id :: id in nodes <==> id in order
    ensures r.NoNodes? <==> |nodes| == 0
    ensures r.MissingNode? <==> |nodes| != 0 && exists i :: 0 <= i < |edges| && !Attached(nodes, edges[i])
    ensures r.Stats? ==> r.isolatedNodes <= |order| && r.minConnections <= r.maxConnections
  {
    if |nodes| == 0 then NoNodes
    else if exists i :: 0 <= i < |edges| && !Attached(nodes, edges[i]) then MissingNode
    else
      assert order != [] by {
        var id :| id in nodes;
        assert id in order;
      }
      Stats(|nodes|, |edges|, SumDegrees(order, edges), MaxDegree(order, edges), MinDegree(order, edges), Isolated(order, edges))
  }

  function Count(ids: seq<string>, x: string): nat
  {
    if ids == [] then 0 else Count(ids[..|ids| - 1], x) + (if ids[|ids| - 1] == x then 1 else 0)
  }

  lemma {:induction false} CountDistinct(ids: seq<string>, x: string)
    requires Distinct(ids)
    ensures Count(ids, x) == if x in ids then 1 else 0
    decreases |ids|
  {
    if ids != [] {
      var init := ids[..|ids| - 1];
      CountDistinct(init, x);
      assert x in ids <==> x in init || ids[|ids| - 1] == x;
    }
  }

  lemma {:induction false} SumDegreesSnoc(ids: seq<string>, edges: seq<GraphEdge>, e: GraphEdge)
    ensures SumDegrees(ids, edges + [e]) == SumDegrees(ids, edges) + Count(ids, e.source) + Count(ids, e.target)
    decreases |ids|
  {
    if ids != [] {
      SumDegreesSnoc(ids[..|ids| - 1], edges, e);
      assert (edges + [e])[..|edges|] == edges;
    }
  }

  /** Each edge adds one connection at either end, so the total is twice the edge count. */
  lemma {:induction false} ConnectionsTwiceEdges(ids: seq<string>, edges: seq<GraphEdge>)
    requires Distinct(ids)
    requires forall i :: 0 <= i < |edges| ==> edges[i].source in ids && edges[i].target in ids
    ensures SumDegrees(ids, edges) == 2 * |edges|
    decreases |edges|
  {
    if edges == [] {
      assert SumDegrees(ids, []) == 0 by {
        ZeroDegrees(ids);
      }
    } else {
      var init := edges[..|edges| - 1];
      var e := edges[|edges| - 1];
      ConnectionsTwiceEdges(ids, init);
      SumDegreesSnoc(ids, init, e);
      assert init + [e] == edges;
      CountDistinct(ids, e.source);
      CountDistinct(ids, e.target);
    }
  }

  lemma {:induction false} ZeroDegrees(ids: seq<string>)
    ensures SumDegrees(ids, []) == 0
    decreases |ids|
  {
    if ids != [] {
      ZeroDegrees(ids[..|ids| - 1]);
    }
  }

  // ---------------------------------------------------------------------------
  // The whole pass

  /** The edges `_validate_and_optimize_graph` leaves, step by step. */
  function OptimizedEdges(nodes: Nodes, order: seq<string>, edges: seq<GraphEdge>, law: string): seq<GraphEdge>
    requires forall i :: 0 <= i < |order| ==> order[i] in nodes
  {
    var kept := Pruned(ScoreAll(Consistent(nodes, DedupEdges(Orphanless(nodes, edges)))));
    Fill(kept, ChapterPairs(ChapterGroups(nodes, order)), law)
  }

  /** The edges kept before the same-chapter links are added: attached, consistent, with unique keys. */
  lemma KeptFacts(nodes: Nodes, edges: seq<GraphEdge>)
    ensures var kept := Pruned(ScoreAll(Consistent(nodes, DedupEdges(Orphanless(nodes, edges)))));
      UniqueKeys(kept) && forall x :: x in kept ==> Attached(nodes, x) && EdgeConsistent(nodes, x)
  {
    var e2 := DedupEdges(Orphanless(nodes, edges));
    DedupEdgesSubset(Orphanless(nodes, edges));
    DedupEdgesUnique(Orphanless(nodes, edges));
    var e3 := Consistent(nodes, e2);
    FilterUnique(e2, Keep(nodes));
    var e4 := ScoreAll(e3);
    assert UniqueKeys(e4) by {
      forall i, j | 0 <= i < j < |e4| ensures EdgeKey(e4[i]) != EdgeKey(e4[j]) {
        assert EdgeKey(e4[i]) == EdgeKey(e3[i]) && EdgeKey(e4[j]) == EdgeKey(e3[j]);
      }
    }
    forall x | x in e4 ensures Attached(nodes, x) && EdgeConsistent(nodes, x) {
      var i :| 0 <= i < |e4| && e4[i] == x;
      assert e3[i] in e3;
    }
    PrunedFacts(e4);
  }

  /**
   * After the whole pass every edge joins two nodes, no key repeats, and
   * every edge is consistent (the added same-chapter links included).
   */
  lemma OptimizedFacts(nodes: Nodes, order: seq<string>, edges: seq<GraphEdge>, law: string)
    requires (forall id :: id in nodes <==> id in order) && Distinct(order)
    requires forall id :: id in nodes ==> nodes[id].law == law
    ensures var r := OptimizedEdges(nodes, order, edges, law);
      AllAttached(nodes, r) && UniqueKeys(r) && forall i :: 0 <= i < |r| ==> EdgeConsistent(nodes, r[i])
  {
    var kept := Pruned(ScoreAll(Consistent(nodes, DedupEdges(Orphanless(nodes, edges)))));
    var pairs := ChapterPairs(ChapterGroups(nodes, order));
    var r := Fill(kept, pairs, law);
    KeptFacts(nodes, edges);
    FillUnique(kept, pairs, law);
    forall i | 0 <= i < |r| ensures Attached(nodes, r[i]) && EdgeConsistent(nodes, r[i]) {
      if r[i] !in kept {
        var k :| 0 <= k < |pairs| && r[i] == StructuralEdge(pairs[k], law);
        PairsInChapter(nodes, order, pairs[k]);
      }
    }
  }

  /** Any two distinct nodes with the same chapter are joined by an edge. */
  ghost predicate ChaptersJoined(nodes: Nodes, edges: seq<GraphEdge>)
  {
    forall a, b :: a in nodes && b in nodes && a != b && ChapterOf(nodes[a]).Some? && ChapterOf(nodes[a]) == ChapterOf(nodes[b]) ==>
      Joined(edges, a, b)
  }

  /** After the whole pass any two nodes of the same chapter are joined. */
  lemma OptimizedJoined(nodes: Nodes, order: seq<string>, edges: seq<GraphEdge>, law: string)
    requires (forall id :: id in nodes <==> id in order) && Distinct(order)
    ensures ChaptersJoined(nodes, OptimizedEdges(nodes, order, edges, law))
  {
    var kept := Pruned(ScoreAll(Consistent(nodes, DedupEdges(Orphanless(nodes, edges)))));
    forall a, b | a in nodes && b in nodes && a != b && ChapterOf(nodes[a]).Some? && ChapterOf(nodes[a]) == ChapterOf(nodes[b])
      ensures Joined(OptimizedEdges(nodes, order, edges, law), a, b)
    {
      SameChapterJoined(nodes, order, kept, law, a, b);
    }
  }

  /**
   * `_validate_and_optimize_graph`: runs the passes in order on the graph's
   * edges and leaves nodes and queue alone. Afterwards every edge joins two
   * nodes, keys are unique, every edge is consistent, and any two nodes of
   * the same chapter are joined.
   */
  method ValidateAndOptimizeGraph(graph: TaxLawGraph)
    requires graph.Valid()
    modifies graph
    ensures graph.Valid()
    ensures graph.nodes == old(graph.nodes) && graph.order == old(graph.order) && graph.queue == old(graph.queue)
    ensures graph.edges == OptimizedEdges(graph.nodes, graph.order, old(graph.edges), graph.lawName)
    ensures AllAttached(graph.nodes, graph.edges) && UniqueKeys(graph.edges)
    ensures forall i :: 0 <= i < |graph.edges| ==> EdgeConsistent(graph.nodes, graph.edges[i])
    ensures ChaptersJoined(graph.nodes, graph.edges)
  {
    ghost var original := graph.edges;
    var validEdges, orphanedReferences := RemoveOrphanedEdges(graph.edges, graph.nodes);
    graph.edges := validEdges;
    var deduplicatedEdges := DeduplicateEdges(graph.edges);
    graph.edges := deduplicatedEdges;
    ValidateEdgeConsistency(graph);
    ScoreGraphEdges(graph);
    if |graph.edges| > 1000 {
      graph.edges := FilterWeakEdges(graph.edges);
    }
    var connectivityStats := AnalyzeGraphConnectivity(graph.nodes, graph.order, graph.edges);
    AddMissingStructuralRelations(graph);
    OptimizedFacts(graph.nodes, graph.order, original, graph.lawName);
    OptimizedJoined(graph.nodes, graph.order, original, graph.lawName);
  }
}

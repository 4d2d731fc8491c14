/**
 * `_add_missing_structural_relations`
 * (graph_retriever/graph_retriever_strategy.py): the nodes are grouped by
 * their (truthy) chapter in node order, and every two nodes of a chapter that
 * no edge joins yet are joined by a weak hierarchical edge.
 */
module StructuralRelations {
  import opened Strings
  import GraphRecords
  import opened StrategyGraph

  /** `node_data.get('chapter')` when it is truthy, else `None`. */
  function ChapterOf(n: Node): (r: Option<string>)
    ensures r.Some? <==> GraphRecords.Truthy(n.chapter)
    ensures r.Some? ==> r == n.chapter
  {
    if GraphRecords.Truthy(n.chapter) then n.chapter else None
  }

  /** The `chapters` dictionary: chapter names with their node ids, in insertion order. */
  type Groups = seq<(string, seq<string>)>

  /** `chapters.get(c, [])`. */
  function Lookup(g: Groups, c: string): seq<string>
  {
    if g == [] then [] else if g[0].0 == c then g[0].1 else Lookup(g[1..], c)
  }

  predicate HasKey(g: Groups, c: string)
  {
    g != [] && (g[0].0 == c || HasKey(g[1..], c))
  }

  /** No chapter is listed twice. */
  predicate KeysDistinct(g: Groups)
  {
    g == [] || (!HasKey(g[1..], g[0].0) && KeysDistinct(g[1..]))
  }

  lemma {:induction false} HasKeyAt(g: Groups, k: nat)
    requires k < |g|
    ensures HasKey(g, g[k].0)
    decreases k
  {
    if k > 0 {
      HasKeyAt(g[1..], k - 1);
    }
  }

  lemma {:induction false} KeyIndex(g: Groups, c: string) returns (k: nat)
    requires HasKey(g, c)
    ensures k < |g| && g[k].0 == c
    decreases |g|
  {
    if g[0].0 == c {
      k := 0;
    } else {
      var j := KeyIndex(g[1..], c);
      k := j + 1;
    }
  }

  /** Appending `id` to the list of chapter `c`, which is created at the end when new. */
  function Place(g: Groups, c: string, id: string): Groups
  {
    if g == [] then [(c, [id])]
    else if g[0].0 == c then [(c, g[0].1 + [id])] + g[1..]
    else [g[0]] + Place(g[1..], c, id)
  }

  lemma {:induction false} PlaceFacts(g: Groups, c: string, id: string)
    requires KeysDistinct(g)
    ensures KeysDistinct(Place(g, c, id))
    ensures forall c' :: HasKey(Place(g, c, id), c') <==> HasKey(g, c') || c' == c
    ensures forall c' :: Lookup(Place(g, c, id), c') == Lookup(g, c') + (if c' == c then [id] else [])
    decreases |g|
  {
    var r := Place(g, c, id);
    if g == [] {
      assert r[1..] == [];
    } else if g[0].0 == c {
      assert r[1..] == g[1..];
    } else {
      PlaceFacts(g[1..], c, id);
      assert r[1..] == Place(g[1..], c, id);
    }
  }

  /** The ids among `ids` whose chapter is `c`, in order. */
  function Members(nodes: map<string, Node>, ids: seq<string>, c: string): (r: seq<string>)
    requires forall i :: 0 <= i < |ids| ==> ids[i] in nodes
    ensures forall x :: x in r <==> x in ids && ChapterOf(nodes[x]) == Some(c)
    ensures Distinct(ids) ==> Distinct(r)
  {
    if ids == [] then []
    else
      var last := ids[|ids| - 1];
      Members(nodes, ids[..|ids| - 1], c) + (if ChapterOf(nodes[last]) == Some(c) then [last] else [])
  }

  /** The `chapters` dictionary built from the node ids `ids`. */
  function ChapterGroups(nodes: map<string, Node>, ids: seq<string>): Groups
    requires forall i :: 0 <= i < |ids| ==> ids[i] in nodes
  {
    if ids == [] then []
    else
      var g := ChapterGroups(nodes, ids[..|ids| - 1]);
      var last := ids[|ids| - 1];
      match ChapterOf(nodes[last])
      case None => g
      case Some(c) => Place(g, c, last)
  }

  /**
   * Each chapter appears once, its list holds exactly the ids of that
   * chapter in node order, and the chapters present are those some id has.
   */
  lemma {:induction false} ChapterGroupsFacts(nodes: map<string, Node>, ids: seq<string>)
    requires forall i :: 0 <= i < |ids| ==> ids[i] in nodes
    ensures KeysDistinct(ChapterGroups(nodes, ids))
    ensures forall c :: Lookup(ChapterGroups(nodes, ids), c) == Members(nodes, ids, c)
    ensures forall c :: HasKey(ChapterGroups(nodes, ids), c) <==> Members(nodes, ids, c) != []
    decreases |ids|
  {
    if ids != [] {
      var init := ids[..|ids| - 1];
      ChapterGroupsFacts(nodes, init);
      var last := ids[|ids| - 1];
      if ChapterOf(nodes[last]).Some? {
        PlaceFacts(ChapterGroups(nodes, init), ChapterOf(nodes[last]).value, last);
      }
    }
  }

  /** With distinct chapters, an entry's list is what looking up its chapter gives. */
  lemma {:induction false} LookupAt(g: Groups, k: nat)
    requires KeysDistinct(g) && k < |g|
    ensures Lookup(g, g[k].0) == g[k].1
    decreases k
  {
    if k > 0 {
      HasKeyAt(g[1..], k - 1);
      LookupAt(g[1..], k - 1);
    }
  }

  type Pair = (string, string, string)

  /**
   * The pairs `(para1, para2, chapter)` the nested loops visit for one
   * chapter: every id with each id after it.
   */
  function PairsOf(c: string, ms: seq<string>): (r: seq<Pair>)
    ensures forall p :: p in r ==> p.0 in ms && p.1 in ms && p.2 == c
  {
    if ms == [] then []
    else seq(|ms| - 1, k requires 0 <= k < |ms| - 1 => (ms[0], ms[k + 1], c)) + PairsOf(c, ms[1..])
  }

  lemma {:induction false} PairsOfHas(c: string, ms: seq<string>, i: nat, j: nat)
    requires i < j < |ms|
    ensures (ms[i], ms[j], c) in PairsOf(c, ms)
    decreases i
  {
    var front := seq(|ms| - 1, k requires 0 <= k < |ms| - 1 => (ms[0], ms[k + 1], c));
    if i == 0 {
      assert front[j - 1] == (ms[i], ms[j], c);
    } else {
      PairsOfHas(c, ms[1..], i - 1, j - 1);
    }
  }

  /** All the pairs, chapter by chapter. */
  function ChapterPairs(g: Groups): (r: seq<Pair>)
    ensures forall p :: p in r ==> exists k :: 0 <= k < |g| && p.2 == g[k].0 && p.0 in g[k].1 && p.1 in g[k].1
  {
    if g == [] then []
    else
      var r := PairsOf(g[0].0, g[0].1) + ChapterPairs(g[1..]);
      assert forall p :: p in ChapterPairs(g[1..]) ==> exists k :: 1 <= k < |g| && p.2 == g[k].0 && p.0 in g[k].1 && p.1 in g[k].1 by {
        forall p | p in ChapterPairs(g[1..]) ensures exists k :: 1 <= k < |g| && p.2 == g[k].0 && p.0 in g[k].1 && p.1 in g[k].1 {
          var k :| 0 <= k < |g[1..]| && p.2 == g[1..][k].0 && p.0 in g[1..][k].1 && p.1 in g[1..][k].1;
          assert g[k + 1] == g[1..][k];
        }
      }
      r
  }

  lemma {:induction false} ChapterPairsHas(g: Groups, k: nat, p: Pair)
    requires k < |g| && p in PairsOf(g[k].0, g[k].1)
    ensures p in ChapterPairs(g)
    decreases k
  {
    if k > 0 {
      ChapterPairsHas(g[1..], k - 1, p);
    }
  }

  /** Every pair joins two nodes of the pair's chapter. */
  lemma PairsInChapter(nodes: map<string, Node>, order: seq<string>, p: Pair)
    requires forall i :: 0 <= i < |order| ==> order[i] in nodes
    requires p in ChapterPairs(ChapterGroups(nodes, order))
    ensures p.0 in order && p.1 in order
    ensures ChapterOf(nodes[p.0]) == Some(p.2) && ChapterOf(nodes[p.1]) == Some(p.2)
  {
    var g := ChapterGroups(nodes, order);
    ChapterGroupsFacts(nodes, order);
    var k :| 0 <= k < |g| && p.2 == g[k].0 && p.0 in g[k].1 && p.1 in g[k].1;
    LookupAt(g, k);
  }

  /** Any two distinct nodes of the same chapter form a pair, in one order or the other. */
  lemma SameChapterPaired(nodes: map<string, Node>, order: seq<string>, a: string, b: string, c: string)
    requires forall i :: 0 <= i < |order| ==> order[i] in nodes
    requires Distinct(order) && a in order && b in order && a != b
    requires ChapterOf(nodes[a]) == Some(c) && ChapterOf(nodes[b]) == Some(c)
    ensures (a, b, c) in ChapterPairs(ChapterGroups(nodes, order)) || (b, a, c) in ChapterPairs(ChapterGroups(nodes, order))
  {
    var g := ChapterGroups(nodes, order);
    ChapterGroupsFacts(nodes, order);
    var ms := Members(nodes, order, c);
    assert a in ms && b in ms;
    var k := KeyIndex(g, c);
    LookupAt(g, k);
    var i :| 0 <= i < |ms| && ms[i] == a;
    var j :| 0 <= j < |ms| && ms[j] == b;
    if i < j {
      PairsOfHas(c, ms, i, j);
      ChapterPairsHas(g, k, (a, b, c));
    } else {
      PairsOfHas(c, ms, j, i);
      ChapterPairsHas(g, k, (b, a, c));
    }
  }

  /** The edge added for a pair that no edge joins. */
  function StructuralEdge(p: Pair, law: string): GraphEdge
  {
    GraphEdge(p.0, p.1, "hierarchical", "weak", "Samme kapitel: " + p.2, law, None)
  }

  /** The edges after visiting `pairs`, adding an edge for each pair not yet joined. */
  function Fill(edges: seq<GraphEdge>, pairs: seq<Pair>, law: string): (r: seq<GraphEdge>)
    ensures forall x :: x in r ==> x in edges || exists i :: 0 <= i < |pairs| && x == StructuralEdge(pairs[i], law)
  {
    if pairs == [] then edges
    else
      var e := Fill(edges, pairs[..|pairs| - 1], law);
      var p := pairs[|pairs| - 1];
      if Joined(e, p.0, p.1) then e else e + [StructuralEdge(p, law)]
  }

  lemma JoinedAppend(edges: seq<GraphEdge>, x: GraphEdge, a: string, b: string)
    requires Joined(edges, a, b)
    ensures Joined(edges + [x], a, b)
  {
    var k :| 0 <= k < |edges| && ((edges[k].source == a && edges[k].target == b) || (edges[k].source == b && edges[k].target == a));
    assert (edges + [x])[k] == edges[k];
  }

  /** After the pass every visited pair is joined. */
  lemma {:induction false} FillJoins(edges: seq<GraphEdge>, pairs: seq<Pair>, law: string)
    ensures forall i :: 0 <= i < |pairs| ==> Joined(Fill(edges, pairs, law), pairs[i].0, pairs[i].1)
    decreases |pairs|
  {
    if pairs != [] {
      var init := pairs[..|pairs| - 1];
      var e := Fill(edges, init, law);
      var p := pairs[|pairs| - 1];
      FillJoins(edges, init, law);
      if !Joined(e, p.0, p.1) {
        forall i | 0 <= i < |init| ensures Joined(e + [StructuralEdge(p, law)], init[i].0, init[i].1) {
          JoinedAppend(e, StructuralEdge(p, law), init[i].0, init[i].1);
        }
        assert (e + [StructuralEdge(p, law)])[|e|] == StructuralEdge(p, law);
      }
      assert forall i :: 0 <= i < |init| ==> pairs[i] == init[i];
    }
  }

  /** An edge is added only where none joins the pair, so no key is repeated. */
  lemma {:induction false} FillUnique(edges: seq<GraphEdge>, pairs: seq<Pair>, law: string)
    requires UniqueKeys(edges)
    ensures UniqueKeys(Fill(edges, pairs, law))
    decreases |pairs|
  {
    if pairs != [] {
      var init := pairs[..|pairs| - 1];
      var e := Fill(edges, init, law);
      var p := pairs[|pairs| - 1];
      FillUnique(edges, init, law);
      if !Joined(e, p.0, p.1) {
        var r := e + [StructuralEdge(p, law)];
        forall i, j | 0 <= i < j < |r| ensures EdgeKey(r[i]) != EdgeKey(r[j]) {
          if j == |e| {
            assert !(e[i].source == p.0 && e[i].target == p.1);
          }
        }
      }
    }
  }

  /**
   * `_add_missing_structural_relations`: the node ids are grouped by chapter,
   * then each pair of a chapter that no edge joins gets a weak hierarchical
   * edge through `add_relation`.
   */
  method AddMissingStructuralRelations(graph: TaxLawGraph)
    requires graph.Valid()
    modifies graph
    ensures graph.nodes == old(graph.nodes) && graph.order == old(graph.order) && graph.queue == old(graph.queue)
    ensures graph.edges == Fill(old(graph.edges), ChapterPairs(ChapterGroups(graph.nodes, graph.order)), graph.lawName)
  {
    var groups: Groups := [];
    for i := 0 to |graph.order|
      invariant groups == ChapterGroups(graph.nodes, graph.order[..i])
    {
      var id := graph.order[i];
      assert graph.order[..i + 1][..i] == graph.order[..i];
      match ChapterOf(graph.nodes[id])
      case Some(c) => groups := Place(groups, c, id);
      case None =>
    }
    assert graph.order[..|graph.order|] == graph.order;
    var pairs := ChapterPairs(groups);
    for i := 0 to |pairs|
      invariant graph.nodes == old(graph.nodes) && graph.order == old(graph.order) && graph.queue == old(graph.queue)
      invariant graph.edges == Fill(old(graph.edges), pairs[..i], graph.lawName)
    {
      var (para1, para2, chapter) := pairs[i];
      assert pairs[..i + 1][..i] == pairs[..i];
      if !Joined(graph.edges, para1, para2) {
        graph.AddRelation(para1, para2, "hierarchical", "weak", "Samme kapitel: " + chapter);
      }
    }
    assert pairs[..|pairs|] == pairs;
  }

  /**
   * After the pass, any two distinct nodes sharing a truthy chapter are
   * joined by an edge in one direction or the other.
   */
  lemma SameChapterJoined(nodes: map<string, Node>, order: seq<string>, edges: seq<GraphEdge>, law: string, a: string, b: string)
    requires (forall id :: id in nodes <==> id in order) && Distinct(order)
    requires a in nodes && b in nodes && a != b && ChapterOf(nodes[a]).Some? && ChapterOf(nodes[a]) == ChapterOf(nodes[b])
    ensures Joined(Fill(edges, ChapterPairs(ChapterGroups(nodes, order)), law), a, b)
  {
    var pairs := ChapterPairs(ChapterGroups(nodes, order));
    var c := ChapterOf(nodes[a]).value;
    SameChapterPaired(nodes, order, a, b, c);
    FillJoins(edges, pairs, law);
    if (a, b, c) in pairs {
      var i :| 0 <= i < |pairs| && pairs[i] == (a, b, c);
    } else {
      var i :| 0 <= i < |pairs| && pairs[i] == (b, a, c);
    }
  }
}

/**
 * The depth-bounded relation walk shared by `EnhancedTaxLawGraph.get_related_entities`
 * and `TaxLawGraph.get_related_paragraphs`: a FIFO list of `(id, depth)` pairs
 * with no visited set. Every entry whose depth is below the limit is expanded
 * over the whole edge list; an edge leaving the current id contributes its
 * target, otherwise an edge entering it contributes its source.
 */
module Walks {
  import opened Strings

  /** One edge as the walk sees it; `usable` is false for an edge the walk skips. */
  datatype Link = Link(source: string, target: string, usable: bool)

  /** The endpoint the walk reaches from `v` over `l`, the source test first. */
  function Across(l: Link, v: string): (r: Option<string>)
    ensures r.Some? ==> l.usable && (l.source == v || l.target == v)
    ensures r.Some? ==> r.value == l.source || r.value == l.target
    ensures l.usable && l.source == v ==> r == Some(l.target)
  {
    if !l.usable then None
    else if l.source == v then Some(l.target)
    else if l.target == v then Some(l.source)
    else None
  }

  /** The remaining budget of an entry at `depth`: zero once `depth >= maxDepth`. */
  function Budget(maxDepth: int, depth: int): nat
  {
    if depth >= maxDepth then 0 else maxDepth - depth
  }

  /** The ids the walk collects from an entry at `v` with `k` levels left. */
  function Reach(links: seq<Link>, v: string, k: nat): set<string>
    decreases k, |links| + 1
  {
    if k == 0 then {} else From(links, 0, v, k)
  }

  /** What the scan of `links[j..]` from `v` collects, `k >= 1` levels left. */
  function From(links: seq<Link>, j: nat, v: string, k: nat): set<string>
    requires 1 <= k && j <= |links|
    decreases k, |links| - j
  {
    if j == |links| then {}
    else
      var here := match Across(links[j], v)
        case None => {}
        case Some(n) => {n} + Reach(links, n, k - 1);
      here + From(links, j + 1, v, k)
  }

  /** Everything still to be collected from the entries of a queue. */
  function Pending(links: seq<Link>, q: seq<(string, int)>, maxDepth: int): set<string>
    decreases |q|
  {
    if q == [] then {} else Reach(links, q[0].0, Budget(maxDepth, q[0].1)) + Pending(links, q[1..], maxDepth)
  }

  lemma {:induction false} PendingAppend(links: seq<Link>, q: seq<(string, int)>, x: (string, int), maxDepth: int)
    ensures Pending(links, q + [x], maxDepth) == Pending(links, q, maxDepth) + Reach(links, x.0, Budget(maxDepth, x.1))
    decreases |q|
  {
    if q != [] {
      assert (q + [x])[1..] == q[1..] + [x];
      PendingAppend(links, q[1..], x, maxDepth);
    } else {
      assert ([] + [x])[1..] == [];
    }
  }

  // ---------------------------------------------------------------------------
  // Termination: an entry with budget r is worth 1 + |links| entries of budget r - 1.

  function Weight(e: nat, r: nat): (w: nat)
    ensures w >= 1
  {
    if r == 0 then 1 else 1 + e * Weight(e, r - 1)
  }

  function QueueWeight(e: nat, q: seq<(string, int)>, maxDepth: int): nat
    decreases |q|
  {
    if q == [] then 0 else Weight(e, Budget(maxDepth, q[0].1)) + QueueWeight(e, q[1..], maxDepth)
  }

  lemma {:induction false} QueueWeightAppend(e: nat, q: seq<(string, int)>, x: (string, int), maxDepth: int)
    ensures QueueWeight(e, q + [x], maxDepth) == QueueWeight(e, q, maxDepth) + Weight(e, Budget(maxDepth, x.1))
    decreases |q|
  {
    if q != [] {
      assert (q + [x])[1..] == q[1..] + [x];
      QueueWeightAppend(e, q[1..], x, maxDepth);
    } else {
      assert ([] + [x])[1..] == [];
    }
  }

  /**
   * One expansion of an entry at `current` with `r >= 1` levels left: every
   * usable link touching `current` adds its far end to `related` and queues
   * it one level deeper.
   */
  method Expand(links: seq<Link>, current: string, depth: int, maxDepth: int, related0: set<string>, queue0: seq<(string, int)>)
    returns (related: set<string>, queue: seq<(string, int)>)
    requires depth < maxDepth
    ensures related + Pending(links, queue, maxDepth)
      == related0 + Pending(links, queue0, maxDepth) + Reach(links, current, Budget(maxDepth, depth))
    ensures QueueWeight(|links|, queue, maxDepth) < QueueWeight(|links|, queue0, maxDepth) + Weight(|links|, Budget(maxDepth, depth))
  {
    related, queue := related0, queue0;
    var r := Budget(maxDepth, depth);
    ghost var w := Weight(|links|, r - 1);
    assert Budget(maxDepth, depth + 1) == r - 1;
    for j := 0 to |links|
      invariant related + Pending(links, queue, maxDepth) + From(links, j, current, r)
        == related0 + Pending(links, queue0, maxDepth) + From(links, 0, current, r)
      invariant QueueWeight(|links|, queue, maxDepth) <= QueueWeight(|links|, queue0, maxDepth) + j * w
    {
      related, queue := Visit(links, j, current, depth, maxDepth, related, queue);
    }
    assert |links| * w < Weight(|links|, r);
  }

  /** The body of the expansion loop for `links[j]`. */
  method Visit(links: seq<Link>, j: nat, current: string, depth: int, maxDepth: int, related0: set<string>, queue0: seq<(string, int)>)
    returns (related: set<string>, queue: seq<(string, int)>)
    requires depth < maxDepth && j < |links|
    ensures related + Pending(links, queue, maxDepth) + From(links, j + 1, current, Budget(maxDepth, depth))
      == related0 + Pending(links, queue0, maxDepth) + From(links, j, current, Budget(maxDepth, depth))
    ensures QueueWeight(|links|, queue, maxDepth) <= QueueWeight(|links|, queue0, maxDepth) + Weight(|links|, Budget(maxDepth, depth) - 1)
  {
    related, queue := related0, queue0;
    assert Budget(maxDepth, depth + 1) == Budget(maxDepth, depth) - 1;
    match Across(links[j], current)
    case None =>
    case Some(n) =>
      PendingAppend(links, queue, (n, depth + 1), maxDepth);
      QueueWeightAppend(|links|, queue, (n, depth + 1), maxDepth);
      related := related + {n};
      queue := queue + [(n, depth + 1)];
  }

  /**
   * The loop of `get_related_entities` / `get_related_paragraphs`: it
   * collects exactly `Reach(links, seed, Budget(maxDepth, 0))`.
   */
  method Explore(links: seq<Link>, seed: string, maxDepth: int) returns (related: set<string>)
    ensures related == Reach(links, seed, Budget(maxDepth, 0))
  {
    related := {};
    var queue: seq<(string, int)> := [(seed, 0)];
    assert queue[1..] == [];
    while queue != []
      invariant related + Pending(links, queue, maxDepth) == Reach(links, seed, Budget(maxDepth, 0))
      decreases QueueWeight(|links|, queue, maxDepth)
    {
      var current, depth := queue[0].0, queue[0].1;
      queue := queue[1..];
      if depth < maxDepth {
        related, queue := Expand(links, current, depth, maxDepth, related, queue);
      }
    }
  }

  // ---------------------------------------------------------------------------
  // What the walk collects, described without the scan order.

  /** `v` and `n` are joined by a usable link in the walk's direction rule. */
  ghost predicate Step(links: seq<Link>, v: string, n: string)
  {
    exists i :: 0 <= i < |links| && Across(links[i], v) == Some(n)
  }

  /** `y` is the end of a walk of between 1 and `k` steps from `v`. */
  ghost predicate Within(links: seq<Link>, v: string, y: string, k: nat)
    decreases k
  {
    k >= 1 && (Step(links, v, y) || exists n :: Step(links, v, n) && Within(links, n, y, k - 1))
  }

  lemma {:induction false} FromHas(links: seq<Link>, j: nat, i: nat, v: string, k: nat)
    requires 1 <= k && j <= i < |links| && Across(links[i], v).Some?
    ensures Across(links[i], v).value in From(links, j, v, k)
    ensures Reach(links, Across(links[i], v).value, k - 1) <= From(links, j, v, k)
    decreases i - j
  {
    if j < i {
      FromHas(links, j + 1, i, v, k);
    }
  }

  lemma {:induction false} FromHasOnly(links: seq<Link>, j: nat, v: string, k: nat, y: string)
    requires 1 <= k && j <= |links| && y in From(links, j, v, k)
    ensures exists i :: (j <= i < |links| && Across(links[i], v).Some? &&
      (y == Across(links[i], v).value || y in Reach(links, Across(links[i], v).value, k - 1)))
    decreases |links| - j
  {
    if j < |links| && y !in From(links, j + 1, v, k) {
      assert Across(links[j], v).Some?;
    } else if j < |links| {
      FromHasOnly(links, j + 1, v, k, y);
    }
  }

  /** The walk collects exactly the ends of walks of 1 to `k` steps. */
  lemma ReachIsWithin(links: seq<Link>, v: string, y: string, k: nat)
    ensures y in Reach(links, v, k) <==> Within(links, v, y, k)
  {
    if y in Reach(links, v, k) {
      ReachToWithin(links, v, y, k);
    }
    if Within(links, v, y, k) {
      WithinToReach(links, v, y, k);
    }
  }

  lemma {:induction false} ReachToWithin(links: seq<Link>, v: string, y: string, k: nat)
    requires y in Reach(links, v, k)
    ensures Within(links, v, y, k)
    decreases k
  {
    FromHasOnly(links, 0, v, k, y);
    var i :| 0 <= i < |links| && Across(links[i], v).Some? &&
      (y == Across(links[i], v).value || y in Reach(links, Across(links[i], v).value, k - 1));
    var n := Across(links[i], v).value;
    assert Step(links, v, n);
    if y != n {
      ReachToWithin(links, n, y, k - 1);
    }
  }

  lemma {:induction false} WithinToReach(links: seq<Link>, v: string, y: string, k: nat)
    requires Within(links, v, y, k)
    ensures y in Reach(links, v, k)
    decreases k
  {
    if Step(links, v, y) {
      var i :| 0 <= i < |links| && Across(links[i], v) == Some(y);
      FromHas(links, 0, i, v, k);
    } else {
      var n :| Step(links, v, n) && Within(links, n, y, k - 1);
      var i :| 0 <= i < |links| && Across(links[i], v) == Some(n);
      WithinToReach(links, n, y, k - 1);
      FromHas(links, 0, i, v, k);
    }
  }

  /** A larger depth limit never collects less. */
  lemma {:induction false} ReachMonotone(links: seq<Link>, v: string, k: nat, k': nat)
    requires k <= k'
    ensures Reach(links, v, k) <= Reach(links, v, k')
    decreases k
  {
    forall y | y in Reach(links, v, k) ensures y in Reach(links, v, k') {
      ReachIsWithin(links, v, y, k);
      WithinMonotone(links, v, y, k, k');
      ReachIsWithin(links, v, y, k');
    }
  }

  lemma {:induction false} WithinMonotone(links: seq<Link>, v: string, y: string, k: nat, k': nat)
    requires k <= k' && Within(links, v, y, k)
    ensures Within(links, v, y, k')
    decreases k
  {
    if exists n :: Step(links, v, n) && Within(links, n, y, k - 1) {
      var n :| Step(links, v, n) && Within(links, n, y, k - 1);
      WithinMonotone(links, n, y, k - 1, k' - 1);
      WithinVia(links, v, n, y, k');
    }
  }

  /** A step to `n` followed by a walk of at most `k - 1` steps is a walk of at most `k`. */
  lemma WithinVia(links: seq<Link>, v: string, n: string, y: string, k: nat)
    requires k >= 1 && Step(links, v, n) && Within(links, n, y, k - 1)
    ensures Within(links, v, y, k)
  {
  }

  /** Every usable link at the seed leads straight back to it: two levels return the seed. */
  lemma SeedReturned(links: seq<Link>, i: nat, v: string, k: nat)
    requires 0 <= i < |links| && Across(links[i], v).Some? && k >= 2
    ensures v in Reach(links, v, k)
  {
    var n := Across(links[i], v).value;
    assert Across(links[i], n) == Some(v);
    assert Within(links, n, v, k - 1) by {
      assert Step(links, n, v);
    }
    assert Step(links, v, n);
    ReachIsWithin(links, v, v, k);
  }

  /** The ids that some usable link touches. */
  function Endpoints(links: seq<Link>): (r: set<string>)
    ensures forall i :: 0 <= i < |links| && links[i].usable ==> links[i].source in r && links[i].target in r
  {
    if links == [] then {}
    else (if links[0].usable then {links[0].source, links[0].target} else {}) + Endpoints(links[1..])
  }

  /** The walk only ever collects endpoints of usable links. */
  lemma {:induction false} ReachInEndpoints(links: seq<Link>, v: string, k: nat)
    ensures Reach(links, v, k) <= Endpoints(links)
    decreases k
  {
    forall y | y in Reach(links, v, k) ensures y in Endpoints(links) {
      FromHasOnly(links, 0, v, k, y);
      ghost var i :| 0 <= i < |links| && Across(links[i], v).Some? &&
        (y == Across(links[i], v).value || y in Reach(links, Across(links[i], v).value, k - 1));
      if y != Across(links[i], v).value {
        ReachInEndpoints(links, Across(links[i], v).value, k - 1);
      }
    }
  }
}

/**
 * The ids within k steps of a seed over adjacency lists, and the loop
 * invariant of the breadth-first traversal in graph_retriever/graph_retriever.py
 * with the lemmas that carry it from one iteration to the next.
 */
module BreadthFirst {

  // ---------------------------------------------------------------------------
  // Adjacency and the ids within k steps

  /** `_adjacency_cache`: each node id with the ids its relations lead to. */
  type Adjacency = map<string, seq<string>>

  /** `self._adjacency_cache.get(current_id, [])`. */
  function Neighbours(adj: Adjacency, x: string): seq<string>
  {
    if x in adj then adj[x] else []
  }

  /** The ids one step from some id of `s`. */
  function Step(adj: Adjacency, s: set<string>): set<string>
  {
    set x, y | x in s && y in Neighbours(adj, x) :: y
  }

  /** The ids within `k` steps of `seed`: the reference the traversal is proved against. */
  ghost function Ball(adj: Adjacency, seed: string, k: nat): set<string>
  {
    if k == 0 then {seed} else Ball(adj, seed, k - 1) + Step(adj, Ball(adj, seed, k - 1))
  }

  /** `x` is exactly `k` steps from `seed`: within `k` and not within `k - 1`. */
  ghost predicate Exactly(adj: Adjacency, seed: string, x: string, k: nat)
  {
    x in Ball(adj, seed, k) && (k == 0 || x !in Ball(adj, seed, k - 1))
  }

  lemma {:induction false} BallMono(adj: Adjacency, seed: string, i: nat, j: nat)
    requires i <= j
    ensures Ball(adj, seed, i) <= Ball(adj, seed, j)
    decreases j
  {
    if i < j {
      BallMono(adj, seed, i, j - 1);
    }
  }

  /** Once a step adds nothing, no later step does. */
  lemma {:induction false} BallStable(adj: Adjacency, seed: string, k: nat, m: nat)
    requires Ball(adj, seed, k + 1) == Ball(adj, seed, k) && k <= m
    ensures Ball(adj, seed, m) == Ball(adj, seed, k)
    decreases m
  {
    if m > k {
      BallStable(adj, seed, k, m - 1);
    }
  }

  /** Every id the traversal can meet. */
  function Universe(adj: Adjacency, seed: string): set<string>
  {
    {seed} + (set x, y | x in adj && y in adj[x] :: y)
  }

  /**
   * What `get_related_nodes` returns: for a negative depth nothing;
   * otherwise each id within `maxDepth` steps except the seed, once, closer
   * ids first.
   */
  ghost predicate Traversal(adj: Adjacency, seed: string, maxDepth: int, related: seq<string>)
  {
    (maxDepth < 0 ==> related == []) &&
    (maxDepth >= 0 ==> forall x :: x in related <==> x in Ball(adj, seed, maxDepth) && x != seed) &&
    (forall i, j :: 0 <= i < j < |related| ==> related[i] != related[j]) &&
    (forall i, j, m: nat :: 0 <= i < j < |related| && related[j] in Ball(adj, seed, m) ==> related[i] in Ball(adj, seed, m))
  }

  // ---------------------------------------------------------------------------
  // The traversal's loop invariant

  /** `to_visit` after appending `(n, depth)` for each `n` of `ns` not yet visited. */
  function Push(queue: seq<(string, nat)>, ns: seq<string>, visited: set<string>, depth: nat): (r: seq<(string, nat)>)
    ensures |r| >= |queue| && r[..|queue|] == queue
    ensures forall i :: |queue| <= i < |r| ==> r[i].1 == depth && r[i].0 in ns && r[i].0 !in visited
    ensures forall y :: y in ns ==> y in visited || (y, depth) in r
  {
    if ns == [] then queue
    else
      var r := Push(queue, ns[..|ns| - 1], visited, depth);
      var n := ns[|ns| - 1];
      assert forall y :: y in ns ==> y in ns[..|ns| - 1] || y == n;
      if n in visited then r else r + [(n, depth)]
  }

  /** The queue holds depths `k` and `k + 1`, in order, each id within its depth. */
  ghost predicate QueueShape(adj: Adjacency, seed: string, k: nat, queue: seq<(string, nat)>)
  {
    (forall i :: 0 <= i < |queue| ==> (queue[i].1 == k || queue[i].1 == k + 1) && queue[i].0 in Ball(adj, seed, queue[i].1)) &&
    (forall i, j :: 0 <= i < j < |queue| ==> queue[i].1 <= queue[j].1)
  }

  /**
   * At level `k`: everything visited is within `k`, everything within
   * `k - 1` is visited, everything within `k` is visited or queued at `k`,
   * and the neighbours of what was visited at level `k` are visited or
   * queued at `k + 1`.
   */
  ghost predicate Frontier(adj: Adjacency, seed: string, maxDepth: int, k: nat, queue: seq<(string, nat)>, visited: set<string>)
  {
    visited <= Ball(adj, seed, k) &&
    (k >= 1 ==> Ball(adj, seed, k - 1) <= visited) &&
    (forall x :: x in Ball(adj, seed, k) ==> x in visited || (x, k) in queue) &&
    (k < maxDepth ==> forall x, y :: x in visited && Exactly(adj, seed, x, k) && y in Neighbours(adj, x) ==> y in visited || (y, k + 1) in queue)
  }

  /** What has been collected: the visited ids but the seed, once each, closer ids first. */
  ghost predicate Collected(adj: Adjacency, seed: string, visited: set<string>, related: seq<string>)
  {
    (visited != {} ==> seed in visited) &&
    (forall x :: x in related <==> x in visited && x != seed) &&
    (forall i, j :: 0 <= i < j < |related| ==> related[i] != related[j]) &&
    (forall i, j, m: nat :: 0 <= i < j < |related| && related[j] in Ball(adj, seed, m) ==> related[i] in Ball(adj, seed, m))
  }

  /** Every queued id can be met, and no queued depth exceeds a non-negative limit. */
  ghost predicate QueueBounds(adj: Adjacency, seed: string, maxDepth: int, queue: seq<(string, nat)>)
  {
    forall i :: 0 <= i < |queue| ==> queue[i].0 in Universe(adj, seed) && (maxDepth >= 0 ==> queue[i].1 <= maxDepth)
  }

  /** The whole loop invariant of the traversal at level `k`. */
  ghost predicate BfsInv(adj: Adjacency, seed: string, maxDepth: int, k: nat, queue: seq<(string, nat)>, visited: set<string>, related: seq<string>)
  {
    QueueShape(adj, seed, k, queue) &&
    QueueBounds(adj, seed, maxDepth, queue) &&
    visited <= Universe(adj, seed) &&
    (maxDepth >= 0 ==> k <= maxDepth && Frontier(adj, seed, maxDepth, k, queue, visited)) &&
    (maxDepth < 0 ==> visited == {} && related == []) &&
    (visited == {} ==> forall i :: 0 <= i < |queue| ==> queue[i].1 == 0) &&
    Collected(adj, seed, visited, related)
  }

  lemma InvInit(adj: Adjacency, seed: string, maxDepth: int)
    ensures BfsInv(adj, seed, maxDepth, 0, [(seed, 0)], {}, [])
  {
  }

  /** Moves the level up when the front of the queue has reached `k + 1`. */
  lemma InvLevel(adj: Adjacency, seed: string, maxDepth: int, k: nat, queue: seq<(string, nat)>, visited: set<string>, related: seq<string>)
    returns (level: nat)
    requires BfsInv(adj, seed, maxDepth, k, queue, visited, related) && queue != []
    ensures BfsInv(adj, seed, maxDepth, level, queue, visited, related) && queue[0].1 == level
  {
    if queue[0].1 == k + 1 {
      LevelNext(adj, seed, maxDepth, k, queue, visited, related);
      level := k + 1;
    } else {
      level := k;
    }
  }

  lemma LevelNext(adj: Adjacency, seed: string, maxDepth: int, k: nat, queue: seq<(string, nat)>, visited: set<string>, related: seq<string>)
    requires BfsInv(adj, seed, maxDepth, k, queue, visited, related) && queue != [] && queue[0].1 == k + 1
    ensures BfsInv(adj, seed, maxDepth, k + 1, queue, visited, related)
  {
    LevelUp(adj, seed, maxDepth, k, queue, visited);
  }

  /** When the front of the queue reaches `k + 1`, level `k` is complete. */
  lemma LevelUp(adj: Adjacency, seed: string, maxDepth: int, k: nat, queue: seq<(string, nat)>, visited: set<string>)
    requires QueueShape(adj, seed, k, queue) && Frontier(adj, seed, maxDepth, k, queue, visited)
    requires queue != [] && queue[0].1 == k + 1 && k + 1 <= maxDepth
    ensures QueueShape(adj, seed, k + 1, queue) && Frontier(adj, seed, maxDepth, k + 1, queue, visited)
  {
    assert forall x :: x in Ball(adj, seed, k) ==> x in visited by {
      forall x | x in Ball(adj, seed, k) ensures x in visited {
        assert forall i :: 0 <= i < |queue| ==> queue[i].1 >= k + 1;
      }
    }
    BallMono(adj, seed, k, k + 1);
    forall x | x in Ball(adj, seed, k + 1) ensures x in visited || (x, k + 1) in queue {
      if x !in Ball(adj, seed, k) {
        var z :| z in Ball(adj, seed, k) && x in Neighbours(adj, z);
        assert Exactly(adj, seed, z, k);
      }
    }
  }

  /** Skipping a visited id, or a depth beyond the limit. */
  lemma InvSkip(adj: Adjacency, seed: string, maxDepth: int, k: nat, queue: seq<(string, nat)>, visited: set<string>, related: seq<string>)
    requires BfsInv(adj, seed, maxDepth, k, queue, visited, related) && queue != [] && queue[0].1 == k
    requires queue[0].0 in visited || queue[0].1 > maxDepth
    ensures BfsInv(adj, seed, maxDepth, k, queue[1..], visited, related)
  {
    assert forall i :: 0 < i < |queue| ==> queue[i] == queue[1..][i - 1];
    if maxDepth >= 0 {
      forall x | x in Ball(adj, seed, k) ensures x in visited || (x, k) in queue[1..] {
        if x !in visited {
          var i :| 0 <= i < |queue| && queue[i] == (x, k);
          assert queue[1..][i - 1] == (x, k);
        }
      }
      if k < maxDepth {
        forall x, y | x in visited && Exactly(adj, seed, x, k) && y in Neighbours(adj, x)
          ensures y in visited || (y, k + 1) in queue[1..]
        {
          if y !in visited {
            var i :| 0 <= i < |queue| && queue[i] == (y, k + 1);
            assert queue[1..][i - 1] == (y, k + 1);
          }
        }
      }
    }
  }

  /** The queue after visiting `c`: its unvisited neighbours at the next depth, unless the limit is reached. */
  function Visited(adj: Adjacency, maxDepth: int, k: nat, queue: seq<(string, nat)>, visited: set<string>): seq<(string, nat)>
    requires queue != []
  {
    if k < maxDepth then Push(queue[1..], Neighbours(adj, queue[0].0), visited + {queue[0].0}, k + 1) else queue[1..]
  }

  /** Visiting the front id `c` exactly `k` steps away. */
  lemma InvVisit(adj: Adjacency, seed: string, maxDepth: int, k: nat, queue: seq<(string, nat)>, visited: set<string>, related: seq<string>)
    requires BfsInv(adj, seed, maxDepth, k, queue, visited, related) && queue != [] && queue[0].1 == k
    requires queue[0].0 !in visited && k <= maxDepth
    ensures queue[0].0 in Universe(adj, seed)
    ensures BfsInv(adj, seed, maxDepth, k, Visited(adj, maxDepth, k, queue, visited), visited + {queue[0].0},
      if k > 0 then related + [queue[0].0] else related)
  {
    var c := queue[0].0;
    assert Exactly(adj, seed, c, k);
    VisitShape(adj, seed, maxDepth, k, queue, visited);
    VisitBounds(adj, seed, maxDepth, k, queue, visited);
    VisitFrontier(adj, seed, maxDepth, k, queue, visited);
    VisitCollected(adj, seed, k, visited, related, c);
  }

  lemma VisitShape(adj: Adjacency, seed: string, maxDepth: int, k: nat, queue: seq<(string, nat)>, visited: set<string>)
    requires QueueShape(adj, seed, k, queue) && queue != [] && queue[0].1 == k
    ensures QueueShape(adj, seed, k, Visited(adj, maxDepth, k, queue, visited))
  {
    var c := queue[0].0;
    var q := Visited(adj, maxDepth, k, queue, visited);
    var rest := queue[1..];
    ShapeTail(adj, seed, k, queue);
    if k < maxDepth {
      forall i | |rest| <= i < |q| ensures q[i].1 == k + 1 && q[i].0 in Ball(adj, seed, k + 1) {
        StepInBall(adj, seed, k, c, q[i].0);
      }
      ShapeAppend(adj, seed, k, rest, q);
    }
  }

  lemma ShapeTail(adj: Adjacency, seed: string, k: nat, queue: seq<(string, nat)>)
    requires QueueShape(adj, seed, k, queue) && queue != []
    ensures QueueShape(adj, seed, k, queue[1..])
  {
    assert forall i :: 0 <= i < |queue| - 1 ==> queue[1..][i] == queue[i + 1];
  }

  lemma ShapeAppend(adj: Adjacency, seed: string, k: nat, rest: seq<(string, nat)>, q: seq<(string, nat)>)
    requires QueueShape(adj, seed, k, rest) && |rest| <= |q| && q[..|rest|] == rest
    requires forall i :: |rest| <= i < |q| ==> q[i].1 == k + 1 && q[i].0 in Ball(adj, seed, k + 1)
    ensures QueueShape(adj, seed, k, q)
  {
    assert forall i :: 0 <= i < |rest| ==> q[i] == rest[i];
  }

  lemma StepInBall(adj: Adjacency, seed: string, k: nat, x: string, y: string)
    requires x in Ball(adj, seed, k) && y in Neighbours(adj, x)
    ensures y in Ball(adj, seed, k + 1)
  {
    assert y in Step(adj, Ball(adj, seed, k));
  }

  lemma VisitBounds(adj: Adjacency, seed: string, maxDepth: int, k: nat, queue: seq<(string, nat)>, visited: set<string>)
    requires QueueBounds(adj, seed, maxDepth, queue) && queue != [] && k <= maxDepth
    ensures QueueBounds(adj, seed, maxDepth, Visited(adj, maxDepth, k, queue, visited))
  {
    var c := queue[0].0;
    var q := Visited(adj, maxDepth, k, queue, visited);
    var rest := queue[1..];
    assert q[..|rest|] == rest;
    forall i | 0 <= i < |q| ensures q[i].0 in Universe(adj, seed) && q[i].1 <= maxDepth {
      if i >= |rest| {
        var y := q[i].0;
        assert y in Neighbours(adj, c);
        assert c in adj && y in adj[c];
      } else {
        assert q[i] == queue[i + 1];
      }
    }
  }

  lemma VisitCollected(adj: Adjacency, seed: string, k: nat, visited: set<string>, related: seq<string>, c: string)
    requires Collected(adj, seed, visited, related) && visited <= Ball(adj, seed, k) && Exactly(adj, seed, c, k)
    requires c !in visited && (visited == {} ==> k == 0)
    ensures Collected(adj, seed, visited + {c}, if k > 0 then related + [c] else related)
  {
    if k > 0 {
      OrderKept(adj, seed, k, visited, related, c);
      assert c != seed;
    }
  }

  lemma VisitFrontier(adj: Adjacency, seed: string, maxDepth: int, k: nat, queue: seq<(string, nat)>, visited: set<string>)
    requires Frontier(adj, seed, maxDepth, k, queue, visited) && queue != [] && queue[0].1 == k
    requires queue[0].0 in Ball(adj, seed, k)
    ensures Frontier(adj, seed, maxDepth, k, Visited(adj, maxDepth, k, queue, visited), visited + {queue[0].0})
  {
    var c := queue[0].0;
    var q := Visited(adj, maxDepth, k, queue, visited);
    var v := visited + {c};
    forall x | x in Ball(adj, seed, k) ensures x in v || (x, k) in q {
      if x !in v {
        KeptAfterVisit(adj, maxDepth, k, queue, visited, (x, k));
      }
    }
    if k < maxDepth {
      forall x, y | x in v && Exactly(adj, seed, x, k) && y in Neighbours(adj, x)
        ensures y in v || (y, k + 1) in q
      {
        if x != c && y !in v {
          KeptAfterVisit(adj, maxDepth, k, queue, visited, (y, k + 1));
        }
      }
    }
  }

  /** Whatever was queued behind the front is still queued after visiting the front. */
  lemma KeptAfterVisit(adj: Adjacency, maxDepth: int, k: nat, queue: seq<(string, nat)>, visited: set<string>, e: (string, nat))
    requires e in queue && queue[0] != e
    ensures e in Visited(adj, maxDepth, k, queue, visited)
  {
    var q := Visited(adj, maxDepth, k, queue, visited);
    var i :| 0 <= i < |queue| && queue[i] == e;
    assert q[..|queue| - 1] == queue[1..];
    assert q[i - 1] == queue[1..][i - 1];
  }

  /** An empty queue: the collected ids are the traversal. */
  lemma InvDone(adj: Adjacency, seed: string, maxDepth: int, k: nat, visited: set<string>, related: seq<string>)
    requires BfsInv(adj, seed, maxDepth, k, [], visited, related)
    ensures Traversal(adj, seed, maxDepth, related)
  {
    if maxDepth >= 0 {
      Closure(adj, seed, maxDepth, k, visited);
    }
  }

  /** At the end every id within the depth was visited. */
  lemma Closure(adj: Adjacency, seed: string, maxDepth: int, k: nat, visited: set<string>)
    requires 0 <= k <= maxDepth && Frontier(adj, seed, maxDepth, k, [], visited)
    ensures visited == Ball(adj, seed, maxDepth)
  {
    if k < maxDepth {
      BallMono(adj, seed, k, k + 1);
      assert Ball(adj, seed, k + 1) <= Ball(adj, seed, k);
      BallStable(adj, seed, k, maxDepth);
    }
  }

  /** Visiting an id exactly `k` steps away keeps the closer-first order. */
  lemma OrderKept(adj: Adjacency, seed: string, k: nat, visited: set<string>, related: seq<string>, c: string)
    requires Collected(adj, seed, visited, related) && visited <= Ball(adj, seed, k) && Exactly(adj, seed, c, k)
    ensures forall i, j, m: nat :: 0 <= i < j < |related + [c]| && (related + [c])[j] in Ball(adj, seed, m) ==>
      (related + [c])[i] in Ball(adj, seed, m)
  {
    var r := related + [c];
    forall i, j, m: nat | 0 <= i < j < |r| && r[j] in Ball(adj, seed, m)
      ensures r[i] in Ball(adj, seed, m)
    {
      if j == |related| {
        assert r[i] == related[i] && related[i] in visited;
        NearestLevel(adj, seed, c, k, m);
        BallMono(adj, seed, k, m);
      } else {
        assert r[i] == related[i] && r[j] == related[j];
      }
    }
  }

  /** An id exactly `k` steps away lies in no ball of a smaller radius. */
  lemma NearestLevel(adj: Adjacency, seed: string, c: string, k: nat, m: nat)
    requires Exactly(adj, seed, c, k) && c in Ball(adj, seed, m)
    ensures k <= m
  {
    if m < k {
      Outside(adj, seed, c, m, k - 1);
    }
  }

  lemma Outside(adj: Adjacency, seed: string, c: string, m: nat, k: nat)
    requires m <= k && c !in Ball(adj, seed, k)
    ensures c !in Ball(adj, seed, m)
  {
    BallMono(adj, seed, m, k);
  }
}

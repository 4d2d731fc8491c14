/**
 * Records shared by the relation-graph classes: the metadata dictionary an
 * entity arrives with, the queued hierarchical relation, the edge record,
 * and the counting done by `get_statistics`.
 *
 * Strength and confidence are integer hundredths (1.0 is 100, 0.8 is 80).
 */
module GraphRecords {
  import opened Strings

  /**
   * The metadata dictionary handed to `add_legal_entity_node` /
   * `add_paragraph_node`; `None` is an absent key.
   */
  datatype Meta = Meta(
    entityType: Option<string>,
    paragraphNumber: Option<string>,
    paragraph: Option<string>,
    stykkeNumber: Option<string>,
    stk: Option<string>,
    nummer: Option<string>,
    nr: Option<string>,
    parentParagraph: Option<string>,
    chapter: Option<string>,
    section: Option<string>,
    title: Option<string>,
    status: Option<string>)

  /** `metadata.get(key, default)`. */
  function Get(o: Option<string>, default: string): (r: string)
    ensures o.None? ==> r == default
    ensures o.Some? ==> r == o.value
  {
    if o.Some? then o.value else default
  }

  /** Python truthiness of an optional string: present and non-empty. */
  predicate Truthy(o: Option<string>)
  {
    o.Some? && o.value != []
  }

  /** `metadata.get('entity_type', 'paragraph')`. */
  function EntityType(m: Meta): string
  {
    Get(m.entityType, "paragraph")
  }

  /** `metadata.get('paragraph_number', metadata.get('paragraph', ''))`. */
  function ParagraphNumber(m: Meta): string
  {
    Get(m.paragraphNumber, Get(m.paragraph, ""))
  }

  /**
   * A queued hierarchical relation. Its type is always `hierarchical`, its
   * strength 1.0 and it is always auto-generated, so only the varying fields
   * are kept.
   */
  datatype Relation = Relation(source: string, target: string, subtype: string, explanation: string)

  /** An edge of a graph; `confidence`, `law` and `subtype` are `None` where the source omits the key. */
  datatype Edge = Edge(
    source: string,
    target: string,
    relType: string,
    strength: int,
    confidence: Option<int>,
    explanation: string,
    law: Option<string>,
    autoGenerated: bool,
    subtype: Option<string>)

  /** `"§<p>, stk. <s>"`. */
  function StkId(p: string, s: string): string
  {
    "§" + p + ", stk. " + s
  }

  /** The queued relations whose two endpoints are both among `keys`, in queue order. */
  function Kept(q: seq<Relation>, keys: set<string>): (r: seq<Relation>)
    ensures |r| <= |q|
    decreases |q|
  {
    if q == [] then []
    else if q[0].source in keys && q[0].target in keys then [q[0]] + Kept(q[1..], keys)
    else Kept(q[1..], keys)
  }

  /** Exactly the queued relations with both endpoints among `keys` are kept. */
  lemma {:induction false} KeptMembers(q: seq<Relation>, keys: set<string>)
    ensures forall x :: x in Kept(q, keys) ==> x in q && x.source in keys && x.target in keys
    ensures forall x :: x in q && x.source in keys && x.target in keys ==> x in Kept(q, keys)
    decreases |q|
  {
    if q != [] {
      KeptMembers(q[1..], keys);
      assert forall x :: x in q ==> x == q[0] || x in q[1..];
    }
  }

  /** Filtering twice keeps the same relations: the second pass drops nothing. */
  lemma {:induction false} KeptIdempotent(q: seq<Relation>, keys: set<string>)
    ensures Kept(Kept(q, keys), keys) == Kept(q, keys)
    decreases |q|
  {
    if q != [] {
      KeptIdempotent(q[1..], keys);
      if q[0].source in keys && q[0].target in keys {
        assert ([q[0]] + Kept(q[1..], keys))[1..] == Kept(q[1..], keys);
      }
    }
  }

  lemma KeptAll(q: seq<Relation>, keys: set<string>)
    requires forall i :: 0 <= i < |q| ==> q[i].source in keys && q[i].target in keys
    ensures Kept(q, keys) == q
  {
  }

  lemma KeptAppend(q: seq<Relation>, x: Relation, keys: set<string>)
    ensures Kept(q + [x], keys) == Kept(q, keys) + (if x.source in keys && x.target in keys then [x] else [])
  {
    if q == [] {
      assert [] + [x] == [x];
    } else {
      assert (q + [x])[1..] == q[1..] + [x];
      KeptAppend(q[1..], x, keys);
    }
  }

  /** One more relation of the queue scanned. */
  lemma KeptPrefix(q: seq<Relation>, i: nat, keys: set<string>)
    requires i < |q|
    ensures q[i].source in keys && q[i].target in keys ==> Kept(q[..i + 1], keys) == Kept(q[..i], keys) + [q[i]]
    ensures !(q[i].source in keys && q[i].target in keys) ==> Kept(q[..i + 1], keys) == Kept(q[..i], keys)
  {
    assert q[..i + 1] == q[..i] + [q[i]];
    KeptAppend(q[..i], q[i], keys);
  }

  // ---------------------------------------------------------------------------
  // get_statistics

  /** The number of edges with `auto_generated` set. */
  function AutoCount(edges: seq<Edge>): (n: nat)
    ensures n <= |edges|
  {
    if edges == [] then 0 else (if edges[0].autoGenerated then 1 else 0) + AutoCount(edges[1..])
  }

  lemma AutoCountAppend(edges: seq<Edge>, e: Edge)
    ensures AutoCount(edges + [e]) == AutoCount(edges) + (if e.autoGenerated then 1 else 0)
  {
    if edges == [] {
      assert [] + [e] == [e];
    } else {
      assert (edges + [e])[1..] == edges[1..] + [e];
      AutoCountAppend(edges[1..], e);
    }
  }

  /** An insertion-ordered count table, as a Python dict of counts is. */
  type Counts = seq<(string, nat)>

  function Occurrences(ts: seq<string>, t: string): nat
  {
    if ts == [] then 0 else Occurrences(ts[..|ts| - 1], t) + (if ts[|ts| - 1] == t then 1 else 0)
  }

  function Total(c: Counts): nat
  {
    if c == [] then 0 else Total(c[..|c| - 1]) + c[|c| - 1].1
  }

  predicate Has(c: Counts, t: string)
  {
    exists j :: 0 <= j < |c| && c[j].0 == t
  }

  /** Adds one to the entry for `t`, where it stands. */
  function Inc(c: Counts, t: string): (r: Counts)
    ensures |r| == |c|
    ensures forall j :: 0 <= j < |c| ==> r[j].0 == c[j].0
    decreases |c|
  {
    if c == [] then []
    else if c[|c| - 1].0 == t then c[..|c| - 1] + [(t, c[|c| - 1].1 + 1)]
    else Inc(c[..|c| - 1], t) + [c[|c| - 1]]
  }

  /** `counts[t] = counts.get(t, 0) + 1`: a new key goes last. */
  function Bump(c: Counts, t: string): Counts
  {
    if Has(c, t) then Inc(c, t) else c + [(t, 1)]
  }

  /** The table `get_statistics` builds from the entity types, in node order. */
  function TypeCounts(ts: seq<string>): Counts
  {
    if ts == [] then [] else Bump(TypeCounts(ts[..|ts| - 1]), ts[|ts| - 1])
  }

  ghost predicate KeysDistinct(c: Counts)
  {
    forall i, j :: 0 <= i < j < |c| ==> c[i].0 != c[j].0
  }

  /** Looking a type up in the table. */
  function CountOf(c: Counts, t: string): nat
  {
    if c == [] then 0 else if c[|c| - 1].0 == t then c[|c| - 1].1 else CountOf(c[..|c| - 1], t)
  }

  lemma {:induction false} CountOfAbsent(c: Counts, t: string)
    requires !Has(c, t)
    ensures CountOf(c, t) == 0
    decreases |c|
  {
    if c != [] {
      CountOfAbsent(c[..|c| - 1], t);
    }
  }

  lemma {:induction false} IncFacts(c: Counts, t: string)
    requires KeysDistinct(c) && Has(c, t)
    ensures Total(Inc(c, t)) == Total(c) + 1
    ensures forall u :: CountOf(Inc(c, t), u) == CountOf(c, u) + (if u == t then 1 else 0)
    decreases |c|
  {
    var init := c[..|c| - 1];
    var last := c[|c| - 1];
    if last.0 == t {
      IncAtLast(c, t);
    } else {
      InitFacts(c, t);
      IncFacts(init, t);
      IncBeforeLast(init, last, t);
      assert init + [last] == c;
    }
  }

  /** Dropping the last entry, which is not `t`'s, keeps the keys distinct and `t` present. */
  lemma InitFacts(c: Counts, t: string)
    requires KeysDistinct(c) && Has(c, t) && c[|c| - 1].0 != t
    ensures KeysDistinct(c[..|c| - 1]) && Has(c[..|c| - 1], t)
  {
    var j :| 0 <= j < |c| && c[j].0 == t;
    assert j < |c| - 1 && c[..|c| - 1][j].0 == t;
  }

  /** The entry for `t` is the last one. */
  lemma IncAtLast(c: Counts, t: string)
    requires c != [] && c[|c| - 1].0 == t
    ensures Total(Inc(c, t)) == Total(c) + 1
    ensures forall u :: CountOf(Inc(c, t), u) == CountOf(c, u) + (if u == t then 1 else 0)
  {
    var r := Inc(c, t);
    assert r[..|r| - 1] == c[..|c| - 1];
  }

  /** The entry for `t` comes before the last one: the step carries over from the prefix. */
  lemma IncBeforeLast(init: Counts, last: (string, nat), t: string)
    requires last.0 != t
    requires Total(Inc(init, t)) == Total(init) + 1
    requires forall u :: CountOf(Inc(init, t), u) == CountOf(init, u) + (if u == t then 1 else 0)
    ensures Total(Inc(init + [last], t)) == Total(init + [last]) + 1
    ensures forall u :: CountOf(Inc(init + [last], t), u) == CountOf(init + [last], u) + (if u == t then 1 else 0)
  {
    var c := init + [last];
    assert c[..|c| - 1] == init;
    var r := Inc(c, t);
    assert r[..|r| - 1] == Inc(init, t);
  }

  lemma BumpFacts(c: Counts, t: string)
    requires KeysDistinct(c)
    ensures KeysDistinct(Bump(c, t))
    ensures Total(Bump(c, t)) == Total(c) + 1
    ensures forall u :: CountOf(Bump(c, t), u) == CountOf(c, u) + (if u == t then 1 else 0)
  {
    if Has(c, t) {
      IncFacts(c, t);
    } else {
      CountOfAbsent(c, t);
      var r := c + [(t, 1)];
      assert r[..|r| - 1] == c;
    }
  }

  /**
   * The node-type table has one entry per distinct type, each holding the
   * number of nodes of that type, and its counts add up to the node count.
   */
  lemma {:induction false} TypeCountsFacts(ts: seq<string>)
    ensures KeysDistinct(TypeCounts(ts))
    ensures Total(TypeCounts(ts)) == |ts|
    ensures forall u :: CountOf(TypeCounts(ts), u) == Occurrences(ts, u)
    decreases |ts|
  {
    if ts != [] {
      TypeCountsFacts(ts[..|ts| - 1]);
      BumpFacts(TypeCounts(ts[..|ts| - 1]), ts[|ts| - 1]);
    }
  }
}

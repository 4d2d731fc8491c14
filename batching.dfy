/**
 * `BatchingStrategy` (graph_retriever/graph_retriever_strategy.py): the
 * paragraphs of a law are grouped by chapter in first-appearance order; a
 * chapter whose estimate fits the token budget becomes one batch, a larger
 * chapter is split into batches that overlap by the last two paragraphs of
 * the batch before.
 */
module Batching {
  import opened Strings

  const MaxTokensPerBatch: nat := 15000
  const OverlapParagraphs: nat := 2

  /** A chapter key; `None` is Python's `None`, which `.get('chapter')` yields for a missing key. */
  type ChapterKey = Option<string>

  /**
   * A paragraph record. `metaChapter` is `None` when the record has no
   * metadata or its metadata has no `chapter` key.
   */
  datatype Para = Para(id: string, content: string, metaChapter: Option<ChapterKey>)

  /**
   * The chapter `_group_by_chapter` files a paragraph under: the law
   * structure's `paragraph_hierarchy` entry when there is one, else the
   * metadata's chapter, else `Unknown Chapter`.
   */
  function ChapterOf(p: Para, hierarchy: Option<map<string, ChapterKey>>): ChapterKey
  {
    if hierarchy.Some? && p.id in hierarchy.value then hierarchy.value[p.id]
    else if p.metaChapter.Some? then p.metaChapter.value
    else Some("Unknown Chapter")
  }

  // ---------------------------------------------------------------------------
  // _group_by_chapter

  /** An insertion-ordered dict from chapter to its paragraphs. */
  type Groups = seq<(ChapterKey, seq<Para>)>

  function Keys(gs: Groups): (r: seq<ChapterKey>)
    ensures |r| == |gs| && forall i :: 0 <= i < |gs| ==> r[i] == gs[i].0
  {
    seq(|gs|, i requires 0 <= i < |gs| => gs[i].0)
  }

  /** `chapters[k].append(p)` for a key already present. */
  function Extend(gs: Groups, k: ChapterKey, p: Para): (r: Groups)
    ensures |r| == |gs| && Keys(r) == Keys(gs)
  {
    seq(|gs|, i requires 0 <= i < |gs| => if gs[i].0 == k then (k, gs[i].1 + [p]) else gs[i])
  }

  /** Files `p` under `k`: a new key goes last with `[p]`. */
  function Place(gs: Groups, k: ChapterKey, p: Para): Groups
  {
    if k in Keys(gs) then Extend(gs, k, p) else gs + [(k, [p])]
  }

  function GroupSpec(ps: seq<Para>, h: Option<map<string, ChapterKey>>): Groups
  {
    if ps == [] then [] else Place(GroupSpec(ps[..|ps| - 1], h), ChapterOf(ps[|ps| - 1], h), ps[|ps| - 1])
  }

  /** The paragraphs of `ps` filed under `k`, in input order. */
  function InChapter(ps: seq<Para>, k: ChapterKey, h: Option<map<string, ChapterKey>>): (r: seq<Para>)
    ensures forall p :: p in r ==> p in ps && ChapterOf(p, h) == k
  {
    if ps == [] then []
    else InChapter(ps[..|ps| - 1], k, h) + (if ChapterOf(ps[|ps| - 1], h) == k then [ps[|ps| - 1]] else [])
  }

  function Chapters(ps: seq<Para>, h: Option<map<string, ChapterKey>>): (r: seq<ChapterKey>)
    ensures |r| == |ps| && forall i :: 0 <= i < |ps| ==> r[i] == ChapterOf(ps[i], h)
  {
    seq(|ps|, i requires 0 <= i < |ps| => ChapterOf(ps[i], h))
  }

  /** The distinct elements of `s` in order of first appearance. */
  function FirstAppearance(s: seq<ChapterKey>): (r: seq<ChapterKey>)
    ensures forall x :: x in r <==> x in s
  {
    if s == [] then []
    else
      var init := FirstAppearance(s[..|s| - 1]);
      assert forall x :: x in s <==> x in s[..|s| - 1] || x == s[|s| - 1];
      if s[|s| - 1] in init then init else init + [s[|s| - 1]]
  }

  ghost predicate Distinct(ks: seq<ChapterKey>)
  {
    forall i, j :: 0 <= i < j < |ks| ==> ks[i] != ks[j]
  }

  /** Filing one paragraph: the key list grows only by a new key, and only `k`'s list grows. */
  lemma PlaceFacts(gs: Groups, k: ChapterKey, p: Para)
    ensures Keys(Place(gs, k, p)) == if k in Keys(gs) then Keys(gs) else Keys(gs) + [k]
    ensures forall i :: 0 <= i < |gs| ==> Place(gs, k, p)[i].1 == if gs[i].0 == k then gs[i].1 + [p] else gs[i].1
    ensures k !in Keys(gs) ==> Place(gs, k, p)[|gs|].1 == [p]
  {
    if k !in Keys(gs) {
      assert Keys(gs + [(k, [p])]) == Keys(gs) + [k];
    }
  }

  lemma InChapterNone(ps: seq<Para>, k: ChapterKey, h: Option<map<string, ChapterKey>>)
    requires k !in Chapters(ps, h)
    ensures InChapter(ps, k, h) == []
  {
  }

  /** The chapters come in first-appearance order, each key once. */
  lemma GroupSpecKeys(ps: seq<Para>, h: Option<map<string, ChapterKey>>)
    ensures Keys(GroupSpec(ps, h)) == FirstAppearance(Chapters(ps, h))
    ensures Distinct(Keys(GroupSpec(ps, h)))
  {
    GroupSpecFirstAppearance(ps, h);
    FirstAppearanceDistinct(Chapters(ps, h));
  }

  lemma {:induction false} GroupSpecFirstAppearance(ps: seq<Para>, h: Option<map<string, ChapterKey>>)
    ensures Keys(GroupSpec(ps, h)) == FirstAppearance(Chapters(ps, h))
    decreases |ps|
  {
    if ps != [] {
      var init := ps[..|ps| - 1];
      var p := ps[|ps| - 1];
      GroupSpecFirstAppearance(init, h);
      PlaceFacts(GroupSpec(init, h), ChapterOf(p, h), p);
      var cs := Chapters(ps, h);
      assert cs[..|cs| - 1] == Chapters(init, h);
    }
  }

  lemma {:induction false} FirstAppearanceDistinct(s: seq<ChapterKey>)
    ensures Distinct(FirstAppearance(s))
    decreases |s|
  {
    if s != [] {
      FirstAppearanceDistinct(s[..|s| - 1]);
    }
  }

  /** Each chapter holds exactly the paragraphs filed under it, in input order. */
  lemma {:induction false} GroupSpecContents(ps: seq<Para>, h: Option<map<string, ChapterKey>>)
    ensures forall i :: 0 <= i < |GroupSpec(ps, h)| ==> GroupSpec(ps, h)[i].1 == InChapter(ps, GroupSpec(ps, h)[i].0, h)
    decreases |ps|
  {
    if ps != [] {
      var init := ps[..|ps| - 1];
      var p := ps[|ps| - 1];
      var k := ChapterOf(p, h);
      GroupSpecContents(init, h);
      GroupSpecKeys(init, h);
      var g := GroupSpec(init, h);
      PlaceFacts(g, k, p);
      if k !in Keys(g) {
        assert Chapters(ps, h)[..|ps| - 1] == Chapters(init, h);
        InChapterNone(init, k, h);
      }
    }
  }

  /** Every paragraph is filed under its own chapter. */
  lemma GroupSpecHas(ps: seq<Para>, h: Option<map<string, ChapterKey>>, j: nat)
    requires j < |ps|
    ensures ChapterOf(ps[j], h) in Keys(GroupSpec(ps, h))
    ensures exists i :: 0 <= i < |GroupSpec(ps, h)| && ps[j] in GroupSpec(ps, h)[i].1
  {
    GroupSpecKeys(ps, h);
    GroupSpecContents(ps, h);
    var k := ChapterOf(ps[j], h);
    assert Chapters(ps, h)[j] == k;
    var gs := GroupSpec(ps, h);
    assert k in Keys(gs);
    var i :| 0 <= i < |gs| && Keys(gs)[i] == k;
    InChapterHas(ps, k, h, j);
  }

  lemma {:induction false} InChapterHas(ps: seq<Para>, k: ChapterKey, h: Option<map<string, ChapterKey>>, j: nat)
    requires j < |ps| && ChapterOf(ps[j], h) == k
    ensures ps[j] in InChapter(ps, k, h)
    decreases |ps|
  {
    if j < |ps| - 1 {
      InChapterHas(ps[..|ps| - 1], k, h, j);
    }
  }

  /** `_group_by_chapter`. */
  method GroupByChapter(paragraphs: seq<Para>, hierarchy: Option<map<string, ChapterKey>>) returns (chapters: Groups)
    ensures chapters == GroupSpec(paragraphs, hierarchy)
  {
    chapters := [];
    for i := 0 to |paragraphs|
      invariant chapters == GroupSpec(paragraphs[..i], hierarchy)
    {
      var paragraph := paragraphs[i];
      var chapter: ChapterKey;
      if hierarchy.Some? && paragraph.id in hierarchy.value {
        chapter := hierarchy.value[paragraph.id];
      } else if paragraph.metaChapter.Some? {
        chapter := paragraph.metaChapter.value;
      } else {
        chapter := Some("Unknown Chapter");
      }
      assert paragraphs[..i + 1][..i] == paragraphs[..i];
      chapters := Place(chapters, chapter, paragraph);
    }
    assert paragraphs[..|paragraphs|] == paragraphs;
  }

  // ---------------------------------------------------------------------------
  // _estimate_tokens

  function TotalChars(ps: seq<Para>): nat
  {
    if ps == [] then 0 else TotalChars(ps[..|ps| - 1]) + |ps[|ps| - 1].content|
  }

  /** About four characters per token, rounded down. */
  function EstimateTokens(ps: seq<Para>): (r: nat)
    ensures r * 4 <= TotalChars(ps) < r * 4 + 4
  {
    TotalChars(ps) / 4
  }

  // ---------------------------------------------------------------------------
  // _split_chapter and create_batches

  datatype Kind = FullChapter(chapter: ChapterKey) | ChapterSplit(estimatedTokens: nat)

  datatype Batch = Batch(paragraphs: seq<Para>, kind: Kind)

  function ContextType(b: Batch): string
  {
    if b.kind.FullChapter? then "full_chapter" else "chapter_split"
  }

  /** `max(0, n - overlap_paragraphs)`: where the carried-over tail of an `n`-paragraph batch starts. */
  function OverlapStart(n: nat): (r: nat)
    ensures r <= n && n - r <= OverlapParagraphs
    ensures n >= OverlapParagraphs ==> n - r == OverlapParagraphs
  {
    if n >= OverlapParagraphs then n - OverlapParagraphs else 0
  }

  /** How many paragraphs a batch of `n` carries into the next one. */
  function Overlap(n: nat): nat
  {
    n - OverlapStart(n)
  }

  /** The accumulators of `_split_chapter`. */
  datatype SplitState = SplitState(batches: seq<Batch>, current: seq<Para>, tokens: nat)

  function SplitStep(s: SplitState, p: Para): SplitState
  {
    var t := EstimateTokens([p]);
    if s.tokens + t > MaxTokensPerBatch && s.current != [] then
      var carried := s.current[OverlapStart(|s.current|)..] + [p];
      SplitState(s.batches + [Batch(s.current, ChapterSplit(s.tokens))], carried, EstimateTokens(carried))
    else
      SplitState(s.batches, s.current + [p], s.tokens + t)
  }

  function SplitFold(ps: seq<Para>): SplitState
  {
    if ps == [] then SplitState([], [], 0) else SplitStep(SplitFold(ps[..|ps| - 1]), ps[|ps| - 1])
  }

  function SplitClose(s: SplitState): seq<Batch>
  {
    if s.current != [] then s.batches + [Batch(s.current, ChapterSplit(s.tokens))] else s.batches
  }

  function SplitSpec(ps: seq<Para>): seq<Batch>
  {
    SplitClose(SplitFold(ps))
  }

  /** `_split_chapter`. */
  method SplitChapter(chapterParagraphs: seq<Para>) returns (batches: seq<Batch>)
    ensures batches == SplitSpec(chapterParagraphs)
  {
    batches := [];
    var currentBatch: seq<Para> := [];
    var currentTokens: nat := 0;
    for i := 0 to |chapterParagraphs|
      invariant SplitState(batches, currentBatch, currentTokens) == SplitFold(chapterParagraphs[..i])
    {
      assert chapterParagraphs[..i + 1][..i] == chapterParagraphs[..i];
      batches, currentBatch, currentTokens := AddToSplit(batches, currentBatch, currentTokens, chapterParagraphs[i]);
    }
    assert chapterParagraphs[..|chapterParagraphs|] == chapterParagraphs;
    if currentBatch != [] {
      batches := batches + [Batch(currentBatch, ChapterSplit(currentTokens))];
    }
  }

  /** The body of the loop of `_split_chapter`: close the batch and carry its tail over if `paragraph` does not fit, then add it. */
  method AddToSplit(batches0: seq<Batch>, currentBatch0: seq<Para>, currentTokens0: nat, paragraph: Para)
    returns (batches: seq<Batch>, currentBatch: seq<Para>, currentTokens: nat)
    ensures SplitState(batches, currentBatch, currentTokens) == SplitStep(SplitState(batches0, currentBatch0, currentTokens0), paragraph)
  {
    var paraTokens := EstimateTokens([paragraph]);
    if currentTokens0 + paraTokens > MaxTokensPerBatch && currentBatch0 != [] {
      var overlapStart := if |currentBatch0| >= OverlapParagraphs then |currentBatch0| - OverlapParagraphs else 0;
      var overlap := currentBatch0[overlapStart..];
      batches := batches0 + [Batch(currentBatch0, ChapterSplit(currentTokens0))];
      currentBatch := overlap + [paragraph];
      currentTokens := EstimateTokens(currentBatch);
    } else {
      batches := batches0;
      currentBatch := currentBatch0 + [paragraph];
      currentTokens := currentTokens0 + paraTokens;
    }
  }

  /** The paragraph lists of the batches. */
  function Paras(bs: seq<Batch>): (r: seq<seq<Para>>)
    ensures |r| == |bs| && forall i :: 0 <= i < |bs| ==> r[i] == bs[i].paragraphs
  {
    seq(|bs|, i requires 0 <= i < |bs| => bs[i].paragraphs)
  }

  /** The batches read back with each batch's carried-over head dropped. */
  function Unoverlapped(xs: seq<seq<Para>>): seq<Para>
  {
    if xs == [] then []
    else if |xs| == 1 then xs[0]
    else
      var last := xs[|xs| - 1];
      var k := Overlap(|xs[|xs| - 2]|);
      Unoverlapped(xs[..|xs| - 1]) + (if k <= |last| then last[k..] else [])
  }

  /**
   * Each batch is non-empty and every later batch starts with the tail its
   * predecessor carries over, followed by at least one paragraph of its own.
   */
  ghost predicate Chained(xs: seq<seq<Para>>)
  {
    && (forall i :: 0 <= i < |xs| ==> xs[i] != [])
    && (forall i :: 0 < i < |xs| ==>
          Overlap(|xs[i - 1]|) < |xs[i]| && xs[i][..Overlap(|xs[i - 1]|)] == xs[i - 1][OverlapStart(|xs[i - 1]|)..])
  }

  /** The paragraph lists the fold has produced so far, the open batch last. */
  function Sofar(s: SplitState): seq<seq<Para>>
  {
    Paras(s.batches) + (if s.current == [] then [] else [s.current])
  }

  ghost predicate SplitInv(s: SplitState, prefix: seq<Para>)
  {
    && (s.current == [] <==> prefix == [])
    && (s.current == [] ==> s.batches == [])
    && Unoverlapped(Sofar(s)) == prefix
    && Chained(Sofar(s))
  }

  lemma UnoverlappedSnoc(xs: seq<seq<Para>>, x: seq<Para>)
    requires xs != [] && Overlap(|xs[|xs| - 1]|) <= |x|
    ensures Unoverlapped(xs + [x]) == Unoverlapped(xs) + x[Overlap(|xs[|xs| - 1]|)..]
  {
    assert (xs + [x])[..|xs|] == xs;
  }

  /** Closing the open batch: the new one carries its tail and then `p`. */
  lemma SplitCloseInv(s: SplitState, prefix: seq<Para>, p: Para)
    requires SplitInv(s, prefix) && s.current != []
    requires s.tokens + EstimateTokens([p]) > MaxTokensPerBatch
    ensures SplitInv(SplitStep(s, p), prefix + [p])
  {
    var xs := Sofar(s);
    var carried := s.current[OverlapStart(|s.current|)..] + [p];
    assert Paras(SplitStep(s, p).batches) == Paras(s.batches) + [s.current];
    assert Sofar(SplitStep(s, p)) == xs + [carried];
    UnoverlappedSnoc(xs, carried);
    assert carried[Overlap(|s.current|)..] == [p];
    assert carried[..Overlap(|s.current|)] == s.current[OverlapStart(|s.current|)..];
    ChainedSnoc(xs, carried);
  }

  lemma ChainedSnoc(xs: seq<seq<Para>>, x: seq<Para>)
    requires Chained(xs) && xs != [] && x != []
    requires Overlap(|xs[|xs| - 1]|) < |x|
    requires x[..Overlap(|xs[|xs| - 1]|)] == xs[|xs| - 1][OverlapStart(|xs[|xs| - 1]|)..]
    ensures Chained(xs + [x])
  {
    var ys := xs + [x];
    forall i | 0 < i < |ys|
      ensures Overlap(|ys[i - 1]|) < |ys[i]| && ys[i][..Overlap(|ys[i - 1]|)] == ys[i - 1][OverlapStart(|ys[i - 1]|)..]
    {
      if i < |xs| {
        assert ys[i] == xs[i] && ys[i - 1] == xs[i - 1];
      }
    }
  }

  /** Growing the open batch by `p`. */
  lemma SplitGrowInv(s: SplitState, prefix: seq<Para>, p: Para)
    requires SplitInv(s, prefix) && s.current != []
    ensures SplitInv(SplitState(s.batches, s.current + [p], s.tokens + EstimateTokens([p])), prefix + [p])
  {
    var b := Paras(s.batches);
    var cur := s.current + [p];
    var s' := SplitState(s.batches, cur, s.tokens + EstimateTokens([p]));
    assert Sofar(s) == b + [s.current];
    assert Sofar(s') == b + [cur];
    GrowUnoverlapped(b, s.current, p);
    GrowChained(b, s.current, p);
  }

  lemma GrowUnoverlapped(b: seq<seq<Para>>, x: seq<Para>, p: Para)
    requires Chained(b + [x])
    ensures Unoverlapped(b + [x + [p]]) == Unoverlapped(b + [x]) + [p]
  {
    if b == [] {
      assert Unoverlapped([x + [p]]) == x + [p];
      assert Unoverlapped([x]) == x;
    } else {
      var k := Overlap(|b[|b| - 1]|);
      assert (b + [x])[|b|] == x && (b + [x])[|b| - 1] == b[|b| - 1];
      assert k < |x|;
      UnoverlappedSnoc(b, x);
      UnoverlappedSnoc(b, x + [p]);
      assert (x + [p])[k..] == x[k..] + [p];
    }
  }

  lemma GrowChained(b: seq<seq<Para>>, x: seq<Para>, p: Para)
    requires Chained(b + [x])
    ensures Chained(b + [x + [p]])
  {
    if b == [] {
      assert b + [x + [p]] == [x + [p]];
    } else {
      var k := Overlap(|b[|b| - 1]|);
      assert (b + [x])[|b|] == x && (b + [x])[|b| - 1] == b[|b| - 1];
      assert (x + [p])[..k] == x[..k];
      ChainedPrefix(b, x);
      ChainedSnoc(b, x + [p]);
    }
  }

  lemma ChainedPrefix(xs: seq<seq<Para>>, x: seq<Para>)
    requires Chained(xs + [x])
    ensures Chained(xs)
  {
    forall i | 0 < i < |xs|
      ensures Overlap(|xs[i - 1]|) < |xs[i]| && xs[i][..Overlap(|xs[i - 1]|)] == xs[i - 1][OverlapStart(|xs[i - 1]|)..]
    {
      assert (xs + [x])[i] == xs[i] && (xs + [x])[i - 1] == xs[i - 1];
    }
    forall i | 0 <= i < |xs| ensures xs[i] != [] {
      assert (xs + [x])[i] == xs[i];
    }
  }

  lemma SplitStepInv(s: SplitState, prefix: seq<Para>, p: Para)
    requires SplitInv(s, prefix)
    ensures SplitInv(SplitStep(s, p), prefix + [p])
  {
    if s.tokens + EstimateTokens([p]) > MaxTokensPerBatch && s.current != [] {
      SplitCloseInv(s, prefix, p);
    } else if s.current == [] {
      assert s.current + [p] == [p] && Paras(s.batches) == [];
      assert Sofar(SplitStep(s, p)) == [[p]];
    } else {
      SplitGrowInv(s, prefix, p);
    }
  }

  lemma InitLast<T>(s: seq<T>)
    requires s != []
    ensures s[..|s| - 1] + [s[|s| - 1]] == s
  {
  }

  lemma {:induction false} SplitFoldInv(ps: seq<Para>)
    ensures SplitInv(SplitFold(ps), ps)
    decreases |ps|
  {
    if ps == [] {
      assert Sofar(SplitFold(ps)) == [];
    } else {
      var init, p := ps[..|ps| - 1], ps[|ps| - 1];
      SplitFoldInv(init);
      SplitStepInv(SplitFold(init), init, p);
      InitLast(ps);
    }
  }

  /**
   * The split batches are non-empty, each later one opens with the last two
   * (or fewer) paragraphs of the one before, and dropping those carried
   * paragraphs gives back the chapter, every paragraph once and in order.
   */
  lemma SplitSpecCovers(ps: seq<Para>)
    ensures Chained(Paras(SplitSpec(ps)))
    ensures Unoverlapped(Paras(SplitSpec(ps))) == ps
    ensures ps == [] <==> SplitSpec(ps) == []
  {
    SplitFoldInv(ps);
    var s := SplitFold(ps);
    if s.current != [] {
      assert Paras(SplitSpec(ps)) == Paras(s.batches) + [s.current];
    } else {
      assert Paras(SplitSpec(ps)) == [];
    }
  }

  /**
   * Batch `b` was closed because its estimate plus that of `next`'s first
   * paragraph after the carried-over ones exceeds the budget.
   */
  predicate Closes(b: Batch, next: seq<Para>)
  {
    && b.kind.ChapterSplit?
    && Overlap(|b.paragraphs|) < |next|
    && b.kind.estimatedTokens + EstimateTokens([next[Overlap(|b.paragraphs|)]]) > MaxTokensPerBatch
  }

  function Following(bs: seq<Batch>, current: seq<Para>, i: nat): seq<Para>
    requires i < |bs|
  {
    if i + 1 < |bs| then bs[i + 1].paragraphs else current
  }

  ghost predicate ClosedOver(bs: seq<Batch>, current: seq<Para>)
  {
    forall i :: 0 <= i < |bs| ==> Closes(bs[i], Following(bs, current, i))
  }

  ghost predicate ClosedInv(s: SplitState)
  {
    ClosedOver(s.batches, s.current) && (s.batches != [] ==> s.current != [])
  }

  lemma {:induction false} SplitFoldClosed(ps: seq<Para>)
    ensures ClosedInv(SplitFold(ps))
    decreases |ps|
  {
    if ps != [] {
      SplitFoldClosed(ps[..|ps| - 1]);
      SplitStepClosed(SplitFold(ps[..|ps| - 1]), ps[|ps| - 1]);
    }
  }

  lemma SplitStepClosed(s: SplitState, p: Para)
    requires ClosedInv(s)
    ensures ClosedInv(SplitStep(s, p))
  {
    if s.tokens + EstimateTokens([p]) > MaxTokensPerBatch && s.current != [] {
      SplitCloseClosed(s, p);
    } else if s.current != [] {
      SplitGrowClosed(s, p);
    }
  }

  /** Closing the open batch: it is closed over the carried tail and `p`. */
  lemma SplitCloseClosed(s: SplitState, p: Para)
    requires ClosedInv(s) && s.current != []
    requires s.tokens + EstimateTokens([p]) > MaxTokensPerBatch
    ensures ClosedInv(SplitState(s.batches + [Batch(s.current, ChapterSplit(s.tokens))],
                                 s.current[OverlapStart(|s.current|)..] + [p],
                                 EstimateTokens(s.current[OverlapStart(|s.current|)..] + [p])))
  {
    var bs := s.batches;
    var carried := s.current[OverlapStart(|s.current|)..] + [p];
    var b := Batch(s.current, ChapterSplit(s.tokens));
    var bs' := bs + [b];
    assert carried[Overlap(|s.current|)] == p;
    assert Closes(b, carried);
    forall i | 0 <= i < |bs'| ensures Closes(bs'[i], Following(bs', carried, i)) {
      if i < |bs| {
        assert bs'[i] == bs[i] && Following(bs', carried, i) == Following(bs, s.current, i);
      }
    }
  }

  /** Growing the open batch keeps the last closed batch closed over it. */
  lemma SplitGrowClosed(s: SplitState, p: Para)
    requires ClosedInv(s) && s.current != []
    ensures ClosedInv(SplitState(s.batches, s.current + [p], s.tokens + EstimateTokens([p])))
  {
    var bs := s.batches;
    var cur := s.current + [p];
    forall i | 0 <= i < |bs| ensures Closes(bs[i], Following(bs, cur, i)) {
      if i + 1 == |bs| {
        assert Closes(bs[i], s.current);
        assert cur[Overlap(|bs[i].paragraphs|)] == s.current[Overlap(|bs[i].paragraphs|)];
      }
    }
  }

  /**
   * `_split_chapter` closes a batch only when the next paragraph would take
   * it over `max_tokens_per_batch`: for every batch but the last, its
   * estimate plus the estimate of the next batch's first paragraph after the
   * carried-over ones exceeds 15000.
   */
  lemma SplitSpecCloses(ps: seq<Para>, i: nat)
    requires i + 1 < |SplitSpec(ps)|
    ensures Closes(SplitSpec(ps)[i], SplitSpec(ps)[i + 1].paragraphs)
  {
    SplitFoldClosed(ps);
    var s := SplitFold(ps);
    var r := SplitSpec(ps);
    assert s.current != [] && r == s.batches + [Batch(s.current, ChapterSplit(s.tokens))];
    assert r[i] == s.batches[i] && r[i + 1].paragraphs == Following(s.batches, s.current, i);
  }

  lemma {:induction false} UnoverlappedMember(xs: seq<seq<Para>>, p: Para)
    requires p in Unoverlapped(xs)
    ensures exists i :: 0 <= i < |xs| && p in xs[i]
    decreases |xs|
  {
    if |xs| > 1 {
      var last := xs[|xs| - 1];
      var k := Overlap(|xs[|xs| - 2]|);
      if p in Unoverlapped(xs[..|xs| - 1]) {
        UnoverlappedMember(xs[..|xs| - 1], p);
        var i :| 0 <= i < |xs| - 1 && p in xs[..|xs| - 1][i];
        assert xs[..|xs| - 1][i] == xs[i];
      } else {
        assert k <= |last| && p in last[k..];
        assert p in last;
      }
    } else {
      assert p in xs[0];
    }
  }

  /** The batches of one chapter. */
  function ChapterBatches(k: ChapterKey, g: seq<Para>): seq<Batch>
  {
    if EstimateTokens(g) <= MaxTokensPerBatch then [Batch(g, FullChapter(k))] else SplitSpec(g)
  }

  function BatchesSpec(gs: Groups): seq<Batch>
  {
    if gs == [] then [] else BatchesSpec(gs[..|gs| - 1]) + ChapterBatches(gs[|gs| - 1].0, gs[|gs| - 1].1)
  }

  /** `create_batches`. */
  method CreateBatches(paragraphs: seq<Para>, hierarchy: Option<map<string, ChapterKey>>) returns (batches: seq<Batch>)
    ensures batches == BatchesSpec(GroupSpec(paragraphs, hierarchy))
  {
    var chapters := GroupByChapter(paragraphs, hierarchy);
    batches := [];
    for i := 0 to |chapters|
      invariant batches == BatchesSpec(chapters[..i])
    {
      var chapterName, chapterParagraphs := chapters[i].0, chapters[i].1;
      assert chapters[..i + 1][..i] == chapters[..i];
      if EstimateTokens(chapterParagraphs) <= MaxTokensPerBatch {
        batches := batches + [Batch(chapterParagraphs, FullChapter(chapterName))];
      } else {
        var subBatches := SplitChapter(chapterParagraphs);
        batches := batches + subBatches;
      }
    }
    assert chapters[..|chapters|] == chapters;
  }

  lemma {:induction false} BatchesSpecHas(gs: Groups, i: nat, p: Para)
    requires i < |gs| && p in gs[i].1
    ensures exists b :: b in BatchesSpec(gs) && p in b.paragraphs
    decreases |gs|
  {
    if i < |gs| - 1 {
      BatchesSpecHas(gs[..|gs| - 1], i, p);
    } else {
      var k, g := gs[i].0, gs[i].1;
      if EstimateTokens(g) <= MaxTokensPerBatch {
        assert Batch(g, FullChapter(k)) in BatchesSpec(gs);
      } else {
        SplitSpecCovers(g);
        UnoverlappedMember(Paras(SplitSpec(g)), p);
        var j :| 0 <= j < |SplitSpec(g)| && p in Paras(SplitSpec(g))[j];
        assert SplitSpec(g)[j] in BatchesSpec(gs);
      }
    }
  }

  /** Every input paragraph lands in at least one batch. */
  lemma CreateBatchesCovers(ps: seq<Para>, h: Option<map<string, ChapterKey>>, j: nat)
    requires j < |ps|
    ensures exists b :: b in BatchesSpec(GroupSpec(ps, h)) && ps[j] in b.paragraphs
  {
    GroupSpecHas(ps, h, j);
    var gs := GroupSpec(ps, h);
    var i :| 0 <= i < |gs| && ps[j] in gs[i].1;
    BatchesSpecHas(gs, i, ps[j]);
  }

  /**
   * A `full_chapter` batch is a whole chapter within the budget; a
   * `chapter_split` batch comes from a chapter over it.
   */
  lemma {:induction false} BatchesSpecKinds(gs: Groups, b: Batch)
    requires b in BatchesSpec(gs)
    ensures b.kind.FullChapter? ==> (EstimateTokens(b.paragraphs) <= MaxTokensPerBatch
      && (b.kind.chapter, b.paragraphs) in gs)
    ensures b.kind.ChapterSplit? ==> exists g :: g in gs && EstimateTokens(g.1) > MaxTokensPerBatch
    decreases |gs|
  {
    var last := gs[|gs| - 1];
    if b in BatchesSpec(gs[..|gs| - 1]) {
      BatchesSpecKinds(gs[..|gs| - 1], b);
      if b.kind.FullChapter? {
        assert (b.kind.chapter, b.paragraphs) in gs[..|gs| - 1];
      } else {
        var g :| g in gs[..|gs| - 1] && EstimateTokens(g.1) > MaxTokensPerBatch;
        assert g in gs;
      }
    } else {
      assert b in ChapterBatches(last.0, last.1);
      if EstimateTokens(last.1) > MaxTokensPerBatch {
        SplitKinds(last.1, b);
      }
    }
  }

  lemma SplitKinds(ps: seq<Para>, b: Batch)
    requires b in SplitSpec(ps)
    ensures b.kind.ChapterSplit?
  {
    SplitFoldKinds(ps);
  }

  lemma {:induction false} SplitFoldKinds(ps: seq<Para>)
    ensures forall b :: b in SplitFold(ps).batches ==> b.kind.ChapterSplit?
    decreases |ps|
  {
    if ps != [] {
      SplitFoldKinds(ps[..|ps| - 1]);
    }
  }
}

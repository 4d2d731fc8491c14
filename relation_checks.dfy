/**
 * The pure helpers of `GraphRetrieverImplementation`
 * (graph_retriever/graph_retriever_strategy.py): reading paragraph ids,
 * guessing a paragraph's chapter of Ligningsloven, and checking,
 * deduplicating and scoring the relation records a language model returns.
 *
 * Scores are integer hundredths (0.9 is 90, 1.0 is 100).
 */
module RelationChecks {
  import opened Strings
  import GraphRecords

  // ---------------------------------------------------------------------------
  // Paragraph ids

  /** Python's `[A-Z]`. */
  predicate IsUpperAscii(c: char) { 'A' <= c <= 'Z' }

  /** `re.match(r'§(\d+)', s)`: the digits right after a leading "§", when there are any. */
  function MatchSection(s: string): (r: Option<string>)
    ensures r.Some? <==> |s| >= 2 && s[0] == '§' && IsDigit(s[1])
    ensures r.Some? ==> |r.value| >= 1 && AllDigits(r.value) && |r.value| + 1 <= |s|
    ensures r.Some? ==> s[1..|r.value| + 1] == r.value
    ensures r.Some? ==> |r.value| + 1 == |s| || !IsDigit(s[|r.value| + 1])
  {
    if |s| >= 2 && s[0] == '§' && IsDigit(s[1]) then Some(s[1..DigitEnd(s, 1)]) else None
  }

  /**
   * `_extract_paragraph_number`: the number after the "§" that begins the
   * stripped id; `None` when the stripped id does not begin with "§" and a digit.
   */
  function ExtractParagraphNumber(paraId: string): (r: Option<nat>)
    ensures r.Some? <==> |Strip(paraId)| >= 2 && Strip(paraId)[0] == '§' && IsDigit(Strip(paraId)[1])
  {
    match MatchSection(Strip(paraId))
    case None => None
    case Some(d) => Some(DigitsValue(d))
  }

  /** `int(str(n)) == n`. */
  lemma {:induction false} DigitsValueOfNatToString(n: nat)
    ensures DigitsValue(NatToString(n)) == n
  {
    if n >= 10 {
      DigitsValueOfNatToString(n / 10);
      var s := NatToString(n);
      assert s[..|s| - 1] == NatToString(n / 10);
    }
  }

  /** The digit run of `"§" + digits + rest` stops exactly at `rest`. */
  lemma MatchSectionOf(d: string, rest: string)
    requires |d| >= 1 && AllDigits(d) && (rest == [] || !IsDigit(rest[0]))
    ensures MatchSection("§" + d + rest) == Some(d)
  {
    var s := "§" + d + rest;
    assert forall j :: 1 <= j < |d| + 1 ==> s[j] == d[j - 1];
    assert |d| + 1 < |s| ==> s[|d| + 1] == rest[0];
    RunEndAt(s, 1, |d| + 1, IsDigit);
    assert s[1..|d| + 1] == d;
  }

  /** A string that the surrounding `strip()` leaves alone. */
  predicate Unpadded(s: string)
  {
    s == [] || (!IsSpace(s[0]) && !IsSpace(s[|s| - 1]))
  }

  /** Reading back the number of a formatted id `"§<n>..."` gives `n`. */
  lemma ParagraphNumberOfFormatted(n: nat, rest: string)
    requires rest == [] || !IsDigit(rest[0])
    requires rest == [] || !IsSpace(rest[|rest| - 1])
    ensures ExtractParagraphNumber("§" + NatToString(n) + rest) == Some(n)
  {
    var s := "§" + NatToString(n) + rest;
    assert s[|s| - 1] == if rest == [] then NatToString(n)[|NatToString(n)| - 1] else rest[|rest| - 1];
    StripNoOp(s);
    MatchSectionOf(NatToString(n), rest);
    DigitsValueOfNatToString(n);
  }

  /**
   * `_parse_paragraph_variation`: `"§" + str(int(digits))` and the run of
   * capital letters after the digits (`None` when empty) of the stripped id;
   * an id that does not match is returned unstripped, with no variation.
   */
  function ParseParagraphVariation(paraId: string): (r: (string, Option<string>))
    ensures ExtractParagraphNumber(paraId).None? ==> r == (paraId, None)
    ensures ExtractParagraphNumber(paraId).Some? ==> r.0 == "§" + NatToString(ExtractParagraphNumber(paraId).value)
    ensures r.1.Some? ==> r.1.value != [] && forall i :: 0 <= i < |r.1.value| ==> IsUpperAscii(r.1.value[i])
  {
    var s := Strip(paraId);
    match MatchSection(s)
    case None => (paraId, None)
    case Some(d) => ("§" + NatToString(DigitsValue(d)), Capitals(s, |d| + 1))
  }

  /** The run of capital letters starting at `i`, as `None` when empty. */
  function Capitals(s: string, i: nat): (r: Option<string>)
    requires i <= |s|
    ensures r.Some? ==> r.value != [] && forall j :: 0 <= j < |r.value| ==> IsUpperAscii(r.value[j])
  {
    var k := RunEnd(s, i, IsUpperAscii);
    if k == i then None else Some(s[i..k])
  }

  /**
   * A formatted id `"§<n><V><rest>"` with capital letters `V` parses back
   * into `"§<n>"` and `V`.
   */
  lemma VariationOfFormatted(n: nat, v: string, rest: string)
    requires forall i :: 0 <= i < |v| ==> IsUpperAscii(v[i])
    requires rest == [] || (!IsUpperAscii(rest[0]) && !IsDigit(rest[0]) && !IsSpace(rest[|rest| - 1]))
    ensures ParseParagraphVariation("§" + NatToString(n) + v + rest) == ("§" + NatToString(n), if v == [] then None else Some(v))
  {
    var d := NatToString(n);
    var s := "§" + d + (v + rest);
    assert s == "§" + d + v + rest;
    UnpaddedFormatted(d, v, rest);
    StripNoOp(s);
    MatchSectionOf(d, v + rest);
    DigitsValueOfNatToString(n);
    assert s[|d| + 1..] == v + rest;
    CapitalRun(s, |d| + 1, v, rest);
  }

  lemma UnpaddedFormatted(d: string, v: string, rest: string)
    requires |d| >= 1 && !IsSpace(d[|d| - 1])
    requires rest == [] || (!IsDigit(rest[0]) && !IsSpace(rest[|rest| - 1]))
    requires forall i :: 0 <= i < |v| ==> IsUpperAscii(v[i])
    ensures Unpadded("§" + d + (v + rest))
    ensures v + rest == [] || !IsDigit((v + rest)[0])
  {
    var s := "§" + d + (v + rest);
    assert v + rest != [] ==> (v + rest)[0] == if v != [] then v[0] else rest[0];
    if rest != [] {
      assert s[|s| - 1] == rest[|rest| - 1];
    } else if v != [] {
      assert s[|s| - 1] == v[|v| - 1];
    } else {
      assert s[|s| - 1] == d[|d| - 1];
    }
  }

  lemma CapitalRun(s: string, i: nat, v: string, rest: string)
    requires i <= |s| && s[i..] == v + rest
    requires forall j :: 0 <= j < |v| ==> IsUpperAscii(v[j])
    requires rest == [] || !IsUpperAscii(rest[0])
    ensures Capitals(s, i) == if v == [] then None else Some(v)
  {
    assert forall j :: i <= j < i + |v| ==> s[j] == s[i..][j - i] == v[j - i];
    assert i + |v| < |s| ==> s[i + |v|] == s[i..][|v|] == rest[0];
    RunEndAt(s, i, i + |v|, IsUpperAscii);
    assert s[i..i + |v|] == s[i..][..|v|];
  }

  // ---------------------------------------------------------------------------
  // Chapters of Ligningsloven

  /** The chapter ranges `_extract_chapter_info` assumes: first and last paragraph, and the name. */
  const ChapterTable: seq<(nat, nat, string)> := [
    (1, 3, "Kapitel 1 - Skattepligt"),
    (4, 14, "Kapitel 2 - Indkomstopg\U{00F8}relse"),
    (15, 18, "Kapitel 3 - S\U{00E6}rlige fradrag"),
    (19, 25, "Kapitel 4 - Selskaber mv."),
    (26, 33, "Kapitel 5 - Administration")]

  predicate Covers(row: (nat, nat, string), n: nat)
  {
    row.0 <= n <= row.1
  }

  /** Whether the title names a chapter (`'kapitel' in title.lower()`). */
  predicate ChapterTitle(m: GraphRecords.Meta)
  {
    m.title.Some? && Contains(Lower(m.title.value), "kapitel")
  }

  /**
   * `_extract_chapter_info`: a `chapter` key wins, then a title naming a
   * chapter, then the table row covering the paragraph number; otherwise
   * `None` (so also for paragraph 0, which Python's `if para_num:` skips).
   */
  function ExtractChapterInfo(paraId: string, m: GraphRecords.Meta): (r: Option<string>)
    ensures m.chapter.Some? ==> r == m.chapter
    ensures m.chapter.None? && ChapterTitle(m) ==> r == m.title
    ensures m.chapter.None? && !ChapterTitle(m) && r.Some? ==> ExtractParagraphNumber(paraId).Some?
  {
    if m.chapter.Some? then m.chapter
    else if ChapterTitle(m) then m.title
    else
      match ExtractParagraphNumber(paraId)
      case None => None
      case Some(n) =>
        if n == 0 then None
        else if 1 <= n <= 3 then Some("Kapitel 1 - Skattepligt")
        else if 4 <= n <= 14 then Some("Kapitel 2 - Indkomstopg\U{00F8}relse")
        else if 15 <= n <= 18 then Some("Kapitel 3 - S\U{00E6}rlige fradrag")
        else if 19 <= n <= 25 then Some("Kapitel 4 - Selskaber mv.")
        else if 26 <= n <= 33 then Some("Kapitel 5 - Administration")
        else None
  }

  /**
   * Without a chapter key or chapter title, the chapter is the name of the
   * table row covering the paragraph number, and `None` when no row does.
   */
  lemma ChapterFromTable(paraId: string, m: GraphRecords.Meta, n: nat)
    requires m.chapter.None? && !ChapterTitle(m) && ExtractParagraphNumber(paraId) == Some(n)
    ensures ExtractChapterInfo(paraId, m).None? <==> forall i :: 0 <= i < |ChapterTable| ==> !Covers(ChapterTable[i], n)
    ensures forall i :: 0 <= i < |ChapterTable| && Covers(ChapterTable[i], n) ==> ExtractChapterInfo(paraId, m) == Some(ChapterTable[i].2)
  {
    var t := ChapterTable;
    assert |t| == 5;
    assert t[0] == (1, 3, "Kapitel 1 - Skattepligt");
    assert t[1] == (4, 14, "Kapitel 2 - Indkomstopg\U{00F8}relse");
    assert t[2] == (15, 18, "Kapitel 3 - S\U{00E6}rlige fradrag");
    assert t[3] == (19, 25, "Kapitel 4 - Selskaber mv.");
    assert t[4] == (26, 33, "Kapitel 5 - Administration");
  }

  /** The ranges follow one another without gap or overlap and cover paragraphs 1 to 33. */
  lemma ChapterTableContiguous()
    ensures ChapterTable[0].0 == 1 && ChapterTable[|ChapterTable| - 1].1 == 33
    ensures forall i :: 0 <= i < |ChapterTable| ==> ChapterTable[i].0 <= ChapterTable[i].1
    ensures forall i :: 0 < i < |ChapterTable| ==> ChapterTable[i].0 == ChapterTable[i - 1].1 + 1
  {
  }

  // ---------------------------------------------------------------------------
  // Relation records

  /** A relation record as parsed from the model's JSON; `None` is a missing key. */
  datatype RawRelation = RawRelation(
    sourceParagraph: Option<string>,
    targetParagraph: Option<string>,
    relationType: Option<string>,
    relationStrength: Option<string>,
    explanation: Option<string>)

  /** The formatted relation `_validate_and_format_relation` returns. */
  datatype Rel = Rel(source: string, target: string, relType: string, strength: string, explanation: string)

  predicate ValidType(t: string)
  {
    t == "explicit_reference" || t == "hierarchical" || t == "conceptual" || t == "procedural"
  }

  predicate ValidStrength(s: string)
  {
    s == "strong" || s == "medium" || s == "weak"
  }

  /** What every formatted relation satisfies. */
  predicate WellFormed(r: Rel)
  {
    ValidType(r.relType) && ValidStrength(r.strength) &&
    StartsWith(r.source, "§") && StartsWith(r.target, "§") && r.source != r.target &&
    Unpadded(r.source) && Unpadded(r.target) && Unpadded(r.explanation)
  }

  /**
   * `_validate_and_format_relation`: `None` when a field is missing, the
   * type or strength is not allowed, a stripped endpoint does not start with
   * "§", or the stripped endpoints are equal; otherwise the stripped record.
   */
  function ValidateAndFormatRelation(d: RawRelation): (r: Option<Rel>)
    ensures r.Some? <==>
      d.sourceParagraph.Some? && d.targetParagraph.Some? && d.relationType.Some? &&
      d.relationStrength.Some? && d.explanation.Some? &&
      ValidType(d.relationType.value) && ValidStrength(d.relationStrength.value) &&
      StartsWith(Strip(d.sourceParagraph.value), "§") && StartsWith(Strip(d.targetParagraph.value), "§") &&
      Strip(d.sourceParagraph.value) != Strip(d.targetParagraph.value)
    ensures r.Some? ==> WellFormed(r.value)
    ensures r.Some? ==> r.value.relType == d.relationType.value && r.value.strength == d.relationStrength.value
  {
    if d.sourceParagraph.None? || d.targetParagraph.None? || d.relationType.None? ||
       d.relationStrength.None? || d.explanation.None? then None
    else if !ValidType(d.relationType.value) then None
    else if !ValidStrength(d.relationStrength.value) then None
    else
      var source := Strip(d.sourceParagraph.value);
      var target := Strip(d.targetParagraph.value);
      if !(StartsWith(source, "§") && StartsWith(target, "§")) then None
      else if source == target then None
      else Some(Rel(source, target, d.relationType.value, d.relationStrength.value, Strip(d.explanation.value)))
  }

  /** The record a formatted relation would be as model output. */
  function AsRaw(r: Rel): RawRelation
  {
    RawRelation(Some(r.source), Some(r.target), Some(r.relType), Some(r.strength), Some(r.explanation))
  }

  /** A formatted relation passes the check unchanged, so formatting is idempotent. */
  lemma ValidateFormatted(r: Rel)
    requires WellFormed(r)
    ensures ValidateAndFormatRelation(AsRaw(r)) == Some(r)
  {
    StripNoOp(r.source);
    StripNoOp(r.target);
    StripNoOp(r.explanation);
  }

  /** Formatting the output of formatting changes nothing. */
  lemma ValidateIdempotent(d: RawRelation)
    requires ValidateAndFormatRelation(d).Some?
    ensures ValidateAndFormatRelation(AsRaw(ValidateAndFormatRelation(d).value)) == ValidateAndFormatRelation(d)
  {
    ValidateFormatted(ValidateAndFormatRelation(d).value);
  }

  // ---------------------------------------------------------------------------
  // _deduplicate_relations

  type Key = (string, string, string)

  function RelKey(r: Rel): Key { (r.source, r.target, r.relType) }

  function ReverseKey(r: Rel): Key { (r.target, r.source, r.relType) }

  function KeySet(rs: seq<Rel>): (ks: set<Key>)
    ensures forall i :: 0 <= i < |rs| ==> RelKey(rs[i]) in ks
  {
    if rs == [] then {} else KeySet(rs[..|rs| - 1]) + {RelKey(rs[|rs| - 1])}
  }

  /** Whether `r` or its reversal is already among the kept keys. */
  predicate Seen(ks: set<Key>, r: Rel)
  {
    RelKey(r) in ks || ReverseKey(r) in ks
  }

  /** The relations the deduplication keeps, in input order. */
  function Deduplicated(rs: seq<Rel>): seq<Rel>
  {
    if rs == [] then []
    else
      var d := Deduplicated(rs[..|rs| - 1]);
      if Seen(KeySet(d), rs[|rs| - 1]) then d else d + [rs[|rs| - 1]]
  }

  /**
   * `_deduplicate_relations`: keeps a relation unless its key or its
   * reversed key belongs to a relation already kept.
   */
  method DeduplicateRelations(relations: seq<Rel>) returns (deduplicated: seq<Rel>)
    ensures deduplicated == Deduplicated(relations)
  {
    var seen: set<Key> := {};
    deduplicated := [];
    for i := 0 to |relations|
      invariant deduplicated == Deduplicated(relations[..i])
      invariant seen == KeySet(deduplicated)
    {
      var relation := relations[i];
      DeduplicatedPrefix(relations, i);
      if RelKey(relation) !in seen && ReverseKey(relation) !in seen {
        KeySetSnoc(deduplicated, relation);
        seen := seen + {RelKey(relation)};
        deduplicated := deduplicated + [relation];
      }
    }
    assert relations[..|relations|] == relations;
  }

  lemma DeduplicatedPrefix(rs: seq<Rel>, i: nat)
    requires i < |rs|
    ensures var d := Deduplicated(rs[..i]);
      Deduplicated(rs[..i + 1]) == if Seen(KeySet(d), rs[i]) then d else d + [rs[i]]
  {
    assert rs[..i + 1][..i] == rs[..i];
  }

  lemma KeySetSnoc(d: seq<Rel>, r: Rel)
    ensures KeySet(d + [r]) == KeySet(d) + {RelKey(r)}
  {
    assert (d + [r])[..|d|] == d;
  }

  /**
   * Deduplication keeps only input relations; no two kept relations share a
   * key, nor is one the reversal of another; and every input relation's key
   * or reversed key is kept.
   */
  lemma DeduplicatedFacts(rs: seq<Rel>)
    ensures forall x :: x in Deduplicated(rs) ==> x in rs
    ensures var d := Deduplicated(rs);
      forall i, j :: 0 <= i < j < |d| ==> RelKey(d[j]) != RelKey(d[i]) && ReverseKey(d[j]) != RelKey(d[i])
    ensures forall x :: x in rs ==> Seen(KeySet(Deduplicated(rs)), x)
  {
    DeduplicatedSubset(rs);
    DeduplicatedDistinct(rs);
    DeduplicatedCovers(rs);
  }

  lemma {:induction false} DeduplicatedSubset(rs: seq<Rel>)
    ensures forall x :: x in Deduplicated(rs) ==> x in rs
    decreases |rs|
  {
    if rs != [] {
      DeduplicatedSubset(rs[..|rs| - 1]);
    }
  }

  /** No kept relation repeats the key, or the reversed key, of an earlier one. */
  ghost predicate KeysDistinct(d: seq<Rel>)
  {
    forall i, j :: 0 <= i < j < |d| ==> RelKey(d[j]) != RelKey(d[i]) && ReverseKey(d[j]) != RelKey(d[i])
  }

  lemma DistinctSnoc(d: seq<Rel>, r: Rel)
    requires KeysDistinct(d) && !Seen(KeySet(d), r)
    ensures KeysDistinct(d + [r])
  {
    var e := d + [r];
    forall i, j | 0 <= i < j < |e|
      ensures RelKey(e[j]) != RelKey(e[i]) && ReverseKey(e[j]) != RelKey(e[i])
    {
      assert e[i] == d[i];
      if j < |d| {
        assert e[j] == d[j];
      } else {
        assert e[j] == r;
        assert RelKey(d[i]) in KeySet(d);
      }
    }
  }

  lemma {:induction false} DeduplicatedDistinct(rs: seq<Rel>)
    ensures KeysDistinct(Deduplicated(rs))
    decreases |rs|
  {
    if rs != [] {
      var init, r := rs[..|rs| - 1], rs[|rs| - 1];
      DeduplicatedDistinct(init);
      if !Seen(KeySet(Deduplicated(init)), r) {
        DistinctSnoc(Deduplicated(init), r);
      }
    }
  }

  lemma {:induction false} DeduplicatedCovers(rs: seq<Rel>)
    ensures forall x :: x in rs ==> Seen(KeySet(Deduplicated(rs)), x)
    decreases |rs|
  {
    if rs != [] {
      var init := rs[..|rs| - 1];
      DeduplicatedCovers(init);
      var d := Deduplicated(init);
      assert KeySet(d) <= KeySet(Deduplicated(rs)) by {
        if !Seen(KeySet(d), rs[|rs| - 1]) {
          KeySetSnoc(d, rs[|rs| - 1]);
        }
      }
      forall x | x in rs ensures Seen(KeySet(Deduplicated(rs)), x) {
        if x in init {
          assert Seen(KeySet(d), x);
        }
      }
    }
  }

  /** A key no relation of `rs` has is not in `KeySet(rs)`. */
  lemma {:induction false} KeySetOnly(rs: seq<Rel>, key: Key)
    requires forall j :: 0 <= j < |rs| ==> RelKey(rs[j]) != key
    ensures key !in KeySet(rs)
    decreases |rs|
  {
    if rs != [] {
      KeySetOnly(rs[..|rs| - 1], key);
    }
  }

  /** Every key kept is a key of the input. */
  lemma {:induction false} DeduplicatedKeys(rs: seq<Rel>)
    ensures KeySet(Deduplicated(rs)) <= KeySet(rs)
    decreases |rs|
  {
    if rs != [] {
      var init := rs[..|rs| - 1];
      var d := Deduplicated(init);
      DeduplicatedKeys(init);
      if !Seen(KeySet(d), rs[|rs| - 1]) {
        KeySetSnoc(d, rs[|rs| - 1]);
      }
    }
  }

  /**
   * The first relation with a given key is kept: when no earlier relation
   * has the key of `rs[i]` or its reversal, `rs[i]` is in the output.
   */
  lemma {:induction false} DeduplicatedKeepsFirst(rs: seq<Rel>, i: nat)
    requires i < |rs|
    requires forall j :: 0 <= j < i ==> RelKey(rs[j]) != RelKey(rs[i]) && RelKey(rs[j]) != ReverseKey(rs[i])
    ensures rs[i] in Deduplicated(rs)
    decreases |rs|
  {
    var init := rs[..|rs| - 1];
    var d := Deduplicated(init);
    var last := rs[|rs| - 1];
    assert Deduplicated(rs) == if Seen(KeySet(d), last) then d else d + [last];
    if i < |init| {
      assert forall j :: 0 <= j <= i ==> init[j] == rs[j];
      DeduplicatedKeepsFirst(init, i);
      assert rs[i] in d;
    } else {
      assert forall j :: 0 <= j < |init| ==> init[j] == rs[j];
      FirstNotSeen(init, last);
    }
  }

  /** A relation whose key and reversed key no relation of `rs` has is not seen after `rs`. */
  lemma FirstNotSeen(rs: seq<Rel>, r: Rel)
    requires forall j :: 0 <= j < |rs| ==> RelKey(rs[j]) != RelKey(r) && RelKey(rs[j]) != ReverseKey(r)
    ensures !Seen(KeySet(Deduplicated(rs)), r)
  {
    DeduplicatedKeys(rs);
    KeySetOnly(rs, RelKey(r));
    KeySetOnly(rs, ReverseKey(r));
  }

  /** `d` is the subsequence of `rs` at the strictly increasing positions `idx`. */
  ghost predicate Picks(d: seq<Rel>, rs: seq<Rel>, idx: seq<nat>)
  {
    && |idx| == |d|
    && (forall k :: 0 <= k < |idx| ==> idx[k] < |rs| && d[k] == rs[idx[k]])
    && (forall k, l :: 0 <= k < l < |idx| ==> idx[k] < idx[l])
  }

  /** Picking from `rs` without its last element is picking from `rs`. */
  lemma PicksFromPrefix(d: seq<Rel>, rs: seq<Rel>, idx: seq<nat>)
    requires rs != [] && Picks(d, rs[..|rs| - 1], idx)
    ensures Picks(d, rs, idx)
  {
    forall k | 0 <= k < |idx|
      ensures d[k] == rs[idx[k]]
    {
      assert rs[..|rs| - 1][idx[k]] == rs[idx[k]];
    }
  }

  /** Picking the last element of `rs` as well. */
  lemma PicksSnoc(d: seq<Rel>, rs: seq<Rel>, idx: seq<nat>)
    requires rs != [] && Picks(d, rs[..|rs| - 1], idx)
    ensures Picks(d + [rs[|rs| - 1]], rs, idx + [|rs| - 1])
  {
    PicksFromPrefix(d, rs, idx);
  }

  /** The output keeps the input's order: it is a subsequence of the input. */
  lemma {:induction false} DeduplicatedInOrder(rs: seq<Rel>) returns (idx: seq<nat>)
    ensures Picks(Deduplicated(rs), rs, idx)
    decreases |rs|
  {
    if rs == [] {
      idx := [];
    } else {
      var init := rs[..|rs| - 1];
      var d := Deduplicated(init);
      var last := rs[|rs| - 1];
      assert Deduplicated(rs) == if Seen(KeySet(d), last) then d else d + [last];
      var p := DeduplicatedInOrder(init);
      if Seen(KeySet(d), last) {
        PicksFromPrefix(d, rs, p);
        idx := p;
      } else {
        PicksSnoc(d, rs, p);
        idx := p + [|rs| - 1];
      }
    }
  }

  /** Deduplicating again drops nothing. */
  lemma {:induction false} DeduplicatedIdempotent(rs: seq<Rel>)
    ensures Deduplicated(Deduplicated(rs)) == Deduplicated(rs)
    decreases |rs|
  {
    if rs != [] {
      var init := rs[..|rs| - 1];
      var d := Deduplicated(init);
      DeduplicatedIdempotent(init);
      if !Seen(KeySet(d), rs[|rs| - 1]) {
        var e := d + [rs[|rs| - 1]];
        assert e[..|e| - 1] == d;
      }
    }
  }

  // ---------------------------------------------------------------------------
  // _score_relations

  /** Whether the lower-cased explanation holds one of the legal reference terms. */
  predicate HasLegalTerm(explanation: string)
  {
    var e := Lower(explanation);
    Contains(e, "jf.") || Contains(e, "j\U{00E6}vnf\U{00F8}r") || Contains(e, "henviser") ||
    Contains(e, "se §") || Contains(e, "efter §")
  }

  /**
   * The score `_score_relations` gives a relation: 90, 70 or 50 by
   * strength, 10 more for an explicit reference and 5 more for a legal
   * term, capped at 100.
   */
  function RelationScore(r: Rel): (s: int)
    ensures 50 <= s <= 100
    ensures s == 100 <==> r.strength == "strong" && r.relType == "explicit_reference"
    ensures s == 50 <==> r.strength != "strong" && r.strength != "medium" && r.relType != "explicit_reference" && !HasLegalTerm(r.explanation)
  {
    var base := if r.strength == "strong" then 90 else if r.strength == "medium" then 70 else 50;
    var explicit := if r.relType == "explicit_reference" then 10 else 0;
    var term := if HasLegalTerm(r.explanation) then 5 else 0;
    if base + explicit + term < 100 then base + explicit + term else 100
  }

  /** A stronger strength never lowers the score. */
  lemma RelationScoreMonotone(r: Rel)
    ensures RelationScore(r.(strength := "weak")) <= RelationScore(r.(strength := "medium")) <= RelationScore(r.(strength := "strong"))
  {
  }

  datatype ScoredRel = ScoredRel(rel: Rel, score: int)

  /** `_score_relations`: every relation, in order, with its score attached. */
  method ScoreRelations(relations: seq<Rel>) returns (scored: seq<ScoredRel>)
    ensures |scored| == |relations|
    ensures forall i :: 0 <= i < |relations| ==> scored[i] == ScoredRel(relations[i], RelationScore(relations[i]))
  {
    scored := [];
    for i := 0 to |relations|
      invariant |scored| == i
      invariant forall j :: 0 <= j < i ==> scored[j] == ScoredRel(relations[j], RelationScore(relations[j]))
    {
      scored := scored + [ScoredRel(relations[i], RelationScore(relations[i]))];
    }
  }
}

/**
 * Query detection for the plain search script (simple_search.py): whether a
 * query is a chunk id in UUID form, and which paragraph references (the section sign and a number,
 * `paragraf 33 A`, `stk. 2`) it mentions.
 */
module SearchDetect {
  import opened Strings

  // ---------------------------------------------------------------------------
  // Chunk ids

  predicate IsHexLower(c: char) { '0' <= c <= '9' || 'a' <= c <= 'f' }

  predicate AllHex(s: string) { forall i :: 0 <= i < |s| ==> IsHexLower(s[i]) }

  /** The positions of the four dashes in a UUID's text form. */
  predicate DashAt(i: int) { i == 8 || i == 13 || i == 18 || i == 23 }

  /** The anchored UUID pattern, position by position: 36 characters, dashes at 8, 13, 18 and 23, lower-case hex elsewhere. */
  predicate IsUuid(s: string)
  {
    |s| == 36 && forall i :: 0 <= i < 36 ==> if DashAt(i) then s[i] == '-' else IsHexLower(s[i])
  }

  /** `detect_chunk_id`: the lower-cased, stripped query is a UUID. */
  predicate DetectChunkId(query: string)
  {
    IsUuid(Lower(Strip(query)))
  }

  /**
   * The pattern read group by group: hex groups of the lengths in `lens`,
   * each but the last followed by a dash, and nothing after the last.
   */
  predicate Groups(s: string, lens: seq<nat>)
    decreases |lens|
  {
    if lens == [] then s == []
    else
      var n := lens[0];
      n <= |s| && AllHex(s[..n]) &&
      if |lens| == 1 then |s| == n
      else n < |s| && s[n] == '-' && Groups(s[n + 1..], lens[1..])
  }

  const UuidGroups: seq<nat> := [8, 4, 4, 4, 12]

  /** The length a string of groups of the lengths in `lens` must have. */
  function Span(lens: seq<nat>): nat
    decreases |lens|
  {
    if lens == [] then 0 else if |lens| == 1 then lens[0] else lens[0] + 1 + Span(lens[1..])
  }

  lemma {:induction false} GroupsLength(s: string, lens: seq<nat>)
    requires Groups(s, lens)
    ensures |s| == Span(lens)
    decreases |lens|
  {
    if |lens| > 1 {
      GroupsLength(s[lens[0] + 1..], lens[1..]);
    }
  }

  /** The four-group tail of the pattern, read position by position. */
  predicate TailShape(t: string)
  {
    |t| == 27 && forall i :: 0 <= i < 27 ==> if i == 4 || i == 9 || i == 14 then t[i] == '-' else IsHexLower(t[i])
  }

  lemma TailSpan()
    ensures Span([4, 4, 4, 12]) == 27
  {
    assert [4, 4, 4, 12][1..] == [4, 4, 12] && [4, 4, 12][1..] == [4, 12] && [4, 12][1..] == [12];
  }

  lemma {:induction false} TailGroups(t: string)
    ensures TailShape(t) <==> Groups(t, [4, 4, 4, 12])
  {
    if |t| == 27 {
      var t1, t2, t3 := t[5..], t[10..], t[15..];
      assert t[5..][5..] == t2 && t2[5..] == t3;
      assert [4, 4, 4, 12][1..] == [4, 4, 12] && [4, 4, 12][1..] == [4, 12] && [4, 12][1..] == [12];
      assert Groups(t3, [12]) <==> AllHex(t3);
      assert Groups(t2, [4, 12]) <==> AllHex(t2[..4]) && t2[4] == '-' && AllHex(t3);
      assert Groups(t1, [4, 4, 12]) <==> AllHex(t1[..4]) && t1[4] == '-' && Groups(t2, [4, 12]);
      assert Groups(t, [4, 4, 4, 12]) <==> AllHex(t[..4]) && t[4] == '-' && Groups(t1, [4, 4, 12]);
      if TailShape(t) {
        assert AllHex(t[..4]) && AllHex(t1[..4]) && AllHex(t2[..4]) && AllHex(t3) by {
          forall i | 0 <= i < 4 ensures IsHexLower(t[i]) && IsHexLower(t1[i]) && IsHexLower(t2[i]) {
            assert t1[i] == t[i + 5] && t2[i] == t[i + 10];
          }
          forall i | 0 <= i < 12 ensures IsHexLower(t3[i]) {
            assert t3[i] == t[i + 15];
          }
        }
      }
      if Groups(t, [4, 4, 4, 12]) {
        forall i | 0 <= i < 27
          ensures if i == 4 || i == 9 || i == 14 then t[i] == '-' else IsHexLower(t[i])
        {
          if i < 4 { assert t[..4][i] == t[i]; }
          else if 4 < i < 9 { assert t1[..4][i - 5] == t[i]; }
          else if 9 < i < 14 { assert t2[..4][i - 10] == t[i]; }
          else if 14 < i { assert t3[i - 15] == t[i]; }
        }
      }
    } else {
      TailSpan();
      if Groups(t, [4, 4, 4, 12]) {
        GroupsLength(t, [4, 4, 4, 12]);
      }
    }
  }

  /** The position-by-position reading and the group-by-group reading of the UUID pattern agree. */
  lemma {:induction false} UuidIsGroups(s: string)
    ensures IsUuid(s) <==> Groups(s, UuidGroups)
  {
    assert UuidGroups[1..] == [4, 4, 4, 12];
    if 9 <= |s| {
      var t := s[9..];
      TailGroups(t);
      assert Groups(s, UuidGroups) <==> |s| > 8 && AllHex(s[..8]) && s[8] == '-' && TailShape(t);
      if |s| == 36 {
        assert IsUuid(s) <==> AllHex(s[..8]) && s[8] == '-' && TailShape(t) by {
          assert forall i :: 0 <= i < 8 ==> s[..8][i] == s[i];
          assert forall i :: 0 <= i < 27 ==> t[i] == s[i + 9];
          if AllHex(s[..8]) && s[8] == '-' && TailShape(t) {
            forall i | 0 <= i < 36 ensures if DashAt(i) then s[i] == '-' else IsHexLower(s[i]) {
              if i < 8 { assert s[..8][i] == s[i]; } else if i > 8 { assert t[i - 9] == s[i]; }
            }
          }
        }
      }
    }
  }

  /** A query is a chunk id exactly when its lower-cased, stripped form is five hex groups of 8, 4, 4, 4 and 12 joined by dashes. */
  lemma ChunkIdGroups(query: string)
    ensures DetectChunkId(query) <==> Groups(Lower(Strip(query)), UuidGroups)
  {
    UuidIsGroups(Lower(Strip(query)));
  }

  /** A chunk id has exactly 36 characters once stripped, so surrounding white space is all it may carry. */
  lemma ChunkIdLength(query: string)
    ensures DetectChunkId(query) ==> |Strip(query)| == 36
  {
  }

  // ---------------------------------------------------------------------------
  // Paragraph references

  /**
   * One of the four reference patterns: a keyword, optionally a dot, white
   * space, then the captured group: digits, and for all but `stk` any white
   * space and ASCII letters after them.
   */
  datatype Pattern = Pattern(keyword: string, optionalDot: bool, letterSuffix: bool)

  const Patterns: seq<Pattern> := [
    Pattern("§", false, true),
    Pattern("paragraf", false, true),
    Pattern("section", false, true),
    Pattern("stk", true, false)
  ]

  /** Position `k` lies between the keyword at `i` and the number: the optional dot right after the keyword, or a blank. */
  predicate Gap(p: Pattern, s: string, i: nat, k: nat)
    requires i + |p.keyword| <= k < |s|
  {
    IsSpace(s[k]) || (p.optionalDot && k == i + |p.keyword| && s[k] == '.')
  }

  /**
   * A match of `p` starting at `i`: the bounds of the captured group and the
   * end of the match. The quantifiers are greedy and nothing after the
   * digits can fail, so no backtracking is needed.
   */
  function MatchAt(p: Pattern, s: string, i: nat): (r: Option<(nat, nat, nat)>)
    requires i <= |s|
    ensures r.Some? ==> i < r.value.0 < r.value.1 == r.value.2 <= |s|
    ensures r.Some? ==> |p.keyword| <= |s| - i && s[i..i + |p.keyword|] == p.keyword
    ensures r.Some? ==> IsDigit(s[r.value.0])
    ensures r.Some? ==> forall k :: i + |p.keyword| <= k < r.value.0 ==> Gap(p, s, i, k)
  {
    if p.keyword == [] || !StartsWith(s[i..], p.keyword) then None
    else
      assert s[i..][..|p.keyword|] == s[i..i + |p.keyword|];
      var j := i + |p.keyword|;
      var dot := if p.optionalDot && j < |s| && s[j] == '.' then j + 1 else j;
      var a := SpaceEnd(s, dot);
      var d := DigitEnd(s, a);
      if d == a then None
      else if p.letterSuffix then Some((a, RunEnd(s, SpaceEnd(s, d), IsAsciiLetter), RunEnd(s, SpaceEnd(s, d), IsAsciiLetter)))
      else Some((a, d, d))
  }

  /**
   * Conversely, a keyword at `i` followed by the optional dot, blanks and a
   * digit at `m` is a match whose number starts at `m`; without a letter
   * suffix the group is the whole digit run.
   */
  lemma MatchAtFinds(p: Pattern, s: string, i: nat, m: nat)
    requires p.keyword != [] && i + |p.keyword| <= m < |s| && s[i..i + |p.keyword|] == p.keyword
    requires forall k :: i + |p.keyword| <= k < m ==> Gap(p, s, i, k)
    requires IsDigit(s[m])
    ensures MatchAt(p, s, i).Some? && MatchAt(p, s, i).value.0 == m
    ensures !p.letterSuffix ==> MatchAt(p, s, i).value.1 == DigitEnd(s, m)
  {
    var j := i + |p.keyword|;
    assert s[i..][..|p.keyword|] == s[i..i + |p.keyword|];
    var dot := if p.optionalDot && j < |s| && s[j] == '.' then j + 1 else j;
    assert dot <= m;
    forall k | dot <= k < m
      ensures IsSpace(s[k])
    {
      assert Gap(p, s, i, k);
    }
    RunEndAt(s, dot, m, IsSpace);
  }

  /** `re.findall(p, s[i..])` with one group: the captured groups of the non-overlapping matches, left to right. */
  function FindAll(p: Pattern, s: string, i: nat): seq<string>
    requires i <= |s|
    decreases |s| - i
  {
    if i == |s| then []
    else
      match MatchAt(p, s, i)
      case Some((a, b, e)) => [s[a..b]] + FindAll(p, s, e)
      case None => FindAll(p, s, i + 1)
  }

  /** `[m.strip().upper() for m in matches]`. */
  function Normalized(matches: seq<string>): (r: seq<string>)
    ensures |r| == |matches|
  {
    seq(|matches|, k requires 0 <= k < |matches| => Upper(Strip(matches[k])))
  }

  /** The references list after the patterns in `ps` have been applied in turn. */
  function References(ps: seq<Pattern>, q: string): seq<string>
  {
    if ps == [] then [] else References(ps[..|ps| - 1], q) + Normalized(FindAll(ps[|ps| - 1], q, 0))
  }

  /** `detect_paragraph_references`: the references found by all four patterns in the lower-cased query, as a set. */
  function ParagraphReferences(query: string): set<string>
  {
    Elements(References(Patterns, Lower(query)))
  }

  method DetectParagraphReferences(query: string) returns (refs: set<string>)
    ensures refs == ParagraphReferences(query)
  {
    var q := Lower(query);
    var references: seq<string> := [];
    for k := 0 to |Patterns|
      invariant references == References(Patterns[..k], q)
    {
      var matches := FindAll(Patterns[k], q, 0);
      references := references + Normalized(matches);
      assert Patterns[..k + 1][..k] == Patterns[..k];
    }
    assert Patterns[..|Patterns|] == Patterns;
    refs := Elements(references);
  }

  // ---------------------------------------------------------------------------
  // What the references are

  /** Every group `p` captures starts with a digit; the `stk` pattern's groups are digits only. */
  lemma {:induction false} FindAllShape(p: Pattern, s: string, i: nat, g: string)
    requires i <= |s|
    requires g in FindAll(p, s, i)
    ensures g != [] && IsDigit(g[0])
    ensures !p.letterSuffix ==> AllDigits(g)
    decreases |s| - i
  {
    if i < |s| {
      match MatchAt(p, s, i)
      case Some((a, b, e)) =>
        if g != s[a..b] {
          FindAllShape(p, s, e, g);
        }
      case None =>
        FindAllShape(p, s, i + 1, g);
    }
  }

  /** Every group `p` captures starts at an occurrence of its keyword. */
  lemma {:induction false} FindAllNeedsKeyword(p: Pattern, s: string, i: nat)
    requires i <= |s|
    requires FindAll(p, s, i) != []
    ensures Contains(s, p.keyword)
    decreases |s| - i
  {
    if i < |s| {
      match MatchAt(p, s, i)
      case Some((a, b, e)) =>
        ContainsAt(s, p.keyword, i);
      case None =>
        FindAllNeedsKeyword(p, s, i + 1);
    }
  }

  /** `r` is the stripped, upper-cased form of a group one of `ps` captures in `q`. */
  ghost predicate Captured(ps: seq<Pattern>, q: string, r: string)
  {
    exists k, g :: 0 <= k < |ps| && g in FindAll(ps[k], q, 0) && r == Upper(Strip(g))
  }

  /** Every reference is some pattern's captured group from the lower-cased query, stripped and upper-cased. */
  lemma {:induction false} ReferencesAreGroups(ps: seq<Pattern>, q: string, r: string)
    requires r in References(ps, q)
    ensures Captured(ps, q, r)
    decreases |ps|
  {
    var init, last := ps[..|ps| - 1], ps[|ps| - 1];
    if r in References(init, q) {
      ReferencesAreGroups(init, q, r);
      var k, g :| 0 <= k < |init| && g in FindAll(init[k], q, 0) && r == Upper(Strip(g));
      assert ps[k] == init[k];
    } else {
      var m := FindAll(last, q, 0);
      var j :| 0 <= j < |m| && r == Normalized(m)[j];
      assert m[j] in FindAll(ps[|ps| - 1], q, 0);
    }
  }

  /** ... and every such group is among the references. */
  lemma {:induction false} GroupsAreReferences(ps: seq<Pattern>, q: string, k: nat, g: string)
    requires k < |ps| && g in FindAll(ps[k], q, 0)
    ensures Upper(Strip(g)) in References(ps, q)
    decreases |ps|
  {
    var init := ps[..|ps| - 1];
    if k < |ps| - 1 {
      assert init[k] == ps[k];
      GroupsAreReferences(init, q, k, g);
    } else {
      var m := FindAll(ps[k], q, 0);
      var j :| 0 <= j < |m| && m[j] == g;
      assert Normalized(m)[j] == Upper(Strip(g));
    }
  }

  /** The references are exactly the captured groups, stripped and upper-cased. */
  lemma ReferencesExact(ps: seq<Pattern>, q: string, r: string)
    ensures r in References(ps, q) <==> Captured(ps, q, r)
  {
    if r in References(ps, q) {
      ReferencesAreGroups(ps, q, r);
    }
    if Captured(ps, q, r) {
      var k, g :| 0 <= k < |ps| && g in FindAll(ps[k], q, 0) && r == Upper(Strip(g));
      GroupsAreReferences(ps, q, k, g);
    }
  }

  /** Each reference starts with a digit. */
  lemma ReferenceStartsWithDigit(ps: seq<Pattern>, q: string, r: string)
    requires r in References(ps, q)
    ensures r != [] && IsDigit(r[0])
  {
    ReferencesAreGroups(ps, q, r);
    var k, g :| 0 <= k < |ps| && g in FindAll(ps[k], q, 0) && r == Upper(Strip(g));
    FindAllShape(ps[k], q, 0, g);
    StripKeepsDigit(g);
    UpperKeepsDigit(Strip(g));
  }

  lemma UpperKeepsDigit(x: string)
    requires x != [] && IsDigit(x[0])
    ensures Upper(x) != [] && Upper(x)[0] == x[0]
  {
  }

  /** Stripping and upper-casing a group that starts with a digit leaves a string that starts with that digit. */
  lemma StripKeepsDigit(g: string)
    requires g != [] && IsDigit(g[0])
    ensures Strip(g) != [] && Strip(g)[0] == g[0]
  {
    assert !IsSpace(g[0]) && TrimLeft(g) == 0;
    assert TrimRight(g) > 0;
  }

  lemma UpperDigits(g: string)
    requires AllDigits(g)
    ensures Upper(g) == g
  {
  }

  /**
   * `detect_paragraph_references` returns exactly the stripped, upper-cased
   * groups the four patterns capture in the lower-cased query, and each of
   * them starts with a digit.
   */
  lemma ParagraphReferencesExact(query: string, r: string)
    ensures r in ParagraphReferences(query) <==> Captured(Patterns, Lower(query), r)
    ensures r in ParagraphReferences(query) ==> r != [] && IsDigit(r[0])
  {
    ReferencesExact(Patterns, Lower(query), r);
    if r in ParagraphReferences(query) {
      ReferenceStartsWithDigit(Patterns, Lower(query), r);
    }
  }

  /** What the `stk` pattern captures is a non-empty digit string, unchanged by stripping and upper-casing. */
  lemma StkReferencesAreDigits(query: string, g: string)
    requires g in FindAll(Patterns[3], Lower(query), 0)
    ensures g != [] && AllDigits(g) && Upper(Strip(g)) == g
    ensures g in ParagraphReferences(query)
  {
    FindAllShape(Patterns[3], Lower(query), 0, g);
    StripNoOp(g);
    UpperDigits(g);
    GroupsAreReferences(Patterns, Lower(query), 3, g);
  }

  /** A query that mentions none of the keywords yields no reference. */
  lemma NoKeywordNoReferences(query: string)
    requires forall k :: 0 <= k < |Patterns| ==> !Contains(Lower(query), Patterns[k].keyword)
    ensures ParagraphReferences(query) == {}
  {
    var q := Lower(query);
    forall r | r in ParagraphReferences(query) ensures false {
      ReferencesExact(Patterns, q, r);
      var k, g :| 0 <= k < |Patterns| && g in FindAll(Patterns[k], q, 0) && r == Upper(Strip(g));
      FindAllNeedsKeyword(Patterns[k], q, 0);
    }
  }
}

/**
 * Footnote markers in statute text: a parenthesised run of digits such as
 * `(12)`, matched left to right without overlap as `re.finditer(r'\((\d+)\)')`
 * and `re.sub(r'\(\d+\)', '', ...)` do.
 */
module NoteMarkers {
  import opened Strings

  /** The end of the marker that starts at `i`, if one does. */
  function MarkerEnd(s: string, i: nat): (r: Option<nat>)
    requires i <= |s|
    ensures r.Some? ==> i + 3 <= r.value <= |s|
    ensures r.Some? ==> s[i] == '(' && s[r.value - 1] == ')' && AllDigits(s[i + 1..r.value - 1])
  {
    if i < |s| && s[i] == '(' then
      var k := DigitEnd(s, i + 1);
      if k > i + 1 && k < |s| && s[k] == ')' then Some(k + 1) else None
    else None
  }

  /** Conversely, every `(digits)` at `i` is the marker `MarkerEnd` finds there. */
  lemma MarkerEndFinds(s: string, i: nat, e: nat)
    requires i + 3 <= e <= |s| && s[i] == '(' && s[e - 1] == ')' && AllDigits(s[i + 1..e - 1])
    ensures MarkerEnd(s, i) == Some(e)
  {
    forall j | i + 1 <= j < e - 1
      ensures IsDigit(s[j])
    {
      assert s[j] == s[i + 1..e - 1][j - (i + 1)];
    }
    RunEndAt(s, i + 1, e - 1, IsDigit);
  }

  /** `re.sub(r'\(\d+\)', '', s[i..])`: the text from `i` on with every marker removed. */
  function StripFrom(s: string, i: nat): string
    requires i <= |s|
    decreases |s| - i
  {
    if i == |s| then []
    else
      match MarkerEnd(s, i)
      case Some(e) => StripFrom(s, e)
      case None => [s[i]] + StripFrom(s, i + 1)
  }

  function StripMarkers(s: string): string
  {
    StripFrom(s, 0)
  }

  /** A marker met by the scan, as `remove_note_references` records it. */
  datatype NoteRef = NoteRef(noteNumber: string, noteId: string, charOffset: nat, context: string)

  function NoteId(chunkId: string, number: string): string
  {
    "note_" + chunkId + "_" + number
  }

  /** Up to 30 characters either side of the marker `[start, end)`, stripped. */
  function Context(s: string, start: nat, end: nat): string
    requires start <= end <= |s|
  {
    var a := if start < 30 then 0 else start - 30;
    var b := if end + 30 > |s| then |s| else end + 30;
    Strip(s[a..b])
  }

  /**
   * The context of a marker is the marker itself with at most 30 characters
   * of the text on either side: a slice `s[a..b]` with `a <= start`,
   * `end <= b`, and neither margin wider than 30.
   */
  lemma MarkerContext(s: string, start: nat, end: nat) returns (a: nat, b: nat)
    requires start + 3 <= end <= |s| && s[start] == '(' && s[end - 1] == ')'
    ensures a <= start && start - a <= 30 && end <= b <= |s| && b - end <= 30
    ensures Context(s, start, end) == s[a..b]
  {
    var lo, hi := ContextWindow(s, start, end);
    a, b := StripWindow(s, lo, hi, start, end);
  }

  /** Stripping `s[lo..hi]` keeps its part `[i, j)` when that part starts and ends with a non-space. */
  lemma StripWindow(s: string, lo: nat, hi: nat, i: nat, j: nat) returns (a: nat, b: nat)
    requires lo <= i < j <= hi <= |s| && !IsSpace(s[i]) && !IsSpace(s[j - 1])
    ensures lo <= a <= i && j <= b <= hi && Strip(s[lo..hi]) == s[a..b]
  {
    var w := s[lo..hi];
    assert w[i - lo] == s[i] && w[j - lo - 1] == s[j - 1];
    var l, r := StripAround(w, i - lo, j - lo);
    a, b := lo + l, lo + r;
    SliceOfSlice(s, lo, hi, l, r);
  }

  lemma ContextWindow(s: string, start: nat, end: nat) returns (lo: nat, hi: nat)
    requires start <= end <= |s|
    ensures lo <= start && start - lo <= 30 && (start >= 30 ==> start - lo == 30)
    ensures end <= hi <= |s| && hi - end <= 30
    ensures Context(s, start, end) == Strip(s[lo..hi])
  {
    lo := if start < 30 then 0 else start - 30;
    hi := if end + 30 > |s| then |s| else end + 30;
  }

  /** Stripping a text whose `[i, j)` part starts and ends with a non-space keeps that part. */
  lemma StripAround(w: string, i: nat, j: nat) returns (l: nat, r: nat)
    requires i < j <= |w| && !IsSpace(w[i]) && !IsSpace(w[j - 1])
    ensures l <= i && j <= r <= |w| && Strip(w) == w[l..r]
  {
    l, r := TrimLeft(w), TrimRight(w);
    assert !IsSpace(w[i]) && !IsSpace(w[j - 1]);
    assert l <= i;
    assert j <= r;
  }

  lemma SliceOfSlice(s: string, lo: nat, hi: nat, i: nat, j: nat)
    requires lo <= hi <= |s| && i <= j <= hi - lo
    ensures s[lo..hi][i..j] == s[lo + i..lo + j]
  {
    assert forall k :: 0 <= k < j - i ==> s[lo..hi][i..j][k] == s[lo + i + k];
  }

  /**
   * A marker met by the scan: it occupies `[start, end)` of the text, and
   * `offset` characters of clean text come before it.
   */
  datatype Hit = Hit(start: nat, end: nat, offset: nat)

  ghost predicate HitsWithin(s: string, hits: seq<Hit>)
  {
    forall k :: 0 <= k < |hits| ==> hits[k].start + 3 <= hits[k].end <= |s|
  }

  /** The markers the scan meets from position `i` on, when `off` characters of clean text precede `i`. */
  function HitsFrom(s: string, i: nat, off: nat): (r: seq<Hit>)
    requires i <= |s|
    ensures HitsWithin(s, r)
    decreases |s| - i
  {
    if i == |s| then []
    else
      match MarkerEnd(s, i)
      case Some(e) => [Hit(i, e, off)] + HitsFrom(s, e, off)
      case None => HitsFrom(s, i + 1, off + 1)
  }

  /** The reference recorded for one marker: its digits, its id, its offset and its context. */
  function Record(s: string, chunkId: string, h: Hit): NoteRef
    requires h.start + 3 <= h.end <= |s|
  {
    var number := s[h.start + 1..h.end - 1];
    NoteRef(number, NoteId(chunkId, number), h.offset, Context(s, h.start, h.end))
  }

  function Records(s: string, chunkId: string, hits: seq<Hit>): (r: seq<NoteRef>)
    requires HitsWithin(s, hits)
    ensures |r| == |hits|
  {
    seq(|hits|, k requires 0 <= k < |hits| && HitsWithin(s, hits) => Record(s, chunkId, hits[k]))
  }

  /** The references the scan records from position `i` on. */
  function RefsFrom(s: string, chunkId: string, i: nat, off: nat): seq<NoteRef>
    requires i <= |s|
  {
    Records(s, chunkId, HitsFrom(s, i, off))
  }

  function Refs(s: string, chunkId: string): seq<NoteRef>
  {
    RefsFrom(s, chunkId, 0, 0)
  }

  /** `re.findall(r'\((\d+)\)', s)`: the numbers of the markers, left to right. */
  function MarkerNumbers(s: string): seq<string>
  {
    var hits := HitsFrom(s, 0, 0);
    seq(|hits|, k requires 0 <= k < |hits| && HitsWithin(s, hits) => s[hits[k].start + 1..hits[k].end - 1])
  }

  /**
   * `remove_note_references`: the text with its markers removed, and one
   * reference per marker giving its number, its id, its position in the
   * clean text and the surrounding context.
   */
  method RemoveNoteReferences(text: string, chunkId: string) returns (clean: string, refs: seq<NoteRef>)
    ensures clean == StripMarkers(text)
    ensures refs == Refs(text, chunkId)
  {
    clean, refs := [], [];
    var last, i := 0, 0;
    ghost var off, hits := 0, [];
    while i < |text|
      invariant ScanInv(text, chunkId, clean, refs, hits, last, i, off)
      decreases |text| - i
    {
      match MarkerEnd(text, i)
      case Some(e) =>
        clean, refs := MarkerStep(text, chunkId, clean, refs, hits, last, i, off, e);
        hits := hits + [Hit(i, e, off)];
        last, i := e, e;
      case None =>
        ScanPlain(text, chunkId, clean, refs, hits, last, i, off);
        i, off := i + 1, off + 1;
    }
    ScanDone(text, chunkId, clean, refs, hits, last, off);
    clean := clean + text[last..];
  }

  /** A marker at `i`: the pending stretch joins the clean text and the marker is recorded at the clean text's length. */
  method MarkerStep(text: string, chunkId: string, clean: string, refs: seq<NoteRef>, ghost hits: seq<Hit>, last: nat, i: nat, ghost off: nat, e: nat)
    returns (clean': string, refs': seq<NoteRef>)
    requires ScanInv(text, chunkId, clean, refs, hits, last, i, off)
    requires i < |text| && MarkerEnd(text, i) == Some(e)
    ensures ScanInv(text, chunkId, clean', refs', hits + [Hit(i, e, off)], e, e, off)
  {
    ScanMarker(text, chunkId, clean, refs, hits, last, i, off, e);
    clean' := clean + text[last..i];
    assert |clean'| == off;
    refs' := refs + [Record(text, chunkId, Hit(i, e, |clean'|))];
  }

  /**
   * The loop invariant of `RemoveNoteReferences`: the clean text so far, the
   * pending stretch `text[last..i]` and the rest of the scan make up the
   * whole clean text; the markers met so far and the rest of the scan make
   * up all the markers, and `refs` records those met so far; `off` is the
   * length of the clean text up to `i`.
   */
  ghost predicate ScanInv(text: string, chunkId: string, clean: string, refs: seq<NoteRef>, hits: seq<Hit>, last: nat, i: nat, off: nat)
  {
    && last <= i <= |text|
    && off == |clean| + (i - last)
    && clean + text[last..i] + StripFrom(text, i) == StripMarkers(text)
    && hits + HitsFrom(text, i, off) == HitsFrom(text, 0, 0)
    && HitsWithin(text, hits)
    && refs == Records(text, chunkId, hits)
  }

  lemma ScanMarker(text: string, chunkId: string, clean: string, refs: seq<NoteRef>, hits: seq<Hit>, last: nat, i: nat, off: nat, e: nat)
    requires ScanInv(text, chunkId, clean, refs, hits, last, i, off)
    requires i < |text| && MarkerEnd(text, i) == Some(e)
    ensures ScanInv(text, chunkId, clean + text[last..i], refs + [Record(text, chunkId, Hit(i, e, off))], hits + [Hit(i, e, off)], e, e, off)
  {
    ScanMarkerClean(text, clean, last, i, e);
    ScanMarkerHits(text, hits, i, off, e);
    RecordsSnoc(text, chunkId, hits, Hit(i, e, off));
  }

  lemma ScanMarkerClean(text: string, clean: string, last: nat, i: nat, e: nat)
    requires last <= i < |text| && MarkerEnd(text, i) == Some(e)
    requires clean + text[last..i] + StripFrom(text, i) == StripMarkers(text)
    ensures (clean + text[last..i]) + text[e..e] + StripFrom(text, e) == StripMarkers(text)
  {
    StripSkipsMarker(text, i, e);
    assert text[e..e] == [];
  }

  lemma ScanMarkerHits(text: string, hits: seq<Hit>, i: nat, off: nat, e: nat)
    requires i < |text| && MarkerEnd(text, i) == Some(e)
    requires hits + HitsFrom(text, i, off) == HitsFrom(text, 0, 0)
    ensures (hits + [Hit(i, e, off)]) + HitsFrom(text, e, off) == HitsFrom(text, 0, 0)
  {
    assert HitsFrom(text, i, off) == [Hit(i, e, off)] + HitsFrom(text, e, off);
    AppendAssoc(hits, [Hit(i, e, off)], HitsFrom(text, e, off));
  }

  lemma RecordsSnoc(s: string, chunkId: string, hits: seq<Hit>, h: Hit)
    requires h.start + 3 <= h.end <= |s| && HitsWithin(s, hits)
    ensures HitsWithin(s, hits + [h])
    ensures Records(s, chunkId, hits + [h]) == Records(s, chunkId, hits) + [Record(s, chunkId, h)]
  {
    var all := hits + [h];
    assert forall k :: 0 <= k < |hits| ==> all[k] == hits[k];
  }

  lemma ScanPlain(text: string, chunkId: string, clean: string, refs: seq<NoteRef>, hits: seq<Hit>, last: nat, i: nat, off: nat)
    requires ScanInv(text, chunkId, clean, refs, hits, last, i, off)
    requires i < |text| && MarkerEnd(text, i).None?
    ensures ScanInv(text, chunkId, clean, refs, hits, last, i + 1, off + 1)
  {
    ScanPlainClean(text, clean, last, i);
    assert HitsFrom(text, i, off) == HitsFrom(text, i + 1, off + 1);
  }

  lemma ScanPlainClean(text: string, clean: string, last: nat, i: nat)
    requires last <= i < |text| && MarkerEnd(text, i).None?
    requires clean + text[last..i] + StripFrom(text, i) == StripMarkers(text)
    ensures clean + text[last..i + 1] + StripFrom(text, i + 1) == StripMarkers(text)
  {
    StripKeepsPlain(text, i);
    assert text[last..i + 1] == text[last..i] + [text[i]];
    AppendAssoc(clean, text[last..i], [text[i]]);
    AppendAssoc(clean + text[last..i], [text[i]], StripFrom(text, i + 1));
  }

  lemma ScanDone(text: string, chunkId: string, clean: string, refs: seq<NoteRef>, hits: seq<Hit>, last: nat, off: nat)
    requires ScanInv(text, chunkId, clean, refs, hits, last, |text|, off)
    ensures clean + text[last..] == StripMarkers(text)
    ensures refs == Refs(text, chunkId)
  {
    assert HitsFrom(text, |text|, off) == [];
    assert hits == HitsFrom(text, 0, 0);
  }

  lemma AppendAssoc<T>(a: seq<T>, b: seq<T>, c: seq<T>)
    ensures (a + b) + c == a + (b + c)
  {
  }

  // ---------------------------------------------------------------------------
  // The clean text and the references together determine the original text.

  function Marker(number: string): string
  {
    "(" + number + ")"
  }

  function Clamp(x: int, hi: nat): (r: nat)
    ensures r <= hi
  {
    if x < 0 then 0 else if x > hi then hi else x
  }

  /**
   * Puts every marker back at its recorded offset; `clean` is the part of
   * the clean text that starts at offset `base`.
   */
  function Reinsert(clean: string, refs: seq<NoteRef>, base: nat): string
    decreases |refs|
  {
    if refs == [] then clean
    else
      var k := Clamp(refs[0].charOffset - base, |clean|);
      clean[..k] + Marker(refs[0].noteNumber) + Reinsert(clean[k..], refs[1..], base + k)
  }

  ghost predicate OffsetsAtLeast(refs: seq<NoteRef>, lo: nat)
  {
    forall j :: 0 <= j < |refs| ==> lo <= refs[j].charOffset
  }

  ghost predicate OffsetsWithin(refs: seq<NoteRef>, lo: nat, hi: nat)
  {
    && (forall j :: 0 <= j < |refs| ==> lo <= refs[j].charOffset <= hi)
    && (forall j, k :: 0 <= j < k < |refs| ==> refs[j].charOffset <= refs[k].charOffset)
  }

  ghost predicate WellNumbered(refs: seq<NoteRef>, chunkId: string)
  {
    forall j :: 0 <= j < |refs| ==>
      |refs[j].noteNumber| >= 1 && AllDigits(refs[j].noteNumber) && refs[j].noteId == NoteId(chunkId, refs[j].noteNumber)
  }

  /** One step of the scan over a marker at `i` ending at `e`. */
  lemma UnfoldMarker(s: string, chunkId: string, i: nat, off: nat, e: nat)
    requires i < |s| && MarkerEnd(s, i) == Some(e)
    ensures StripFrom(s, i) == StripFrom(s, e)
    ensures RefsFrom(s, chunkId, i, off) == [Record(s, chunkId, Hit(i, e, off))] + RefsFrom(s, chunkId, e, off)
    ensures s[i..] == Marker(s[i + 1..e - 1]) + s[e..]
  {
    StripSkipsMarker(s, i, e);
    RefAtMarker(s, chunkId, i, off, e);
    MarkerText(s, i, e);
  }

  lemma StripSkipsMarker(s: string, i: nat, e: nat)
    requires i < |s| && MarkerEnd(s, i) == Some(e)
    ensures StripFrom(s, i) == StripFrom(s, e)
  {
  }

  lemma RefAtMarker(s: string, chunkId: string, i: nat, off: nat, e: nat)
    requires i < |s| && MarkerEnd(s, i) == Some(e)
    ensures RefsFrom(s, chunkId, i, off) == [Record(s, chunkId, Hit(i, e, off))] + RefsFrom(s, chunkId, e, off)
  {
    var rest := HitsFrom(s, e, off);
    assert HitsFrom(s, i, off) == [Hit(i, e, off)] + rest;
    RecordsCons(s, chunkId, Hit(i, e, off), rest);
  }

  lemma RecordsCons(s: string, chunkId: string, h: Hit, hits: seq<Hit>)
    requires h.start + 3 <= h.end <= |s| && HitsWithin(s, hits)
    ensures HitsWithin(s, [h] + hits)
    ensures Records(s, chunkId, [h] + hits) == [Record(s, chunkId, h)] + Records(s, chunkId, hits)
  {
    var all := [h] + hits;
    assert forall k :: 0 < k < |all| ==> all[k] == hits[k - 1];
  }

  /** The text at a marker is the marker followed by the rest. */
  lemma MarkerText(s: string, i: nat, e: nat)
    requires i < |s| && MarkerEnd(s, i) == Some(e)
    ensures s[i..] == Marker(s[i + 1..e - 1]) + s[e..]
  {
    assert s[i..e] == Marker(s[i + 1..e - 1]) by {
      assert s[i..e] == [s[i]] + s[i + 1..e - 1] + [s[e - 1]];
    }
    assert s[i..] == s[i..e] + s[e..];
  }

  /** One step of the scan over a character at `i` that starts no marker. */
  lemma UnfoldPlain(s: string, chunkId: string, i: nat, off: nat)
    requires i < |s| && MarkerEnd(s, i).None?
    ensures StripFrom(s, i) == [s[i]] + StripFrom(s, i + 1)
    ensures RefsFrom(s, chunkId, i, off) == RefsFrom(s, chunkId, i + 1, off + 1)
    ensures s[i..] == [s[i]] + s[i + 1..]
  {
    StripKeepsPlain(s, i);
    RefsSkipPlain(s, chunkId, i, off);
  }

  lemma StripKeepsPlain(s: string, i: nat)
    requires i < |s| && MarkerEnd(s, i).None?
    ensures StripFrom(s, i) == [s[i]] + StripFrom(s, i + 1)
  {
  }

  lemma RefsSkipPlain(s: string, chunkId: string, i: nat, off: nat)
    requires i < |s| && MarkerEnd(s, i).None?
    ensures RefsFrom(s, chunkId, i, off) == RefsFrom(s, chunkId, i + 1, off + 1)
  {
    assert HitsFrom(s, i, off) == HitsFrom(s, i + 1, off + 1);
  }

  lemma RefsFromOffsets(s: string, chunkId: string, i: nat, off: nat)
    requires i <= |s|
    ensures OffsetsAtLeast(RefsFrom(s, chunkId, i, off), off)
  {
    RefsFromOffsetsOrdered(s, chunkId, i, off);
  }

  lemma ReinsertCons(c: char, rest: string, refs: seq<NoteRef>, base: nat)
    requires OffsetsAtLeast(refs, base + 1)
    ensures Reinsert([c] + rest, refs, base) == [c] + Reinsert(rest, refs, base + 1)
  {
    if refs != [] {
      var t := [c] + rest;
      var k := Clamp(refs[0].charOffset - base, |t|);
      var k' := Clamp(refs[0].charOffset - (base + 1), |rest|);
      assert k == k' + 1;
      var m := Marker(refs[0].noteNumber);
      var tail := Reinsert(rest[k'..], refs[1..], base + 1 + k');
      assert t[..k] == [c] + rest[..k'];
      assert t[k..] == rest[k'..];
      assert Reinsert(t, refs, base) == t[..k] + m + tail;
      assert Reinsert(rest, refs, base + 1) == rest[..k'] + m + tail;
      AppendAssoc([c], rest[..k'], m);
      AppendAssoc([c], rest[..k'] + m, tail);
    }
  }

  lemma ReinsertHead(c: string, ref: NoteRef, r: seq<NoteRef>, base: nat)
    requires ref.charOffset == base
    ensures Reinsert(c, [ref] + r, base) == Marker(ref.noteNumber) + Reinsert(c, r, base)
  {
    assert c[..0] == [] && c[0..] == c;
    assert ([ref] + r)[1..] == r;
  }

  lemma {:induction false} ReinsertRefsFrom(s: string, chunkId: string, i: nat, off: nat)
    requires i <= |s|
    ensures Reinsert(StripFrom(s, i), RefsFrom(s, chunkId, i, off), off) == s[i..]
    decreases |s| - i
  {
    if i < |s| {
      if MarkerEnd(s, i).Some? {
        var e := MarkerEnd(s, i).value;
        ReinsertRefsFrom(s, chunkId, e, off);
        ReinsertAtMarker(s, chunkId, i, off, e);
      } else {
        ReinsertRefsFrom(s, chunkId, i + 1, off + 1);
        ReinsertAtPlain(s, chunkId, i, off);
      }
    }
  }

  lemma ReinsertAtMarker(s: string, chunkId: string, i: nat, off: nat, e: nat)
    requires i < |s| && MarkerEnd(s, i) == Some(e)
    requires Reinsert(StripFrom(s, e), RefsFrom(s, chunkId, e, off), off) == s[e..]
    ensures Reinsert(StripFrom(s, i), RefsFrom(s, chunkId, i, off), off) == s[i..]
  {
    var ref := Record(s, chunkId, Hit(i, e, off));
    UnfoldMarker(s, chunkId, i, off, e);
    RecordOfHit(s, chunkId, i, e, off);
    MarkerOfNumber(s[i..], s[i + 1..e - 1], ref.noteNumber, s[e..]);
    ReinsertJoin(StripFrom(s, i), RefsFrom(s, chunkId, i, off), ref, RefsFrom(s, chunkId, e, off), off, s[e..], s[i..]);
  }

  lemma RecordOfHit(s: string, chunkId: string, i: nat, e: nat, off: nat)
    requires i + 3 <= e <= |s|
    ensures Record(s, chunkId, Hit(i, e, off)).charOffset == off
    ensures Record(s, chunkId, Hit(i, e, off)).noteNumber == s[i + 1..e - 1]
  {
  }

  lemma MarkerOfNumber(whole: string, number: string, number': string, tail: string)
    requires whole == Marker(number) + tail && number == number'
    ensures whole == Marker(number') + tail
  {
  }

  /** Reinserting a reference at the very start puts its marker in front of the rest. */
  lemma ReinsertJoin(clean: string, refs: seq<NoteRef>, ref: NoteRef, rest: seq<NoteRef>, base: nat, tail: string, whole: string)
    requires refs == [ref] + rest && ref.charOffset == base
    requires Reinsert(clean, rest, base) == tail && whole == Marker(ref.noteNumber) + tail
    ensures Reinsert(clean, refs, base) == whole
  {
    ReinsertHead(clean, ref, rest, base);
  }

  lemma ReinsertAtPlain(s: string, chunkId: string, i: nat, off: nat)
    requires i < |s| && MarkerEnd(s, i).None?
    requires Reinsert(StripFrom(s, i + 1), RefsFrom(s, chunkId, i + 1, off + 1), off + 1) == s[i + 1..]
    ensures Reinsert(StripFrom(s, i), RefsFrom(s, chunkId, i, off), off) == s[i..]
  {
    UnfoldPlain(s, chunkId, i, off);
    RefsFromOffsets(s, chunkId, i + 1, off + 1);
    ReinsertCons(s[i], StripFrom(s, i + 1), RefsFrom(s, chunkId, i + 1, off + 1), off);
  }

  /** Removing the markers loses nothing: putting them back at their offsets restores the text. */
  lemma RemoveNoteReferencesRoundTrip(text: string, chunkId: string)
    ensures Reinsert(StripMarkers(text), Refs(text, chunkId), 0) == text
  {
    ReinsertRefsFrom(text, chunkId, 0, 0);
  }

  ghost predicate HitsOrdered(hits: seq<Hit>, lo: nat, hi: nat)
  {
    && (forall j :: 0 <= j < |hits| ==> lo <= hits[j].offset <= hi)
    && (forall j, k :: 0 <= j < k < |hits| ==> hits[j].offset <= hits[k].offset)
  }

  /** The scan meets markers at non-decreasing offsets that lie within the clean text. */
  lemma {:induction false} HitsFromOrdered(s: string, i: nat, off: nat)
    requires i <= |s|
    ensures HitsOrdered(HitsFrom(s, i, off), off, off + |StripFrom(s, i)|)
    decreases |s| - i
  {
    if i < |s| {
      match MarkerEnd(s, i)
      case Some(e) =>
        HitsFromOrdered(s, e, off);
        StripSkipsMarker(s, i, e);
        assert HitsFrom(s, i, off) == [Hit(i, e, off)] + HitsFrom(s, e, off);
      case None =>
        HitsFromOrdered(s, i + 1, off + 1);
        StripKeepsPlain(s, i);
        assert HitsFrom(s, i, off) == HitsFrom(s, i + 1, off + 1);
    }
  }

  ghost predicate HitsAreMarkers(s: string, hits: seq<Hit>)
  {
    forall k :: 0 <= k < |hits| ==> hits[k].start <= |s| && MarkerEnd(s, hits[k].start) == Some(hits[k].end)
  }

  /** Every hit of the scan is a marker of the text. */
  lemma {:induction false} HitsFromMarkers(s: string, i: nat, off: nat)
    requires i <= |s|
    ensures HitsAreMarkers(s, HitsFrom(s, i, off))
    decreases |s| - i
  {
    if i < |s| {
      match MarkerEnd(s, i)
      case Some(e) =>
        HitsFromMarkers(s, e, off);
        assert HitsFrom(s, i, off) == [Hit(i, e, off)] + HitsFrom(s, e, off);
      case None =>
        HitsFromMarkers(s, i + 1, off + 1);
        assert HitsFrom(s, i, off) == HitsFrom(s, i + 1, off + 1);
    }
  }

  lemma RecordsFields(s: string, chunkId: string, hits: seq<Hit>)
    requires HitsWithin(s, hits)
    ensures forall k :: 0 <= k < |hits| ==>
      && Records(s, chunkId, hits)[k].charOffset == hits[k].offset
      && Records(s, chunkId, hits)[k].noteNumber == s[hits[k].start + 1..hits[k].end - 1]
      && Records(s, chunkId, hits)[k].noteId == NoteId(chunkId, s[hits[k].start + 1..hits[k].end - 1])
  {
  }

  /** Offsets are non-decreasing and lie within the clean text. */
  lemma RefsFromOffsetsOrdered(s: string, chunkId: string, i: nat, off: nat)
    requires i <= |s|
    ensures OffsetsWithin(RefsFrom(s, chunkId, i, off), off, off + |StripFrom(s, i)|)
  {
    var hits := HitsFrom(s, i, off);
    HitsFromOrdered(s, i, off);
    RecordsFields(s, chunkId, hits);
  }

  /** Each reference carries a non-empty digit string and the id derived from it. */
  lemma RefsFromNumbers(s: string, chunkId: string, i: nat, off: nat)
    requires i <= |s|
    ensures WellNumbered(RefsFrom(s, chunkId, i, off), chunkId)
  {
    var hits := HitsFrom(s, i, off);
    HitsFromMarkers(s, i, off);
    RecordsFields(s, chunkId, hits);
    forall k | 0 <= k < |hits|
      ensures |s[hits[k].start + 1..hits[k].end - 1]| >= 1 && AllDigits(s[hits[k].start + 1..hits[k].end - 1])
    {
      assert MarkerEnd(s, hits[k].start) == Some(hits[k].end);
    }
  }

  /** `re.findall` and `remove_note_references` see the same markers: the numbers are those of the references. */
  lemma MarkerNumbersAreRefs(s: string, chunkId: string)
    ensures |MarkerNumbers(s)| == |Refs(s, chunkId)|
    ensures forall k :: 0 <= k < |MarkerNumbers(s)| ==> MarkerNumbers(s)[k] == Refs(s, chunkId)[k].noteNumber
  {
    RecordsFields(s, chunkId, HitsFrom(s, 0, 0));
  }

  /** Text without a `(` has no marker: nothing is removed and nothing is recorded. */
  lemma {:induction false} NoParenUnchanged(s: string, chunkId: string, i: nat, off: nat)
    requires i <= |s|
    requires forall j :: i <= j < |s| ==> s[j] != '('
    ensures StripFrom(s, i) == s[i..]
    ensures RefsFrom(s, chunkId, i, off) == []
    decreases |s| - i
  {
    if i < |s| {
      NoParenUnchanged(s, chunkId, i + 1, off + 1);
      assert s[i..] == [s[i]] + s[i + 1..];
    }
  }

  /**
   * `clean_text_for_display` only deletes: each marker it drops takes at
   * least three characters with it, so the text shrinks by at least three
   * per recorded reference.
   */
  lemma {:induction false} StripShortens(s: string, chunkId: string, i: nat, off: nat)
    requires i <= |s|
    ensures |StripFrom(s, i)| + 3 * |RefsFrom(s, chunkId, i, off)| <= |s| - i
    decreases |s| - i
  {
    if i < |s| {
      match MarkerEnd(s, i)
      case Some(e) =>
        UnfoldMarker(s, chunkId, i, off, e);
        StripShortens(s, chunkId, e, off);
      case None =>
        UnfoldPlain(s, chunkId, i, off);
        StripShortens(s, chunkId, i + 1, off + 1);
    }
  }

  /** Removing markers once can expose a new one, so `clean_text_for_display` is not idempotent. */
  lemma StripNotIdempotent()
    ensures StripMarkers("((1)2)") == "(2)"
    ensures StripMarkers(StripMarkers("((1)2)")) == ""
  {
    var s := "((1)2)";
    assert MarkerEnd(s, 0).None?;
    assert MarkerEnd(s, 1) == Some(4);
    assert MarkerEnd(s, 4).None? && MarkerEnd(s, 5).None?;
    assert StripFrom(s, 4) == "2)";
    assert MarkerEnd("(2)", 0) == Some(3);
  }
}

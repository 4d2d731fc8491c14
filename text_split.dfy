/**
 * JAILA/utils.py: `split_text_into_chunks`, which cuts a text into pieces
 * of at most `chunk_size` characters, moving each cut back to the last
 * space before it, and starts each piece `overlap` characters before the
 * previous cut.
 *
 * The loop ends only when the next start moves past the previous one or
 * past the end; with a positive overlap and a text longer than one piece it
 * never does (`NeverEnds`), so the model covers overlaps of at most 0.
 */
module TextSplit {
  import opened Strings

  function Min(a: int, b: int): int { if a <= b then a else b }

  /**
   * The inner loop: from `e` down to the last space in `(start, e]`, or to
   * `start` when there is none.
   */
  function LastSpace(text: string, start: nat, e: nat): (b: nat)
    requires start <= e < |text|
    ensures start <= b <= e
    ensures b == start || text[b] == ' '
    ensures forall j :: b < j <= e ==> text[j] != ' '
    decreases e
  {
    if e == start || text[e] == ' ' then e else LastSpace(text, start, e - 1)
  }

  /**
   * Where the piece starting at `start` ends: the end of the text when it
   * is within `chunkSize`; otherwise the last space in `(start, start +
   * chunkSize]`, or `start + chunkSize` when there is none.
   */
  function Cut(text: string, start: nat, chunkSize: nat): (e: nat)
    requires start < |text| && chunkSize > 0
    ensures start < e <= start + chunkSize && e <= |text|
    ensures e == |text| <==> start + chunkSize >= |text|
    ensures e < |text| ==> text[e] == ' ' || e == start + chunkSize
    ensures e < |text| ==> forall j :: e < j <= start + chunkSize ==> text[j] != ' '
  {
    var e := Min(start + chunkSize, |text|);
    if e < |text| then
      var b := LastSpace(text, start, e);
      if b == start then e else b
    else e
  }

  /** `start = end - overlap if end - overlap > 0 else 0`. */
  function NextStart(e: nat, overlap: int): nat
  {
    if e - overlap > 0 then e - overlap else 0
  }

  /** The raw pieces `text[start:end]` from `start` on, for an overlap of at most 0. */
  function Slices(text: string, chunkSize: nat, overlap: int, start: nat): seq<string>
    requires chunkSize > 0 && overlap <= 0
    decreases |text| - start
  {
    if start >= |text| then []
    else
      var e := Cut(text, start, chunkSize);
      [text[start..e]] + Slices(text, chunkSize, overlap, NextStart(e, overlap))
  }

  /** The stripped pieces from `start` on. */
  function Pieces(text: string, chunkSize: nat, overlap: int, start: nat): seq<string>
    requires chunkSize > 0 && overlap <= 0
    decreases |text| - start
  {
    if start >= |text| then []
    else
      var e := Cut(text, start, chunkSize);
      [Strip(text[start..e])] + Pieces(text, chunkSize, overlap, NextStart(e, overlap))
  }

  /**
   * The inputs modelled: an empty or short text, or a positive chunk size
   * with an overlap of at most 0. On these `split_text_into_chunks` returns.
   * It also returns on some inputs left out here, such as a chunk size of at
   * most 0 with an overlap below it.
   */
  predicate Ends(text: string, chunkSize: int, overlap: int)
  {
    text == [] || |text| <= chunkSize || (chunkSize > 0 && overlap <= 0)
  }

  /** What `split_text_into_chunks` returns. */
  function SplitText(text: string, chunkSize: int, overlap: int): seq<string>
    requires Ends(text, chunkSize, overlap)
  {
    if text == [] then []
    else if |text| <= chunkSize then [text]
    else Pieces(text, chunkSize, overlap, 0)
  }

  /** Each piece is the stripped raw slice at the same place. */
  lemma {:induction false} PiecesAreStripped(text: string, chunkSize: nat, overlap: int, start: nat)
    requires chunkSize > 0 && overlap <= 0
    ensures |Pieces(text, chunkSize, overlap, start)| == |Slices(text, chunkSize, overlap, start)|
    ensures forall i :: 0 <= i < |Slices(text, chunkSize, overlap, start)| ==>
      Pieces(text, chunkSize, overlap, start)[i] == Strip(Slices(text, chunkSize, overlap, start)[i])
    decreases |text| - start
  {
    if start < |text| {
      PiecesAreStripped(text, chunkSize, overlap, NextStart(Cut(text, start, chunkSize), overlap));
    }
  }

  /** Every raw slice is non-empty and at most `chunkSize` long. */
  lemma {:induction false} SliceLengths(text: string, chunkSize: nat, overlap: int, start: nat)
    requires chunkSize > 0 && overlap <= 0
    ensures forall s :: s in Slices(text, chunkSize, overlap, start) ==> 0 < |s| <= chunkSize
    decreases |text| - start
  {
    if start < |text| {
      SliceLengths(text, chunkSize, overlap, NextStart(Cut(text, start, chunkSize), overlap));
    }
  }

  function Concat(parts: seq<string>): string
  {
    if parts == [] then [] else parts[0] + Concat(parts[1..])
  }

  /** Without overlap the raw slices put back together are the text from `start` on. */
  lemma {:induction false} SlicesRejoin(text: string, chunkSize: nat, start: nat)
    requires chunkSize > 0 && start <= |text|
    ensures Concat(Slices(text, chunkSize, 0, start)) == text[start..]
    decreases |text| - start
  {
    if start < |text| {
      var e := Cut(text, start, chunkSize);
      var rest := Slices(text, chunkSize, 0, e);
      SlicesRejoin(text, chunkSize, e);
      assert Slices(text, chunkSize, 0, start) == [text[start..e]] + rest;
      assert ([text[start..e]] + rest)[1..] == rest;
      assert text[start..] == text[start..e] + text[e..];
    }
  }

  /**
   * With a positive overlap, a text longer than one piece never lets the
   * loop end: from any start inside the text, the next start is inside it too.
   */
  lemma NeverEnds(text: string, chunkSize: nat, overlap: int, start: nat)
    requires chunkSize > 0 && overlap > 0 && start < |text|
    ensures NextStart(Cut(text, start, chunkSize), overlap) < |text|
  {
  }

  /**
   * Past the two early returns the loop only ends without overlap, and then
   * every chunk is a stripped slice of 1 to `chunkSize` characters, the
   * first starting at 0, the slices rejoining into the text when the
   * overlap is 0.
   */
  lemma SplitTextPieces(text: string, chunkSize: int, overlap: int)
    requires Ends(text, chunkSize, overlap) && text != [] && |text| > chunkSize
    ensures chunkSize > 0 && overlap <= 0
    ensures var slices := Slices(text, chunkSize, overlap, 0);
      && |SplitText(text, chunkSize, overlap)| == |slices|
      && slices != [] && slices[0] == text[..Cut(text, 0, chunkSize)]
      && forall i :: 0 <= i < |slices| ==>
           SplitText(text, chunkSize, overlap)[i] == Strip(slices[i]) && 0 < |slices[i]| <= chunkSize
    ensures overlap == 0 ==> Concat(Slices(text, chunkSize, overlap, 0)) == text
  {
    PiecesAreStripped(text, chunkSize, overlap, 0);
    SliceLengths(text, chunkSize, overlap, 0);
    if overlap == 0 {
      SlicesRejoin(text, chunkSize, 0);
    }
  }

  /** The cut of one pass: the end of the text, or a step back to a space, or a hard cut. */
  method FindCut(text: string, start: nat, chunkSize: nat) returns (end: nat)
    requires start < |text| && chunkSize > 0
    ensures end == Cut(text, start, chunkSize)
  {
    end := Min(start + chunkSize, |text|);
    if end < |text| {
      while end > start && text[end] != ' '
        invariant start <= end <= Min(start + chunkSize, |text|)
        invariant LastSpace(text, start, end) == LastSpace(text, start, Min(start + chunkSize, |text|))
        decreases end
      {
        end := end - 1;
      }
      if end == start {
        end := Min(start + chunkSize, |text|);
      }
    }
  }

  /** One step of `Pieces`: the piece at `start`, then the pieces from the next start. */
  lemma PiecesStep(text: string, chunkSize: nat, overlap: int, start: nat, e: nat)
    requires chunkSize > 0 && overlap <= 0 && start < |text| && e == Cut(text, start, chunkSize)
    ensures Pieces(text, chunkSize, overlap, start) == [Strip(text[start..e])] + Pieces(text, chunkSize, overlap, NextStart(e, overlap))
  {
  }

  /** `split_text_into_chunks`. */
  method SplitTextIntoChunks(text: string, chunkSize: int := 1000, overlap: int := 200) returns (chunks: seq<string>)
    requires Ends(text, chunkSize, overlap)
    ensures chunks == SplitText(text, chunkSize, overlap)
  {
    if text == [] || |text| <= chunkSize {
      return if text != [] then [text] else [];
    }
    chunks := CutPieces(text, chunkSize, overlap);
  }

  /** The `while start < len(text)` loop: the stripped pieces, left to right. */
  method CutPieces(text: string, chunkSize: nat, overlap: int) returns (chunks: seq<string>)
    requires chunkSize > 0 && overlap <= 0
    ensures chunks == Pieces(text, chunkSize, overlap, 0)
  {
    chunks := [];
    var start: nat := 0;
    while start < |text|
      invariant chunks + Pieces(text, chunkSize, overlap, start) == Pieces(text, chunkSize, overlap, 0)
      decreases |text| - start
    {
      var end := FindCut(text, start, chunkSize);
      PiecesStep(text, chunkSize, overlap, start, end);
      chunks := chunks + [Strip(text[start..end])];
      start := NextStart(end, overlap);
    }
  }
}

/**
 * What happens to a chunk after segmentation: the embedding text with its
 * context prefix, and the split of a chunk into a paragraph chunk plus one
 * chunk per footnote, linked both ways.
 *
 * Case-law tagging (`tag_domsreferencer`) and the extraction of tagged
 * references (`extract_dom_references`) are parameters: `tag` rewrites a
 * text, `doms` lists the reference texts found in a tagged text.
 */
module ChunkNotes {
  import opened Strings
  import opened NoteMarkers
  import opened Chunker

  // ---------------------------------------------------------------------------
  // create_embedding_text

  /** "§ p, stk. s, nr. n" from whichever of the three are present. */
  function ParaParts(c: Chunk): seq<string>
  {
    (if c.paragraph != [] then [c.paragraph] else [])
      + (if c.stk != [] then ["stk. " + c.stk[0]] else [])
      + (if c.nr != [] then ["nr. " + c.nr[0]] else [])
  }

  /** Title, paragraph reference and "(date)", each when present. */
  function ContextParts(c: Chunk): seq<string>
  {
    var para := ParaParts(c);
    (if c.law.title != [] then [c.law.title] else [])
      + (if para != [] then [Join(para, ", ")] else [])
      + (if c.law.date != [] then ["(" + c.law.date + ")"] else [])
  }

  predicate NoContext(c: Chunk)
  {
    c.law.title == [] && c.paragraph == [] && c.stk == [] && c.nr == [] && c.law.date == []
  }

  /** "<context>: ", or nothing when the chunk has no context. */
  function EmbeddingPrefix(c: Chunk): string
  {
    var parts := ContextParts(c);
    if parts != [] then Join(parts, ", ") + ": " else []
  }

  /**
   * `create_embedding_text`: the chunk's text without footnote markers and
   * with whitespace normalised, after a "<context>: " prefix built from the
   * title, the paragraph reference and the date.
   */
  function EmbeddingText(c: Chunk): string
  {
    EmbeddingPrefix(c) + CleanParagraph(StripMarkers(c.text))
  }

  /** The embedding text ends with the cleaned text, preceded by ": " exactly when there is context. */
  lemma EmbeddingTextEnds(c: Chunk)
    ensures var r, body := EmbeddingText(c), CleanParagraph(StripMarkers(c.text));
      && |body| <= |r| && r[|r| - |body|..] == body
      && (NoContext(c) ==> r == body)
      && (!NoContext(c) ==> |r| >= |body| + 2 && r[|r| - |body| - 2..|r| - |body|] == ": ")
  {
    var pre, body := EmbeddingPrefix(c), CleanParagraph(StripMarkers(c.text));
    assert (pre + body)[|pre|..] == body;
    if !NoContext(c) {
      assert ContextParts(c) != [];
      var j := Join(ContextParts(c), ", ");
      assert pre == j + ": ";
      assert (pre + body)[|pre| - 2..|pre|] == pre[|j|..] == ": ";
    }
  }

  /** The embedding text starts with the title, or failing that with the paragraph reference. */
  lemma EmbeddingTextStarts(c: Chunk)
    ensures c.law.title != [] ==> StartsWith(EmbeddingText(c), c.law.title)
    ensures c.law.title == [] && c.paragraph != [] ==> StartsWith(EmbeddingText(c), c.paragraph)
  {
    var parts := ContextParts(c);
    var body := CleanParagraph(StripMarkers(c.text));
    if parts != [] {
      var j := Join(parts, ", ");
      JoinStartsWithFirst(parts, ", ");
      assert EmbeddingText(c) == j + (": " + body);
      StartsWithAppend(j, ": " + body, parts[0]);
      if c.law.title == [] && c.paragraph != [] {
        JoinStartsWithFirst(ParaParts(c), ", ");
        StartsWithTrans(EmbeddingText(c), parts[0], c.paragraph);
      }
    }
  }

  lemma StartsWithTrans(a: string, b: string, t: string)
    requires StartsWith(a, b) && StartsWith(b, t)
    ensures StartsWith(a, t)
  {
    assert a[..|t|] == a[..|b|][..|t|];
  }

  lemma JoinStartsWithFirst(parts: seq<string>, sep: string)
    ensures parts != [] ==> StartsWith(Join(parts, sep), parts[0])
  {
    if |parts| > 1 {
      assert Join(parts, sep) == parts[0] + (sep + Join(parts[1..], sep));
    }
  }

  lemma StartsWithAppend(a: string, b: string, t: string)
    ensures StartsWith(a, t) ==> StartsWith(a + b, t)
  {
    if StartsWith(a, t) {
      assert (a + b)[..|t|] == a[..|t|];
    }
  }

  // ---------------------------------------------------------------------------
  // process_chunk_with_notes

  /** A marker reference, with the id of the footnote chunk holding that footnote, if one does. */
  datatype LinkedRef = LinkedRef(ref: NoteRef, noteChunkId: Option<nat>)

  /**
   * The paragraph chunk: the input chunk with its text cleaned of markers.
   * An absent optional key of the original record is `None`.
   */
  datatype ParagraphChunk = ParagraphChunk(
    chunkId: nat,
    section: string,
    paragraph: string,
    stk: seq<string>,
    nr: seq<string>,
    status: string,
    law: LawInfo,
    heading: string,
    text: string,
    textForEmbedding: string,
    domReferences: Option<seq<string>>,
    noteReferences: Option<seq<LinkedRef>>,
    notes: Option<NoteList>,
    relatedNoteChunks: Option<seq<nat>>)

  /** One footnote as a chunk of its own. */
  datatype NoteChunk = NoteChunk(
    chunkId: nat,
    noteNumber: string,
    text: string,
    relatedParagraphChunkId: nat,
    relatedParagraphText: string,
    relatedParagraphRef: string,
    domReferences: seq<string>,
    paragraph: string,
    section: string,
    law: LawInfo,
    status: string,
    stk: string,
    nr: string)

  datatype Unit = Paragraph(para: ParagraphChunk) | Note(note: NoteChunk)

  /** `text[:100] + "..."`. */
  function Preview(text: string): string
  {
    (if |text| <= 100 then text else text[..100]) + "..."
  }

  function NoteChunkOf(c: Chunk, clean: string, id: nat, entry: (string, string),
                       tag: string -> string, doms: string -> seq<string>): NoteChunk
  {
    var tagged := tag(entry.1);
    NoteChunk(id, entry.0, tagged, c.chunkId, Preview(clean), c.paragraph, doms(tagged),
              c.paragraph, c.section, c.law, c.status, Join(c.stk, ","), Join(c.nr, ","))
  }

  /** One footnote chunk per entry of the chunk's footnotes, in order, numbered from `firstId`. */
  function NoteChunksOf(c: Chunk, clean: string, firstId: nat, tag: string -> string, doms: string -> seq<string>): seq<NoteChunk>
  {
    seq(|c.notes|, k requires 0 <= k < |c.notes| => NoteChunkOf(c, clean, firstId + k, c.notes[k], tag, doms))
  }

  /** The id of the first footnote chunk with the given number. */
  function FindNoteChunk(ncs: seq<NoteChunk>, number: string): Option<nat>
  {
    if ncs == [] then None
    else if ncs[0].noteNumber == number then Some(ncs[0].chunkId)
    else FindNoteChunk(ncs[1..], number)
  }

  /** The search finds a chunk exactly when one has the number, and then the first such. */
  lemma {:induction false} FindNoteChunkFirst(ncs: seq<NoteChunk>, number: string)
    ensures FindNoteChunk(ncs, number).Some? <==> exists k :: 0 <= k < |ncs| && ncs[k].noteNumber == number
    ensures FindNoteChunk(ncs, number).Some? ==>
      exists k :: 0 <= k < |ncs| && ncs[k].noteNumber == number && ncs[k].chunkId == FindNoteChunk(ncs, number).value
        && forall j :: 0 <= j < k ==> ncs[j].noteNumber != number
  {
    if ncs != [] && ncs[0].noteNumber != number {
      var r := FindNoteChunk(ncs[1..], number);
      FindNoteChunkFirst(ncs[1..], number);
      assert forall k :: 1 <= k < |ncs| ==> ncs[k] == ncs[1..][k - 1];
      if r.Some? {
        var k :| 0 <= k < |ncs[1..]| && ncs[1..][k].noteNumber == number && ncs[1..][k].chunkId == r.value
          && forall j :: 0 <= j < k ==> ncs[1..][j].noteNumber != number;
        assert ncs[k + 1].noteNumber == number && ncs[k + 1].chunkId == r.value;
        assert forall j :: 0 <= j < k + 1 ==> ncs[j].noteNumber != number by {
          forall j | 0 <= j < k + 1 ensures ncs[j].noteNumber != number {
            if j > 0 { assert ncs[j] == ncs[1..][j - 1]; }
          }
        }
      }
    }
  }

  function LinkRefs(refs: seq<NoteRef>, ncs: seq<NoteChunk>): seq<LinkedRef>
  {
    seq(|refs|, k requires 0 <= k < |refs| => LinkedRef(refs[k], FindNoteChunk(ncs, refs[k].noteNumber)))
  }

  function Ids(ncs: seq<NoteChunk>): seq<nat>
  {
    seq(|ncs|, k requires 0 <= k < |ncs| => ncs[k].chunkId)
  }

  function NoteUnits(ncs: seq<NoteChunk>): seq<Unit>
  {
    seq(|ncs|, k requires 0 <= k < |ncs| => Note(ncs[k]))
  }

  /**
   * The paragraph chunk built from the chunk, its clean text, the case-law
   * references of its tagged text, its marker references and its footnote
   * chunks.
   */
  function ParentChunk(c: Chunk, clean: string, dr: seq<string>, refs: seq<NoteRef>, ncs: seq<NoteChunk>): ParagraphChunk
  {
    ParagraphChunk(
      c.chunkId, c.section, c.paragraph, c.stk, c.nr, c.status, c.law, c.heading,
      clean,
      EmbeddingText(c.(text := clean)),
      if dr != [] then Some(dr) else None,
      if refs != [] then Some(LinkRefs(refs, ncs)) else None,
      if c.notes != [] then None else Some(c.notes),
      if ncs != [] then Some(Ids(ncs)) else None)
  }

  /** `process_chunk_with_notes`, as a value: the empty list for no chunk, else the paragraph chunk and its footnote chunks. */
  function ProcessSpec(chunk: Option<Chunk>, firstId: nat, tag: string -> string, doms: string -> seq<string>): (r: seq<Unit>)
    ensures |r| == (if chunk.Some? then 1 + |chunk.value.notes| else 0)
    ensures chunk.Some? ==> r[0].Paragraph? && forall k :: 1 <= k < |r| ==> r[k].Note?
  {
    match chunk
    case None => []
    case Some(c) =>
      var tagged := tag(c.text);
      var clean := StripMarkers(tagged);
      var ncs := NoteChunksOf(c, clean, firstId, tag, doms);
      [Paragraph(ParentChunk(c, clean, doms(tagged), Refs(tagged, NatToString(c.chunkId)), ncs))] + NoteUnits(ncs)
  }

  /**
   * `process_chunk_with_notes`: copies the chunk, tags it, removes its
   * footnote markers, builds one chunk per footnote, links the paragraph
   * chunk to them and each marker reference to the first footnote chunk
   * with its number. Footnote chunk ids are drawn from `firstId` on.
   */
  method ProcessChunkWithNotes(chunk: Option<Chunk>, firstId: nat, tag: string -> string, doms: string -> seq<string>)
    returns (units: seq<Unit>, nextId: nat)
    ensures units == ProcessSpec(chunk, firstId, tag, doms)
    ensures nextId == firstId + (if chunk.Some? then |chunk.value.notes| else 0)
  {
    nextId := firstId;
    if chunk.None? {
      return [], nextId;
    }
    var c := chunk.value;
    var text := tag(c.text);
    var dr := doms(text);
    var clean, refs := RemoveNoteReferences(text, NatToString(c.chunkId));
    var embedding := EmbeddingText(c.(text := clean));
    var noteChunks: seq<NoteChunk>;
    noteChunks, nextId := BuildNoteChunks(c, clean, firstId, tag, doms);
    var linked := LinkNoteReferences(refs, noteChunks);
    var parent := ParagraphChunk(
      c.chunkId, c.section, c.paragraph, c.stk, c.nr, c.status, c.law, c.heading,
      clean, embedding,
      if dr != [] then Some(dr) else None,
      if refs != [] then Some(linked) else None,
      if c.notes != [] then None else Some(c.notes),
      if noteChunks != [] then Some(Ids(noteChunks)) else None);
    assert parent == ParentChunk(c, clean, dr, refs, noteChunks);
    units := AppendNoteUnits([Paragraph(parent)], noteChunks);
  }

  /** The loop that appends one unit per footnote chunk. */
  method AppendNoteUnits(prefix: seq<Unit>, ncs: seq<NoteChunk>) returns (units: seq<Unit>)
    ensures units == prefix + NoteUnits(ncs)
  {
    units := prefix;
    for k := 0 to |ncs|
      invariant units == prefix + NoteUnits(ncs)[..k]
    {
      units := units + [Note(ncs[k])];
    }
    assert NoteUnits(ncs)[..|ncs|] == NoteUnits(ncs);
  }

  /** The loop over the chunk's footnotes that builds one footnote chunk each. */
  method BuildNoteChunks(c: Chunk, clean: string, firstId: nat, tag: string -> string, doms: string -> seq<string>)
    returns (noteChunks: seq<NoteChunk>, nextId: nat)
    ensures noteChunks == NoteChunksOf(c, clean, firstId, tag, doms)
    ensures nextId == firstId + |c.notes|
  {
    noteChunks, nextId := [], firstId;
    for k := 0 to |c.notes|
      invariant nextId == firstId + k
      invariant noteChunks == NoteChunksOf(c, clean, firstId, tag, doms)[..k]
    {
      var tagged := tag(c.notes[k].1);
      var nc := NoteChunk(nextId, c.notes[k].0, tagged, c.chunkId, Preview(clean), c.paragraph, doms(tagged),
                          c.paragraph, c.section, c.law, c.status, Join(c.stk, ","), Join(c.nr, ","));
      noteChunks := noteChunks + [nc];
      nextId := nextId + 1;
    }
    assert NoteChunksOf(c, clean, firstId, tag, doms)[..|c.notes|] == NoteChunksOf(c, clean, firstId, tag, doms);
  }

  /** The loop that gives each marker reference the id of the first footnote chunk with its number. */
  method LinkNoteReferences(refs: seq<NoteRef>, noteChunks: seq<NoteChunk>) returns (linked: seq<LinkedRef>)
    ensures linked == LinkRefs(refs, noteChunks)
  {
    linked := [];
    for k := 0 to |refs|
      invariant linked == LinkRefs(refs, noteChunks)[..k]
    {
      var target: Option<nat> := None;
      var j := 0;
      while j < |noteChunks|
        invariant j <= |noteChunks|
        invariant forall m :: 0 <= m < j ==> noteChunks[m].noteNumber != refs[k].noteNumber
      {
        if noteChunks[j].noteNumber == refs[k].noteNumber {
          target := Some(noteChunks[j].chunkId);
          break;
        }
        j := j + 1;
      }
      assert target == FindNoteChunk(noteChunks, refs[k].noteNumber) by {
        if target.None? {
          FindNoteChunkFirst(noteChunks, refs[k].noteNumber);
        } else {
          FirstMatch(noteChunks, refs[k].noteNumber, j);
        }
      }
      linked := linked + [LinkedRef(refs[k], target)];
    }
    assert LinkRefs(refs, noteChunks)[..|refs|] == LinkRefs(refs, noteChunks);
  }

  lemma FirstMatch(ncs: seq<NoteChunk>, number: string, j: nat)
    requires j < |ncs| && ncs[j].noteNumber == number
    requires forall m :: 0 <= m < j ==> ncs[m].noteNumber != number
    ensures FindNoteChunk(ncs, number) == Some(ncs[j].chunkId)
  {
    var r := FindNoteChunk(ncs, number);
    FindNoteChunkFirst(ncs, number);
    var k :| 0 <= k < |ncs| && ncs[k].noteNumber == number && ncs[k].chunkId == r.value
      && forall i :: 0 <= i < k ==> ncs[i].noteNumber != number;
    assert k == j;
  }

  // ---------------------------------------------------------------------------
  // What the result guarantees

  lemma UnitsAt(p: ParagraphChunk, ncs: seq<NoteChunk>)
    ensures var r := [Paragraph(p)] + NoteUnits(ncs);
      && |r| == 1 + |ncs| && r[0] == Paragraph(p)
      && forall k :: 1 <= k < |r| ==> r[k] == Note(ncs[k - 1])
  {
  }

  lemma NoteChunksAt(c: Chunk, clean: string, firstId: nat, tag: string -> string, doms: string -> seq<string>)
    ensures var ncs := NoteChunksOf(c, clean, firstId, tag, doms);
      && |ncs| == |c.notes|
      && forall k :: 0 <= k < |ncs| ==>
        && ncs[k].chunkId == firstId + k
        && ncs[k].noteNumber == c.notes[k].0
        && ncs[k].text == tag(c.notes[k].1)
        && ncs[k].relatedParagraphChunkId == c.chunkId
  {
  }

  /** The pieces `ProcessSpec` puts together for a chunk. */
  lemma ProcessParts(c: Chunk, firstId: nat, tag: string -> string, doms: string -> seq<string>)
    returns (p: ParagraphChunk, ncs: seq<NoteChunk>, refs: seq<NoteRef>)
    ensures ncs == NoteChunksOf(c, StripMarkers(tag(c.text)), firstId, tag, doms)
    ensures p.noteReferences == (if refs != [] then Some(LinkRefs(refs, ncs)) else None)
    ensures p.chunkId == c.chunkId && p.relatedNoteChunks == (if ncs != [] then Some(Ids(ncs)) else None)
    ensures p.notes == (if c.notes != [] then None else Some(c.notes))
    ensures ProcessSpec(Some(c), firstId, tag, doms) == [Paragraph(p)] + NoteUnits(ncs)
  {
    var tagged := tag(c.text);
    var clean := StripMarkers(tagged);
    ncs := NoteChunksOf(c, clean, firstId, tag, doms);
    refs := Refs(tagged, NatToString(c.chunkId));
    p := ParentChunk(c, clean, doms(tagged), refs, ncs);
  }

  /**
   * No chunk gives the empty list; otherwise the paragraph chunk comes
   * first, followed by one footnote chunk per footnote, in the order of the
   * chunk's footnotes, with the footnote's number and tagged text.
   */
  lemma ProcessShape(chunk: Option<Chunk>, firstId: nat, tag: string -> string, doms: string -> seq<string>)
    ensures var r := ProcessSpec(chunk, firstId, tag, doms);
      && (r == [] <==> chunk.None?)
      && (chunk.Some? ==>
          && |r| == 1 + |chunk.value.notes|
          && r[0].Paragraph?
          && r[0].para.chunkId == chunk.value.chunkId
          && (forall k :: 1 <= k < |r| ==>
                && r[k].Note?
                && r[k].note.noteNumber == chunk.value.notes[k - 1].0
                && r[k].note.text == tag(chunk.value.notes[k - 1].1)))
  {
    if chunk.Some? {
      var p, ncs, _ := ProcessParts(chunk.value, firstId, tag, doms);
      UnitsAt(p, ncs);
      NoteChunksAt(chunk.value, StripMarkers(tag(chunk.value.text)), firstId, tag, doms);
    }
  }

  /**
   * The links run both ways: every footnote chunk names the paragraph
   * chunk, and the paragraph chunk lists exactly the footnote chunks' ids,
   * in order; the footnotes themselves are dropped from the paragraph
   * chunk when there were any.
   */
  lemma ProcessLinksSymmetric(c: Chunk, firstId: nat, tag: string -> string, doms: string -> seq<string>)
    ensures var r := ProcessSpec(Some(c), firstId, tag, doms);
      && (forall k :: 1 <= k < |r| ==> r[k].Note? && r[k].note.relatedParagraphChunkId == r[0].para.chunkId)
      && (c.notes == [] ==> r[0].para.relatedNoteChunks.None? && r[0].para.notes == Some([]))
      && (c.notes != [] ==>
            && r[0].para.notes.None?
            && r[0].para.relatedNoteChunks.Some?
            && |r[0].para.relatedNoteChunks.value| == |r| - 1
            && forall k :: 1 <= k < |r| ==> r[0].para.relatedNoteChunks.value[k - 1] == r[k].note.chunkId)
  {
    var p, ncs, _ := ProcessParts(c, firstId, tag, doms);
    LinksOfParts(c, p, ncs, firstId, tag, doms);
  }

  /** `ProcessLinksSymmetric` on the pieces `ProcessParts` gives. */
  lemma LinksOfParts(c: Chunk, p: ParagraphChunk, ncs: seq<NoteChunk>, firstId: nat, tag: string -> string, doms: string -> seq<string>)
    requires ncs == NoteChunksOf(c, StripMarkers(tag(c.text)), firstId, tag, doms)
    requires p.chunkId == c.chunkId && p.relatedNoteChunks == (if ncs != [] then Some(Ids(ncs)) else None)
    requires p.notes == (if c.notes != [] then None else Some(c.notes))
    ensures var r := [Paragraph(p)] + NoteUnits(ncs);
      && (forall k :: 1 <= k < |r| ==> r[k].Note? && r[k].note.relatedParagraphChunkId == r[0].para.chunkId)
      && (c.notes == [] ==> r[0].para.relatedNoteChunks.None? && r[0].para.notes == Some([]))
      && (c.notes != [] ==>
            && r[0].para.notes.None?
            && r[0].para.relatedNoteChunks.Some?
            && |r[0].para.relatedNoteChunks.value| == |r| - 1
            && forall k :: 1 <= k < |r| ==> r[0].para.relatedNoteChunks.value[k - 1] == r[k].note.chunkId)
  {
    UnitsAt(p, ncs);
    NoteChunksAt(c, StripMarkers(tag(c.text)), firstId, tag, doms);
  }

  /**
   * Footnote chunk ids are the fresh ids `firstId`, `firstId + 1`, ...: all
   * distinct, and distinct from the paragraph chunk's id when that was
   * drawn earlier.
   */
  lemma ProcessFreshIds(c: Chunk, firstId: nat, tag: string -> string, doms: string -> seq<string>)
    requires c.chunkId < firstId
    ensures var r := ProcessSpec(Some(c), firstId, tag, doms);
      && (forall k :: 1 <= k < |r| ==> r[k].Note? && r[k].note.chunkId == firstId + k - 1)
      && (forall k :: 1 <= k < |r| ==> r[k].note.chunkId != r[0].para.chunkId)
      && (forall j, k :: 1 <= j < k < |r| ==> r[j].note.chunkId != r[k].note.chunkId)
  {
    var p, ncs, _ := ProcessParts(c, firstId, tag, doms);
    UnitsAt(p, ncs);
    NoteChunksAt(c, StripMarkers(tag(c.text)), firstId, tag, doms);
  }

  /**
   * Each marker reference points at the first footnote chunk with the same
   * number, and at none exactly when no footnote chunk has that number.
   */
  lemma ProcessRefsResolve(c: Chunk, firstId: nat, tag: string -> string, doms: string -> seq<string>)
    ensures var r := ProcessSpec(Some(c), firstId, tag, doms);
      var p := r[0].para;
      p.noteReferences.Some? ==>
        forall i :: 0 <= i < |p.noteReferences.value| ==>
          var l := p.noteReferences.value[i];
          && (l.noteChunkId.None? <==> forall k :: 1 <= k < |r| ==> r[k].note.noteNumber != l.ref.noteNumber)
          && (l.noteChunkId.Some? ==> exists k :: 1 <= k < |r| && r[k].note.chunkId == l.noteChunkId.value
                                          && r[k].note.noteNumber == l.ref.noteNumber)
  {
    var p, ncs, refs := ProcessParts(c, firstId, tag, doms);
    ResolveLinks(p, ncs, refs);
  }

  lemma ResolveLinks(p: ParagraphChunk, ncs: seq<NoteChunk>, refs: seq<NoteRef>)
    requires p.noteReferences == (if refs != [] then Some(LinkRefs(refs, ncs)) else None)
    ensures var r := [Paragraph(p)] + NoteUnits(ncs);
      p.noteReferences.Some? ==>
        forall i :: 0 <= i < |p.noteReferences.value| ==>
          var l := p.noteReferences.value[i];
          && (l.noteChunkId.None? <==> forall k :: 1 <= k < |r| ==> r[k].note.noteNumber != l.ref.noteNumber)
          && (l.noteChunkId.Some? ==> exists k :: 1 <= k < |r| && r[k].note.chunkId == l.noteChunkId.value
                                          && r[k].note.noteNumber == l.ref.noteNumber)
  {
    var r := [Paragraph(p)] + NoteUnits(ncs);
    UnitsAt(p, ncs);
    if p.noteReferences.Some? {
      forall i | 0 <= i < |p.noteReferences.value|
        ensures var l := p.noteReferences.value[i];
          && (l.noteChunkId.None? <==> forall k :: 1 <= k < |r| ==> r[k].note.noteNumber != l.ref.noteNumber)
          && (l.noteChunkId.Some? ==> exists k :: 1 <= k < |r| && r[k].note.chunkId == l.noteChunkId.value
                                          && r[k].note.noteNumber == l.ref.noteNumber)
      {
        var l := p.noteReferences.value[i];
        assert l == LinkedRef(refs[i], FindNoteChunk(ncs, refs[i].noteNumber));
        FindNoteChunkFirst(ncs, l.ref.noteNumber);
        if l.noteChunkId.Some? {
          var k :| 0 <= k < |ncs| && ncs[k].noteNumber == l.ref.noteNumber && ncs[k].chunkId == l.noteChunkId.value
            && forall j :: 0 <= j < k ==> ncs[j].noteNumber != l.ref.noteNumber;
          assert r[k + 1].note == ncs[k];
        } else {
          forall k | 1 <= k < |r| ensures r[k].note.noteNumber != l.ref.noteNumber {
            assert r[k].note == ncs[k - 1];
          }
        }
      }
    }
  }
}

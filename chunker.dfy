/**
 * The statute chunker: cleaning of raw lines, the footnote table, and the
 * single pass that cuts a law's lines into chunks at every paragraph (§),
 * subsection ("Stk.") and item ("nr.") boundary.
 *
 * Chunk ids, random in the original, come from a counter here: the caller
 * passes the first free id and receives the next free one.
 */
module Chunker {
  import opened Strings
  import opened NoteMarkers

  // ---------------------------------------------------------------------------
  // clean_paragraph

  lemma StripNormal(t: string)
    requires Normal(t)
    ensures Normal(Strip(t))
  {
    var a, b := StripIsSlice(t);
    NormalSlice(t, a, b);
  }

  /** `clean_paragraph`: every whitespace run becomes one space, and both ends are stripped. */
  function CleanParagraph(p: string): string
  {
    Strip(Collapse(p))
  }

  /** A cleaned line has single spaces as its only whitespace and no space at either end. */
  lemma CleanParagraphNormal(p: string)
    ensures var r := CleanParagraph(p);
      && Normal(r)
      && (r == [] || (!IsSpace(r[0]) && !IsSpace(r[|r| - 1])))
  {
    CollapseNormal(p);
    StripNormal(Collapse(p));
  }

  /** Cleaning a cleaned line changes nothing. */
  lemma CleanParagraphIdempotent(p: string)
    ensures CleanParagraph(CleanParagraph(p)) == CleanParagraph(p)
  {
    var r := CleanParagraph(p);
    CleanParagraphNormal(p);
    CollapseOfNormal(r);
    StripNoOp(r);
  }

  // ---------------------------------------------------------------------------
  // parse_notes: `^\((\d+)\)\s*(.+)`

  /** The end of the line that starts at `i`: the next newline, or the end of the text. */
  function LineEnd(s: string, i: nat): (k: nat)
    requires i <= |s|
    ensures i <= k <= |s| && (k < |s| ==> s[k] == '\n')
    ensures forall j :: i <= j < k ==> s[j] != '\n'
  {
    RunEnd(s, i, c => c != '\n')
  }

  /**
   * One footnote line: its number and its stripped text. After `\s*` has
   * eaten all whitespace, `.+` can still take back one whitespace character
   * that is not a newline, so a marker followed only by such whitespace
   * yields an empty text; a marker followed by nothing (or only newlines)
   * is no match.
   */
  function ParseNote(p: string): (r: Option<(string, string)>)
    ensures r.Some? ==> |r.value.0| >= 1 && AllDigits(r.value.0)
    ensures r.Some? ==> MarkerEnd(p, 0).Some? && r.value.0 == p[1..MarkerEnd(p, 0).value - 1]
    ensures r.Some? ==> r.value.1 == [] || (!IsSpace(r.value.1[0]) && !IsSpace(r.value.1[|r.value.1| - 1]))
  {
    match MarkerEnd(p, 0)
    case None => None
    case Some(j) =>
      var number := p[1..j - 1];
      var k := SpaceEnd(p, j);
      if k < |p| then
        Some((number, Strip(p[k..LineEnd(p, k)])))
      else if RunEnd(p, j, c => c == '\n') < k then Some((number, []))
      else None
  }

  /** The table built from parsed lines, in order: a later entry with the same number overwrites an earlier one. */
  function NoteTable(es: seq<Option<(string, string)>>): map<string, string>
    decreases |es|
  {
    if es == [] then map[]
    else
      var m := NoteTable(es[..|es| - 1]);
      match es[|es| - 1]
      case None => m
      case Some(kv) => m[kv.0 := kv.1]
  }

  function ParsedLines(ps: seq<string>): (r: seq<Option<(string, string)>>)
    ensures |r| == |ps|
  {
    seq(|ps|, i requires 0 <= i < |ps| => ParseNote(ps[i]))
  }

  /** `parse_notes`: every line that parses enters the table; a later line with the same number overwrites an earlier one. */
  function ParseNotes(ps: seq<string>): map<string, string>
  {
    NoteTable(ParsedLines(ps))
  }

  /** Entry `i` carries footnote number `key`. */
  predicate EntryDefines(es: seq<Option<(string, string)>>, i: nat, key: string)
  {
    i < |es| && es[i].Some? && es[i].value.0 == key
  }

  lemma {:induction false} NoteTableKeys(es: seq<Option<(string, string)>>, key: string)
    ensures key in NoteTable(es) <==> exists i :: 0 <= i < |es| && EntryDefines(es, i, key)
    decreases |es|
  {
    if es != [] {
      var init := es[..|es| - 1];
      NoteTableKeys(init, key);
      assert forall i :: 0 <= i < |init| ==> (EntryDefines(init, i, key) <==> EntryDefines(es, i, key));
      if EntryDefines(es, |es| - 1, key) {
        assert key in NoteTable(es);
      }
    }
  }

  lemma {:induction false} NoteTableLast(es: seq<Option<(string, string)>>, i: nat, key: string)
    requires EntryDefines(es, i, key)
    requires forall j :: i < j < |es| ==> !EntryDefines(es, j, key)
    ensures key in NoteTable(es) && NoteTable(es)[key] == es[i].value.1
    decreases |es|
  {
    var init := es[..|es| - 1];
    if i < |es| - 1 {
      assert EntryDefines(init, i, key);
      forall j | i < j < |init| ensures !EntryDefines(init, j, key) {
        assert !EntryDefines(es, j, key);
      }
      NoteTableLast(init, i, key);
      assert !EntryDefines(es, |es| - 1, key);
    }
  }

  /** The line at index `i` parses to footnote number `key`. */
  predicate Defines(ps: seq<string>, i: nat, key: string)
  {
    i < |ps| && ParseNote(ps[i]).Some? && ParseNote(ps[i]).value.0 == key
  }

  /** A number is in the table exactly when some line parses to it. */
  lemma ParseNotesKeys(ps: seq<string>, key: string)
    ensures key in ParseNotes(ps) <==> exists i :: 0 <= i < |ps| && Defines(ps, i, key)
  {
    var es := ParsedLines(ps);
    NoteTableKeys(es, key);
    assert forall i :: 0 <= i < |ps| ==> (EntryDefines(es, i, key) <==> Defines(ps, i, key));
  }

  /** The text stored for a number is that of the last line defining it. */
  lemma ParseNotesLast(ps: seq<string>, i: nat, key: string)
    requires Defines(ps, i, key)
    requires forall j :: i < j < |ps| ==> !Defines(ps, j, key)
    ensures key in ParseNotes(ps) && ParseNotes(ps)[key] == ParseNote(ps[i]).value.1
  {
    var es := ParsedLines(ps);
    assert forall j :: 0 <= j < |ps| ==> (EntryDefines(es, j, key) <==> Defines(ps, j, key));
    NoteTableLast(es, i, key);
  }

  // ---------------------------------------------------------------------------
  // The line recognisers of extract_chunks

  predicate IsRomanDigit(c: char)
  {
    c == 'I' || c == 'V' || c == 'X' || c == 'L' || c == 'C' || c == 'D' || c == 'M'
  }

  /** `^AFSNIT [IVXLCDM]+\. .+`: a part header such as "AFSNIT II. Indkomstopgørelse". */
  predicate IsSectionHeader(t: string)
  {
    && StartsWith(t, "AFSNIT ")
    && var k := RunEnd(t, 7, IsRomanDigit);
       k > 7 && k + 2 < |t| && t[k] == '.' && t[k + 1] == ' ' && t[k + 2] != '\n'
  }

  /** The letters `[A-ZÆØÅa-zæøå]` of a lettered paragraph such as paragraph 15 O. */
  predicate IsParagraphLetter(c: char)
  {
    || IsAsciiLetter(c)
    || c == '\U{00C6}' || c == '\U{00D8}' || c == '\U{00C5}'
    || c == '\U{00E6}' || c == '\U{00F8}' || c == '\U{00E5}'
  }

  /**
   * `^§\s*(\d+)\s*([A-ZÆØÅa-zæøå]+)?\.?`: a paragraph line, and its label
   * "§ <number>" or "§ <number> <letters>".
   */
  function ParagraphLabel(t: string): (r: Option<string>)
    ensures r.Some? ==> t != [] && t[0] == '§'
    ensures r.Some? ==> StartsWith(r.value, "§ ") && |r.value| >= 3 && IsDigit(r.value[2])
  {
    if t == [] || t[0] != '§' then None
    else
      var a := SpaceEnd(t, 1);
      var b := DigitEnd(t, a);
      if b == a then None
      else
        var c := SpaceEnd(t, b);
        var d := RunEnd(t, c, IsParagraphLetter);
        if d > c then Some("§ " + t[a..b] + " " + t[c..d]) else Some("§ " + t[a..b])
  }

  /** `^Stk\. ?(\d+)`: a subsection line and its number. */
  function StkNumber(t: string): (r: Option<string>)
    ensures r.Some? ==> StartsWith(t, "Stk.") && |r.value| >= 1 && AllDigits(r.value)
  {
    if !StartsWith(t, "Stk.") then None
    else
      var a := if |t| > 4 && t[4] == ' ' then 5 else 4;
      var b := DigitEnd(t, a);
      if b > a then Some(t[a..b]) else None
  }

  /** `(\d+)[)\.]\s` matched at the start: an item such as "3) ..." or "3. ...", and its number. */
  function ItemNumber(t: string): (r: Option<string>)
    ensures r.Some? ==> |r.value| >= 1 && AllDigits(r.value) && StartsWith(t, r.value)
  {
    var k := DigitEnd(t, 0);
    if k > 0 && k + 1 < |t| && (t[k] == ')' || t[k] == '.') && IsSpace(t[k + 1]) then Some(t[..k]) else None
  }

  /** The first part from index `i` on that starts with a digit and is an item. */
  function FirstItemPart(parts: seq<string>, i: nat): (r: Option<nat>)
    ensures r.Some? ==> i <= r.value < |parts| && ItemNumber(parts[r.value]).Some?
    ensures r.Some? ==> forall j :: i <= j < r.value ==> ItemNumber(parts[j]).None?
    ensures r.None? ==> forall j :: i <= j < |parts| ==> ItemNumber(parts[j]).None?
    decreases |parts| - i
  {
    if i >= |parts| then None
    else if parts[i] != [] && IsDigit(parts[i][0]) && ItemNumber(parts[i]).Some? then Some(i)
    else FirstItemPart(parts, i + 1)
  }

  /**
   * The item number of a line, and the text kept for it: a line that is not
   * itself an item may still hold one after a ", ", in which case only the
   * text from that part on is kept.
   */
  function FindItem(txt: string, hasParagraph: bool): (r: (Option<string>, string))
    requires txt != []
    ensures r.0.None? ==> r.1 == txt
    ensures r.0.Some? ==> |r.0.value| >= 1 && AllDigits(r.0.value)
  {
    var direct := if IsDigit(txt[0]) then ItemNumber(txt) else None;
    if direct.None? && hasParagraph && Contains(txt, ", ") then
      var parts := Split(txt, ", ");
      match FirstItemPart(parts, 1)
      case None => (None, txt)
      case Some(i) => (ItemNumber(parts[i]), Join(parts[i..], ", "))
    else (direct, txt)
  }

  // ---------------------------------------------------------------------------
  // Chunk records

  /** A chunk's footnotes: number to text, in insertion order. */
  type NoteList = seq<(string, string)>

  ghost predicate DistinctKeys(ns: NoteList)
  {
    forall i, j :: 0 <= i < j < |ns| ==> ns[i].0 != ns[j].0
  }

  /** Every entry is taken from the footnote table. */
  ghost predicate NotesFrom(ns: NoteList, notes: map<string, string>)
  {
    forall i :: 0 <= i < |ns| ==> ns[i].0 in notes && notes[ns[i].0] == ns[i].1
  }

  /** `d[k] = v` on an insertion-ordered dictionary. */
  function PutNote(ns: NoteList, k: string, v: string): (r: NoteList)
    ensures DistinctKeys(ns) ==> DistinctKeys(r)
    ensures forall i :: 0 <= i < |r| ==> r[i] == (k, v) || r[i] in ns
    ensures (k, v) in r
    decreases |ns|
  {
    if ns == [] then [(k, v)]
    else if ns[0].0 == k then [(k, v)] + ns[1..]
    else
      var rest := PutNote(ns[1..], k, v);
      assert forall i :: 0 <= i < |rest| ==> rest[i].0 == k || rest[i].0 in (set j | 0 <= j < |ns[1..]| :: ns[1..][j].0);
      [ns[0]] + rest
  }

  /** `for ref in refs: if ref in notes: d[ref] = notes[ref]`. */
  function AddNotes(ns: NoteList, refs: seq<string>, notes: map<string, string>): NoteList
    decreases |refs|
  {
    if refs == [] then ns
    else
      var ns' := if refs[0] in notes then PutNote(ns, refs[0], notes[refs[0]]) else ns;
      AddNotes(ns', refs[1..], notes)
  }

  lemma {:induction false} AddNotesKeeps(ns: NoteList, refs: seq<string>, notes: map<string, string>)
    requires DistinctKeys(ns) && NotesFrom(ns, notes)
    ensures DistinctKeys(AddNotes(ns, refs, notes)) && NotesFrom(AddNotes(ns, refs, notes), notes)
    decreases |refs|
  {
    if refs != [] {
      var ns' := if refs[0] in notes then PutNote(ns, refs[0], notes[refs[0]]) else ns;
      AddNotesKeeps(ns', refs[1..], notes);
    }
  }

  const Current: string := "g\U{00E6}ldende"
  const Repealed: string := "oph\U{00E6}vet"

  /** `^\(Ophævet\)$`, case-insensitive. */
  predicate IsRepealed(t: string)
  {
    Lower(t) == "(" + Repealed + ")"
  }

  /** The repeal test can never succeed on a paragraph line, which starts with "§". */
  lemma ParagraphLineNotRepealed(t: string)
    requires ParagraphLabel(t).Some?
    ensures !IsRepealed(t)
  {
    assert Lower(t)[0] == '§';
  }

  datatype LawInfo = LawInfo(title: string, number: string, date: string)

  datatype Chunk = Chunk(
    chunkId: nat,
    section: string,
    paragraph: string,
    stk: seq<string>,
    nr: seq<string>,
    status: string,
    law: LawInfo,
    text: string,
    notes: NoteList,
    heading: string)

  /** A fresh chunk opened by line `txt`, with the footnotes its markers name. */
  function Open(id: nat, section: string, paragraph: string, stk: seq<string>, nr: seq<string>,
                status: string, law: LawInfo, txt: string, notes: map<string, string>): Chunk
  {
    Chunk(id, section, paragraph, stk, nr, status, law, txt, AddNotes([], MarkerNumbers(txt), notes), "")
  }

  // ---------------------------------------------------------------------------
  // extract_chunks as a fold over the lines

  /** The loop state of `extract_chunks`; "" stands for the initial `None`. */
  datatype St = St(chunks: seq<Chunk>, cur: Option<Chunk>, paragraph: string, stk: string, section: string, nextId: nat)

  /** Appends the open chunk, if any, giving it subsection "1" if it has none. */
  function Flushed(chunks: seq<Chunk>, cur: Option<Chunk>): seq<Chunk>
  {
    match cur
    case None => chunks
    case Some(c) => chunks + [if c.stk == [] then c.(stk := ["1"]) else c]
  }

  /** One raw line of `extract_chunks`. */
  function Step(st: St, line: string, notes: map<string, string>, law: LawInfo): St
  {
    StepText(st, CleanParagraph(line), notes, law)
  }

  /** One cleaned line: skip it, take it as a part header, or as a paragraph line, or pass it on. */
  function StepText(st: St, txt: string, notes: map<string, string>, law: LawInfo): St
  {
    if txt == [] then st
    else if IsSectionHeader(txt) then st.(section := txt)
    else if ParagraphLabel(txt).Some? then OpenParagraph(st, txt, notes, law)
    else if st.cur.None? then st
    else StepBody(st, st.cur.value, txt, notes, law)
  }

  /** A paragraph line: emit the open chunk and open one for the new paragraph, subsection "1". */
  function OpenParagraph(st: St, txt: string, notes: map<string, string>, law: LawInfo): St
    requires ParagraphLabel(txt).Some?
  {
    var para := ParagraphLabel(txt).value;
    var status := if IsRepealed(txt) then Repealed else Current;
    var c := Open(st.nextId, st.section, para, ["1"], [], status, law, txt, notes);
    St(Flushed(st.chunks, st.cur), Some(c), para, "1", st.section, st.nextId + 1)
  }

  /** A line inside a paragraph: a new subsection, or else an item or continuation text. */
  function StepBody(st: St, c: Chunk, txt: string, notes: map<string, string>, law: LawInfo): St
    requires txt != []
  {
    var stkNum := StkNumber(txt);
    if stkNum.Some? && st.paragraph != [] && stkNum.value != st.stk then
      var c' := Open(st.nextId, st.section, st.paragraph, [stkNum.value], [], Current, law, txt, notes);
      St(st.chunks + [c], Some(c'), st.paragraph, stkNum.value, st.section, st.nextId + 1)
    else
      StepItem(st, c, txt, FindItem(txt, st.paragraph != []), notes, law)
  }

  /**
   * An item whose number differs from the open chunk's starts a new chunk
   * in the same subsection; otherwise the line is added to the open chunk.
   */
  function StepItem(st: St, c: Chunk, txt: string, found: (Option<string>, string), notes: map<string, string>, law: LawInfo): St
  {
    var (item, t) := found;
    if item.Some? && st.paragraph != [] then
      var n := item.value;
      if |c.nr| >= 1 && n !in c.nr then
        var c' := Open(st.nextId, st.section, st.paragraph, [st.stk], [n], Current, law, t, notes);
        St(st.chunks + [c], Some(c'), st.paragraph, st.stk, st.section, st.nextId + 1)
      else
        var nr := if n in c.nr then c.nr else c.nr + [n];
        var ns := AddNotes(c.notes, MarkerNumbers(t), notes);
        var text := if Contains(c.text, t) then c.text else c.text + " " + t;
        st.(cur := Some(c.(nr := nr, notes := ns, text := text)))
    else
      st.(cur := Some(c.(text := c.text + " " + txt, notes := AddNotes(c.notes, MarkerNumbers(txt), notes))))
  }

  function Run(lines: seq<string>, notes: map<string, string>, law: LawInfo, section: string, firstId: nat): St
    decreases |lines|
  {
    if lines == [] then St([], None, [], [], section, firstId)
    else Step(Run(lines[..|lines| - 1], notes, law, section, firstId), lines[|lines| - 1], notes, law)
  }

  /** The numeric value of an item number (`int(s)`). */
  function NumKey(s: string): nat
  {
    if AllDigits(s) then DigitsValue(s) else 0
  }

  function InsertByKey(x: string, s: seq<string>): (r: seq<string>)
    ensures multiset(r) == multiset(s) + multiset{x}
    ensures (forall i, j :: 0 <= i < j < |s| ==> NumKey(s[i]) <= NumKey(s[j])) ==>
      forall i, j :: 0 <= i < j < |r| ==> NumKey(r[i]) <= NumKey(r[j])
    ensures |r| == |s| + 1 && (r[0] == x || (s != [] && r[0] == s[0]))
  {
    if s == [] then [x]
    else if NumKey(x) < NumKey(s[0]) then [x] + s
    else
      var rest := InsertByKey(x, s[1..]);
      assert s == [s[0]] + s[1..];
      [s[0]] + rest
  }

  /** `sorted(nr, key=int)`: a stable insertion sort on the numeric value. */
  function SortNumeric(s: seq<string>): (r: seq<string>)
    ensures multiset(r) == multiset(s)
    ensures forall i, j :: 0 <= i < j < |r| ==> NumKey(r[i]) <= NumKey(r[j])
    decreases |s|
  {
    if s == [] then []
    else
      assert s == s[..|s| - 1] + [s[|s| - 1]];
      InsertByKey(s[|s| - 1], SortNumeric(s[..|s| - 1]))
  }

  /** paragraph, then ", stk. " and ", nr. " with their numbers joined by ",". */
  function Heading(paragraph: string, stk: seq<string>, nr: seq<string>): string
  {
    paragraph
      + (if stk != [] then ", stk. " + Join(stk, ",") else "")
      + (if nr != [] then ", nr. " + Join(nr, ",") else "")
  }

  /** `chunk["nr"] = sorted(chunk["nr"], key=int)`. */
  function SortItems(c: Chunk): Chunk
  {
    c.(nr := SortNumeric(c.nr))
  }

  /** `chunk["heading"] = ...` from the paragraph, the subsections and the items. */
  function WithHeading(c: Chunk): Chunk
  {
    c.(heading := Heading(c.paragraph, c.stk, c.nr))
  }

  function Finalize(c: Chunk): Chunk
  {
    WithHeading(SortItems(c))
  }

  /**
   * Finalizing keeps a shaped chunk shaped and keeps its id; its heading
   * names its one subsection and its item, if any.
   */
  lemma FinalizeShaped(c: Chunk, notes: map<string, string>)
    requires Shaped(c, notes)
    ensures var f := Finalize(c);
      && f.chunkId == c.chunkId
      && Shaped(f, notes)
      && f.heading == f.paragraph + ", stk. " + f.stk[0] + (if f.nr == [] then "" else ", nr. " + f.nr[0])
  {
    SortNumericSmall(c.nr);
    assert Join(c.stk, ",") == c.stk[0];
    assert c.nr != [] ==> Join(c.nr, ",") == c.nr[0];
  }

  function Finish(st: St): seq<Chunk>
  {
    var cs := Flushed(st.chunks, st.cur);
    seq(|cs|, i requires 0 <= i < |cs| => Finalize(cs[i]))
  }

  function ExtractChunksSpec(lines: seq<string>, notes: map<string, string>, law: LawInfo, section: string, firstId: nat): seq<Chunk>
  {
    Finish(Run(lines, notes, law, section, firstId))
  }

  /**
   * `extract_chunks`: one pass over the lines that keeps the open chunk and
   * the current paragraph and subsection, then a pass that sorts the item
   * numbers and a pass that writes the headings.
   */
  method ExtractChunks(lines: seq<string>, notes: map<string, string>, law: LawInfo, section0: string, firstId: nat)
    returns (chunks: seq<Chunk>, nextId: nat)
    ensures chunks == ExtractChunksSpec(lines, notes, law, section0, firstId)
    ensures nextId == Run(lines, notes, law, section0, firstId).nextId
  {
    chunks := [];
    var cur: Option<Chunk> := None;
    var paragraph: string, stk: string, section := [], [], section0;
    nextId := firstId;
    for i := 0 to |lines|
      invariant St(chunks, cur, paragraph, stk, section, nextId) == Run(lines[..i], notes, law, section0, firstId)
    {
      var txt := CleanParagraph(lines[i]);
      assert lines[..i + 1][..i] == lines[..i];
      chunks, cur, paragraph, stk, section, nextId := ConsumeLine(chunks, cur, paragraph, stk, section, nextId, txt, notes, law);
    }
    assert lines[..|lines|] == lines;
    if cur.Some? {
      var c := cur.value;
      if c.stk == [] {
        c := c.(stk := ["1"]);
      }
      chunks := chunks + [c];
    }
    chunks := FinalizeAll(chunks);
  }

  /** The body of the loop of `extract_chunks`, for one cleaned line. */
  method ConsumeLine(chunks0: seq<Chunk>, cur0: Option<Chunk>, paragraph0: string, stk0: string, section0: string, nextId0: nat,
                     txt: string, notes: map<string, string>, law: LawInfo)
    returns (chunks: seq<Chunk>, cur: Option<Chunk>, paragraph: string, stk: string, section: string, nextId: nat)
    ensures St(chunks, cur, paragraph, stk, section, nextId)
         == StepText(St(chunks0, cur0, paragraph0, stk0, section0, nextId0), txt, notes, law)
  {
    chunks, cur, paragraph, stk, section, nextId := chunks0, cur0, paragraph0, stk0, section0, nextId0;
    if txt == [] {
      return;
    }
    if IsSectionHeader(txt) {
      section := txt;
      return;
    }
    var para := ParagraphLabel(txt);
    if para.Some? {
      chunks, cur, paragraph, stk, nextId := ConsumeParagraph(chunks, cur, section, nextId, txt, notes, law);
      return;
    }
    if cur.None? {
      return;
    }
    chunks, cur, stk, nextId := ConsumeBody(chunks, cur.value, paragraph, stk, section, nextId, txt, notes, law);
  }

  /** The part of the loop body for a paragraph line: emit the open chunk and open one for the new paragraph. */
  method ConsumeParagraph(chunks0: seq<Chunk>, cur0: Option<Chunk>, section: string, nextId0: nat,
                          txt: string, notes: map<string, string>, law: LawInfo)
    returns (chunks: seq<Chunk>, cur: Option<Chunk>, paragraph: string, stk: string, nextId: nat)
    requires ParagraphLabel(txt).Some?
    ensures forall paragraph0, stk0 ::
      (St(chunks, cur, paragraph, stk, section, nextId)
         == OpenParagraph(St(chunks0, cur0, paragraph0, stk0, section, nextId0), txt, notes, law))
  {
    chunks := chunks0;
    if cur0.Some? {
      var c := cur0.value;
      if c.stk == [] {
        c := c.(stk := ["1"]);
      }
      chunks := chunks + [c];
    }
    paragraph, stk := ParagraphLabel(txt).value, "1";
    var c := Open(nextId0, section, paragraph, [stk], [], Current, law, txt, notes);
    if IsRepealed(txt) {
      c := c.(status := Repealed);
    }
    cur, nextId := Some(c), nextId0 + 1;
  }

  /** The part of the loop body for a line inside a paragraph: a new subsection, an item, or continuation text. */
  method ConsumeBody(chunks0: seq<Chunk>, c: Chunk, paragraph: string, stk0: string, section: string, nextId0: nat,
                     txt: string, notes: map<string, string>, law: LawInfo)
    returns (chunks: seq<Chunk>, cur: Option<Chunk>, stk: string, nextId: nat)
    requires txt != []
    ensures St(chunks, cur, paragraph, stk, section, nextId)
         == StepBody(St(chunks0, Some(c), paragraph, stk0, section, nextId0), c, txt, notes, law)
  {
    chunks, stk, nextId := chunks0, stk0, nextId0;
    var stkNum := StkNumber(txt);
    if stkNum.Some? && paragraph != [] && stkNum.value != stk {
      stk := stkNum.value;
      chunks := chunks + [c];
      cur := Some(Open(nextId, section, paragraph, [stk], [], Current, law, txt, notes));
      nextId := nextId + 1;
      return;
    }
    var found := FindItem(txt, paragraph != []);
    var item, t := found.0, found.1;
    var c' := c;
    if item.Some? && paragraph != [] {
      var n := item.value;
      if |c'.nr| >= 1 && n !in c'.nr {
        chunks := chunks + [c'];
        cur := Some(Open(nextId, section, paragraph, [stk], [n], Current, law, t, notes));
        nextId := nextId + 1;
        return;
      }
      if n !in c'.nr {
        c' := c'.(nr := c'.nr + [n]);
      }
      c' := c'.(notes := AddNotes(c'.notes, MarkerNumbers(t), notes));
      if !Contains(c'.text, t) {
        c' := c'.(text := c'.text + " " + t);
      }
      cur := Some(c');
      return;
    }
    c' := c'.(text := c'.text + " " + txt);
    c' := c'.(notes := AddNotes(c'.notes, MarkerNumbers(txt), notes));
    cur := Some(c');
  }

  /** The two closing passes of `extract_chunks`: sort each chunk's item numbers, then write its heading. */
  method FinalizeAll(flushed: seq<Chunk>) returns (chunks: seq<Chunk>)
    ensures |chunks| == |flushed|
    ensures forall j :: 0 <= j < |chunks| ==> chunks[j] == Finalize(flushed[j])
  {
    var sorted := SortAllItems(flushed);
    chunks := WriteHeadings(sorted);
  }

  /** The pass that sorts each chunk's item numbers; a chunk without items is left as it is. */
  method SortAllItems(flushed: seq<Chunk>) returns (chunks: seq<Chunk>)
    ensures |chunks| == |flushed|
    ensures forall j :: 0 <= j < |chunks| ==> chunks[j] == SortItems(flushed[j])
  {
    chunks := flushed;
    for k := 0 to |chunks|
      invariant |chunks| == |flushed|
      invariant forall j :: 0 <= j < k ==> chunks[j] == SortItems(flushed[j])
      invariant forall j :: k <= j < |chunks| ==> chunks[j] == flushed[j]
    {
      if chunks[k].nr != [] {
        chunks := chunks[k := SortItems(chunks[k])];
      } else {
        assert SortItems(chunks[k]) == chunks[k];
      }
    }
  }

  /** The pass that writes each chunk's heading. */
  method WriteHeadings(sorted: seq<Chunk>) returns (chunks: seq<Chunk>)
    ensures |chunks| == |sorted|
    ensures forall j :: 0 <= j < |chunks| ==> chunks[j] == WithHeading(sorted[j])
  {
    chunks := sorted;
    for k := 0 to |chunks|
      invariant |chunks| == |sorted|
      invariant forall j :: 0 <= j < k ==> chunks[j] == WithHeading(sorted[j])
      invariant forall j :: k <= j < |chunks| ==> chunks[j] == sorted[j]
    {
      var c := chunks[k];
      chunks := chunks[k := c.(heading := Heading(c.paragraph, c.stk, c.nr))];
    }
  }

  // ---------------------------------------------------------------------------
  // What the pass guarantees

  /** One stk, at most one nr, never repealed, footnotes from the table, and a paragraph para. */
  ghost predicate Shaped(c: Chunk, notes: map<string, string>)
  {
    && |c.stk| == 1
    && |c.nr| <= 1
    && c.status == Current
    && DistinctKeys(c.notes)
    && NotesFrom(c.notes, notes)
    && StartsWith(c.paragraph, "§ ")
  }

  /**
   * Chunks are numbered from `firstId` in the order they were opened; the
   * open chunk follows the emitted ones and is the only one not yet emitted.
   */
  ghost predicate Inv(st: St, notes: map<string, string>, firstId: nat)
  {
    && (forall i :: 0 <= i < |st.chunks| ==> st.chunks[i].chunkId == firstId + i && Shaped(st.chunks[i], notes))
    && (st.cur.None? ==> st.chunks == [] && st.nextId == firstId)
    && (st.cur.Some? ==>
          && st.nextId == firstId + |st.chunks| + 1
          && st.cur.value.chunkId == firstId + |st.chunks|
          && Shaped(st.cur.value, notes)
          && st.paragraph == st.cur.value.paragraph
          && st.cur.value.stk == [st.stk])
  }

  lemma OpenShaped(id: nat, section: string, paragraph: string, stk: seq<string>, nr: seq<string>,
                   law: LawInfo, txt: string, notes: map<string, string>)
    requires |stk| == 1 && |nr| <= 1 && StartsWith(paragraph, "§ ")
    ensures Shaped(Open(id, section, paragraph, stk, nr, Current, law, txt, notes), notes)
  {
    AddNotesKeeps([], MarkerNumbers(txt), notes);
  }

  lemma StepItemInv(st: St, txt: string, notes: map<string, string>, law: LawInfo, firstId: nat)
    requires Inv(st, notes, firstId) && st.cur.Some? && txt != []
    ensures Inv(StepItem(st, st.cur.value, txt, FindItem(txt, st.paragraph != []), notes, law), notes, firstId)
  {
    var c := st.cur.value;
    var (item, t) := FindItem(txt, st.paragraph != []);
    if item.Some? && st.paragraph != [] {
      var n := item.value;
      if |c.nr| >= 1 && n !in c.nr {
        OpenShaped(st.nextId, st.section, st.paragraph, [st.stk], [n], law, t, notes);
      } else {
        AddNotesKeeps(c.notes, MarkerNumbers(t), notes);
      }
    } else {
      AddNotesKeeps(c.notes, MarkerNumbers(txt), notes);
    }
  }

  lemma StepInv(st: St, line: string, notes: map<string, string>, law: LawInfo, firstId: nat)
    requires Inv(st, notes, firstId)
    ensures Inv(Step(st, line, notes, law), notes, firstId)
  {
    StepTextInv(st, CleanParagraph(line), notes, law, firstId);
  }

  lemma StepTextInv(st: St, txt: string, notes: map<string, string>, law: LawInfo, firstId: nat)
    requires Inv(st, notes, firstId)
    ensures Inv(StepText(st, txt, notes, law), notes, firstId)
  {
    if txt == [] || IsSectionHeader(txt) {
    } else if ParagraphLabel(txt).Some? {
      ParagraphLineNotRepealed(txt);
      OpenShaped(st.nextId, st.section, ParagraphLabel(txt).value, ["1"], [], law, txt, notes);
    } else if st.cur.Some? {
      var stkNum := StkNumber(txt);
      if stkNum.Some? && st.paragraph != [] && stkNum.value != st.stk {
        OpenShaped(st.nextId, st.section, st.paragraph, [stkNum.value], [], law, txt, notes);
      } else {
        StepItemInv(st, txt, notes, law, firstId);
      }
    }
  }

  lemma {:induction false} RunInv(lines: seq<string>, notes: map<string, string>, law: LawInfo, section: string, firstId: nat)
    ensures Inv(Run(lines, notes, law, section, firstId), notes, firstId)
    decreases |lines|
  {
    if lines != [] {
      RunInv(lines[..|lines| - 1], notes, law, section, firstId);
      StepInv(Run(lines[..|lines| - 1], notes, law, section, firstId), lines[|lines| - 1], notes, law, firstId);
    }
  }

  lemma SortNumericSmall(s: seq<string>)
    requires |s| <= 1
    ensures SortNumeric(s) == s
  {
    if |s| == 1 {
      assert s[..0] == [];
    }
  }

  lemma FlushedShaped(st: St, notes: map<string, string>, firstId: nat)
    requires Inv(st, notes, firstId)
    ensures var cs := Flushed(st.chunks, st.cur);
      (st.cur.Some? ==> |cs| == |st.chunks| + 1) && (st.cur.None? ==> |cs| == 0)
      && forall i :: 0 <= i < |cs| ==> cs[i].chunkId == firstId + i && Shaped(cs[i], notes)
  {
  }

  /**
   * Every chunk opened is emitted once, in the order opened, with
   * consecutive ids; each has exactly one stk, at most one nr, status
   * "gældende", footnotes taken from the table, and the heading
   * "§ …, stk. S" or "§ …, stk. S, nr. N".
   */
  lemma ExtractChunksShape(lines: seq<string>, notes: map<string, string>, law: LawInfo, section: string, firstId: nat)
    ensures var out := ExtractChunksSpec(lines, notes, law, section, firstId);
      && Run(lines, notes, law, section, firstId).nextId == firstId + |out|
      && forall i :: 0 <= i < |out| ==>
        && out[i].chunkId == firstId + i
        && Shaped(out[i], notes)
        && out[i].heading == out[i].paragraph + ", stk. " + out[i].stk[0]
             + (if out[i].nr == [] then "" else ", nr. " + out[i].nr[0])
  {
    var st := Run(lines, notes, law, section, firstId);
    RunInv(lines, notes, law, section, firstId);
    FlushedShaped(st, notes, firstId);
    var cs := Flushed(st.chunks, st.cur);
    var out := Finish(st);
    forall i | 0 <= i < |out|
      ensures out[i].chunkId == firstId + i && Shaped(out[i], notes)
      ensures out[i].heading == out[i].paragraph + ", stk. " + out[i].stk[0]
             + (if out[i].nr == [] then "" else ", nr. " + out[i].nr[0])
    {
      assert out[i] == Finalize(cs[i]);
      FinalizeShaped(cs[i], notes);
    }
  }

  /** Lines before the first paragraph line produce nothing: with no paragraph line there are no chunks. */
  lemma {:induction false} NoParagraphNoChunks(lines: seq<string>, notes: map<string, string>, law: LawInfo, section: string, firstId: nat)
    requires forall i :: 0 <= i < |lines| ==> ParagraphLabel(CleanParagraph(lines[i])).None?
    ensures Run(lines, notes, law, section, firstId).cur.None?
    ensures ExtractChunksSpec(lines, notes, law, section, firstId) == []
    decreases |lines|
  {
    if lines != [] {
      NoParagraphNoChunks(lines[..|lines| - 1], notes, law, section, firstId);
      RunInv(lines[..|lines| - 1], notes, law, section, firstId);
    }
  }

  /** A part header only sets the section: it neither emits nor opens a chunk. */
  lemma SectionLineKeepsChunks(st: St, txt: string, notes: map<string, string>, law: LawInfo)
    requires IsSectionHeader(txt)
    ensures StepText(st, txt, notes, law) == st.(section := txt)
    ensures ParagraphLabel(txt).None? && StkNumber(txt).None?
  {
    assert txt[0] == 'A' by {
      assert txt[..7] == "AFSNIT ";
      assert txt[..7][0] == 'A';
    }
  }

  /** A paragraph line is no part header: it starts with "§". */
  lemma ParagraphNotSection(txt: string)
    requires ParagraphLabel(txt).Some?
    ensures !IsSectionHeader(txt)
  {
    assert txt[0] == '§';
  }

  /**
   * A paragraph line emits the open chunk and opens a new one with stk
   * ["1"], no nr, status "gældende" and the line itself as its text.
   */
  lemma ParagraphLineOpensChunk(st: St, txt: string, notes: map<string, string>, law: LawInfo)
    requires ParagraphLabel(txt).Some?
    ensures var st' := StepText(st, txt, notes, law);
      && st'.chunks == Flushed(st.chunks, st.cur)
      && st'.cur.Some? && st'.cur.value.chunkId == st.nextId
      && st'.cur.value.stk == ["1"] && st'.cur.value.nr == []
      && st'.cur.value.status == Current
      && st'.cur.value.text == txt
      && st'.cur.value.paragraph == ParagraphLabel(txt).value
  {
    ParagraphLineNotRepealed(txt);
    ParagraphNotSection(txt);
  }
}

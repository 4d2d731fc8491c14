/**
 * Character classes and string operations shared by the chunker, the graph
 * layer and the search helpers: Python's `\s`, `\d`, `str.strip`, `str.lower`,
 * `str.split`/`str.join` and `re.sub(r'\s+', ' ', ...)`, written out over
 * `seq<char>`.
 */
module Strings {

  datatype Option<T> = None | Some(value: T)

  predicate IsDigit(c: char) { '0' <= c <= '9' }

  predicate IsAsciiLetter(c: char) { 'a' <= c <= 'z' || 'A' <= c <= 'Z' }

  /**
   * Python's `\s` (in a `str` pattern) and `str.isspace`: the ASCII
   * whitespace, the separators U+001C to U+001F, NEL, the no-break spaces and
   * the Unicode space separators.
   */
  predicate IsSpace(c: char)
  {
    || c == ' ' || '\t' <= c <= '\r' || '\U{001C}' <= c <= '\U{001F}'
    || c == '\U{0085}' || c == '\U{00A0}' || c == '\U{1680}'
    || '\U{2000}' <= c <= '\U{200A}' || c == '\U{2028}' || c == '\U{2029}'
    || c == '\U{202F}' || c == '\U{205F}' || c == '\U{3000}'
  }

  /** Python's `str.lower` on one character, for ASCII and Latin-1 (which holds Æ, Ø, Å). */
  function LowerChar(c: char): char
  {
    if 'A' <= c <= 'Z' || ('\U{00C0}' <= c <= '\U{00DE}' && c != '\U{00D7}') then
      (c as int + 32) as char
    else
      c
  }

  function Lower(s: string): string
  {
    seq(|s|, i requires 0 <= i < |s| => LowerChar(s[i]))
  }

  /** Python's `str.upper` on ASCII letters. */
  function UpperChar(c: char): char
  {
    if 'a' <= c <= 'z' then (c as int - 32) as char else c
  }

  function Upper(s: string): string
  {
    seq(|s|, i requires 0 <= i < |s| => UpperChar(s[i]))
  }

  predicate AllDigits(s: string) { forall i :: 0 <= i < |s| ==> IsDigit(s[i]) }

  // ---------------------------------------------------------------------------
  // Runs of characters

  /** The end of the maximal run of characters satisfying `p` that starts at `i`. */
  function RunEnd(s: string, i: nat, p: char -> bool): (k: nat)
    requires i <= |s|
    ensures i <= k <= |s|
    ensures forall j :: i <= j < k ==> p(s[j])
    ensures k < |s| ==> !p(s[k])
    decreases |s| - i
  {
    if i == |s| || !p(s[i]) then i else RunEnd(s, i + 1, p)
  }

  /** A run of `p` characters from `i` that stops at `k` is the run `RunEnd` finds. */
  lemma RunEndAt(s: string, i: nat, k: nat, p: char -> bool)
    requires i <= k <= |s|
    requires forall j :: i <= j < k ==> p(s[j])
    requires k == |s| || !p(s[k])
    ensures RunEnd(s, i, p) == k
  {
  }

  function DigitEnd(s: string, i: nat): (k: nat)
    requires i <= |s|
    ensures i <= k <= |s|
    ensures forall j :: i <= j < k ==> IsDigit(s[j])
    ensures k < |s| ==> !IsDigit(s[k])
  {
    RunEnd(s, i, IsDigit)
  }

  function SpaceEnd(s: string, i: nat): (k: nat)
    requires i <= |s|
    ensures i <= k <= |s|
    ensures forall j :: i <= j < k ==> IsSpace(s[j])
    ensures k < |s| ==> !IsSpace(s[k])
  {
    RunEnd(s, i, IsSpace)
  }

  // ---------------------------------------------------------------------------
  // str.strip()

  /** Index of the first non-whitespace character (or |s|). */
  function TrimLeft(s: string): (k: nat)
    ensures k <= |s|
    ensures forall i :: 0 <= i < k ==> IsSpace(s[i])
    ensures k < |s| ==> !IsSpace(s[k])
  {
    SpaceEnd(s, 0)
  }

  /** One past the last non-whitespace character (or 0). */
  function TrimRight(s: string): (k: nat)
    ensures k <= |s|
    ensures forall i :: k <= i < |s| ==> IsSpace(s[i])
    ensures k > 0 ==> !IsSpace(s[k - 1])
  {
    if s == [] || !IsSpace(s[|s| - 1]) then |s| else TrimRight(s[..|s| - 1])
  }

  /** Python's `str.strip()`: the slice between the first and last non-whitespace characters. */
  function Strip(s: string): (r: string)
    ensures r == [] || (!IsSpace(r[0]) && !IsSpace(r[|r| - 1]))
    ensures |r| <= |s|
  {
    var a := TrimLeft(s);
    if a == |s| then [] else s[a..TrimRight(s)]
  }

  /** Strip yields a slice of its input. */
  lemma StripIsSlice(s: string) returns (a: nat, b: nat)
    ensures a <= b <= |s| && Strip(s) == s[a..b]
  {
    if TrimLeft(s) == |s| {
      a, b := 0, 0;
    } else {
      a, b := TrimLeft(s), TrimRight(s);
    }
  }

  lemma StripNoOp(s: string)
    requires s == [] || (!IsSpace(s[0]) && !IsSpace(s[|s| - 1]))
    ensures Strip(s) == s
  {
    if s != [] {
      assert TrimLeft(s) == 0;
      assert TrimRight(s) == |s|;
    }
  }

  /** The last non-whitespace character of `s` ends at `k`. */
  lemma {:induction false} TrimRightAt(s: string, k: nat)
    requires k <= |s| && (forall i :: k <= i < |s| ==> IsSpace(s[i])) && (k > 0 ==> !IsSpace(s[k - 1]))
    ensures TrimRight(s) == k
    decreases |s|
  {
    if k < |s| {
      TrimRightAt(s[..|s| - 1], k);
    }
  }

  /** Whitespace, NBSP and the Unicode spaces included, around a string does not change what `strip` gives. */
  lemma StripIgnoresPadding(pre: string, s: string, post: string)
    requires forall i :: 0 <= i < |pre| ==> IsSpace(pre[i])
    requires forall i :: 0 <= i < |post| ==> IsSpace(post[i])
    ensures Strip(pre + s + post) == Strip(s)
  {
    var t := pre + s + post;
    var a := TrimLeft(s);
    PaddedLeft(pre, s, post);
    if a < |s| {
      var b := TrimRight(s);
      calc {
        Strip(t);
      == { PaddedRight(pre, s, post); }
        t[|pre| + a..|pre| + b];
      == { SliceOfPadded(pre, s, post, a, b); }
        s[a..b];
      ==
        Strip(s);
      }
    }
  }

  lemma SliceOfPadded(pre: string, s: string, post: string, a: nat, b: nat)
    requires a <= b <= |s|
    ensures (pre + s + post)[|pre| + a..|pre| + b] == s[a..b]
  {
    var t := pre + s + post;
    assert forall i :: |pre| + a <= i < |pre| + b ==> t[i] == s[i - |pre|];
  }

  lemma PaddedLeft(pre: string, s: string, post: string)
    requires forall i :: 0 <= i < |pre| ==> IsSpace(pre[i])
    requires forall i :: 0 <= i < |post| ==> IsSpace(post[i])
    ensures TrimLeft(s) < |s| ==> TrimLeft(pre + s + post) == |pre| + TrimLeft(s)
    ensures TrimLeft(s) == |s| ==> TrimLeft(pre + s + post) == |pre + s + post|
  {
    var t := pre + s + post;
    var a := TrimLeft(s);
    var k := if a < |s| then |pre| + a else |t|;
    forall i | 0 <= i < k
      ensures IsSpace(t[i])
    {
      if i < |pre| {
        assert t[i] == pre[i];
      } else if i < |pre| + |s| {
        assert t[i] == s[i - |pre|];
      } else {
        assert t[i] == post[i - |pre| - |s|];
      }
    }
    if a < |s| {
      assert t[k] == s[a];
    }
    RunEndAt(t, 0, k, IsSpace);
  }

  lemma PaddedRight(pre: string, s: string, post: string)
    requires forall i :: 0 <= i < |post| ==> IsSpace(post[i])
    requires TrimLeft(s) < |s|
    ensures TrimRight(pre + s + post) == |pre| + TrimRight(s)
  {
    var t := pre + s + post;
    var b := TrimRight(s);
    assert b > 0;
    forall i | |pre| + b <= i < |t|
      ensures IsSpace(t[i])
    {
      if i < |pre| + |s| {
        assert t[i] == s[i - |pre|];
      } else {
        assert t[i] == post[i - |pre| - |s|];
      }
    }
    assert t[|pre| + b - 1] == s[b - 1];
    TrimRightAt(t, |pre| + b);
  }

  // ---------------------------------------------------------------------------
  // re.sub(r'\s+', ' ', s)

  /** Replaces every maximal run of whitespace by a single space. */
  function Collapse(s: string): string
    decreases |s|
  {
    if s == [] then []
    else if IsSpace(s[0]) then [' '] + Collapse(s[SpaceEnd(s, 0)..])
    else [s[0]] + Collapse(s[1..])
  }

  /** Whitespace only as single plain spaces. */
  ghost predicate Normal(t: string)
  {
    && (forall i :: 0 <= i < |t| && IsSpace(t[i]) ==> t[i] == ' ')
    && (forall i :: 0 <= i < |t| - 1 ==> !(IsSpace(t[i]) && IsSpace(t[i + 1])))
  }

  lemma {:induction false} CollapseHead(s: string)
    requires s != [] && !IsSpace(s[0])
    ensures Collapse(s) != [] && Collapse(s)[0] == s[0]
  {
  }

  lemma {:induction false} CollapseNormal(s: string)
    ensures Normal(Collapse(s))
    decreases |s|
  {
    if s == [] {
    } else if IsSpace(s[0]) {
      var rest := s[SpaceEnd(s, 0)..];
      CollapseNormal(rest);
      if rest != [] {
        CollapseHead(rest);
      }
      assert Collapse(s) == [' '] + Collapse(rest);
    } else {
      CollapseNormal(s[1..]);
      assert Collapse(s) == [s[0]] + Collapse(s[1..]);
    }
  }

  lemma {:induction false} CollapseOfNormal(t: string)
    requires Normal(t)
    ensures Collapse(t) == t
    decreases |t|
  {
    if t == [] {
    } else if IsSpace(t[0]) {
      assert |t| > 1 ==> !IsSpace(t[1]);
      assert SpaceEnd(t, 0) == 1;
      assert Normal(t[1..]) by {
        forall i | 0 <= i < |t[1..]| - 1 ensures !(IsSpace(t[1..][i]) && IsSpace(t[1..][i + 1])) {
          assert t[1..][i] == t[i + 1] && t[1..][i + 1] == t[i + 2];
        }
      }
      CollapseOfNormal(t[1..]);
    } else {
      assert Normal(t[1..]) by {
        forall i | 0 <= i < |t[1..]| - 1 ensures !(IsSpace(t[1..][i]) && IsSpace(t[1..][i + 1])) {
          assert t[1..][i] == t[i + 1] && t[1..][i + 1] == t[i + 2];
        }
      }
      CollapseOfNormal(t[1..]);
    }
  }

  lemma NormalSlice(t: string, a: nat, b: nat)
    requires Normal(t) && a <= b <= |t|
    ensures Normal(t[a..b])
  {
    var u := t[a..b];
    forall i | 0 <= i < |u| - 1 ensures !(IsSpace(u[i]) && IsSpace(u[i + 1])) {
      assert u[i] == t[a + i] && u[i + 1] == t[a + i + 1];
    }
  }

  // ---------------------------------------------------------------------------
  // Substrings, split and join

  predicate StartsWith(s: string, t: string)
  {
    |t| <= |s| && s[..|t|] == t
  }

  /** Python's `t in s`. */
  predicate Contains(s: string, t: string)
    decreases |s|
  {
    StartsWith(s, t) || (s != [] && Contains(s[1..], t))
  }

  lemma {:induction false} ContainsAt(s: string, t: string, i: nat)
    requires i + |t| <= |s| && s[i..i + |t|] == t
    ensures Contains(s, t)
    decreases i
  {
    if i > 0 {
      assert s[1..][i - 1..i - 1 + |t|] == s[i..i + |t|];
      ContainsAt(s[1..], t, i - 1);
    } else {
      assert s[..|t|] == s[0..|t|];
    }
  }

  /** Python's `s.find(t)` as an Option: the leftmost occurrence. */
  function IndexOf(s: string, t: string): (r: Option<nat>)
    ensures r.Some? ==> r.value + |t| <= |s| && s[r.value..r.value + |t|] == t
    ensures r.Some? ==> forall j :: 0 <= j < r.value ==> !StartsWith(s[j..], t)
    ensures r.None? ==> forall j :: 0 <= j <= |s| ==> !StartsWith(s[j..], t)
    decreases |s|
  {
    if StartsWith(s, t) then Some(0)
    else if s == [] then None
    else
      assert forall j :: 1 <= j <= |s| ==> s[1..][j - 1..] == s[j..] by {
        forall j | 1 <= j <= |s| {
          DropShift(s, j);
        }
      }
      match IndexOf(s[1..], t)
      case None => None
      case Some(i) =>
        SliceShift(s, i, |t|);
        Some(i + 1)
  }

  lemma SliceShift(s: string, i: nat, n: nat)
    requires i + 1 + n <= |s|
    ensures s[i + 1..i + 1 + n] == s[1..][i..i + n]
  {
  }

  lemma DropShift(s: string, j: nat)
    requires 1 <= j <= |s|
    ensures s[1..][j - 1..] == s[j..]
  {
  }

  /** Python's `s.split(sep)` for a non-empty separator. */
  function Split(s: string, sep: string): (parts: seq<string>)
    requires |sep| > 0
    ensures |parts| >= 1
    decreases |s|
  {
    match IndexOf(s, sep)
    case None => [s]
    case Some(i) => [s[..i]] + Split(s[i + |sep|..], sep)
  }

  /** Python's `sep.join(parts)`. */
  function Join(parts: seq<string>, sep: string): string
    decreases |parts|
  {
    if parts == [] then []
    else if |parts| == 1 then parts[0]
    else parts[0] + sep + Join(parts[1..], sep)
  }

  /** `Split` cuts at the first occurrence of the separator, if there is one. */
  lemma SplitCut(s: string, sep: string) returns (found: bool, i: nat)
    requires |sep| > 0
    ensures !found ==> Split(s, sep) == [s]
    ensures found ==> i + |sep| <= |s| && s == s[..i] + sep + s[i + |sep|..]
    ensures found ==> Split(s, sep) == [s[..i]] + Split(s[i + |sep|..], sep)
  {
    match IndexOf(s, sep)
    case None =>
      found, i := false, 0;
    case Some(k) =>
      found, i := true, k;
  }

  /** Joining what `Split` cut gives back the original string. */
  lemma {:induction false} JoinSplit(s: string, sep: string)
    requires |sep| > 0
    ensures Join(Split(s, sep), sep) == s
    decreases |s|
  {
    var found, i := SplitCut(s, sep);
    if found {
      var rest := s[i + |sep|..];
      JoinSplit(rest, sep);
      JoinCons(s[..i], Split(rest, sep), sep);
    }
  }

  lemma JoinCons(p: string, tail: seq<string>, sep: string)
    requires tail != []
    ensures Join([p] + tail, sep) == p + sep + Join(tail, sep)
  {
    assert ([p] + tail)[1..] == tail;
  }

  // ---------------------------------------------------------------------------
  // Numbers

  /** Python's `int(s)` for a string of ASCII digits. */
  function DigitsValue(s: string): nat
    requires AllDigits(s)
  {
    if s == [] then 0 else DigitsValue(s[..|s| - 1]) * 10 + (s[|s| - 1] as int - '0' as int)
  }

  /** Python's `str(n)` for a natural number. */
  function NatToString(n: nat): (r: string)
    ensures |r| >= 1 && AllDigits(r)
  {
    if n < 10 then [('0' as int + n) as char]
    else NatToString(n / 10) + [('0' as int + n % 10) as char]
  }

  /** `set(s)`: the distinct elements of `s`. */
  function Elements(s: seq<string>): (r: set<string>)
    ensures forall x :: x in r <==> x in s
  {
    set x | x in s
  }
}

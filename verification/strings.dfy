/**
 * The string builtins the solver stages rely on: str.lower, str.strip,
 * str.split, the `in` substring test, str.isalnum and the regular-expression
 * word boundary `\b`. Characters are Unicode code points, as in Python 3.
 */
module Strings {

  import opened Wrappers
  import opened Selection

  /** Whitespace as str.isspace, str.strip() and str.split() see it. */
  predicate IsSpace(c: char) {
    || c == ' '
    || ('\t' <= c <= '\r')
    || ('\U{1C}' <= c <= '\U{1F}')
    || c == '\U{85}' || c == '\U{A0}' || c == '\U{1680}'
    || ('\U{2000}' <= c <= '\U{200A}')
    || c == '\U{2028}' || c == '\U{2029}' || c == '\U{202F}' || c == '\U{205F}' || c == '\U{3000}'
  }

  predicate IsAsciiDigit(c: char) { '0' <= c <= '9' }

  /** The basic Cyrillic block, capitals and small letters (U+0400..U+045F). */
  predicate IsCyrillicLetter(c: char) { '\U{400}' <= c <= '\U{45F}' }

  /** str.isalnum, restricted to the Latin and Cyrillic scripts the taxonomy uses. */
  predicate IsAlnum(c: char) {
    IsAsciiDigit(c) || ('a' <= c <= 'z') || ('A' <= c <= 'Z') || IsCyrillicLetter(c)
  }

  /** A character of the regular-expression class `\w`. */
  predicate IsWordChar(c: char) { IsAlnum(c) || c == '_' }

  /** A Latin or basic Cyrillic capital letter. */
  predicate IsCapital(c: char) { ('A' <= c <= 'Z') || ('\U{400}' <= c <= '\U{42F}') }

  /**
   * str.lower on one character: exactly the capitals change, A..Z and
   * U+0410..U+042F moving down by 32 code points and U+0400..U+040F by 80.
   */
  function LowerChar(c: char): (d: char)
    ensures d != c <==> IsCapital(c)
    ensures ('A' <= c <= 'Z' || '\U{410}' <= c <= '\U{42F}') ==> d as int == c as int + 32
    ensures '\U{400}' <= c <= '\U{40F}' ==> d as int == c as int + 80
    ensures d != c ==> IsAlnum(c) && IsAlnum(d)
    ensures IsAlnum(c) ==> IsAlnum(d)
  {
    if 'A' <= c <= 'Z' then (c as int + 32) as char
    else if '\U{410}' <= c <= '\U{42F}' then (c as int + 32) as char
    else if '\U{400}' <= c <= '\U{40F}' then (c as int + 80) as char
    else c
  }

  /** A character that str.lower leaves alone. */
  predicate IsLowered(c: char) { LowerChar(c) == c }

  lemma LowerCharIsLowered(c: char)
    ensures IsLowered(LowerChar(c))
  {
  }

  function Lower(s: string): (r: string)
    ensures |r| == |s|
    ensures forall i :: 0 <= i < |s| ==> r[i] == LowerChar(s[i])
  {
    seq(|s|, i requires 0 <= i < |s| => LowerChar(s[i]))
  }

  function TrimStart(s: string): (r: string)
    ensures |r| <= |s| && r == s[|s| - |r|..]
    ensures r == [] || !IsSpace(r[0])
    ensures forall i :: 0 <= i < |s| - |r| ==> IsSpace(s[i])
  {
    if s != [] && IsSpace(s[0]) then TrimStart(s[1..]) else s
  }

  function TrimEnd(s: string): (r: string)
    ensures |r| <= |s| && r == s[..|r|]
    ensures r == [] || !IsSpace(r[|r| - 1])
    ensures forall i :: |r| <= i < |s| ==> IsSpace(s[i])
  {
    if s != [] && IsSpace(s[|s| - 1]) then TrimEnd(s[..|s| - 1]) else s
  }

  /** `r` is the slice of `s` at `a`, with only whitespace before and after it. */
  predicate StrippedAt(s: string, a: int, r: string) {
    && 0 <= a && a + |r| <= |s| && r == s[a..a + |r|]
    && (forall i :: 0 <= i < a ==> IsSpace(s[i]))
    && (forall i :: a + |r| <= i < |s| ==> IsSpace(s[i]))
  }

  /** str.strip(): drops leading and trailing whitespace and nothing else. */
  function Strip(s: string): (r: string)
    ensures r == [] || (!IsSpace(r[0]) && !IsSpace(r[|r| - 1]))
    ensures r == [] <==> forall i :: 0 <= i < |s| ==> IsSpace(s[i])
  {
    TrimEnd(TrimStart(s))
  }

  /** Strip removes whitespace at both ends and nothing else. */
  lemma StripIsSlice(s: string)
    ensures exists a :: StrippedAt(s, a, Strip(s))
  {
    var t := TrimStart(s);
    var r := TrimEnd(t);
    var a := |s| - |t|;
    assert r == s[a..a + |r|];
    forall i | a + |r| <= i < |s| ensures IsSpace(s[i]) {
      assert s[i] == t[i - a];
    }
    assert r == Strip(s);
    assert forall i :: 0 <= i < a ==> IsSpace(s[i]);
    assert StrippedAt(s, a, Strip(s));
  }

  /** `w` occurs in `s` starting at position `i`. */
  predicate OccursAt(s: string, w: string, i: nat) {
    i + |w| <= |s| && s[i..i + |w|] == w
  }

  /** Python's `w in s` for strings. */
  predicate Contains(s: string, w: string) {
    exists i: nat :: i <= |s| && OccursAt(s, w, i)
  }

  /** s.split(sep)[0]: everything before the first `sep`. */
  function BeforeFirst(s: string, sep: char): (r: string)
    ensures |r| <= |s| && r == s[..|r|]
    ensures sep !in r
    ensures |r| < |s| ==> s[|r|] == sep
    ensures sep !in s ==> r == s
  {
    if s == [] || s[0] == sep then [] else [s[0]] + BeforeFirst(s[1..], sep)
  }

  /** The leading run of non-whitespace characters. */
  function TakeWord(s: string): (r: string)
    ensures |r| <= |s| && r == s[..|r|]
    ensures forall c :: c in r ==> !IsSpace(c)
    ensures |r| < |s| ==> IsSpace(s[|r|])
    ensures (forall c :: c in s ==> !IsSpace(c)) ==> r == s
  {
    if s == [] || IsSpace(s[0]) then [] else [s[0]] + TakeWord(s[1..])
  }

  /**
   * `w` is the first whitespace-delimited word of `s` and starts at `a`:
   * only whitespace comes before it, and whitespace or the end after it.
   */
  predicate FirstWordAt(s: string, a: int, w: string) {
    && 0 <= a && a + |w| <= |s| && w != [] && s[a..a + |w|] == w
    && (forall i :: 0 <= i < a ==> IsSpace(s[i]))
    && (forall c :: c in w ==> !IsSpace(c))
    && (a + |w| == |s| || IsSpace(s[a + |w|]))
  }

  /** The first element of s.split(), or None when the split is empty. */
  function FirstWord(s: string): (r: Option<string>)
    ensures r.None? <==> forall i :: 0 <= i < |s| ==> IsSpace(s[i])
    ensures r.Some? ==> r.value != [] && forall c :: c in r.value ==> !IsSpace(c)
  {
    var t := TrimStart(s);
    if t == [] then None else Some(TakeWord(t))
  }

  /** FirstWord finds the first whitespace-delimited word, where it stands. */
  lemma FirstWordIsFirst(s: string)
    requires FirstWord(s).Some?
    ensures exists a :: FirstWordAt(s, a, FirstWord(s).value)
  {
    var t := TrimStart(s);
    var w := TakeWord(t);
    var a := |s| - |t|;
    assert s[a..a + |w|] == t[..|w|];
    assert FirstWordAt(s, a, w);
  }

  /** A string has at most one first word. */
  lemma FirstWordAtUnique(s: string, a1: int, w1: string, a2: int, w2: string)
    requires FirstWordAt(s, a1, w1) && FirstWordAt(s, a2, w2)
    ensures a1 == a2 && w1 == w2
  {
    assert w1[0] in w1 && w2[0] in w2;
    assert s[a1] == w1[0] && s[a2] == w2[0];
  }

  /** "".join(ch for ch in s if ch.isalnum()) */
  function KeepAlnum(s: string): (r: string)
    ensures forall c :: c in r ==> IsAlnum(c)
    ensures (forall c :: c in s ==> IsLowered(c)) ==> forall c :: c in r ==> IsLowered(c)
  {
    if s == [] then []
    else if IsAlnum(s[0]) then [s[0]] + KeepAlnum(s[1..])
    else KeepAlnum(s[1..])
  }

  /** What the filter in KeepAlnum keeps of one character. */
  function AlnumPick(c: char): (r: Option<char>)
    ensures r.Some? <==> IsAlnum(c)
    ensures r.Some? ==> r.value == c
  {
    if IsAlnum(c) then Some(c) else None
  }

  lemma {:induction false} KeepAlnumAppend(s: string, c: char)
    ensures KeepAlnum(s + [c]) == KeepAlnum(s) + (if IsAlnum(c) then [c] else [])
  {
    if s != [] {
      assert (s + [c])[1..] == s[1..] + [c];
      KeepAlnumAppend(s[1..], c);
    }
  }

  /** KeepAlnum keeps exactly the alphanumeric characters of `s`, in their order. */
  lemma {:induction false} KeepAlnumSelects(s: string)
    ensures exists ks :: Selects(s, AlnumPick, ks, KeepAlnum(s))
  {
    if s == [] {
      SelectsEmpty(AlnumPick);
      assert Selects(s, AlnumPick, [], KeepAlnum(s));
    } else {
      var init, c := s[..|s| - 1], s[|s| - 1];
      assert s == init + [c];
      KeepAlnumSelects(init);
      var ks :| Selects(init, AlnumPick, ks, KeepAlnum(init));
      KeepAlnumAppend(init, c);
      SelectsAppend(init, AlnumPick, ks, KeepAlnum(init), c);
      if IsAlnum(c) {
        assert Selects(s, AlnumPick, ks + [|init|], KeepAlnum(s));
      } else {
        assert Selects(s, AlnumPick, ks, KeepAlnum(s));
      }
    }
  }

  /** `t[q]` exists and is a word character. */
  predicate WordCharAt(t: string, q: int) {
    0 <= q < |t| && IsWordChar(t[q])
  }

  /** The zero-width assertion `\b` holds between positions p - 1 and p. */
  predicate Boundary(t: string, p: int) {
    WordCharAt(t, p - 1) != WordCharAt(t, p)
  }

  /** re.search(r"\b" + re.escape(w) + r"\b", t) finds a match. */
  predicate HasWholeWord(t: string, w: string) {
    exists i: nat :: i <= |t| && OccursAt(t, w, i) && Boundary(t, i) && Boundary(t, i + |w|)
  }

  lemma WholeWordIsSubstring(t: string, w: string)
    requires HasWholeWord(t, w)
    ensures Contains(t, w)
  {
    var i: nat :| i <= |t| && OccursAt(t, w, i) && Boundary(t, i) && Boundary(t, i + |w|);
    assert OccursAt(t, w, i);
  }

  /** Lexicographic order by code point, as Python compares strings. */
  predicate StrLess(a: string, b: string) {
    if a == [] then b != []
    else if b == [] then false
    else a[0] < b[0] || (a[0] == b[0] && StrLess(a[1..], b[1..]))
  }

  lemma {:induction false} StrLessTransitive(a: string, b: string, c: string)
    requires StrLess(a, b) && StrLess(b, c)
    ensures StrLess(a, c)
  {
    if a != [] && b != [] && c != [] && a[0] == b[0] && b[0] == c[0] {
      StrLessTransitive(a[1..], b[1..], c[1..]);
    }
  }

  lemma {:induction false} StrLessIrreflexive(a: string)
    ensures !StrLess(a, a)
  {
    if a != [] {
      StrLessIrreflexive(a[1..]);
    }
  }
}

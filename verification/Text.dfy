/** Character classes of the JavaScript regular expressions the sources use, and slices of text. */
module Text {

  /** The characters of `\s`, which are also the ones `trim` removes. */
  predicate IsSpace(c: char) {
    || '\t' <= c <= '\r' || c == ' ' || c == '\U{00a0}' || c == '\U{1680}'
    || '\U{2000}' <= c <= '\U{200a}' || c == '\U{2028}' || c == '\U{2029}'
    || c == '\U{202f}' || c == '\U{205f}' || c == '\U{3000}' || c == '\U{feff}'
  }

  /** The characters `.` does not match. */
  predicate IsLineTerminator(c: char) { c == '\n' || c == '\r' || c == '\U{2028}' || c == '\U{2029}' }

  /** Text without a line break. */
  predicate IsLine(s: string) { forall k :: 0 <= k < |s| ==> s[k] != '\n' }

  predicate IsLetter(c: char) { 'a' <= c <= 'z' || 'A' <= c <= 'Z' }

  predicate IsDigit(c: char) { '0' <= c <= '9' }

  /** The characters of `\w`. */
  predicate IsWord(c: char) { IsLetter(c) || IsDigit(c) || c == '_' }

  /** The characters of `[\w$]`. */
  predicate IsIdent(c: char) { IsWord(c) || c == '$' }

  /** The classes by code point. */
  lemma {:induction false} ClassesAre(c: char)
    ensures var n := c as int;
            && (IsSpace(c) <==> 9 <= n <= 13 || n in {32, 160, 5760, 8232, 8233, 8239, 8287, 12288, 65279} || 8192 <= n <= 8202)
            && (IsLineTerminator(c) <==> n in {10, 13, 8232, 8233})
            && (IsDigit(c) <==> 48 <= n <= 57)
            && (IsWord(c) <==> 48 <= n <= 57 || 65 <= n <= 90 || n == 95 || 97 <= n <= 122)
            && (IsIdent(c) <==> n == 36 || IsWord(c))
            && (IsLetter(c) <==> IsWord(c) && n > 57 && n != 95)
  {
  }

  function TrimStart(s: string): (r: string)
    ensures r != "" ==> !IsSpace(r[0])
  {
    if s != "" && IsSpace(s[0]) then TrimStart(s[1..]) else s
  }

  function TrimEnd(s: string): (r: string)
    ensures r <= s
    ensures r != "" ==> !IsSpace(r[|r| - 1])
  {
    if s != "" && IsSpace(s[|s| - 1]) then TrimEnd(s[..|s| - 1]) else s
  }

  /** `trim`. */
  function Trim(s: string): string { TrimEnd(TrimStart(s)) }

  /** Whether `s` holds `c` at `i`; false past the end, as reading past the end is. */
  predicate At(s: string, i: nat, c: char) { i < |s| && s[i] == c }

  /** `s1[lo..hi]` and `s2[lo + d..hi + d]` hold the same elements. */
  ghost predicate Agree<T(!new)>(s1: seq<T>, s2: seq<T>, d: int, lo: int, hi: int) {
    && 0 <= lo <= hi <= |s1|
    && 0 <= lo + d && hi + d <= |s2|
    && forall k {:trigger s1[k]} :: lo <= k < hi ==> s1[k] == s2[k + d]
  }

  lemma {:induction false} AgreePrefix<T(!new)>(s1: seq<T>, s2: seq<T>, p: nat)
    requires p <= |s1| && p <= |s2| && s1[..p] == s2[..p]
    ensures Agree(s1, s2, 0, 0, p)
  {
    forall k {:trigger s1[k]} | 0 <= k < p ensures s1[k] == s2[k] { assert s1[..p][k] == s2[..p][k]; }
  }

  lemma {:induction false} AgreeAt<T(!new)>(s1: seq<T>, s2: seq<T>, d: int, lo: int, hi: int, k: int)
    requires Agree(s1, s2, d, lo, hi) && lo <= k < hi
    ensures s1[k] == s2[k + d]
  {
  }

  lemma {:induction false} AgreeBounds<T(!new)>(s1: seq<T>, s2: seq<T>, d: int, lo: int, hi: int)
    requires Agree(s1, s2, d, lo, hi)
    ensures 0 <= lo <= hi <= |s1| && 0 <= lo + d && hi + d <= |s2|
  {
  }

  lemma {:induction false} SliceShift(s1: string, s2: string, d: int, lo: nat, hi: nat, from: nat, till: nat)
    requires Agree(s1, s2, d, lo, hi) && lo <= from <= till <= hi
    ensures s1[from..till] == s2[from + d..till + d]
  {
  }

  lemma {:induction false} AgreePart<T(!new)>(s1: seq<T>, s2: seq<T>, d: int, lo: int, hi: int, lo': int, hi': int)
    requires Agree(s1, s2, d, lo, hi) && lo <= lo' <= hi' <= hi
    ensures Agree(s1, s2, d, lo', hi')
  {
  }

  lemma {:induction false} AgreeTrans<T(!new)>(s1: seq<T>, s2: seq<T>, s3: seq<T>, d: int, e: int, lo: int, hi: int)
    requires Agree(s1, s2, d, lo, hi) && Agree(s2, s3, e, lo + d, hi + d)
    ensures Agree(s1, s3, d + e, lo, hi)
  {
    forall k {:trigger s1[k]} | lo <= k < hi ensures s1[k] == s3[k + d + e] { assert s1[k] == s2[k + d]; }
  }

  lemma {:induction false} AgreeJoin<T(!new)>(s1: seq<T>, s2: seq<T>, d: int, lo: int, mid: int, hi: int)
    requires Agree(s1, s2, d, lo, mid) && Agree(s1, s2, d, mid, hi)
    ensures Agree(s1, s2, d, lo, hi)
  {
  }

  lemma {:induction false} AgreeIntro<T(!new)>(s1: seq<T>, s2: seq<T>, d: int, lo: int, hi: int)
    requires 0 <= lo <= hi <= |s1| && 0 <= lo + d && hi + d <= |s2|
    requires forall k {:trigger s1[k]} :: lo <= k < hi ==> s1[k] == s2[k + d]
    ensures Agree(s1, s2, d, lo, hi)
  {
  }

  lemma {:induction false} AgreeNothing<T(!new)>(s1: seq<T>, s2: seq<T>, d: int, lo: int)
    requires 0 <= lo <= |s1| && 0 <= lo + d <= |s2|
    ensures Agree(s1, s2, d, lo, lo)
  {
  }

  lemma {:induction false} AgreeOne<T(!new)>(s1: seq<T>, s2: seq<T>, d: int, lo: int, hi: int)
    requires Agree(s1, s2, d, lo, hi) && hi < |s1| && hi + d < |s2| && s1[hi] == s2[hi + d]
    ensures Agree(s1, s2, d, lo, hi + 1)
  {
  }

  /** Where the parts of a concatenation stand. */
  lemma {:induction false} AgreeConcat<T(!new)>(a: seq<T>, b: seq<T>)
    ensures Agree(a, a + b, 0, 0, |a|) && Agree(b, a + b, |a|, 0, |b|)
  {
  }

  /** A part stays where it is when more is appended. */
  lemma {:induction false} AgreeAppend<T(!new)>(x: seq<T>, a: seq<T>, b: seq<T>, d: int, lo: int, hi: int)
    requires Agree(x, a, d, lo, hi)
    ensures Agree(x, a + b, d, lo, hi)
  {
  }

  /** A slice standing at `c` is that stretch of the text, moved. */
  lemma {:induction false} AgreeOfSlice<T(!new)>(s: seq<T>, s2: seq<T>, lo: int, hi: int, c: int)
    requires 0 <= lo <= hi <= |s| && Agree(s[lo..hi], s2, c, 0, hi - lo)
    ensures Agree(s, s2, c - lo, lo, hi)
  {
    forall k {:trigger s[k]} | lo <= k < hi ensures s[k] == s2[k + c - lo] { assert s[lo..hi][k - lo] == s[k]; }
  }
}

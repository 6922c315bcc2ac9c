/**
 * Replacing a word inside an entry's value, read back: the same entries, that one with the new
 * word in its text.
 */
module ConfigReplace {
  import opened Wrappers
  import opened Text
  import opened SourceLexer
  import opened LexerTokens
  import opened LexerShift
  import opened LexerSplice
  import opened ObjectScan
  import opened ObjectShift
  import opened ScanSplice
  import opened ConfigSplice
  import opened ConfigAppend

  // ---------------------------------------------------------------------------
  // Words in values
  // ---------------------------------------------------------------------------

  ghost predicate AllIdent(s: string, lo: nat, hi: nat) {
    hi <= |s| && forall k :: lo <= k < hi ==> IsIdent(s[k])
  }

  ghost predicate AllCode(kinds: seq<Kind>, lo: nat, hi: nat) {
    hi <= |kinds| && forall k :: lo <= k < hi ==> kinds[k] == Code
  }

  /** After a code character, trivia is not part of a literal. */
  lemma {:induction false} NoLiteralAfter(s: string, kinds: seq<Kind>, p: nat, q: nat)
    requires Labelled(s, kinds) && p < q <= |s| && kinds[p] == Code && AllTrivia(s, kinds, p + 1, q)
    ensures kinds[q - 1] != Literal
    decreases q
  {
    hide Lex, RunTo;
    if p + 1 < q {
      assert IsTrivia(s, kinds, q - 1);
      NoLiteralAfter(s, kinds, p, q - 1);
      if kinds[q - 1] == Literal {
        LexedFromStart(s, kinds);
        LiteralSpace(s, Start, kinds, q - 1);
      }
    }
  }

  /** A word that starts where a token may start is code. */
  lemma {:induction false} WordIsCode(s: string, kinds: seq<Kind>, lo: nat, hi: nat)
    requires Labelled(s, kinds) && lo <= hi && AllIdent(s, lo, hi) && Boundary(s, kinds, lo)
    ensures AllCode(kinds, lo, hi) && Boundary(s, kinds, hi)
    decreases hi - lo
  {
    hide Lex, RunTo;
    if lo < hi {
      assert IsIdent(s[lo]);
      BoundaryGoesOn(s, kinds, lo);
      var e := NextToken(s, TopLevel(kinds, lo), kinds);
      CodeIsTopLevel(s, kinds, lo);
      WordIsCode(s, kinds, lo + 1, hi);
    }
  }

  /** The value of a keyed entry starts a token, behind its colon and trivia. */
  lemma {:induction false} ValueStarts(s: string, kinds: seq<Kind>, start: nat, end: nat) returns (colon: nat)
    requires Labelled(s, kinds) && start < end <= |s|
    requires var e := EntryAt(s, kinds, start, end); e.keyed && e.valueStart < end
    ensures var vs := EntryAt(s, kinds, start, end).valueStart;
            && start < colon < vs && s[colon] == ':' && kinds[colon] == Code && AllTrivia(s, kinds, colon + 1, vs)
            && Boundary(s, kinds, vs) && !IsIdent(s[vs - 1]) && !IsTrivia(s, kinds, vs)
            && kinds[vs - 1] != Literal && (kinds[vs - 1] == Code ==> s[vs - 1] != '/')
  {
    hide Lex, RunTo, ReadKey, Boundary;
    colon := SkipTrivia(s, kinds, ReadKey(s, kinds, start, end).value.1, end);
    var vs := SkipTrivia(s, kinds, colon + 1, end);
    NoLiteralAfter(s, kinds, colon, vs);
    assert vs > colon + 1 ==> IsTrivia(s, kinds, vs - 1);
    if kinds[vs] == Code || kinds[vs] != kinds[vs - 1] { TokenBoundaryHere(s, kinds, vs); }
    if IsIdent(s[vs - 1]) {
      assert kinds[vs - 1] == Comment;
      CommentEnds(s, kinds, vs);
    }
  }

  /** A comment does not end with an identifier character unless a newline follows. */
  lemma {:induction false} CommentEnds(s: string, kinds: seq<Kind>, p: nat)
    requires Labelled(s, kinds) && 0 < p < |s| && kinds[p - 1] == Comment && kinds[p] != Comment
    ensures s[p - 1] == '/' || IsSpace(s[p])
  {
    hide Lex, RunTo;
    LexedFromStart(s, kinds);
    CommentEndsFrom(s, Start, kinds, p);
  }

  lemma {:induction false} CommentEndsFrom(s: string, st: LexState, kinds: seq<Kind>, p: nat)
    requires Reaches(s, st, kinds) && st.stack == [] && |st.kinds| < p < |s| && kinds[p - 1] == Comment && kinds[p] != Comment
    ensures s[p - 1] == '/' || IsSpace(s[p])
    decreases |s| - |st.kinds|
  {
    hide Step, RunTo;
    if kinds[|st.kinds|] == Comment {
      CommentTokenEnds(s, st, kinds);
      var next := Step(s, st).value;
      if |next.kinds| < p {
        StepAfterRun(s, st, |s|);
        CommentEndsFrom(s, next, kinds, p);
      }
    } else {
      var e := NextToken(s, st, kinds);
      CommentEndsFrom(s, TopLevel(kinds, e), kinds, p);
    }
  }

  /** Where a comment token ends: behind its terminator, at a newline, or with the text. */
  lemma {:induction false} CommentTokenEnds(s: string, st: LexState, kinds: seq<Kind>)
    requires Reaches(s, st, kinds) && st.stack == [] && |st.kinds| < |s| && kinds[|st.kinds|] == Comment
    ensures Step(s, st).Success?
    ensures var next := Step(s, st).value;
            var e := |next.kinds|;
            && next.stack == [] && kinds[..e] == next.kinds
            && (forall k :: |st.kinds| <= k < e ==> kinds[k] == Comment)
            && (s[e - 1] == '/' || e == |s| || s[e] == '\n')
  {
    hide LineEnd, BlockEnd, StringEnd, RegexEnd, FlagsEnd, TemplateEnd, OpensRegex, RunTo;
    StepAfterRun(s, st, |s|);
    var next := Step(s, st).value;
    RunSettles(s, next, |s|);
    StepOutside(s, st);
    var i := |st.kinds|;
    assert i < Settled(next);
    assert kinds[i] == next.kinds[i] by { assert kinds[..Settled(next)][i] == next.kinds[..Settled(next)][i]; }
    forall k | i <= k < |next.kinds| ensures kinds[k] == Comment { assert kinds[..|next.kinds|][k] == next.kinds[k]; }
  }

  // ---------------------------------------------------------------------------
  // The word replaced
  // ---------------------------------------------------------------------------

  /** `s2` is `s1` with the word `[a, b)` replaced by another one, which ends at `b2`. */
  ghost predicate Replaced(s1: string, a: nat, b: nat, s2: string, b2: nat) {
    && 0 < a < b < |s1| && a < b2 && |s2| == |s1| + b2 - b
    && Agree(s1, s2, 0, 0, a) && Agree(s1, s2, b2 - b, b, |s1|)
    && AllIdent(s1, a, b) && AllIdent(s2, a, b2) && !IsIdent(s1[a - 1]) && !IsIdent(s1[b])
    && s1[a..b] !in RegexKeywords && s2[a..b2] !in RegexKeywords
  }

  lemma {:induction false} ReplacedWords(s1: string, a: nat, b: nat, s2: string, b2: nat, d: int)
    requires Replaced(s1, a, b, s2, b2) && b2 == b + d
    ensures 0 < a < b < |s1| && a < b2 && |s2| == |s1| + d
    ensures Agree(s1, s2, 0, 0, a) && Agree(s1, s2, d, b, |s1|) && AllIdent(s1, a, b) && AllIdent(s2, a, b2)
  {
  }

  lemma {:induction false} ReadsWord(s2: string, pre: seq<Kind>, q: nat) returns (mid: seq<Kind>)
    requires |pre| <= q && AllIdent(s2, |pre|, q)
    ensures ReadsOn(s2, pre, mid) && |mid| == q && AllCode(mid, |pre|, q)
    decreases q - |pre|
  {
    hide Step, RunTo;
    if |pre| == q {
      mid := pre;
      ReadsNothing(s2, pre);
    } else {
      assert IsIdent(s2[|pre|]);
      ReadsChar(s2, pre);
      mid := ReadsWord(s2, pre + [Code], q);
      ReadsOnTrans(s2, pre, pre + [Code], mid);
      AgreeAt(pre + [Code], mid, 0, 0, |pre| + 1, |pre|);
    }
  }

  /** After a word that is no keyword, a `/` divides. */
  lemma {:induction false} WordDivides(s: string, kinds: seq<Kind>, a: nat, b: nat)
    requires 0 < a < b <= |s| && b <= |kinds| && AllIdent(s, a, b) && AllCode(kinds, a, b) && !IsIdent(s[a - 1])
    requires s[a..b] !in RegexKeywords
    ensures !OpensRegex(s, kinds, b)
  {
    assert IsIdent(s[b - 1]) && kinds[b - 1] == Code;
    assert SignificantEnd(s, kinds, b) == b;
    WordStartIs(s, a, b);
  }

  lemma {:induction false} WordStartIs(s: string, a: nat, b: nat)
    requires 0 < a <= b <= |s| && AllIdent(s, a, b) && !IsIdent(s[a - 1])
    ensures WordStart(s, b) == a
    decreases b
  {
    if a < b {
      assert IsIdent(s[b - 1]);
      WordStartIs(s, a, b - 1);
    }
  }

  lemma {:induction false} ReplaceLabels(s1: string, k1: seq<Kind>, a: nat, b: nat, s2: string, b2: nat) returns (k2: seq<Kind>)
    requires Labelled(s1, k1) && Replaced(s1, a, b, s2, b2) && Boundary(s1, k1, a)
    requires k1[a - 1] == Code ==> s1[a - 1] != '/'
    requires k1[a - 1] != Literal
    ensures Labelled(s2, k2) && |k2| == |s2| && AllCode(k1, a, b) && AllCode(k2, a, b2)
    ensures Agree(k1, k2, 0, 0, a) && Agree(k1, k2, b2 - b, b, |s1|)
  {
    hide RunTo, Lex, Boundary, Agree, OpensRegex;
    var d := b2 - b;
    WordIsCode(s1, k1, a, b);
    var pre := TopLevel(k1, a).kinds;
    AgreePrefix(k1, pre, a);
    var mid := ReadsWord(s2, pre, b2);
    AgreeAt(s1, s2, 0, 0, a, a - 1);
    AgreeAt(s1, s2, d, b, |s1|, b);
    WordDivides(s1, k1, a, b);
    WordDivides(s2, mid, a, b2);
    assert SameLeft(s1, k1, s2, mid, b, d);
    assert IsIdent(s1[a]);
    k2 := SpliceLabels(s1, k1, a, b, s2, mid);
    ReadsOnTo(s2, pre, mid, k2);
    AgreeTrans(k1, pre, k2, 0, 0, 0, a);
    forall k | a <= k < b2 ensures k2[k] == Code { AgreeAt(mid, k2, 0, 0, b2, k); }
  }

  // ---------------------------------------------------------------------------
  // The object read back
  // ---------------------------------------------------------------------------

  /** A stretch without separators is scanned the same wherever it stands. */
  lemma {:induction false} SegmentShift(s1: string, k1: seq<Kind>, s2: string, k2: seq<Kind>, d: int, i: nat, till: nat,
                                        st1: ScanState, st2: ScanState, depth: nat)
    requires |s1| == |k1| && |s2| == |k2| && st1.entryStart <= i <= till && Same(s1, k1, s2, k2, d, i, till)
    requires ScanTo(s1, k1, i, st1, till) == Running(st1.(depth := depth))
    requires st2.depth == st1.depth && st2.entryStart <= i + d
    ensures ScanTo(s2, k2, i + d, st2, till + d) == Running(st2.(depth := depth))
    decreases till - i
  {
    hide ReadEntry;
    if i < till {
      assert s1[i] == s2[i + d] && k1[i] == k2[i + d];
      var r := ScanStep(s1, k1, i, st1);
      ScanGrows(s1, k1, i + 1, r.state, till);
      SegmentShift(s1, k1, s2, k2, d, i + 1, till, r.state, ScanStep(s2, k2, i + d, st2).state, depth);
    }
  }

  lemma {:induction false} ScanGrows(s: string, kinds: seq<Kind>, i: nat, st: ScanState, till: nat)
    requires i <= till <= |s| == |kinds| && st.entryStart <= i
    ensures var r := ScanTo(s, kinds, i, st, till); r.Running? ==> st.entryStart <= r.state.entryStart
  {
    hide ScanTo;
  }

  /** A word opens and closes nothing. */
  lemma {:induction false} ScanWord(s: string, kinds: seq<Kind>, i: nat, st: ScanState, till: nat)
    requires i <= till <= |s| == |kinds| && st.entryStart <= i && AllIdent(s, i, till)
    ensures ScanTo(s, kinds, i, st, till) == Running(st)
    decreases till - i
  {
    hide ReadEntry;
    if i < till {
      assert IsIdent(s[i]);
      ScanWord(s, kinds, i + 1, st, till);
    }
  }

  /** Within a segment the scan has added no entry. */
  lemma {:induction false} SegmentState(s: string, kinds: seq<Kind>, m: nat, acc: seq<ObjectEntry>, a: nat, c: nat) returns (depth: nat)
    requires m <= a <= c <= |s| == |kinds| && ScanTo(s, kinds, m, ScanState(0, m, acc), c) == Running(ScanState(0, m, acc))
    ensures ScanTo(s, kinds, m, ScanState(0, m, acc), a) == Running(ScanState(depth, m, acc))
    ensures ScanTo(s, kinds, a, ScanState(depth, m, acc), c) == Running(ScanState(0, m, acc))
  {
    hide ScanTo;
    var st := ScanState(0, m, acc);
    ScanCompose(s, kinds, m, st, a, c);
    var r := ScanTo(s, kinds, m, st, a);
    ScanExtends(s, kinds, m, st, a);
    ScanExtends(s, kinds, a, r.state, c);
    ScanGrows(s, kinds, m, st, a);
    ScanGrows(s, kinds, a, r.state, c);
    depth := r.state.depth;
  }

  function Grow(e: ObjectEntry, d: int): ObjectEntry {
    e.(end := e.end + d, valueEnd := e.valueEnd + d)
  }

  /** Where an entry's key ends and its colon stands. */
  function ColonOf(s: string, kinds: seq<Kind>, start: nat, end: nat): nat
    requires start < end <= |s| && end <= |kinds| && EntryAt(s, kinds, start, end).keyed
  {
    SkipTrivia(s, kinds, ReadKey(s, kinds, start, end).value.1, end)
  }

  /** An entry whose text changed inside its value is the same entry, ending elsewhere. */
  lemma {:induction false} EntryAtGrown(s1: string, k1: seq<Kind>, s2: string, k2: seq<Kind>, start: nat, end: nat, a: nat, d: int)
    requires |s1| == |k1| && |s2| == |k2| && start < end <= |s1| && a < end + d <= |s2|
    requires EntryAt(s1, k1, start, end).keyed && EntryAt(s1, k1, start, end).valueStart <= a <= end
    requires Same(s1, k1, s2, k2, 0, 0, a) && !IsTrivia(s2, k2, a)
    requires a < end && !IsTrivia(s1, k1, a)
    ensures EntryAt(s2, k2, start, end + d) == Grow(EntryAt(s1, k1, start, end), d)
  {
    hide SkipTrivia, ReadKey, Agree;
    var key := ReadKey(s1, k1, start, end).value;
    var colon := ColonOf(s1, k1, start, end);
    var vs := SkipTrivia(s1, k1, colon + 1, end);
    AgreeAt(s1, s2, 0, 0, a, colon);
    AgreeAt(k1, k2, 0, 0, a, colon);
    AgreePart(s1, s2, 0, 0, a, 0, colon + 1);
    AgreePart(k1, k2, 0, 0, a, 0, colon + 1);
    ReadKeyGrown(s1, k1, s2, k2, start, end, colon, end + d);
    SkipGrown(s1, k1, s2, k2, key.1, colon, end + d, a);
    if vs < a {
      SkipGrown(s1, k1, s2, k2, colon + 1, vs, end + d, a);
    } else {
      TriviaUnmoved(s1, k1, s2, k2, colon + 1, vs, a);
      SkipTriviaStop(s2, k2, colon + 1, vs, end + d);
    }
  }

  lemma {:induction false} TriviaUnmoved(s1: string, k1: seq<Kind>, s2: string, k2: seq<Kind>, lo: nat, hi: nat, a: nat)
    requires AllTrivia(s1, k1, lo, hi) && hi <= a && Same(s1, k1, s2, k2, 0, 0, a)
    ensures AllTrivia(s2, k2, lo, hi)
  {
    forall k | lo <= k < hi ensures IsTrivia(s2, k2, k) {
      assert IsTrivia(s1, k1, k);
      assert s1[k] == s2[k] && k1[k] == k2[k];
    }
  }

  lemma {:induction false} SkipGrown(s1: string, k1: seq<Kind>, s2: string, k2: seq<Kind>, from: nat, i: nat, till2: nat, a: nat)
    requires |s1| == |k1| && |s2| == |k2| && from <= i < a <= till2 <= |s2| && Same(s1, k1, s2, k2, 0, 0, a)
    requires AllTrivia(s1, k1, from, i) && !IsTrivia(s1, k1, i)
    ensures SkipTrivia(s2, k2, from, till2) == i
  {
    TriviaUnmoved(s1, k1, s2, k2, from, i, a);
    assert s1[i] == s2[i] && k1[i] == k2[i];
    SkipTriviaStop(s2, k2, from, i, till2);
  }

  /** A key ends before the colon, whatever follows that. */
  lemma {:induction false} ReadKeyGrown(s1: string, k1: seq<Kind>, s2: string, k2: seq<Kind>, start: nat, end: nat, colon: nat, end2: nat)
    requires |s1| == |k1| && |s2| == |k2| && start < end <= |s1| && ReadKey(s1, k1, start, end).Some?
    requires ReadKey(s1, k1, start, end).value.1 <= colon < end && colon < end2 <= |s2|
    requires Same(s1, k1, s2, k2, 0, 0, colon + 1) && s1[colon] == ':' && k1[colon] == Code
    ensures ReadKey(s2, k2, start, end2) == ReadKey(s1, k1, start, end)
  {
    hide LiteralEnd, IdentEnd;
    assert s1[start] == s2[start] && k1[start] == k2[start];
    var key := ReadKey(s1, k1, start, end).value;
    assert s2[colon] == ':' && k2[colon] == Code;
    if k1[start] == Literal {
      LiteralEndGrown(k1, k2, start, key.1, end2, colon);
      if key.1 >= start + 2 { SliceShift(s1, s2, 0, 0, colon + 1, start + 1, key.1 - 1); }
    } else {
      IdentEndGrown(s1, s2, start, key.1, end2, colon);
      SliceShift(s1, s2, 0, 0, colon + 1, start, key.1);
    }
  }

  lemma {:induction false} LiteralEndGrown(k1: seq<Kind>, k2: seq<Kind>, i: nat, e: nat, till2: nat, colon: nat)
    requires i <= e <= colon < till2 <= |k2| && Agree(k1, k2, 0, 0, colon + 1) && k1[e] != Literal
    requires forall k :: i <= k < e ==> k1[k] == Literal
    ensures LiteralEnd(k2, i, till2) == e
    decreases e - i
  {
    assert k1[i] == k2[i];
    if i < e { LiteralEndGrown(k1, k2, i + 1, e, till2, colon); }
  }

  lemma {:induction false} IdentEndGrown(s1: string, s2: string, i: nat, e: nat, till2: nat, colon: nat)
    requires i <= e <= colon < till2 <= |s2| && Agree(s1, s2, 0, 0, colon + 1) && !IsIdent(s1[e])
    requires forall k :: i <= k < e ==> IsIdent(s1[k])
    ensures IdentEnd(s2, i, till2) == e
    decreases e - i
  {
    assert s1[i] == s2[i];
    if i < e { IdentEndGrown(s1, s2, i + 1, e, till2, colon); }
  }

  lemma {:induction false} ReadGrown(s1: string, k1: seq<Kind>, s2: string, k2: seq<Kind>, m: nat, c: nat, a: nat, b: nat,
                                     d: int, b2: nat, c2: nat)
    requires |s1| == |k1| && |s2| == |k2| == |s1| + d && m < a < b <= c <= |s1| && a < b2 && b2 == b + d && c2 == c + d
    requires ReadEntry(s1, k1, m, c).Some?
    requires var e := ReadEntry(s1, k1, m, c).value; e.keyed && e.valueStart <= a && b <= e.end
    requires Same(s1, k1, s2, k2, 0, 0, a) && Same(s1, k1, s2, k2, d, b, |s1|)
    requires !IsTrivia(s1, k1, a) && !IsTrivia(s2, k2, a) && !IsTrivia(s2, k2, b2 - 1)
    ensures m <= c2 && ReadEntry(s2, k2, m, c2) == Some(Grow(ReadEntry(s1, k1, m, c).value, d))
  {
    hide SkipTrivia, TrimTriviaEnd, EntryAt, Agree;
    var e := ReadEntry(s1, k1, m, c).value;
    EntryAtGrown(s1, k1, s2, k2, e.start, e.end, a, d);
    TriviaUnmoved(s1, k1, s2, k2, m, e.start, a);
    AgreeAt(s1, s2, 0, 0, a, e.start);
    AgreeAt(k1, k2, 0, 0, a, e.start);
    SkipTriviaStop(s2, k2, m, e.start, c2);
    AgreePart(s1, s2, d, b, |s1|, e.end, c);
    AgreePart(k1, k2, d, b, |s1|, e.end, c);
    TriviaMoved(s1, k1, s2, k2, d, e.end, c);
    if b < e.end {
      AgreeAt(s1, s2, d, b, |s1|, e.end - 1);
      AgreeAt(k1, k2, d, b, |s1|, e.end - 1);
    }
    TrimTriviaEndTill(s2, k2, e.start, e.end + d, c2);
    TrimNothing(s2, k2, e.start, e.end + d);
  }

  lemma {:induction false} TrimNothing(s: string, kinds: seq<Kind>, from: nat, till: nat)
    requires from < till <= |s| && till <= |kinds| && !IsTrivia(s, kinds, till - 1)
    ensures TrimTriviaEnd(s, kinds, from, till) == till
  {
  }

  /** The segment of the changed entry is scanned through without nesting or separators, as before. */
  lemma {:induction false} SegmentReplaced(s1: string, k1: seq<Kind>, m: nat, acc: seq<ObjectEntry>, c: nat, a: nat, b: nat,
                                           s2: string, k2: seq<Kind>, d: int, b2: nat, c2: nat)
    requires |s1| == |k1| && |s2| == |k2| == |s1| + d && m <= a < b <= c <= |s1| && a < b2 && b2 == b + d && c2 == c + d
    requires ScanTo(s1, k1, m, ScanState(0, m, acc), c) == Running(ScanState(0, m, acc))
    requires Same(s1, k1, s2, k2, 0, m, a) && Same(s1, k1, s2, k2, d, b, c) && AllIdent(s1, a, b) && AllIdent(s2, a, b2)
    ensures ScanTo(s2, k2, m, ScanState(0, m, acc), c2) == Running(ScanState(0, m, acc))
  {
    hide ScanTo, Agree, AllIdent;
    var depth := SegmentState(s1, k1, m, acc, a, c);
    var st := ScanState(depth, m, acc);
    ScanSame(s1, k1, s2, k2, m, ScanState(0, m, acc), a);
    ScanWord(s1, k1, a, st, b);
    ScanWord(s2, k2, a, st, b2);
    ScanCompose(s1, k1, a, st, b, c);
    SegmentShift(s1, k1, s2, k2, d, b, c, st, st, 0);
    ScanCompose(s2, k2, m, ScanState(0, m, acc), a, c2);
    ScanCompose(s2, k2, a, st, b2, c2);
  }

  /** Where the segment of an entry begins and ends, and how the scan passes through it. */
  ghost predicate SegmentOf(s: string, kinds: seq<Kind>, scan: ObjectScan, j: nat, m: nat, c: nat) {
    && j < |scan.entries| && scan.open < m <= c <= scan.close < |s| == |kinds|
    && ReadUpTo(s, kinds, scan.open, m, scan.entries[..j])
    && ScanTo(s, kinds, m, ScanState(0, m, scan.entries[..j]), |s|) == Complete(scan.close, scan.entries)
    && ScanTo(s, kinds, m, ScanState(0, m, scan.entries[..j]), c) == Running(ScanState(0, m, scan.entries[..j]))
    && ReadEntry(s, kinds, m, c) == Some(scan.entries[j])
    && (c < scan.close ==>
          && IsCodeComma(s, kinds, c)
          && ScanTo(s, kinds, c + 1, ScanState(0, c + 1, scan.entries[..j] + [scan.entries[j]]), |s|) == Complete(scan.close, scan.entries))
    && (c == scan.close ==> scan.entries == scan.entries[..j] + [scan.entries[j]] && kinds[c] == Code && s[c] == '}')
  }

  lemma {:induction false} EntryPoint(s: string, kinds: seq<Kind>, scan: ObjectScan, j: nat) returns (m: nat, c: nat)
    requires |s| == |kinds| && ScanObject(s, kinds, scan.open) == Success(scan) && j < |scan.entries|
    ensures SegmentOf(s, kinds, scan, j, m, c)
  {
    hide ScanTo, ReadEntry, AllTrivia;
    ScanObjectWithin(s, kinds, scan.open);
    ScanObjectCloses(s, kinds, scan);
    m := EntryOrigin(s, kinds, scan.open + 1, ScanState(0, scan.open + 1, []), |s|, j);
    if m == scan.open + 1 { ScanNothing(s, kinds, scan.open); }
    AllTriviaNothing(s, kinds, m);
    ScanGoesOn(s, kinds, scan, m, m, scan.entries[..j]);
    c := EntrySegment(s, kinds, m, scan.entries[..j]);
  }

  ghost predicate ReplacedEntries(scan: ObjectScan, j: nat, d: int, entries: seq<ObjectEntry>) {
    && j < |scan.entries|
    && entries == scan.entries[..j] + [Grow(scan.entries[j], d)] + MoveAll(scan.entries[j + 1..], d)
  }

  /** The segment of the changed entry: read as the entry grown, and scanned through as before. */
  lemma {:induction false} EntryReplaced(s1: string, k1: seq<Kind>, m: nat, acc: seq<ObjectEntry>, c: nat, e: ObjectEntry, a: nat, b: nat,
                                         s2: string, k2: seq<Kind>, d: int, b2: nat, c2: nat)
    requires |s1| == |k1| && |s2| == |k2| && m <= c <= |s1| && b2 == b + d && c2 == c + d && ReadEntry(s1, k1, m, c) == Some(e)
    requires ScanTo(s1, k1, m, ScanState(0, m, acc), c) == Running(ScanState(0, m, acc))
    requires e.keyed && e.valueStart <= a && b <= e.end
    requires Replaced(s1, a, b, s2, b2) && Agree(k1, k2, 0, 0, a) && Agree(k1, k2, d, b, |s1|)
    requires AllCode(k1, a, b) && AllCode(k2, a, b2)
    ensures m < a < b <= c && m <= c2 <= |s2|
    ensures ReadEntry(s2, k2, m, c2) == Some(Grow(e, d))
    ensures ScanTo(s2, k2, m, ScanState(0, m, acc), c2) == Running(ScanState(0, m, acc))
  {
    hide ScanTo, ReadEntry, AllTrivia, Agree, AllIdent, AllCode, IsTrivia, Replaced;
    ReplacedWords(s1, a, b, s2, b2, d);
    ReadEntryStarts(s1, k1, m, c, e);
    WordsAreNotTrivia(s1, k1, a, b);
    WordsAreNotTrivia(s2, k2, a, b2);
    ReadGrown(s1, k1, s2, k2, m, c, a, b, d, b2, c2);
    AgreePart(s1, s2, 0, 0, a, m, a);
    AgreePart(k1, k2, 0, 0, a, m, a);
    AgreePart(s1, s2, d, b, |s1|, b, c);
    AgreePart(k1, k2, d, b, |s1|, b, c);
    SegmentReplaced(s1, k1, m, acc, c, a, b, s2, k2, d, b2, c2);
  }

  /** The changed file, scanned from the segment of the changed entry on. */
  lemma {:induction false} ReplacedFrom(s1: string, k1: seq<Kind>, scan: ObjectScan, j: nat, m: nat, c: nat, a: nat, b: nat,
                                        s2: string, k2: seq<Kind>, d: int, b2: nat)
    requires |s1| == |k1| && |s2| == |k2| && b2 == b + d && SegmentOf(s1, k1, scan, j, m, c)
    requires var e := scan.entries[j]; e.keyed && e.valueStart <= a && b <= e.end
    requires Replaced(s1, a, b, s2, b2) && Agree(k1, k2, 0, 0, a) && Agree(k1, k2, d, b, |s1|)
    requires AllCode(k1, a, b) && AllCode(k2, a, b2)
    ensures m <= a
    ensures var r := ScanTo(s2, k2, m, ScanState(0, m, scan.entries[..j]), |s2|);
            r.Complete? && r.close == scan.close + d && ReplacedEntries(scan, j, d, r.entries)
  {
    hide ScanTo, ReadEntry, Agree, AllIdent, AllCode, ReadUpTo, IsCodeComma, MoveAll, Replaced;
    ReplacedWords(s1, a, b, s2, b2, d);
    var c2, acc := c + d, scan.entries[..j];
    EntryReplaced(s1, k1, m, acc, c, scan.entries[j], a, b, s2, k2, d, b2, c2);
    ReplacedTail(s1, k1, scan, j, m, c, s2, k2, d, acc, b, c2);
    ScanCompose(s2, k2, m, ScanState(0, m, acc), c2, |s2|);
  }

  /**
   * An object literal whose `j`-th entry has a word of its value replaced is read as the same
   * object: that entry ends elsewhere, the ones after it moved, nothing else changed.
   */
  lemma {:induction false} ReplaceReadsBack(s1: string, k1: seq<Kind>, scan: ObjectScan, j: nat, a: nat, b: nat,
                                            s2: string, k2: seq<Kind>, d: int, b2: nat)
    returns (entries: seq<ObjectEntry>)
    requires |s1| == |k1| && |s2| == |k2| && b2 == b + d && ScanObject(s1, k1, scan.open) == Success(scan) && j < |scan.entries|
    requires var e := scan.entries[j]; e.keyed && e.valueStart <= a && b <= e.end <= scan.close
    requires Replaced(s1, a, b, s2, b2) && Agree(k1, k2, 0, 0, a) && Agree(k1, k2, d, b, |s1|)
    requires AllCode(k1, a, b) && AllCode(k2, a, b2)
    ensures ScanObject(s2, k2, scan.open) == Success(ObjectScan(scan.open, scan.close + d, entries))
    ensures ReplacedEntries(scan, j, d, entries)
  {
    hide ScanTo, ReadEntry, AllTrivia, Agree, AllIdent, AllCode, ReadUpTo, ReplacedEntries, Replaced;
    ReplacedWords(s1, a, b, s2, b2, d);
    var open, acc := scan.open, scan.entries[..j];
    var m, c := EntryPoint(s1, k1, scan, j);
    ReplacedFrom(s1, k1, scan, j, m, c, a, b, s2, k2, d, b2);
    entries := ScanTo(s2, k2, m, ScanState(0, m, acc), |s2|).entries;
    ReadUpToAfter(s1, k1, open, m, acc);
    AgreePart(s1, s2, 0, 0, a, 0, m);
    AgreePart(k1, k2, 0, 0, a, 0, m);
    ReadUpToSame(s1, k1, s2, k2, open, m, acc);
    AllTriviaNothing(s2, k2, m);
    ScanObjectCloses(s1, k1, scan);
    AgreeAt(s1, s2, 0, 0, a, open);
    AgreeAt(k1, k2, 0, 0, a, open);
    ScanEnds(s2, k2, open, m, m, acc);
  }

  lemma {:induction false} ReadUpToAfter(s: string, kinds: seq<Kind>, open: nat, m: nat, acc: seq<ObjectEntry>)
    requires ReadUpTo(s, kinds, open, m, acc)
    ensures open < m <= |s|
  {
  }

  lemma {:induction false} ReadEntryStarts(s: string, kinds: seq<Kind>, m: nat, c: nat, e: ObjectEntry)
    requires m <= c <= |s| && c <= |kinds| && ReadEntry(s, kinds, m, c) == Some(e)
    ensures m <= e.start < e.valueStart <= e.valueEnd == e.end <= c
  {
    hide ReadEntry, EntryAt;
  }

  lemma {:induction false} ReadEntryIs(s: string, kinds: seq<Kind>, m: nat, c: nat, e: ObjectEntry)
    requires m <= c <= |s| && c <= |kinds| && ReadEntry(s, kinds, m, c) == Some(e)
    ensures 0 <= e.start < e.end <= |s| && e.end <= |kinds| && e == EntryAt(s, kinds, e.start, e.end)
    ensures !IsTrivia(s, kinds, e.start)
  {
    hide ReadEntry, EntryAt;
  }

  lemma {:induction false} WordsAreNotTrivia(s: string, kinds: seq<Kind>, a: nat, b: nat)
    requires a < b && AllIdent(s, a, b) && AllCode(kinds, a, b)
    ensures !IsTrivia(s, kinds, a) && !IsTrivia(s, kinds, b - 1)
  {
    assert IsIdent(s[a]) && IsIdent(s[b - 1]) && kinds[a] == Code && kinds[b - 1] == Code;
  }

  /** From the separator after the changed entry on. */
  lemma {:induction false} ReplacedTail(s1: string, k1: seq<Kind>, scan: ObjectScan, j: nat, m: nat, c: nat,
                                        s2: string, k2: seq<Kind>, d: int, acc: seq<ObjectEntry>, b: nat, c2: nat)
    requires |s1| == |k1| && |s2| == |k2| == |s1| + d && j < |scan.entries| && acc == scan.entries[..j]
    requires m <= c <= scan.close < |s1| && b <= c && m <= c2 == c + d && Same(s1, k1, s2, k2, d, b, |s1|)
    requires ScanTo(s1, k1, m, ScanState(0, m, acc), |s1|) == Complete(scan.close, scan.entries)
    requires ScanTo(s1, k1, m, ScanState(0, m, acc), c) == Running(ScanState(0, m, acc))
    requires c < scan.close ==> IsCodeComma(s1, k1, c)
    requires c < scan.close ==> ScanTo(s1, k1, c + 1, ScanState(0, c + 1, acc + [scan.entries[j]]), |s1|) == Complete(scan.close, scan.entries)
    requires c == scan.close ==> scan.entries == acc + [scan.entries[j]] && k1[c] == Code && s1[c] == '}'
    requires ReadEntry(s2, k2, m, c2) == Some(Grow(scan.entries[j], d))
    ensures ScanTo(s2, k2, c2, ScanState(0, m, acc), |s2|)
         == Complete(scan.close + d, acc + [Grow(scan.entries[j], d)] + MoveAll(scan.entries[j + 1..], d))
  {
    hide ReadEntry, Agree, ScanStep, ScanTo;
    var e, g := scan.entries[j], Grow(scan.entries[j], d);
    AgreeAt(s1, s2, d, b, |s1|, c);
    AgreeAt(k1, k2, d, b, |s1|, c);
    SeparatorStep(s2, k2, c2, m, acc, g);
    ScanOne(s2, k2, c2, ScanState(0, m, acc));
    ScanCompose(s2, k2, c2, ScanState(0, m, acc), c2 + 1, |s2|);
    if c < scan.close {
      AgreePart(s1, s2, d, b, |s1|, c + 1, |s1|);
      AgreePart(k1, k2, d, b, |s1|, c + 1, |s1|);
      MovedStart(acc + [e], acc + [g], d);
      ScanShift(s1, k1, s2, k2, d, c + 1, ScanState(0, c + 1, acc + [e]), ScanState(0, c + 1 + d, acc + [g]),
                acc + [e], acc + [g], |s1|);
      assert scan.entries[|acc + [e]|..] == scan.entries[j + 1..];
    } else {
      assert scan.entries[j + 1..] == [];
    }
  }

  lemma {:induction false} SeparatorStep(s: string, kinds: seq<Kind>, c: nat, m: nat, acc: seq<ObjectEntry>, e: ObjectEntry)
    requires m <= c < |s| == |kinds| && kinds[c] == Code && ReadEntry(s, kinds, m, c) == Some(e)
    ensures s[c] == ',' ==> ScanStep(s, kinds, c, ScanState(0, m, acc)) == Running(ScanState(0, c + 1, acc + [e]))
    ensures s[c] == '}' ==> ScanStep(s, kinds, c, ScanState(0, m, acc)) == Complete(c, acc + [e])
  {
    hide ReadEntry;
  }
}

/**
 * Adding an entry at the end of an object literal, or as the first one of an empty literal,
 * read back: the same entries, with exactly the new one after them.
 */
module ConfigAppend {
  import opened Wrappers
  import opened Text
  import opened SourceLexer
  import opened LexerTokens
  import opened LexerShift
  import opened LexerSplice
  import opened ObjectScan
  import opened ObjectShift
  import opened ScanSplice
  import opened ConfigEdit
  import opened ConfigSplice

  // ---------------------------------------------------------------------------
  // Labels of the stretches between entries
  // ---------------------------------------------------------------------------

  /** Reading `s2` on from the labels `pre` reaches the labels `mid`, outside interpolations. */
  ghost predicate ReadsOn(s2: string, pre: seq<Kind>, mid: seq<Kind>) {
    && |pre| <= |mid| <= |s2|
    && RunTo(s2, LexState(pre, []), |mid|) == Success(LexState(mid, []))
    && Agree(pre, mid, 0, 0, |pre|)
  }

  lemma {:induction false} ReadsOnTrans(s2: string, k0: seq<Kind>, k1: seq<Kind>, k2: seq<Kind>)
    requires ReadsOn(s2, k0, k1) && ReadsOn(s2, k1, k2)
    ensures ReadsOn(s2, k0, k2)
  {
    hide RunTo, Agree;
    RunCompose(s2, LexState(k0, []), |k1|, |k2|);
    AgreePart(k1, k2, 0, 0, |k1|, 0, |k0|);
    AgreeTrans(k0, k1, k2, 0, 0, 0, |k0|);
  }

  lemma {:induction false} ReadsOnRuns(s2: string, pre: seq<Kind>, mid: seq<Kind>)
    requires ReadsOn(s2, pre, mid)
    ensures |mid| <= |s2| && RunTo(s2, LexState(pre, []), |mid|) == Success(LexState(mid, [])) && Agree(pre, mid, 0, 0, |pre|)
  {
    hide RunTo, Agree;
  }

  lemma {:induction false} ReadsNothing(s2: string, pre: seq<Kind>)
    requires |pre| <= |s2|
    ensures ReadsOn(s2, pre, pre)
  {
  }

  /** Any one character that cannot start a comment, a literal or an interpolation is code. */
  lemma {:induction false} ReadsChar(s2: string, pre: seq<Kind>)
    requires |pre| < |s2| && s2[|pre|] !in {'/', '"', '\'', '`'}
    ensures ReadsOn(s2, pre, pre + [Code])
  {
    hide OpensRegex;
    var next := LexState(pre + [Code], []);
    assert Step(s2, LexState(pre, [])) == Success(next);
    assert RunTo(s2, next, |pre| + 1) == Success(next);
  }

  lemma {:induction false} ReadsSpaces(s2: string, pre: seq<Kind>, q: nat) returns (mid: seq<Kind>)
    requires |pre| <= q <= |s2| && AllSpace(s2, |pre|, q)
    ensures ReadsOn(s2, pre, mid) && |mid| == q && AllTrivia(s2, mid, |pre|, q)
    decreases q - |pre|
  {
    hide Step, RunTo;
    if |pre| == q {
      mid := pre;
      ReadsNothing(s2, pre);
    } else {
      assert IsSpace(s2[|pre|]);
      ReadsChar(s2, pre);
      mid := ReadsSpaces(s2, pre + [Code], q);
      ReadsOnTrans(s2, pre, pre + [Code], mid);
    }
  }

  /** Between an entry and a code character, only comments and code are read. */
  lemma {:induction false} NoLiterals(s: string, kinds: seq<Kind>, lo: nat, hi: nat)
    requires Labelled(s, kinds) && TriviaOrCommas(s, kinds, lo, hi) && lo <= hi < |s| && kinds[hi] == Code
    ensures NoSlash(s, kinds, lo, hi)
    decreases hi - lo
  {
    hide Lex, RunTo;
    if lo < hi {
      TriviaOrCommasPart(s, kinds, lo, hi, lo + 1, hi);
      NoLiterals(s, kinds, lo + 1, hi);
      TriviaOrComma(s, kinds, lo, hi, lo);
      if kinds[lo] == Literal {
        LexedFromStart(s, kinds);
        LiteralSpace(s, Start, kinds, lo);
      }
    }
  }

  lemma {:induction false} LexedFromStart(s: string, kinds: seq<Kind>)
    requires Labelled(s, kinds)
    ensures Reaches(s, Start, kinds)
  {
  }

  /** What is read in one file between two top-level offsets, when it holds no literal, is read in another. */
  lemma {:induction false} ReadsPlain(s1: string, k1: seq<Kind>, lo: nat, hi: nat, s2: string, pre: seq<Kind>)
    returns (mid: seq<Kind>)
    requires Labelled(s1, k1) && lo <= hi <= |s1| && Boundary(s1, k1, lo) && Boundary(s1, k1, hi) && NoSlash(s1, k1, lo, hi)
    requires |pre| + hi - lo <= |s2| && Agree(s1, s2, |pre| - lo, lo, hi)
    requires StopsAt(s1, s2, hi, |pre| - lo, k1)
    ensures ReadsOn(s2, pre, mid) && |mid| == |pre| + hi - lo && Agree(k1, mid, |pre| - lo, lo, hi)
  {
    hide Step, RunTo, Agree, Boundary, StopsAt, Lex;
    var d := |pre| - lo;
    var st1, st2 := TopLevel(k1, lo), LexState(pre, []);
    BoundaryRun(s1, k1, lo, hi);
    StopsAtPrefix(s1, s2, hi, d, k1);
    MovedEmpty(st1.kinds, pre);
    PlainRunShift(s1, st1, s2, st2, lo, d, hi);
    mid := RunTo(s2, st2, hi + d).value.kinds;
    AgreePrefix(k1, TopLevel(k1, hi).kinds, hi);
    AgreePart(k1, TopLevel(k1, hi).kinds, 0, 0, hi, lo, hi);
    AgreeTrans(k1, TopLevel(k1, hi).kinds, mid, 0, d, lo, hi);
  }

  lemma {:induction false} BoundaryRun(s: string, kinds: seq<Kind>, lo: nat, hi: nat)
    requires Labelled(s, kinds) && lo <= hi <= |s| && Boundary(s, kinds, lo) && Boundary(s, kinds, hi)
    ensures RunTo(s, TopLevel(kinds, lo), hi) == Success(TopLevel(kinds, hi))
  {
    hide Step;
    RunCompose(s, Start, lo, hi);
  }

  lemma {:induction false} StopsAtPrefix(s1: string, s2: string, p: nat, d: int, kinds: seq<Kind>)
    requires p <= |kinds| && StopsAt(s1, s2, p, d, kinds)
    ensures StopsAt(s1, s2, p, d, TopLevel(kinds, p).kinds)
  {
  }

  // ---------------------------------------------------------------------------
  // The line break after an entry
  // ---------------------------------------------------------------------------

  /** `s2[p..q)` is a line break. */
  ghost predicate BreaksLine(s2: string, p: nat, q: nat) {
    && p < q <= |s2| && s2[q - 1] == '\n'
    && (q == p + 1 || (q == p + 2 && s2[p] == '\r'))
  }

  /** One token of a stretch without literals, and where it ends. */
  lemma {:induction false} PlainToken(s: string, kinds: seq<Kind>, lo: nat, hi: nat) returns (q: nat)
    requires Labelled(s, kinds) && lo < hi < |s| && Boundary(s, kinds, lo) && NoSlash(s, kinds, lo, hi) && kinds[hi] == Code
    ensures lo < q <= hi && Boundary(s, kinds, q) && !PlainSlash(s, lo)
    ensures Step(s, TopLevel(kinds, lo)) == Success(TopLevel(kinds, q))
  {
    hide RunTo, LineEnd, BlockEnd, StringEnd, RegexEnd, FlagsEnd, TemplateEnd, OpensRegex;
    var st := TopLevel(kinds, lo);
    BoundaryGoesOn(s, kinds, lo);
    StepAfterRun(s, st, |s|);
    var e := NextToken(s, st, kinds);
    var next := Step(s, st).value;
    RunSettles(s, next, |s|);
    StepOutside(s, st);
    q := |next.kinds|;
    assert next == TopLevel(kinds, q);
    BoundaryStep(s, kinds, lo, q);
  }

  lemma {:induction false} StepAfterRun(s: string, st: LexState, p: nat)
    requires Valid(s, st) && |st.kinds| < p <= |s| && RunTo(s, st, p).Success?
    ensures Step(s, st).Success? && RunTo(s, st, p) == RunTo(s, Step(s, st).value, p)
  {
    hide Step;
  }

  lemma {:induction false} BoundaryStep(s: string, kinds: seq<Kind>, lo: nat, q: nat)
    requires |kinds| == |s| && lo < q <= |s| && Boundary(s, kinds, lo) && Step(s, TopLevel(kinds, lo)) == Success(TopLevel(kinds, q))
    ensures Boundary(s, kinds, q)
  {
    hide Step;
    RunCompose(s, Start, lo, q);
    assert RunTo(s, TopLevel(kinds, q), q) == Success(TopLevel(kinds, q));
  }

  /** One such token, read in another file. */
  lemma {:induction false} ReadsToken(s1: string, k1: seq<Kind>, lo: nat, q: nat, s2: string, pre: seq<Kind>)
    returns (mid: seq<Kind>)
    requires |k1| == |s1| && lo < q <= |s1| && Step(s1, TopLevel(k1, lo)) == Success(TopLevel(k1, q)) && !PlainSlash(s1, lo)
    requires |pre| + q - lo <= |s2| && Agree(s1, s2, |pre| - lo, lo, q)
    requires s1[lo] == '/' && !At(s1, lo + 1, '*') ==> SameStop(s1, s2, q, |pre| - lo, OpensLineComment(s1, lo))
    ensures ReadsOn(s2, pre, mid) && |mid| == |pre| + q - lo && Agree(k1, mid, |pre| - lo, lo, q)
  {
    hide Step, Agree, SameStop;
    var d := |pre| - lo;
    var st1, st2 := TopLevel(k1, lo), LexState(pre, []);
    MovedEmpty(st1.kinds, pre);
    StepShift(s1, st1, s2, st2, lo, d);
    StepKeepsBefore(s2, st2, |pre|);
    mid := Step(s2, st2).value.kinds;
    AgreePrefix(k1, TopLevel(k1, q).kinds, q);
    AgreePart(k1, TopLevel(k1, q).kinds, 0, 0, q, lo, q);
    AgreeTrans(k1, TopLevel(k1, q).kinds, mid, 0, d, lo, q);
    assert RunTo(s2, LexState(mid, []), |mid|) == Success(LexState(mid, []));
  }

  /** A line comment goes on to the line break, whatever that is. */
  lemma {:induction false} ReadsLineComment(s1: string, lo: nat, nl: nat, s2: string, pre: seq<Kind>) returns (mid: seq<Kind>)
    requires lo < nl < |s1| && OpensLineComment(s1, lo) && LineEnd(s1, lo) == nl
    requires |pre| + nl - lo + 1 < |s2| && Agree(s1, s2, |pre| - lo, lo, nl)
    requires s2[|pre| + nl - lo] == '\r' && s2[|pre| + nl - lo + 1] == '\n'
    ensures ReadsOn(s2, pre, mid) && |mid| == |pre| + nl - lo + 1
    ensures forall k :: |pre| <= k < |mid| ==> mid[k] == Comment
  {
    hide LineEnd, OpensRegex;
    var e := |pre| + nl - lo + 1;
    assert s1[lo + 1] != '\n';
    assert s2[|pre|] == s1[lo] && s2[|pre| + 1] == s1[lo + 1] by {
      AgreeAt(s1, s2, |pre| - lo, lo, nl, lo);
      AgreeAt(s1, s2, |pre| - lo, lo, nl, lo + 1);
    }
    forall k | |pre| <= k < e ensures s2[k] != '\n' {
      if k < e - 1 { assert s1[k - |pre| + lo] == s2[k]; }
    }
    LineEndAt(s2, |pre|, e);
    mid := Mark(pre, |pre|, e, Comment);
    assert Step(s2, LexState(pre, [])) == Success(LexState(mid, []));
    assert RunTo(s2, LexState(mid, []), e) == Success(LexState(mid, []));
  }

  lemma {:induction false} LineEndAt(s: string, i: nat, e: nat)
    requires i <= e < |s| && s[e] == '\n' && forall k :: i <= k < e ==> s[k] != '\n'
    ensures LineEnd(s, i) == e
  {
  }

  /** `ReadsLine` where the line break is a carriage return and a newline instead of a newline. */
  lemma {:induction false} ReadsLineCr(s1: string, k1: seq<Kind>, lo: nat, nl: nat, s2: string, pre: seq<Kind>)
    returns (mid: seq<Kind>)
    requires Labelled(s1, k1) && lo <= nl < |s1| && Boundary(s1, k1, lo) && k1[nl] == Code && s1[nl] == '\n'
    requires NoSlash(s1, k1, lo, nl) && forall k :: lo <= k < nl ==> s1[k] != '\n'
    requires |pre| + nl - lo + 1 < |s2| && Agree(s1, s2, |pre| - lo, lo, nl)
    requires s2[|pre| + nl - lo] == '\r' && s2[|pre| + nl - lo + 1] == '\n'
    ensures ReadsOn(s2, pre, mid) && |mid| == |pre| + nl - lo + 2 && Agree(k1, mid, |pre| - lo, lo, nl)
    ensures mid[|mid| - 1] == Code
    decreases nl - lo
  {
    hide Step, RunTo, Agree, Boundary, Lex, LineEnd;
    var d := |pre| - lo;
    if lo == nl {
      ReadsChar(s2, pre);
      mid := pre + [Code];
      ReadsChar(s2, mid);
      ReadsOnTrans(s2, pre, mid, mid + [Code]);
      mid := mid + [Code];
      AgreeNothing(k1, mid, d, lo);
    } else {
      var q := PlainToken(s1, k1, lo, nl);
      AgreePart(s1, s2, d, lo, nl, lo, q);
      if OpensLineComment(s1, lo) {
        LineEndAt(s1, lo, nl);
        var c := ReadsLineComment(s1, lo, nl, s2, pre);
        ReadsChar(s2, c);
        mid := c + [Code];
        ReadsOnTrans(s2, pre, c, mid);
        LineCommentToken(s1, k1, lo);
        forall k {:trigger k1[k]} | lo <= k < nl ensures k1[k] == mid[k + d] { assert c[k + d] == Comment; }
        assert Agree(k1, mid, d, lo, nl) by { AgreeIntro(k1, mid, d, lo, nl); }
      } else {
        if q < nl { AgreeAt(s1, s2, d, lo, nl, q); }
        var c := ReadsToken(s1, k1, lo, q, s2, pre);
        AgreePart(s1, s2, d, lo, nl, q, nl);
        mid := ReadsLineCr(s1, k1, q, nl, s2, c);
        ReadsOnTrans(s2, pre, c, mid);
        AgreePart(c, mid, 0, 0, |c|, lo + d, q + d);
        AgreeTrans(k1, c, mid, d, 0, lo, q);
        AgreeJoin(k1, mid, d, lo, q, nl);
      }
    }
  }

  /**
   * The rest of a line, up to a newline that is code, is read the same before any line break:
   * a line comment runs up to it, everything else has ended before.
   */
  lemma {:induction false} ReadsLine(s1: string, k1: seq<Kind>, lo: nat, nl: nat, s2: string, pre: seq<Kind>, q: nat)
    returns (mid: seq<Kind>)
    requires Labelled(s1, k1) && lo <= nl < |s1| && Boundary(s1, k1, lo) && k1[nl] == Code && s1[nl] == '\n'
    requires NoSlash(s1, k1, lo, nl) && forall k :: lo <= k < nl ==> s1[k] != '\n'
    requires BreaksLine(s2, |pre| + nl - lo, q) && Agree(s1, s2, |pre| - lo, lo, nl)
    ensures ReadsOn(s2, pre, mid) && |mid| == q && Agree(k1, mid, |pre| - lo, lo, nl) && mid[q - 1] == Code
  {
    hide Step, RunTo, Agree, Boundary, Lex, StopsAt;
    if q == |pre| + nl - lo + 1 {
      CodeIsTopLevel(s1, k1, nl);
      SameStopNewline(s1, s2, nl, |pre| - lo, k1);
      var c := ReadsPlain(s1, k1, lo, nl, s2, pre);
      ReadsChar(s2, c);
      mid := c + [Code];
      ReadsOnTrans(s2, pre, c, mid);
      AgreePrefix(c, mid, |c|);
      AgreePart(c, mid, 0, 0, |c|, |pre|, |c|);
      AgreeTrans(k1, c, mid, |pre| - lo, 0, lo, nl);
    } else {
      mid := ReadsLineCr(s1, k1, lo, nl, s2, pre);
    }
  }

  lemma {:induction false} SameStopNewline(s1: string, s2: string, p: nat, d: int, kinds: seq<Kind>)
    requires p <= |kinds| && p < |s1| && 0 <= p + d < |s2| && s1[p] == '\n' && s2[p + d] == '\n'
    ensures StopsAt(s1, s2, p, d, kinds)
  {
  }

  // ---------------------------------------------------------------------------
  // The end of an object literal
  // ---------------------------------------------------------------------------

  /** The last entry of a non-empty object: where its segment begins, and what follows it. */
  lemma {:induction false} LastPoint(s: string, kinds: seq<Kind>, scan: ObjectScan) returns (m: nat)
    requires Labelled(s, kinds) && |s| == |kinds| && ScanObject(s, kinds, scan.open) == Success(scan) && scan.entries != []
    ensures var n := |scan.entries| - 1;
            var last := scan.entries[n];
            && scan.open < m < last.end <= scan.close < |s| && kinds[scan.close] == Code
            && !IsTrivia(s, kinds, last.end - 1)
            && ReadUpTo(s, kinds, scan.open, m, scan.entries[..n])
            && ScanTo(s, kinds, m, ScanState(0, m, scan.entries[..n]), last.end) == Running(ScanState(0, m, scan.entries[..n]))
            && ReadEntry(s, kinds, m, last.end) == Some(last)
            && TriviaOrCommas(s, kinds, last.end, scan.close)
  {
    hide RunTo, ScanTo, ReadEntry, AllTrivia, Lex;
    ScanObjectWithin(s, kinds, scan.open);
    var n := |scan.entries| - 1;
    var acc, last := scan.entries[..n], scan.entries[n];
    m := EntryOrigin(s, kinds, scan.open + 1, ScanState(0, scan.open + 1, []), |s|, n);
    if m == scan.open + 1 { ScanNothing(s, kinds, scan.open); }
    AllTriviaNothing(s, kinds, m);
    ScanGoesOn(s, kinds, scan, m, m, acc);
    var c := EntrySegment(s, kinds, m, acc);
    assert acc + [last] == scan.entries;
    ReadEntryEnds(s, kinds, m, c, last);
    ScanCompose(s, kinds, m, ScanState(0, m, acc), last.end, c);
    LastTail(s, kinds, scan, c, last.end);
    LastScan(s, kinds, m, acc, last.end, c);
  }

  lemma {:induction false} AllTriviaNothing(s: string, kinds: seq<Kind>, m: nat)
    requires m <= |s| == |kinds|
    ensures AllTrivia(s, kinds, m, m)
  {
  }

  lemma {:induction false} ReadEntryEnds(s: string, kinds: seq<Kind>, m: nat, c: nat, e: ObjectEntry)
    requires m <= c <= |s| == |kinds| && ReadEntry(s, kinds, m, c) == Some(e)
    ensures m < e.end <= c && !IsTrivia(s, kinds, e.end - 1) && AllTrivia(s, kinds, e.end, c)
    ensures ReadEntry(s, kinds, m, e.end) == Some(e)
  {
    hide ReadEntry;
    AllTriviaNothing(s, kinds, m);
    ReadEntryWithin(s, kinds, m, m, e.end, c);
  }

  lemma {:induction false} LastTail(s: string, kinds: seq<Kind>, scan: ObjectScan, c: nat, end: nat)
    requires |s| == |kinds| && end <= c <= scan.close < |s| && AllTrivia(s, kinds, end, c)
    requires c < scan.close ==>
               && IsCodeComma(s, kinds, c)
               && ScanTo(s, kinds, c + 1, ScanState(0, c + 1, scan.entries), |s|) == Complete(scan.close, scan.entries)
    ensures TriviaOrCommas(s, kinds, end, scan.close)
  {
    hide ScanTo;
    if c < scan.close { TailIsTrivia(s, kinds, c + 1, ScanState(0, c + 1, scan.entries), |s|); }
    forall k | end <= k < scan.close ensures IsTrivia(s, kinds, k) || IsCodeComma(s, kinds, k) {
      if k > c { TriviaOrComma(s, kinds, c + 1, scan.close, k); }
      assert k < c ==> IsTrivia(s, kinds, k);
    }
  }

  lemma {:induction false} LastScan(s: string, kinds: seq<Kind>, m: nat, acc: seq<ObjectEntry>, end: nat, c: nat)
    requires m <= end <= c <= |s| == |kinds| && AllTrivia(s, kinds, end, c)
    requires ScanTo(s, kinds, m, ScanState(0, m, acc), c) == Running(ScanState(0, m, acc))
    ensures ScanTo(s, kinds, m, ScanState(0, m, acc), end) == Running(ScanState(0, m, acc))
  {
    hide ScanTo;
    ScanCompose(s, kinds, m, ScanState(0, m, acc), end, c);
    var r := ScanTo(s, kinds, m, ScanState(0, m, acc), end);
    if r.Running? { ScanTrivia(s, kinds, end, r.state, c); }
  }

  /** The offsets of a new last entry's text, `c` being the separator added after the old one. */
  ghost predicate Appended(s1: string, end: nat, nl: nat, c: string, x: string, p: nat, s2: string) {
    && end <= nl < |s1| && (c == "" || c == ",") && p + |x| + |s1| - nl - 1 == |s2|
    && Agree(s1, s2, 0, 0, end) && (c == "," ==> At(s2, end, ','))
    && Agree(s1, s2, |c|, end, nl) && BreaksLine(s2, nl + |c|, p)
    && Agree(x, s2, p, 0, |x|) && Agree(s1, s2, p + |x| - nl - 1, nl + 1, |s1|)
  }

  /** An entry read up to a separator is one more of those read. */
  lemma {:induction false} SeparatorEnds(s: string, kinds: seq<Kind>, open: nat, m: nat, acc: seq<ObjectEntry>, last: ObjectEntry)
    requires ReadUpTo(s, kinds, open, m, acc) && m < last.end < |s| && IsCodeComma(s, kinds, last.end)
    requires ScanTo(s, kinds, m, ScanState(0, m, acc), last.end) == Running(ScanState(0, m, acc))
    requires ReadEntry(s, kinds, m, last.end) == Some(last)
    ensures ReadUpTo(s, kinds, open, last.end + 1, acc + [last])
  {
    hide ScanTo, ReadEntry;
    ScanCompose(s, kinds, open + 1, ScanState(0, open + 1, []), m, last.end + 1);
    ScanCompose(s, kinds, m, ScanState(0, m, acc), last.end, last.end + 1);
    ScanOne(s, kinds, last.end, ScanState(0, m, acc));
  }

  lemma {:induction false} ReadEntrySame(s1: string, k1: seq<Kind>, s2: string, k2: seq<Kind>, m: nat, till: nat)
    requires m <= till && Same(s1, k1, s2, k2, 0, m, till)
    ensures ReadEntry(s2, k2, m, till) == ReadEntry(s1, k1, m, till)
  {
    hide ReadEntry, Agree;
    ReadEntryShift(s1, k1, s2, k2, 0, m, till);
    AgreeBounds(s1, s2, 0, m, till);
    AgreeBounds(k1, k2, 0, m, till);
    var r := ReadEntry(s1, k1, m, till);
    if r.Some? { assert Move(r.value, 0) == r.value; }
  }

  /** Without a separator of its own, the last entry is read up to the one added. */
  lemma {:induction false} AddedSeparator(s1: string, k1: seq<Kind>, open: nat, m: nat, acc: seq<ObjectEntry>, last: ObjectEntry,
                                         s2: string, k2: seq<Kind>)
    requires |s1| == |k1| && |s2| == |k2| && ReadUpTo(s1, k1, open, m, acc) && m < last.end <= |s1|
    requires ScanTo(s1, k1, m, ScanState(0, m, acc), last.end) == Running(ScanState(0, m, acc))
    requires ReadEntry(s1, k1, m, last.end) == Some(last)
    requires Same(s1, k1, s2, k2, 0, 0, last.end) && last.end < |s2| && IsCodeComma(s2, k2, last.end)
    ensures ReadUpTo(s2, k2, open, last.end + 1, acc + [last])
  {
    hide ScanTo, ReadEntry, Agree, ReadUpTo, IsCodeComma, ScanStep;
    AgreePart(s1, s2, 0, 0, last.end, 0, m);
    AgreePart(k1, k2, 0, 0, last.end, 0, m);
    AgreePart(s1, s2, 0, 0, last.end, m, last.end);
    AgreePart(k1, k2, 0, 0, last.end, m, last.end);
    ReadUpToSame(s1, k1, s2, k2, open, m, acc);
    ScanSame(s1, k1, s2, k2, m, ScanState(0, m, acc), last.end);
    ReadEntrySame(s1, k1, s2, k2, m, last.end);
    SeparatorEnds(s2, k2, open, m, acc, last);
  }

  lemma {:induction false} ScanOne(s: string, kinds: seq<Kind>, i: nat, st: ScanState)
    requires i < |s| == |kinds| && st.entryStart <= i
    ensures ScanTo(s, kinds, i, st, i + 1) == ScanStep(s, kinds, i, st)
  {
    hide ScanStep;
  }

  /** With a separator on its line, the last entry is read up to that one. */
  lemma {:induction false} OwnSeparator(s: string, kinds: seq<Kind>, open: nat, m: nat, acc: seq<ObjectEntry>, last: ObjectEntry, nl: nat)
    returns (m': nat)
    requires |s| == |kinds| && ReadUpTo(s, kinds, open, m, acc) && m < last.end < nl <= |s|
    requires ScanTo(s, kinds, m, ScanState(0, m, acc), last.end) == Running(ScanState(0, m, acc))
    requires ReadEntry(s, kinds, m, last.end) == Some(last)
    requires TriviaOrCommas(s, kinds, last.end, nl) && exists k :: last.end <= k < nl && IsCodeComma(s, kinds, k)
    ensures last.end < m' <= nl && IsCodeComma(s, kinds, m' - 1) && AllTrivia(s, kinds, m', nl)
    ensures ReadUpTo(s, kinds, open, m', acc + [last])
  {
    hide ScanTo, ReadEntry, AllTrivia;
    var c := FirstComma(s, kinds, last.end, nl);
    TriviaOrCommasPart(s, kinds, last.end, nl, c + 1, nl);
    CommaEnds(s, kinds, m, acc, last, c);
    var st := ScanState(0, c + 1, acc + [last]);
    AllTriviaNothing(s, kinds, c + 1);
    m' := CommaRun(s, kinds, c + 1, st, nl);
    ScanCompose(s, kinds, open + 1, ScanState(0, open + 1, []), m, c + 1);
    ScanCompose(s, kinds, open + 1, ScanState(0, open + 1, []), c + 1, m');
  }

  /** The first comma behind the last entry ends it. */
  lemma {:induction false} CommaEnds(s: string, kinds: seq<Kind>, m: nat, acc: seq<ObjectEntry>, last: ObjectEntry, c: nat)
    requires m < last.end <= c < |s| == |kinds| && AllTrivia(s, kinds, last.end, c) && IsCodeComma(s, kinds, c)
    requires ScanTo(s, kinds, m, ScanState(0, m, acc), last.end) == Running(ScanState(0, m, acc))
    requires ReadEntry(s, kinds, m, last.end) == Some(last)
    ensures ScanTo(s, kinds, m, ScanState(0, m, acc), c + 1) == Running(ScanState(0, c + 1, acc + [last]))
  {
    hide ScanTo, ReadEntry, AllTrivia;
    ScanTrivia(s, kinds, last.end, ScanState(0, m, acc), c);
    AllTriviaNothing(s, kinds, m);
    ReadEntryWithin(s, kinds, m, m, last.end, c);
    ScanCompose(s, kinds, m, ScanState(0, m, acc), last.end, c);
    ScanCompose(s, kinds, m, ScanState(0, m, acc), c, c + 1);
    ScanOne(s, kinds, c, ScanState(0, m, acc));
  }

  lemma {:induction false} FirstComma(s: string, kinds: seq<Kind>, lo: nat, hi: nat) returns (c: nat)
    requires TriviaOrCommas(s, kinds, lo, hi) && exists k :: lo <= k < hi && IsCodeComma(s, kinds, k)
    ensures lo <= c < hi && IsCodeComma(s, kinds, c) && AllTrivia(s, kinds, lo, c)
    decreases hi - lo
  {
    TriviaOrComma(s, kinds, lo, hi, lo);
    if IsCodeComma(s, kinds, lo) {
      c := lo;
    } else {
      TriviaOrCommasPart(s, kinds, lo, hi, lo + 1, hi);
      c := FirstComma(s, kinds, lo + 1, hi);
      assert forall k :: lo <= k < c ==> k == lo || IsTrivia(s, kinds, k);
    }
  }

  // ---------------------------------------------------------------------------
  // Labels of a file with an entry added at the end of an object
  // ---------------------------------------------------------------------------

  /** The labels `kk` go with `s2` up to `p`, where the new entry begins. */
  ghost predicate AppendedUpTo(k1: seq<Kind>, end: nat, nl: nat, c: string, p: nat, kk: seq<Kind>) {
    && p <= |kk| && Agree(k1, kk, 0, 0, end) && Agree(k1, kk, |c|, end, nl)
    && (c == "," ==> end < |kk| && kk[end] == Code)
  }

  /** The separator before the new entry: `c`, or the one at `m' - 1`. */
  ghost predicate SeparatorAt(s1: string, k1: seq<Kind>, end: nat, nl: nat, c: string, m': nat) {
    && end < m' && nl <= |s1| == |k1|
    && (c == "," ==> m' == end + 1 && AllTrivia(s1, k1, end, nl))
    && (c == "" ==> m' <= nl && IsCodeComma(s1, k1, m' - 1) && AllTrivia(s1, k1, m', nl))
  }

  lemma {:induction false} SeparatorMoved(s1: string, k1: seq<Kind>, end: nat, nl: nat, c: string, x: string, p: nat,
                                         s2: string, kk: seq<Kind>, m': nat)
    requires |s1| == |k1| && Appended(s1, end, nl, c, x, p, s2) && AppendedUpTo(k1, end, nl, c, p, kk)
    requires SeparatorAt(s1, k1, end, nl, c, m') && |kk| <= |s2|
    ensures m' <= p && s2[m' - 1] == ',' && kk[m' - 1] == Code && AllTrivia(s2, kk, m', p)
  {
    hide AllTrivia, Agree;
    var lo := if c == "," then end else m';
    AgreePart(s1, s2, |c|, end, nl, lo, nl);
    AgreePart(k1, kk, |c|, end, nl, lo, nl);
    TriviaMoved(s1, k1, s2, kk, |c|, lo, nl);
    if c == "" {
      AgreeAt(s1, s2, 0, end, nl, m' - 1);
      AgreeAt(k1, kk, 0, end, nl, m' - 1);
    }
    TriviaThenBreak(s2, kk, m', nl + |c|, p);
  }

  lemma {:induction false} TriviaThenBreak(s: string, kinds: seq<Kind>, lo: nat, p: nat, q: nat)
    requires lo <= p && BreaksLine(s, p, q) && q <= |kinds| && AllTrivia(s, kinds, lo, p)
    ensures AllTrivia(s, kinds, lo, q)
  {
    forall k | lo <= k < q ensures IsTrivia(s, kinds, k) {
      if k < p { assert IsTrivia(s, kinds, k); } else { assert IsSpace(s[k]); }
    }
  }

  /** Up to the new entry. */
  lemma {:induction false} AppendHead(s1: string, k1: seq<Kind>, end: nat, nl: nat, c: string, x: string, p: nat, s2: string)
    returns (mid: seq<Kind>)
    requires Labelled(s1, k1) && Appended(s1, end, nl, c, x, p, s2)
    requires Boundary(s1, k1, end) && NoSlash(s1, k1, end, nl) && k1[nl] == Code && s1[nl] == '\n'
    requires forall k :: end <= k < nl ==> s1[k] != '\n'
    ensures ReadsOn(s2, TopLevel(k1, end).kinds, mid) && |mid| == p && AppendedUpTo(k1, end, nl, c, p, mid)
    ensures mid[p - 1] == Code
  {
    hide RunTo, Lex, Boundary, Agree, NoSlash;
    var pre := TopLevel(k1, end).kinds;
    AgreePrefix(k1, pre, end);
    var pre1 := if c == "," then pre + [Code] else pre;
    if c == "," { ReadsChar(s2, pre); } else { ReadsNothing(s2, pre); }
    mid := ReadsLine(s1, k1, end, nl, s2, pre1, p);
    ReadsOnTrans(s2, pre, pre1, mid);
    AgreeTrans(k1, pre, mid, 0, 0, 0, end);
    if c == "," { AgreeAt(pre1, mid, 0, 0, |pre1|, end); }
  }

  /** From the new entry to the end of the object, or from a new value to its separator. */
  lemma {:induction false} AppendRest(s1: string, k1: seq<Kind>, from: nat, close: nat, s2: string, pre: seq<Kind>)
    returns (mid: seq<Kind>)
    requires Labelled(s1, k1) && from <= close < |s1| && Boundary(s1, k1, from) && Boundary(s1, k1, close)
    requires NoSlash(s1, k1, from, close) && (s1[close] == '}' || s1[close] == ',') && k1[close] == Code
    requires |s2| == |s1| + |pre| - from && Agree(s1, s2, |pre| - from, from, |s1|)
    ensures ReadsOn(s2, pre, mid) && |mid| == |pre| + close + 1 - from && Agree(k1, mid, |pre| - from, from, close + 1)
    ensures SameLeft(s1, k1, s2, mid, close + 1, |pre| - from)
  {
    hide RunTo, Lex, Boundary, Agree, NoSlash, StopsAt, OpensRegex, ReadsOn;
    var d := |pre| - from;
    AgreePart(s1, s2, d, from, |s1|, from, close);
    AgreeAt(s1, s2, d, from, |s1|, close);
    SameStopSame(s1, s2, close, d, k1);
    var c := ReadsPlain(s1, k1, from, close, s2, pre);
    mid := c + [Code];
    ReadsCodeToo(k1, s2, pre, c, from, close);
    AllTriviaNothing(s1, k1, close + 1);
    OpensAfter(s1, k1, close + 1, close + 1);
    OpensAfterEnd(s2, mid);
  }

  /** One more code character behind what was read. */
  lemma {:induction false} ReadsCodeToo(k1: seq<Kind>, s2: string, pre: seq<Kind>, c: seq<Kind>, from: nat, close: nat)
    requires ReadsOn(s2, pre, c) && |c| == |pre| + close - from && from <= close < |k1| && k1[close] == Code
    requires Agree(k1, c, |pre| - from, from, close) && |c| < |s2| && (s2[|c|] == '}' || s2[|c|] == ',')
    ensures ReadsOn(s2, pre, c + [Code]) && Agree(k1, c + [Code], |pre| - from, from, close + 1)
  {
    hide RunTo, Agree;
    var mid, d := c + [Code], |pre| - from;
    ReadsChar(s2, c);
    ReadsOnTrans(s2, pre, c, mid);
    AgreePrefix(c, mid, |c|);
    AgreePart(c, mid, 0, 0, |c|, |pre|, |c|);
    AgreeTrans(k1, c, mid, d, 0, from, close);
    AgreeOne(k1, mid, d, from, close);
  }

  lemma {:induction false} OpensAfterEnd(s: string, mid: seq<Kind>)
    requires 0 < |mid| <= |s| && (s[|mid| - 1] == '}' || s[|mid| - 1] == ',') && mid[|mid| - 1] == Code
    ensures OpensRegex(s, mid, |mid|)
  {
    OpensAfter(s, mid, |mid|, |mid|);
  }

  lemma {:induction false} SameStopSame(s1: string, s2: string, p: nat, d: int, kinds: seq<Kind>)
    requires p <= |kinds| && p < |s1| && 0 <= p + d < |s2| && s1[p] == s2[p + d]
    ensures StopsAt(s1, s2, p, d, kinds)
  {
  }

  /** Where the last entry ends, no token goes on: a comma or the same character follows. */
  lemma {:induction false} AppendStops(s1: string, k1: seq<Kind>, end: nat, nl: nat, c: string, x: string, p: nat, s2: string)
    requires |s1| == |k1| && Appended(s1, end, nl, c, x, p, s2) && 0 < end && k1[end - 1] != Comment
    requires c == "" ==> end < nl
    ensures StopsAt(s1, s2, end, 0, k1)
  {
    if c == "" { assert s1[end] == s2[end]; }
  }

  /** The boundaries around the place of a new last entry. */
  lemma {:induction false} AppendBoundaries(s1: string, k1: seq<Kind>, end: nat, nl: nat, close: nat)
    requires Labelled(s1, k1) && 0 < end <= nl < close < |s1| && k1[close] == Code && k1[nl] == Code
    requires !IsTrivia(s1, k1, end - 1) && TriviaOrCommas(s1, k1, end, close)
    ensures Boundary(s1, k1, end) && Boundary(s1, k1, nl + 1) && Boundary(s1, k1, close) && Boundary(s1, k1, close + 1)
    ensures NoSlash(s1, k1, end, nl) && NoSlash(s1, k1, nl + 1, close)
  {
    hide RunTo, Boundary, Lex;
    NoLiterals(s1, k1, end, close);
    LexedFromStart(s1, k1);
    assert k1[end] == Code || k1[end] == Comment;
    TokenBoundaryHere(s1, k1, end);
    CodeIsTopLevel(s1, k1, nl);
    CodeIsTopLevel(s1, k1, close);
  }

  lemma {:induction false} TokenBoundaryHere(s: string, kinds: seq<Kind>, q: nat)
    requires Labelled(s, kinds) && 0 < q < |s| && (kinds[q] == Code || kinds[q - 1] != kinds[q])
    ensures Boundary(s, kinds, q)
  {
    hide RunTo;
    LexedFromStart(s, kinds);
    TokenBoundary(s, Start, kinds, q);
  }

  lemma {:induction false} EndIsBoundary(s: string, kinds: seq<Kind>, end: nat, close: nat)
    requires Labelled(s, kinds) && 0 < end <= close < |s| == |kinds| && kinds[close] == Code && !IsTrivia(s, kinds, end - 1)
    requires NoSlash(s, kinds, end, close)
    ensures Boundary(s, kinds, end) && Boundary(s, kinds, close) && Boundary(s, kinds, close + 1)
  {
    hide Lex, RunTo, Boundary;
    assert kinds[end] == Code || kinds[end] == Comment;
    TokenBoundaryHere(s, kinds, end);
    CodeIsTopLevel(s, kinds, close);
  }

  lemma {:induction false} AppendLabels(s1: string, k1: seq<Kind>, end: nat, nl: nat, close: nat, c: string, m': nat,
                                        x: string, kx: seq<Kind>, es: nat, entry: ObjectEntry, p: nat, s2: string)
    returns (k2: seq<Kind>)
    requires Labelled(s1, k1) && 0 < end <= nl < close < |s1| && At(s1, close, '}') && k1[close] == Code
    requires s1[nl] == '\n' && k1[nl] == Code && forall k :: end <= k < nl ==> s1[k] != '\n'
    requires !IsTrivia(s1, k1, end - 1) && TriviaOrCommas(s1, k1, end, close)
    requires SeparatorAt(s1, k1, end, nl, c, m')
    requires OneEntry(x, kx, es, entry) && Appended(s1, end, nl, c, x, p, s2)
    ensures Labelled(s2, k2) && |k2| == |s2| && AppendedUpTo(k1, end, nl, c, p, k2)
    ensures Agree(kx, k2, p, 0, |x|) && Agree(k1, k2, p + |x| - nl - 1, nl + 1, |s1|)
  {
    hide RunTo, Lex, Boundary, Agree, NoSlash, StopsAt, OpensRegex, ScanTo, AllTrivia, SameLeft, BreaksLine;
    var d := p + |x| - nl - 1;
    AppendBoundaries(s1, k1, end, nl, close);
    var pre := TopLevel(k1, end).kinds;
    var mid := AppendHead(s1, k1, end, nl, c, x, p, s2);
    SeparatorMoved(s1, k1, end, nl, c, x, p, s2, mid, m');
    OpensAfter(s2, mid, m', p);
    BreakEnds(s2, nl + |c|, p);
    var mid2 := BlockLabels(x, kx, s2, mid);
    assert ReadsOn(s2, mid, mid2);
    ReadsOnTrans(s2, pre, mid, mid2);
    var mid3 := AppendRest(s1, k1, nl + 1, close, s2, mid2);
    ReadsOnTrans(s2, pre, mid2, mid3);
    AgreePart(s1, s2, d, nl + 1, |s1|, close + 1, |s1|);
    AppendStops(s1, k1, end, nl, c, x, p, s2);
    k2 := SpliceLabels(s1, k1, end, close + 1, s2, mid3);
    ReadsOnTo(s2, mid2, mid3, k2);
    ReadsOnTo(s2, mid, mid3, k2) by { ReadsOnTrans(s2, mid, mid2, mid3); }
    AppendedUpToTrans(k1, end, nl, c, p, mid, k2);
    AgreePart(mid2, k2, 0, 0, |mid2|, p, |mid2|);
    AgreeTrans(kx, mid2, k2, p, 0, 0, |x|);
    AgreePart(mid3, k2, 0, 0, |mid3|, nl + 1 + d, close + 1 + d);
    AgreeTrans(k1, mid3, k2, d, 0, nl + 1, close + 1);
    AgreeJoin(k1, k2, d, nl + 1, close + 1, |s1|);
  }

  lemma {:induction false} BreakEnds(s2: string, p: nat, q: nat)
    requires BreaksLine(s2, p, q)
    ensures p < q && s2[q - 1] == '\n'
  {
  }

  /** What is read on from a state that agrees with later labels agrees with them too. */
  lemma {:induction false} ReadsOnTo(s2: string, k0: seq<Kind>, k1: seq<Kind>, k2: seq<Kind>)
    requires ReadsOn(s2, k0, k1) && Agree(k1, k2, 0, 0, |k1|)
    ensures Agree(k0, k2, 0, 0, |k0|)
  {
    hide RunTo, Agree;
    AgreePart(k1, k2, 0, 0, |k1|, 0, |k0|);
    AgreeTrans(k0, k1, k2, 0, 0, 0, |k0|);
  }

  lemma {:induction false} AppendedUpToTrans(k1: seq<Kind>, end: nat, nl: nat, c: string, p: nat, mid: seq<Kind>, k2: seq<Kind>)
    requires AppendedUpTo(k1, end, nl, c, p, mid) && |mid| == p && end <= nl && nl + |c| <= p && (c == "" || c == ",")
    requires p <= |k2| && Agree(mid, k2, 0, 0, p)
    ensures AppendedUpTo(k1, end, nl, c, p, k2)
  {
    hide Agree;
    AgreePart(mid, k2, 0, 0, p, 0, end);
    AgreeTrans(k1, mid, k2, 0, 0, 0, end);
    AgreePart(mid, k2, 0, 0, p, end + |c|, nl + |c|);
    AgreeTrans(k1, mid, k2, |c|, 0, end, nl);
    if c == "," { AgreeAt(mid, k2, 0, 0, p, end); }
  }

  // ---------------------------------------------------------------------------
  // The object read back
  // ---------------------------------------------------------------------------

  /** The scan of the new file, from the new entry's place to the end of the object. */
  lemma {:induction false} AppendScan(s1: string, k1: seq<Kind>, open: nat, nl: nat, close: nat, entries: seq<ObjectEntry>,
                                      x: string, kx: seq<Kind>, es: nat, entry: ObjectEntry, p: nat, s2: string, k2: seq<Kind>, m': nat)
    requires |s1| == |k1| && |s2| == |k2| && nl < close < |s1| && k1[close] == Code && s1[close] == '}'
    requires AllTrivia(s1, k1, nl + 1, close) && OneEntry(x, kx, es, entry)
    requires Same(x, kx, s2, k2, p, 0, |x|) && Same(s1, k1, s2, k2, p + |x| - nl - 1, nl + 1, |s1|)
    requires p + |x| + |s1| - nl - 1 == |s2|
    requires ReadUpTo(s2, k2, open, m', entries) && m' <= p && AllTrivia(s2, k2, m', p)
    requires At(s2, open, '{') && k2[open] == Code
    ensures ScanObject(s2, k2, open) == Success(ObjectScan(open, close + p + |x| - nl - 1, entries + [Move(entry, p)]))
  {
    hide Lex, ScanTo, Agree, AllTrivia;
    var d := p + |x| - nl - 1;
    var acc := entries + [Move(entry, p)];
    AgreePart(s1, s2, d, nl + 1, |s1|, nl + 1, close);
    AgreePart(k1, k2, d, nl + 1, |s1|, nl + 1, close);
    AgreeAt(s1, s2, d, nl + 1, |s1|, close);
    AgreeAt(k1, k2, d, nl + 1, |s1|, close);
    TriviaMoved(s1, k1, s2, k2, d, nl + 1, close);
    ScanClose(s2, k2, p + |x|, close + d, acc);
    BlockScan(x, kx, es, entry, s2, k2, p, entries);
    ScanEnds(s2, k2, open, m', p, entries);
  }

  /** Only trivia up to the closing brace. */
  lemma {:induction false} ScanClose(s: string, kinds: seq<Kind>, p: nat, close: nat, acc: seq<ObjectEntry>)
    requires p <= close < |s| == |kinds| && AllTrivia(s, kinds, p, close) && kinds[close] == Code && s[close] == '}'
    ensures ScanTo(s, kinds, p, ScanState(0, p, acc), |s|) == Complete(close, acc)
  {
    hide ReadEntry;
    ScanTrivia(s, kinds, p, ScanState(0, p, acc), close);
    ScanCompose(s, kinds, p, ScanState(0, p, acc), close, |s|);
    assert ReadEntry(s, kinds, p, close).None?;
    assert acc + [] == acc;
  }

  /**
   * At the end of an object: the file with a separator, where none was, and `x` on its own line
   * after the last entry is read as the same object with exactly the new entry added.
   */
  lemma {:induction false} InsertLastReadsBack(s1: string, k1: seq<Kind>, scan: ObjectScan, hasComma: bool,
                                               x: string, kx: seq<Kind>, es: nat, entry: ObjectEntry, p: nat, s2: string)
    returns (k2: seq<Kind>)
    requires Labelled(s1, k1) && |s1| == |k1| && ScanObject(s1, k1, scan.open) == Success(scan) && scan.entries != []
    requires OneEntry(x, kx, es, entry)
    requires var end := scan.entries[|scan.entries| - 1].end;
             && 0 < end <= scan.close
             && var nl := LineEnd(s1, end);
             && nl < scan.close && k1[nl] == Code
             && SeparatorIn(s1, k1, end, scan.close, LineBreak(s1, end)) == Some(hasComma)
             && Appended(s1, end, nl, if hasComma then "" else ",", x, p, s2)
    ensures var end := scan.entries[|scan.entries| - 1].end;
            var nl := LineEnd(s1, end);
            && AppendedUpTo(k1, end, nl, if hasComma then "" else ",", p, k2)
            && Agree(kx, k2, p, 0, |x|) && Agree(k1, k2, p + |x| - nl - 1, nl + 1, |s1|)
    ensures Labelled(s2, k2) && |k2| == |s2| && 0 <= scan.close + |s2| - |s1|
    ensures ScanObject(s2, k2, scan.open)
         == Success(ObjectScan(scan.open, scan.close + |s2| - |s1|, scan.entries + [Move(entry, p)]))
  {
    hide RunTo, Lex, Boundary, Agree, ScanTo, AllTrivia, OneEntry, Appended, TriviaOrCommas, ReadUpTo, SeparatorIn, ReadEntry, AppendedUpTo,
      SeparatorAt;
    var last := scan.entries[|scan.entries| - 1];
    var end, acc := last.end, scan.entries[..|scan.entries| - 1];
    var nl, c := LineEnd(s1, end), if hasComma then "" else ",";
    var m := LastPoint(s1, k1, scan);
    assert acc + [last] == scan.entries;
    var m' := SeparatorPoint(s1, k1, scan, m, hasComma);
    k2 := AppendLabels(s1, k1, end, nl, scan.close, c, m', x, kx, es, entry, p, s2);
    SeparatorMoved(s1, k1, end, nl, c, x, p, s2, k2, m');
    AppendReadUpTo(s1, k1, scan, m, hasComma, m', x, p, s2, k2);
    AppendFacts(s1, end, nl, c, x, p, s2);
    RestIsTrivia(s1, k1, end, nl, scan.close);
    AppendedUpToFacts(k1, end, nl, c, p, k2);
    AgreeAt(s1, s2, 0, 0, end, scan.open);
    AgreeAt(k1, k2, 0, 0, end, scan.open);
    AppendScan(s1, k1, scan.open, nl, scan.close, scan.entries, x, kx, es, entry, p, s2, k2, m');
  }

  lemma {:induction false} AppendedUpToFacts(k1: seq<Kind>, end: nat, nl: nat, c: string, p: nat, kk: seq<Kind>)
    requires AppendedUpTo(k1, end, nl, c, p, kk)
    ensures Agree(k1, kk, 0, 0, end)
  {
  }

  lemma {:induction false} AppendFacts(s1: string, end: nat, nl: nat, c: string, x: string, p: nat, s2: string)
    requires Appended(s1, end, nl, c, x, p, s2)
    ensures p + |x| + |s1| - nl - 1 == |s2| && Agree(s1, s2, 0, 0, end)
    ensures Agree(x, s2, p, 0, |x|) && Agree(s1, s2, p + |x| - nl - 1, nl + 1, |s1|)
  {
  }

  /** No separator stands after the line of the last entry. */
  lemma {:induction false} RestIsTrivia(s: string, kinds: seq<Kind>, end: nat, nl: nat, close: nat)
    requires 0 < end <= nl < close <= |s| == |kinds| && nl == LineEnd(s, end) && TriviaOrCommas(s, kinds, end, close)
    requires SeparatorIn(s, kinds, end, close, LineBreak(s, end)).Some?
    ensures AllTrivia(s, kinds, nl + 1, close)
  {
    hide SeparatorIn, LineEnd;
    forall k | nl + 1 <= k < close ensures IsTrivia(s, kinds, k) {
      TriviaOrComma(s, kinds, end, close, k);
      assert !IsCodeComma(s, kinds, k);
    }
  }

  lemma {:induction false} SeparatorPoint(s: string, kinds: seq<Kind>, scan: ObjectScan, m: nat, hasComma: bool) returns (m': nat)
    requires |s| == |kinds| && scan.entries != []
    requires var n := |scan.entries| - 1;
             var last := scan.entries[n];
             && m < last.end <= scan.close < |s| && LineEnd(s, last.end) < scan.close
             && ReadUpTo(s, kinds, scan.open, m, scan.entries[..n])
             && ScanTo(s, kinds, m, ScanState(0, m, scan.entries[..n]), last.end) == Running(ScanState(0, m, scan.entries[..n]))
             && ReadEntry(s, kinds, m, last.end) == Some(last)
             && TriviaOrCommas(s, kinds, last.end, scan.close)
             && SeparatorIn(s, kinds, last.end, scan.close, LineBreak(s, last.end)) == Some(hasComma)
    ensures var end := scan.entries[|scan.entries| - 1].end;
            && SeparatorAt(s, kinds, end, LineEnd(s, end), if hasComma then "" else ",", m')
            && (hasComma ==> ReadUpTo(s, kinds, scan.open, m', scan.entries))
  {
    hide SeparatorIn, LineEnd, ScanTo, ReadEntry, ReadUpTo;
    var last := scan.entries[|scan.entries| - 1];
    var acc, nl := scan.entries[..|scan.entries| - 1], LineEnd(s, last.end);
    assert acc + [last] == scan.entries;
    TriviaOrCommasPart(s, kinds, last.end, scan.close, last.end, nl);
    if hasComma {
      var k :| last.end <= k < scan.close && IsCodeComma(s, kinds, k);
      assert k < LineBreak(s, last.end) <= nl;
      m' := OwnSeparator(s, kinds, scan.open, m, acc, last, nl);
    } else {
      m' := last.end + 1;
      forall k | last.end <= k < nl ensures IsTrivia(s, kinds, k) {
        TriviaOrComma(s, kinds, last.end, nl, k);
        assert !IsCodeComma(s, kinds, k);
      }
    }
  }

  lemma {:induction false} AppendReadUpTo(s1: string, k1: seq<Kind>, scan: ObjectScan, m: nat, hasComma: bool, m': nat,
                                          x: string, p: nat, s2: string, k2: seq<Kind>)
    requires |s1| == |k1| && |s2| == |k2| && scan.entries != []
    requires var n := |scan.entries| - 1;
             var last := scan.entries[n];
             && m < last.end <= |s1| && LineEnd(s1, last.end) < |s1|
             && ReadUpTo(s1, k1, scan.open, m, scan.entries[..n])
             && ScanTo(s1, k1, m, ScanState(0, m, scan.entries[..n]), last.end) == Running(ScanState(0, m, scan.entries[..n]))
             && ReadEntry(s1, k1, m, last.end) == Some(last)
    requires var end := scan.entries[|scan.entries| - 1].end;
             var nl, c := LineEnd(s1, end), if hasComma then "" else ",";
             && SeparatorAt(s1, k1, end, nl, c, m') && (hasComma ==> ReadUpTo(s1, k1, scan.open, m', scan.entries))
             && Appended(s1, end, nl, c, x, p, s2) && AppendedUpTo(k1, end, nl, c, p, k2)
    ensures ReadUpTo(s2, k2, scan.open, m', scan.entries)
  {
    hide LineEnd, ScanTo, ReadEntry, ReadUpTo, Agree, AllTrivia;
    var last := scan.entries[|scan.entries| - 1];
    var acc, nl := scan.entries[..|scan.entries| - 1], LineEnd(s1, last.end);
    assert acc + [last] == scan.entries;
    if hasComma {
      AgreeJoin(s1, s2, 0, 0, last.end, nl);
      AgreeJoin(k1, k2, 0, 0, last.end, nl);
      AgreePart(s1, s2, 0, 0, nl, 0, m');
      AgreePart(k1, k2, 0, 0, nl, 0, m');
      ReadUpToSame(s1, k1, s2, k2, scan.open, m', scan.entries);
    } else {
      AddedSeparator(s1, k1, scan.open, m, acc, last, s2, k2);
    }
  }

  // ---------------------------------------------------------------------------
  // The first entry of an empty object
  // ---------------------------------------------------------------------------

  /** `s2` is `s1` with the spaces between two braces replaced by `x`, between spaces. */
  ghost predicate Filled(s1: string, open: nat, close: nat, x: string, p: nat, q: nat, s2: string) {
    && open < close < |s1| && open + 1 < p && p + |x| <= q && |s2| == |s1| + q - close
    && Agree(s1, s2, 0, 0, open + 1) && AllSpace(s2, open + 1, p)
    && Agree(x, s2, p, 0, |x|) && AllSpace(s2, p + |x|, q) && Agree(s1, s2, q - close, close, |s1|)
  }

  lemma {:induction false} SpacesAreTrivia(s: string, kinds: seq<Kind>, lo: nat, hi: nat)
    requires hi <= |s| && hi <= |kinds| && AllSpace(s, lo, hi)
    ensures AllTrivia(s, kinds, lo, hi)
  {
    forall k | lo <= k < hi ensures IsTrivia(s, kinds, k) { assert IsSpace(s[k]); }
  }

  lemma {:induction false} FilledLabels(s1: string, k1: seq<Kind>, open: nat, close: nat, x: string, kx: seq<Kind>, es: nat,
                                        entry: ObjectEntry, p: nat, q: nat, s2: string)
    returns (k2: seq<Kind>)
    requires Labelled(s1, k1) && Filled(s1, open, close, x, p, q, s2) && OneEntry(x, kx, es, entry)
    requires At(s1, open, '{') && k1[open] == Code && At(s1, close, '}') && k1[close] == Code
    ensures Labelled(s2, k2) && |k2| == |s2|
    ensures Agree(k1, k2, 0, 0, open + 1) && Agree(kx, k2, p, 0, |x|) && Agree(k1, k2, q - close, close, |s1|)
  {
    hide RunTo, Lex, Boundary, Agree, StopsAt, OpensRegex, ScanTo, AllTrivia, SameLeft;
    CodeIsTopLevel(s1, k1, open);
    CodeIsTopLevel(s1, k1, close);
    var pre := TopLevel(k1, open + 1).kinds;
    AgreePrefix(k1, pre, open + 1);
    AgreeAt(s1, s2, 0, 0, open + 1, open);
    var mid := ReadsSpaces(s2, pre, p);
    AgreeAt(pre, mid, 0, 0, |pre|, open);
    OpensAfter(s2, mid, open + 1, p);
    assert IsSpace(s2[p - 1]) && !IsIdent(s2[p - 1]);
    var mid2 := BlockLabels(x, kx, s2, mid);
    assert ReadsOn(s2, mid, mid2);
    ReadsOnTrans(s2, pre, mid, mid2);
    var mid3 := ReadsSpaces(s2, mid2, q);
    ReadsOnTrans(s2, pre, mid2, mid3);
    AgreeAt(s1, s2, q - close, close, |s1|, close);
    ReadsChar(s2, mid3);
    var mid4 := mid3 + [Code];
    ReadsOnTrans(s2, pre, mid3, mid4);
    AllTriviaNothing(s1, k1, close + 1);
    OpensAfter(s1, k1, close + 1, close + 1);
    OpensAfterEnd(s2, mid4);
    SameLeftAfterBrace(s1, k1, s2, mid4, close + 1, q - close);
    AgreePart(s1, s2, q - close, close, |s1|, close + 1, |s1|);
    FilledStops(s1, k1, open, close, x, p, q, s2);
    AgreePart(s1, s2, 0, 0, open + 1, 0, open + 1);
    k2 := SpliceLabels(s1, k1, open + 1, close + 1, s2, mid4);
    ReadsOnTo(s2, pre, mid4, k2);
    AgreeTrans(k1, pre, k2, 0, 0, 0, open + 1);
    ReadsOnTrans(s2, mid2, mid3, mid4);
    ReadsOnTo(s2, mid2, mid4, k2);
    AgreePart(mid2, k2, 0, 0, |mid2|, p, |mid2|);
    AgreeTrans(kx, mid2, k2, p, 0, 0, |x|);
    BraceLabelled(k1, mid4, k2, close, q);
  }

  /** The labels from the closing brace on. */
  lemma {:induction false} BraceLabelled(k1: seq<Kind>, mid: seq<Kind>, k2: seq<Kind>, close: nat, q: nat)
    requires close < |k1| && |mid| == q + 1 && mid[q] == k1[close] == Code && Agree(mid, k2, 0, 0, |mid|)
    requires Agree(k1, k2, q - close, close + 1, |k1|)
    ensures Agree(k1, k2, q - close, close, |k1|)
  {
    hide Agree;
    AgreeBounds(mid, k2, 0, 0, |mid|);
    AgreeAt(mid, k2, 0, 0, |mid|, q);
    AgreeNothing(k1, k2, q - close, close);
    AgreeOne(k1, k2, q - close, close, close);
    AgreeJoin(k1, k2, q - close, close, close + 1, |k1|);
  }

  lemma {:induction false} SameLeftAfterBrace(s1: string, k1: seq<Kind>, s2: string, k2: seq<Kind>, b: nat, d: int)
    requires 0 < b <= |s1| && b <= |k1| && 0 < b + d <= |s2| && b + d <= |k2|
    requires s1[b - 1] == '}' && s2[b + d - 1] == '}' && OpensRegex(s1, k1, b) && OpensRegex(s2, k2, b + d)
    ensures SameLeft(s1, k1, s2, k2, b, d)
  {
    hide OpensRegex;
  }

  lemma {:induction false} FilledStops(s1: string, k1: seq<Kind>, open: nat, close: nat, x: string, p: nat, q: nat, s2: string)
    requires |s1| == |k1| && Filled(s1, open, close, x, p, q, s2) && k1[open] == Code
    ensures StopsAt(s1, s2, open + 1, 0, k1)
  {
    assert IsSpace(s2[open + 1]);
  }

  /** In an empty object, the new file is read as the object with exactly the new entry. */
  lemma {:induction false} InsertFirstReadsBack(s1: string, k1: seq<Kind>, scan: ObjectScan,
                                                x: string, kx: seq<Kind>, es: nat, entry: ObjectEntry, p: nat, q: nat, s2: string)
    returns (k2: seq<Kind>)
    requires Labelled(s1, k1) && |s1| == |k1| && ScanObject(s1, k1, scan.open) == Success(scan) && scan.entries == []
    requires OneEntry(x, kx, es, entry) && Filled(s1, scan.open, scan.close, x, p, q, s2)
    ensures Labelled(s2, k2) && |k2| == |s2|
    ensures ScanObject(s2, k2, scan.open) == Success(ObjectScan(scan.open, q, [Move(entry, p)]))
    ensures Agree(k1, k2, 0, 0, scan.open + 1) && Agree(kx, k2, p, 0, |x|) && Agree(k1, k2, q - scan.close, scan.close, |s1|)
  {
    hide RunTo, Lex, Boundary, Agree, ScanTo, OneEntry;
    var open, close := scan.open, scan.close;
    ScanObjectCloses(s1, k1, scan);
    k2 := FilledLabels(s1, k1, open, close, x, kx, es, entry, p, q, s2);
    AgreeAt(s1, s2, 0, 0, open + 1, open);
    AgreeAt(k1, k2, 0, 0, open + 1, open);
    AgreeAt(s1, s2, q - close, close, |s1|, close);
    AgreeAt(k1, k2, q - close, close, |s1|, close);
    SpacesAreTrivia(s2, k2, open + 1, p);
    SpacesAreTrivia(s2, k2, p + |x|, q);
    ScanClose(s2, k2, p + |x|, q, [Move(entry, p)]);
    assert [] + [Move(entry, p)] == [Move(entry, p)];
    BlockScan(x, kx, es, entry, s2, k2, p, []);
    ScanNothing(s2, k2, open);
    ScanEnds(s2, k2, open, open + 1, p, []);
  }

  lemma {:induction false} ScanObjectCloses(s: string, kinds: seq<Kind>, scan: ObjectScan)
    requires |s| == |kinds| && ScanObject(s, kinds, scan.open) == Success(scan)
    ensures scan.open < scan.close < |s| && At(s, scan.open, '{') && kinds[scan.open] == Code
    ensures At(s, scan.close, '}') && kinds[scan.close] == Code
  {
    hide ScanTo;
  }
}

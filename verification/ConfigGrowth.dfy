/**
 * Text put inside a block comment of a `neon.ts` file: the comment grows, the objects keep the
 * names of their entries, and the same config object is found.
 */
module ConfigGrowth {
  import opened Wrappers
  import opened Text
  import opened SourceLexer
  import opened LexerTokens
  import opened LexerShift
  import opened LexerSplice
  import opened ObjectScan
  import opened ObjectShift
  import opened ScanSplice
  import opened ConfigEdit
  import opened ConfigSplice
  import opened ConfigAppend
  import opened ConfigFind
  import opened ConfigEntries

  // ---------------------------------------------------------------------------
  // The comment
  // ---------------------------------------------------------------------------

  /** `[c, e)` is a block comment, one token of a labelled text. */
  ghost predicate IsBlockComment(s: string, kinds: seq<Kind>, c: nat, e: nat) {
    && c + 4 <= e <= |s| == |kinds| && s[c] == '/' && s[c + 1] == '*' && BlockEnd(s, c + 2) == Some(e)
    && Boundary(s, kinds, c) && Boundary(s, kinds, e)
    && forall i {:trigger kinds[i]} :: c <= i < e ==> kinds[i] == Comment
  }

  /** A token with a newline labelled as a comment is a block comment. */
  lemma {:induction false} BlockStep(s: string, st: LexState, q: nat)
    requires Valid(s, st) && |st.kinds| < |s| && st.stack == [] && Step(s, st).Success? && Step(s, st).value.stack == []
    requires |st.kinds| <= q < |Step(s, st).value.kinds| && s[q] == '\n' && Step(s, st).value.kinds[q] == Comment
    ensures var c, e := |st.kinds|, |Step(s, st).value.kinds|;
            && s[c] == '/' && At(s, c + 1, '*') && BlockEnd(s, c + 2) == Some(e) && c + 2 <= q && q + 3 <= e
            && forall i :: c <= i < e ==> Step(s, st).value.kinds[i] == Comment
  {
    hide OpensRegex, RegexEnd, FlagsEnd, TemplateEnd, StringEnd, BlockEnd, LineEnd;
  }

  /** A newline labelled as a comment is inside a block comment. */
  lemma {:induction false} NewlineInBlock(s: string, st: LexState, kinds: seq<Kind>, q: nat) returns (c: nat, e: nat)
    requires Lex(s) == Success(kinds) && Reaches(s, st, kinds) && st.stack == [] && st == TopLevel(kinds, |st.kinds|)
    requires Boundary(s, kinds, |st.kinds|)
    requires |st.kinds| <= q < |s| && s[q] == '\n' && kinds[q] == Comment
    ensures IsBlockComment(s, kinds, c, e) && c + 2 <= q && q + 3 <= e
    decreases |s| - |st.kinds|
  {
    hide Step, BlockEnd;
    StepOutside(s, st);
    var i, next := |st.kinds|, Step(s, st).value;
    RunSettles(s, next, |s|);
    var n: nat;
    if next.stack == [] {
      n := |next.kinds|;
      assert next == TopLevel(kinds, n);
      assert RunTo(s, st, n) == Success(next) by { assert RunTo(s, next, n) == Success(next); }
    } else {
      n := TemplateIsSolid(s, next, kinds);
      var m := next.stack[0].start;
      assert kinds[..m] == next.kinds[..m];
      assert forall k :: i <= k < m ==> kinds[k] == next.kinds[k];
      RunCompose(s, st, |next.kinds|, n);
    }
    RunCompose(s, Start, i, n);
    if n <= q {
      BoundaryGoesOn(s, kinds, n);
      c, e := NewlineInBlock(s, TopLevel(kinds, n), kinds, q);
    } else {
      assert next.stack == [];
      assert forall k :: i <= k < n ==> kinds[k] == next.kinds[k];
      BlockStep(s, st, q);
      c, e := i, n;
    }
  }

  /** Text that ends no comment, whatever stands around it. */
  predicate NoTerminator(x: string) {
    && (x != "" ==> x[0] != '/' && x[|x| - 1] != '*')
    && forall i :: 0 <= i < |x| - 1 ==> !(x[i] == '*' && x[i + 1] == '/')
  }

  /** `x` put at `p` inside the block comment `[c, e)`, without ending it. */
  ghost predicate Grown(s: string, kinds: seq<Kind>, c: nat, e: nat, p: nat, x: string, s2: string) {
    && IsBlockComment(s, kinds, c, e) && c + 2 <= p && p + 2 <= e
    && NoTerminator(x) && |s2| == |s| + |x| && Agree(s, s2, 0, 0, p) && Agree(x, s2, p, 0, |x|) && Agree(s, s2, |x|, p, |s|)
  }

  lemma {:induction false} BlockEndSkip(s: string, i: nat, j: nat)
    requires i <= j <= |s| && forall k :: i <= k < j ==> !(s[k] == '*' && At(s, k + 1, '/'))
    ensures BlockEnd(s, i) == BlockEnd(s, j)
    decreases j - i
  {
    if i < j { BlockEndSkip(s, i + 1, j); }
  }

  /** The terminator is found behind what was put in. */
  lemma {:induction false} BlockEndGrown(s: string, p: nat, x: string, s2: string, i: nat, e: nat)
    requires i <= p && p + 2 <= e && BlockEnd(s, i) == Some(e) && |s2| == |s| + |x|
    requires Agree(s, s2, 0, 0, p) && Agree(x, s2, p, 0, |x|) && Agree(s, s2, |x|, p, |s|)
    requires NoTerminator(x)
    ensures BlockEnd(s2, i) == Some(e + |x|)
    decreases p - i
  {
    if i < p {
      assert s[i] == s2[i];
      if i + 1 < p {
        assert s[i + 1] == s2[i + 1];
      } else if x != "" {
        assert x[0] == s2[0 + p];
      } else {
        assert s[p] == s2[p + 0];
      }
      BlockEndGrown(s, p, x, s2, i + 1, e);
    } else {
      forall k | p <= k < p + |x| ensures !(s2[k] == '*' && At(s2, k + 1, '/')) {
        assert x[k - p] == s2[k - p + p];
        if k + 1 < p + |x| { assert x[k + 1 - p] == s2[k + 1 - p + p]; }
      }
      BlockEndSkip(s2, p, p + |x|);
      AgreePart(s, s2, |x|, p, |s|, p, e);
      BlockEndShift(s, s2, |x|, p);
    }
  }

  /** The labels with the comment grown by `d`. */
  ghost predicate GrownLabels(k1: seq<Kind>, c: nat, e: nat, d: nat, k2: seq<Kind>) {
    && e <= |k1| && |k2| == |k1| + d && c <= e
    && Agree(k1, k2, 0, 0, c) && Agree(k1, k2, d, e, |k1|)
    && forall i {:trigger k2[i]} :: c <= i < e + d ==> k2[i] == Comment
  }

  lemma {:induction false} CommentReads(s2: string, pre: seq<Kind>, e2: nat)
    requires |pre| + 2 <= e2 <= |s2| && s2[|pre|] == '/' && s2[|pre| + 1] == '*' && BlockEnd(s2, |pre| + 2) == Some(e2)
    ensures var mid := pre + Fill(e2 - |pre|, Comment);
            RunTo(s2, LexState(pre, []), e2) == Success(LexState(mid, []))
  {
    hide BlockEnd, OpensRegex;
    var c := |pre|;
    var mid := pre + Fill(e2 - c, Comment);
    assert pre[..c] == pre;
    assert Step(s2, LexState(pre, [])) == Success(LexState(mid, []));
    assert RunTo(s2, LexState(mid, []), e2) == Success(LexState(mid, []));
  }

  lemma {:induction false} GrowLabels(s: string, k1: seq<Kind>, c: nat, e: nat, p: nat, x: string, s2: string) returns (k2: seq<Kind>)
    requires Labelled(s, k1) && Grown(s, k1, c, e, p, x, s2)
    ensures Labelled(s2, k2) && |k2| == |s2| && GrownLabels(k1, c, e, |x|, k2)
  {
    hide RunTo, Lex, Agree, BlockEnd, SameLeft, OpensRegex;
    var pre, d := TopLevel(k1, c).kinds, |x|;
    AgreeAt(s, s2, 0, 0, p, c);
    AgreeAt(s, s2, 0, 0, p, c + 1);
    BlockEndGrown(s, p, x, s2, c + 2, e);
    CommentReads(s2, pre, e + d);
    var mid := pre + Fill(e + d - c, Comment);
    AgreePart(s, s2, 0, 0, p, 0, c);
    AgreePart(s, s2, d, p, |s|, e, |s|);
    SameStopSame(s, s2, c, 0, k1);
    AgreePrefix(k1, pre, c);
    AgreePrefix(pre, mid, c);
    AgreeTrans(k1, pre, mid, 0, 0, 0, c);
    GrownLeft(s, k1, c, e, p, x, s2, mid);
    k2 := SpliceLabels(s, k1, c, e, s2, mid);
    GrownFill(k1, c, e, d, mid, k2);
  }

  lemma {:induction false} GrownFill(k1: seq<Kind>, c: nat, e: nat, d: nat, mid: seq<Kind>, k2: seq<Kind>)
    requires c <= e <= |k1| && |mid| == e + d && |k2| == |k1| + d && Agree(mid, k2, 0, 0, |mid|) && Agree(k1, mid, 0, 0, c)
    requires Agree(k1, k2, d, e, |k1|) && forall i :: c <= i < e + d ==> mid[i] == Comment
    ensures GrownLabels(k1, c, e, d, k2)
  {
    hide Agree;
    AgreePart(mid, k2, 0, 0, |mid|, 0, c);
    AgreeTrans(k1, mid, k2, 0, 0, 0, c);
    forall i {:trigger k2[i]} | c <= i < e + d ensures k2[i] == Comment { AgreeAt(mid, k2, 0, 0, |mid|, i); }
  }

  lemma {:induction false} OpensAtStart(s: string, kinds: seq<Kind>, i: nat)
    requires i <= |s| && i <= |kinds| && SignificantEnd(s, kinds, i) == 0
    ensures OpensRegex(s, kinds, i)
  {
    hide SignificantEnd;
  }

  /** What a `/` behind the comment looks back at is the same. */
  lemma {:induction false} GrownLeft(s: string, k1: seq<Kind>, c: nat, e: nat, p: nat, x: string, s2: string, mid: seq<Kind>)
    requires Grown(s, k1, c, e, p, x, s2) && |mid| == e + |x| && Agree(k1, mid, 0, 0, c)
    requires forall i {:trigger mid[i]} :: c <= i < |mid| ==> mid[i] == Comment
    ensures SameLeft(s, k1, s2, mid, e, |x|)
  {
    hide BlockEnd, WordStart, SignificantEnd, Boundary, OpensRegex;
    var d := |x|;
    CommentsPassed(s, k1, c, e);
    CommentsPassed(s2, mid, c, e + d);
    AgreePart(s, s2, 0, 0, p, 0, c);
    SignificantSame(s, k1, s2, mid, c);
    var q := SignificantEnd(s, k1, c);
    if q > 0 {
      assert s[q - 1] == s2[q - 1] && k1[q - 1] == mid[q - 1];
      WordSame(s, s2, q);
      OpensAlike(s, k1, e, s2, mid, e + d, q, q, 0);
    } else {
      OpensAtStart(s, k1, e);
      OpensAtStart(s2, mid, e + d);
    }
    TerminatorBreaks(s, c, e);
    assert s[e - 1] == s2[e - 1 + d];
  }

  lemma {:induction false} TerminatorBreaks(s: string, c: nat, e: nat)
    requires BlockEnd(s, c + 2) == Some(e)
    ensures 0 < e <= |s| && s[e - 1] == '/'
  {
  }

  lemma {:induction false} CommentsPassed(s: string, kinds: seq<Kind>, c: nat, e: nat)
    requires c <= e <= |s| && e <= |kinds| && forall i {:trigger kinds[i]} :: c <= i < e ==> kinds[i] == Comment
    ensures SignificantEnd(s, kinds, e) == SignificantEnd(s, kinds, c)
    decreases e
  {
    if c < e {
      assert kinds[e - 1] == Comment;
      CommentsPassed(s, kinds, c, e - 1);
    }
  }

  lemma {:induction false} SignificantSame(s: string, k1: seq<Kind>, s2: string, k2: seq<Kind>, i: nat)
    requires Agree(s, s2, 0, 0, i) && Agree(k1, k2, 0, 0, i)
    ensures SignificantEnd(s, k1, i) == SignificantEnd(s2, k2, i)
    decreases i
  {
    if i > 0 {
      assert s[i - 1] == s2[i - 1] && k1[i - 1] == k2[i - 1];
      SignificantSame(s, k1, s2, k2, i - 1);
    }
  }

  lemma {:induction false} WordSame(s: string, s2: string, q: nat)
    requires Agree(s, s2, 0, 0, q)
    ensures WordStart(s, q) == WordStart(s2, q) && s[WordStart(s, q)..q] == s2[WordStart(s, q)..q]
    decreases q
  {
    if q > 0 {
      assert s[q - 1] == s2[q - 1];
      WordSame(s, s2, q - 1);
    }
    forall k | WordStart(s, q) <= k < q ensures s[k] == s2[k] { assert s[k] == s2[k + 0]; }
    assert s[WordStart(s, q)..q] == s2[WordStart(s, q)..q];
  }

  // ---------------------------------------------------------------------------
  // The objects
  // ---------------------------------------------------------------------------

  /** A file whose comment `[c, e)` has grown by `d`. */
  ghost predicate GrownFile(s: string, k1: seq<Kind>, c: nat, e: nat, d: nat, s2: string, k2: seq<Kind>) {
    && |s| == |k1| && |s2| == |k2| == |s| + d && c < e <= |s|
    && Same(s, k1, s2, k2, 0, 0, c) && Same(s, k1, s2, k2, d, e, |s|) && s[c] == '/' && s2[c] == '/' && s[e - 1] == '/'
    && (forall i {:trigger k1[i]} :: c <= i < e ==> k1[i] == Comment)
    && (forall i {:trigger k2[i]} :: c <= i < e + d ==> k2[i] == Comment)
  }

  lemma {:induction false} GrownIsFile(s: string, k1: seq<Kind>, c: nat, e: nat, p: nat, x: string, s2: string, k2: seq<Kind>)
    requires Grown(s, k1, c, e, p, x, s2) && GrownLabels(k1, c, e, |x|, k2) && |k2| == |s2|
    ensures GrownFile(s, k1, c, e, |x|, s2, k2)
  {
    hide Boundary, BlockEnd;
    AgreePart(s, s2, 0, 0, p, 0, c);
    AgreePart(s, s2, |x|, p, |s|, e, |s|);
    TerminatorBreaks(s, c, e);
    assert s[c] == s2[c + 0];
  }

  /** Where a character outside the comment has gone. */
  function Gone(c: nat, d: nat, i: nat): nat { if i < c then i else i + d }

  lemma {:induction false} GoneTrivia(s: string, k1: seq<Kind>, c: nat, e: nat, d: nat, s2: string, k2: seq<Kind>, i: nat)
    requires GrownFile(s, k1, c, e, d, s2, k2) && i < |s| && (i < c || e <= i)
    ensures IsTrivia(s2, k2, Gone(c, d, i)) == IsTrivia(s, k1, i)
  {
    if i < c { assert s[i] == s2[i + 0] && k1[i] == k2[i + 0]; } else { assert s[i] == s2[i + d] && k1[i] == k2[i + d]; }
  }

  /** A stretch around the comment is trivia just when it was. */
  lemma {:induction false} TriviaGrown(s: string, k1: seq<Kind>, c: nat, e: nat, d: nat, s2: string, k2: seq<Kind>, lo: nat, hi: nat)
    requires GrownFile(s, k1, c, e, d, s2, k2) && lo <= hi <= |s| && (lo <= c || e <= lo) && (hi <= c || e <= hi)
    requires AllTrivia(s, k1, lo, hi)
    ensures AllTrivia(s2, k2, if lo <= c then lo else lo + d, if hi <= c then hi else hi + d)
  {
    hide Agree;
    var lo2, hi2 := if lo <= c then lo else lo + d, if hi <= c then hi else hi + d;
    forall k | lo2 <= k < hi2 ensures IsTrivia(s2, k2, k) {
      if c <= k < e + d {
        assert k2[k] == Comment;
      } else {
        var i := if k < c then k else k - d;
        assert IsTrivia(s, k1, i);
        GoneTrivia(s, k1, c, e, d, s2, k2, i);
      }
    }
  }

  lemma {:induction false} LiteralEndCut(kinds: seq<Kind>, i: nat, c: nat, till: nat)
    requires i <= c < till <= |kinds| && kinds[c] != Literal
    ensures LiteralEnd(kinds, i, till) == LiteralEnd(kinds, i, c)
    decreases c - i
  {
    if i < c && kinds[i] == Literal { LiteralEndCut(kinds, i + 1, c, till); }
  }

  lemma {:induction false} IdentEndCut(s: string, i: nat, c: nat, till: nat)
    requires i <= c < till <= |s| && !IsIdent(s[c])
    ensures IdentEnd(s, i, till) == IdentEnd(s, i, c)
    decreases c - i
  {
    if i < c && IsIdent(s[i]) { IdentEndCut(s, i + 1, c, till); }
  }

  /** A comment ends any property name. */
  lemma {:induction false} KeyCut(s: string, kinds: seq<Kind>, start: nat, c: nat, end: nat)
    requires start < c < end <= |s| == |kinds| && kinds[c] == Comment && s[c] == '/'
    ensures ReadKey(s, kinds, start, end) == ReadKey(s, kinds, start, c)
  {
    hide LiteralEnd, IdentEnd;
    LiteralEndCut(kinds, start, c, end);
    IdentEndCut(s, start, c, end);
  }

  function KeyOf(key: Option<(string, nat)>): Option<string> {
    match key case None => None case Some((name, _)) => Some(name)
  }

  lemma {:induction false} KeyOfEntry(s: string, kinds: seq<Kind>, start: nat, end: nat)
    requires start < end <= |s| && end <= |kinds|
    ensures EntryAt(s, kinds, start, end).key == KeyOf(ReadKey(s, kinds, start, end))
  {
    hide ReadKey, SkipTrivia;
  }

  lemma {:induction false} KeyGrown(s: string, k1: seq<Kind>, c: nat, e: nat, d: nat, s2: string, k2: seq<Kind>, start: nat, last: nat)
    requires GrownFile(s, k1, c, e, d, s2, k2) && start <= last < |s| && (start < c || e <= start) && (last < c || e <= last)
    ensures KeyOf(ReadKey(s2, k2, Gone(c, d, start), Gone(c, d, last) + 1)) == KeyOf(ReadKey(s, k1, start, last + 1))
  {
    hide ReadKey, Agree;
    if last < c {
      AgreePart(s, s2, 0, 0, c, start, last + 1);
      AgreePart(k1, k2, 0, 0, c, start, last + 1);
      ReadKeyShift(s, k1, s2, k2, 0, start, last + 1);
    } else if start < c {
      KeyCut(s, k1, start, c, last + 1);
      KeyCut(s2, k2, start, c, last + d + 1);
      AgreePart(s, s2, 0, 0, c, start, c);
      AgreePart(k1, k2, 0, 0, c, start, c);
      ReadKeyShift(s, k1, s2, k2, 0, start, c);
    } else {
      AgreePart(s, s2, d, e, |s|, start, last + 1);
      AgreePart(k1, k2, d, e, |s|, start, last + 1);
      ReadKeyShift(s, k1, s2, k2, d, start, last + 1);
    }
  }

  /** An entry with the same name, in front of the comment where it was, and behind it moved. */
  predicate EntryGrown(c: nat, e: nat, d: nat, e1: ObjectEntry, e2: ObjectEntry) {
    e2.key == e1.key && (e1.end <= c ==> e2 == e1) && (e <= e1.start ==> e2 == Move(e1, d))
  }

  predicate OptionGrown(c: nat, e: nat, d: nat, r1: Option<ObjectEntry>, r2: Option<ObjectEntry>) {
    (r1.Some? <==> r2.Some?) && (r1.Some? ==> EntryGrown(c, e, d, r1.value, r2.value))
  }

  ghost predicate EntriesGrown(c: nat, e: nat, d: nat, es1: seq<ObjectEntry>, es2: seq<ObjectEntry>) {
    |es1| == |es2| && forall i :: 0 <= i < |es1| ==> EntryGrown(c, e, d, es1[i], es2[i])
  }

  /** An entry in front of the comment, in a segment with the comment in it. */
  lemma {:induction false} EntryInFront(s: string, k1: seq<Kind>, c: nat, e: nat, d: nat, s2: string, k2: seq<Kind>,
                                        from: nat, till: nat, till2: nat)
    requires GrownFile(s, k1, c, e, d, s2, k2) && from <= c && e <= till <= |s| && till2 == till + d
    requires AllTrivia(s, k1, c, till)
    ensures ReadEntry(s2, k2, from, till2) == ReadEntry(s, k1, from, till)
  {
    hide ReadEntry, Agree, GrownFile, AllTrivia;
    GrownParts(s, k1, c, e, d, s2, k2);
    AllTriviaNothing(s, k1, from);
    AllTriviaNothing(s2, k2, from);
    TriviaGrown(s, k1, c, e, d, s2, k2, c, till);
    ReadEntryWithin(s, k1, from, from, c, till);
    ReadEntryWithin(s2, k2, from, from, c, till2);
    AgreePart(s, s2, 0, 0, c, from, c);
    AgreePart(k1, k2, 0, 0, c, from, c);
    ReadEntryShift(s, k1, s2, k2, 0, from, c);
    MovedNowhere(ReadEntry(s, k1, from, c));
  }

  lemma {:induction false} MovedNowhere(r: Option<ObjectEntry>)
    ensures MoveOption(r, 0) == r
  {
  }

  /** An entry behind the comment, in a segment with the comment in it. */
  lemma {:induction false} EntryBehind(s: string, k1: seq<Kind>, c: nat, e: nat, d: nat, s2: string, k2: seq<Kind>,
                                       from: nat, till: nat, till2: nat)
    requires GrownFile(s, k1, c, e, d, s2, k2) && from <= c && e <= till <= |s| && till2 == till + d
    requires AllTrivia(s, k1, from, e)
    ensures ReadEntry(s2, k2, from, till2) == MoveOption(ReadEntry(s, k1, from, till), d)
  {
    hide ReadEntry, Agree, GrownFile, AllTrivia;
    GrownParts(s, k1, c, e, d, s2, k2);
    AllTriviaNothing(s, k1, till);
    AllTriviaNothing(s2, k2, till2);
    TriviaGrown(s, k1, c, e, d, s2, k2, from, e);
    ReadEntryWithin(s, k1, from, e, till, till);
    ReadEntryWithin(s2, k2, from, e + d, till2, till2);
    AgreePart(s, s2, d, e, |s|, e, till);
    AgreePart(k1, k2, d, e, |s|, e, till);
    ReadEntryShift(s, k1, s2, k2, d, e, till);
  }

  lemma {:induction false} ReadEntryAside(s: string, k1: seq<Kind>, c: nat, e: nat, d: nat, s2: string, k2: seq<Kind>, from: nat, till: nat)
    requires GrownFile(s, k1, c, e, d, s2, k2) && from <= c && e <= till <= |s| && ReadEntry(s, k1, from, till).Some?
    ensures var r1, r2 := ReadEntry(s, k1, from, till).value, ReadEntry(s2, k2, from, till + d);
            && (r1.end <= c ==> r2 == Some(r1)) && (e <= r1.start ==> r2 == Some(Move(r1, d)))
  {
    hide ReadEntry, GrownFile, AllTrivia;
    GrownParts(s, k1, c, e, d, s2, k2);
    var r1 := ReadEntry(s, k1, from, till).value;
    if r1.end <= c {
      TriviaPart(s, k1, r1.end, till, c, till);
      EntryInFront(s, k1, c, e, d, s2, k2, from, till, till + d);
    } else if e <= r1.start {
      TriviaPart(s, k1, from, r1.start, from, e);
      EntryBehind(s, k1, c, e, d, s2, k2, from, till, till + d);
    }
  }

  lemma {:induction false} TriviaPart(s: string, kinds: seq<Kind>, lo: nat, hi: nat, lo': nat, hi': nat)
    requires AllTrivia(s, kinds, lo, hi) && lo <= lo' <= hi' <= hi
    ensures AllTrivia(s, kinds, lo', hi')
  {
  }

  /** An entry's segment with the comment in it. */
  lemma {:induction false} ReadEntryGrown(s: string, k1: seq<Kind>, c: nat, e: nat, d: nat, s2: string, k2: seq<Kind>, from: nat, till: nat)
    requires GrownFile(s, k1, c, e, d, s2, k2) && from <= c && e <= till <= |s|
    ensures OptionGrown(c, e, d, ReadEntry(s, k1, from, till), ReadEntry(s2, k2, from, till + d))
  {
    hide ReadEntry, EntryAt, ReadKey, Agree;
    var r1, r2 := ReadEntry(s, k1, from, till), ReadEntry(s2, k2, from, till + d);
    if r1.None? {
      TriviaGrown(s, k1, c, e, d, s2, k2, from, till);
    } else {
      var start, last := r1.value.start, r1.value.end - 1;
      OutsideComment(s, k1, c, e, d, s2, k2, start);
      OutsideComment(s, k1, c, e, d, s2, k2, last);
      GoneTrivia(s, k1, c, e, d, s2, k2, start);
      GoneTrivia(s, k1, c, e, d, s2, k2, last);
      var start2, last2 := Gone(c, d, start), Gone(c, d, last);
      assert from <= start2 < till + d;
      TriviaGrown(s, k1, c, e, d, s2, k2, from, start);
      TriviaGrown(s, k1, c, e, d, s2, k2, last + 1, till);
      assert r2.Some?;
      FirstAfterTrivia(s2, k2, from, start2, r2.value.start);
      LastBeforeTrivia(s2, k2, last2, r2.value.end - 1, till + d);
      KeyGrown(s, k1, c, e, d, s2, k2, start, last);
      KeyOfEntry(s, k1, start, last + 1);
      KeyOfEntry(s2, k2, start2, last2 + 1);
      ReadEntryAside(s, k1, c, e, d, s2, k2, from, till);
    }
  }

  lemma {:induction false} OutsideComment(s: string, k1: seq<Kind>, c: nat, e: nat, d: nat, s2: string, k2: seq<Kind>, i: nat)
    requires GrownFile(s, k1, c, e, d, s2, k2) && i < |s| && !IsTrivia(s, k1, i)
    ensures i < c || e <= i
  {
  }

  lemma {:induction false} FirstAfterTrivia(s: string, kinds: seq<Kind>, from: nat, a: nat, b: int)
    requires from <= a < |s| && a < |kinds| && AllTrivia(s, kinds, from, a) && !IsTrivia(s, kinds, a)
    requires from <= b < |s| && b < |kinds| && AllTrivia(s, kinds, from, b) && !IsTrivia(s, kinds, b)
    ensures a == b
  {
  }

  lemma {:induction false} LastBeforeTrivia(s: string, kinds: seq<Kind>, a: nat, b: int, till: nat)
    requires a < till <= |s| && till <= |kinds| && AllTrivia(s, kinds, a + 1, till) && !IsTrivia(s, kinds, a)
    requires 0 <= b < till && AllTrivia(s, kinds, b + 1, till) && !IsTrivia(s, kinds, b)
    ensures a == b
  {
  }

  /** Scans on either side of the growth: the same depth, entries of the same names, and the same segment. */
  ghost predicate GrownScan(c: nat, e: nat, d: nat, st1: ScanState, st2: ScanState) {
    && st2.depth == st1.depth && EntriesGrown(c, e, d, st1.entries, st2.entries)
    && ((st1.entryStart <= c && st2.entryStart == st1.entryStart) || (e <= st1.entryStart && st2.entryStart == st1.entryStart + d))
  }

  lemma {:induction false} SegmentGrown(s: string, k1: seq<Kind>, c: nat, e: nat, d: nat, s2: string, k2: seq<Kind>, i: nat,
                                        st1: ScanState, st2: ScanState)
    requires GrownFile(s, k1, c, e, d, s2, k2) && e <= i < |s| == |k1| && i + d < |s2| == |k2| && st1.entryStart <= i
    requires GrownScan(c, e, d, st1, st2)
    ensures EntriesGrown(c, e, d, st1.entries + OptionSeq(ReadEntry(s, k1, st1.entryStart, i)),
                         st2.entries + OptionSeq(ReadEntry(s2, k2, st2.entryStart, i + d)))
  {
    hide ReadEntry, Agree, EntriesGrown, GrownFile, OptionGrown;
    assert c < e by { GrownParts(s, k1, c, e, d, s2, k2); }
    if st1.entryStart <= c {
      ReadEntryGrown(s, k1, c, e, d, s2, k2, st1.entryStart, i);
    } else {
      ReadEntryMoved(s, k1, c, e, d, s2, k2, st1.entryStart, i);
    }
    EntriesMore(c, e, d, st1.entries, st2.entries, ReadEntry(s, k1, st1.entryStart, i), ReadEntry(s2, k2, st2.entryStart, i + d));
  }

  /** An entry's segment behind the comment. */
  lemma {:induction false} ReadEntryMoved(s: string, k1: seq<Kind>, c: nat, e: nat, d: nat, s2: string, k2: seq<Kind>, from: nat, till: nat)
    requires GrownFile(s, k1, c, e, d, s2, k2) && e <= from <= till <= |s| == |k1| && till + d <= |s2| == |k2|
    ensures OptionGrown(c, e, d, ReadEntry(s, k1, from, till), ReadEntry(s2, k2, from + d, till + d))
  {
    hide ReadEntry, Agree, GrownFile;
    GrownParts(s, k1, c, e, d, s2, k2);
    AgreePart(s, s2, d, e, |s|, from, till);
    AgreePart(k1, k2, d, e, |s|, from, till);
    ReadEntryShift(s, k1, s2, k2, d, from, till);
  }

  lemma {:induction false} GrownParts(s: string, k1: seq<Kind>, c: nat, e: nat, d: nat, s2: string, k2: seq<Kind>)
    requires GrownFile(s, k1, c, e, d, s2, k2)
    ensures c < e <= |s| == |k1| && |s2| == |k2| == |s| + d && Same(s, k1, s2, k2, 0, 0, c) && Same(s, k1, s2, k2, d, e, |s|)
  {
    hide Agree;
  }

  lemma {:induction false} EntriesMore(c: nat, e: nat, d: nat, es1: seq<ObjectEntry>, es2: seq<ObjectEntry>,
                                       r1: Option<ObjectEntry>, r2: Option<ObjectEntry>)
    requires EntriesGrown(c, e, d, es1, es2) && OptionGrown(c, e, d, r1, r2)
    ensures EntriesGrown(c, e, d, es1 + OptionSeq(r1), es2 + OptionSeq(r2))
  {
  }

  /** Behind the comment both scans end at the same brace, with the same names. */
  lemma {:induction false} ScanGrown(s: string, k1: seq<Kind>, c: nat, e: nat, d: nat, s2: string, k2: seq<Kind>, i: nat,
                                     st1: ScanState, st2: ScanState)
    requires GrownFile(s, k1, c, e, d, s2, k2) && e <= i <= |s| && st1.entryStart <= i && GrownScan(c, e, d, st1, st2)
    requires ScanTo(s, k1, i, st1, |s|).Complete?
    ensures var r1, r2 := ScanTo(s, k1, i, st1, |s|), ScanTo(s2, k2, i + d, st2, |s2|);
            r2.Complete? && r2.close == r1.close + d && EntriesGrown(c, e, d, r1.entries, r2.entries)
    decreases |s| - i
  {
    hide ReadEntry, Agree, EntriesGrown;
    assert k1[i] == k2[i + d] && s[i] == s2[i + d] by { AgreeAt(s, s2, d, e, |s|, i); AgreeAt(k1, k2, d, e, |s|, i); }
    SegmentGrown(s, k1, c, e, d, s2, k2, i, st1, st2);
    var n1, n2 := ScanStep(s, k1, i, st1), ScanStep(s2, k2, i + d, st2);
    if n1.Running? { ScanGrown(s, k1, c, e, d, s2, k2, i + 1, n1.state, n2.state); }
  }

  lemma {:induction false} CommentIsTrivia(s: string, kinds: seq<Kind>, lo: nat, hi: nat)
    requires lo <= hi <= |s| == |kinds| && forall i {:trigger kinds[i]} :: lo <= i < hi ==> kinds[i] == Comment
    ensures AllTrivia(s, kinds, lo, hi)
  {
  }

  /** An object around the comment keeps its entries: their names, and all of those beside the comment. */
  lemma {:induction false} ObjectGrown(s: string, k1: seq<Kind>, c: nat, e: nat, d: nat, s2: string, k2: seq<Kind>, scan: ObjectScan)
    returns (es2: seq<ObjectEntry>)
    requires GrownFile(s, k1, c, e, d, s2, k2) && ScanObject(s, k1, scan.open) == Success(scan) && scan.open < c < scan.close
    ensures ScanObject(s2, k2, scan.open) == Success(ObjectScan(scan.open, scan.close + d, es2))
    ensures EntriesGrown(c, e, d, scan.entries, es2)
  {
    hide ScanTo, Agree, EntriesGrown;
    ScanObjectCloses(s, k1, scan);
    var open, st0 := scan.open, ScanState(0, scan.open + 1, []);
    ScanCompose(s, k1, open + 1, st0, c, |s|);
    var head := ScanTo(s, k1, open + 1, st0, c);
    assert head.Running?;
    var st := head.state;
    AgreePart(s, s2, 0, 0, c, open + 1, c);
    AgreePart(k1, k2, 0, 0, c, open + 1, c);
    ScanSame(s, k1, s2, k2, open + 1, st0, c);
    ScanCompose(s2, k2, open + 1, st0, c, |s2|);
    CommentIsTrivia(s, k1, c, e);
    CommentIsTrivia(s2, k2, c, e + d);
    ScanTrivia(s, k1, c, st, e);
    ScanTrivia(s2, k2, c, st, e + d);
    ScanCompose(s, k1, c, st, e, |s|);
    ScanCompose(s2, k2, c, st, e + d, |s2|);
    ScanWithin(s, k1, open + 1, st0, c, open + 1);
    EntriesThemselves(c, e, d, st.entries, open + 1);
    ScanGrown(s, k1, c, e, d, s2, k2, e, st, st);
    es2 := ScanTo(s2, k2, e + d, st, |s2|).entries;
    AgreeAt(s, s2, 0, 0, c, open);
    AgreeAt(k1, k2, 0, 0, c, open);
  }

  lemma {:induction false} EntriesThemselves(c: nat, e: nat, d: nat, es: seq<ObjectEntry>, lo: nat)
    requires EntriesWithin(es, lo, c) && c < e
    ensures EntriesGrown(c, e, d, es, es)
  {
  }

  lemma {:induction false} GrownNames(c: nat, e: nat, d: nat, es1: seq<ObjectEntry>, es2: seq<ObjectEntry>)
    requires EntriesGrown(c, e, d, es1, es2)
    ensures SameKeys(es1, es2)
  {
  }

  /** The config object found is the same. */
  lemma {:induction false} ConfigGrown(s: string, k1: seq<Kind>, c: nat, e: nat, d: nat, s2: string, k2: seq<Kind>, open: nat)
    requires GrownFile(s, k1, c, e, d, s2, k2) && FindConfigObject(s, k1) == Success(open) && open < c && k1[open] == Code
    ensures FindConfigObject(s2, k2) == Success(open)
  {
    hide FindConfigObject, Agree, MatchStop, MatchDefine, MatchExport;
    forall i | 0 <= i < c && CodeMatch(s2, k2, i) ensures MatchStop(s2, i) <= c { MatchBefore(s2, k2, i, c); }
    forall i | c <= i < e + d ensures !CodeMatch(s2, k2, i) {
      assert k2[i] == Comment;
      NoMatchAtTrivia(s2, k2, i);
    }
    SpliceKeepsConfig(s, k1, open, c, e, s2, k2, e + d);
  }
}

/**
 * Inserting an entry into an object literal of a labelled file, read back: the same entries in
 * the same order, with exactly the new one among them.
 */
module ConfigSplice {
  import opened Wrappers
  import opened Text
  import opened SourceLexer
  import opened LexerTokens
  import opened LexerShift
  import opened LexerSplice
  import opened ObjectScan
  import opened ObjectShift
  import opened ScanSplice
  import opened ConfigEdit

  // ---------------------------------------------------------------------------
  // Spaces and comment lines between tokens
  // ---------------------------------------------------------------------------

  ghost predicate Labelled(s: string, kinds: seq<Kind>) {
    Lex(s) == Success(kinds)
  }

  lemma {:induction false} SpaceToken(s: string, kinds: seq<Kind>, p: nat)
    requires Labelled(s, kinds) && p < |s| && Boundary(s, kinds, p) && IsSpace(s[p])
    ensures kinds[p] == Code && Boundary(s, kinds, p + 1)
  {
    hide Step, RunTo;
    BoundaryGoesOn(s, kinds, p);
    var e := NextToken(s, TopLevel(kinds, p), kinds);
    CodeIsTopLevel(s, kinds, p);
  }

  lemma {:induction false} SpaceTokens(s: string, kinds: seq<Kind>, p: nat, q: nat)
    requires Labelled(s, kinds) && p <= q <= |s| && Boundary(s, kinds, p) && AllSpace(s, p, q)
    ensures Boundary(s, kinds, q)
    decreases q - p
  {
    hide Step, RunTo, Boundary;
    if p < q {
      SpaceToken(s, kinds, p);
      SpaceTokens(s, kinds, p + 1, q);
    }
  }

  lemma {:induction false} LineCommentToken(s: string, kinds: seq<Kind>, p: nat)
    requires Labelled(s, kinds) && OpensLineComment(s, p) && Boundary(s, kinds, p)
    ensures Boundary(s, kinds, LineEnd(s, p))
    ensures forall k :: p <= k < LineEnd(s, p) ==> kinds[k] == Comment
  {
    hide LineEnd, OpensRegex;
    var st, e := TopLevel(kinds, p), LineEnd(s, p);
    BoundaryGoesOn(s, kinds, p);
    var next := Step(s, st).value;
    assert next == LexState(Mark(st.kinds, p, e, Comment), []);
    RunSettles(s, next, |s|);
    assert RunTo(s, next, e) == Success(next);
    assert kinds[..e] == next.kinds;
    assert forall k :: p <= k < e ==> kinds[k] == next.kinds[k];
    RunCompose(s, Start, p, e);
  }

  /** A line that reads as a `//` comment from a top-level start is trivia up to the next line. */
  lemma {:induction false} CommentLineIsTrivia(s: string, kinds: seq<Kind>, p: nat, q: nat)
    requires Labelled(s, kinds) && p < q <= |s| && Boundary(s, kinds, p) && CommentLine(s, kinds, p, q)
    requires s[q - 1] == '\n' && forall k :: p <= k < q - 1 ==> s[k] != '\n'
    ensures AllTrivia(s, kinds, p, q) && Boundary(s, kinds, q)
  {
    hide Step, RunTo, Boundary, Lex, LineEnd, SkipSpaces;
    var m := SkipSpaces(s, p, q);
    SpaceTokens(s, kinds, p, m);
    LineCommentToken(s, kinds, m);
    assert LineEnd(s, m) == q - 1;
    SpaceToken(s, kinds, q - 1);
    forall k | p <= k < q ensures IsTrivia(s, kinds, k) {
      assert k < m ==> IsSpace(s[k]);
      assert m <= k < q - 1 ==> kinds[k] == Comment;
    }
  }

  lemma {:induction false} AboveCommentsIsTrivia(s: string, kinds: seq<Kind>, open: nat, at: nat)
    requires Labelled(s, kinds) && at <= |s| == |kinds| && (at > 0 ==> s[at - 1] == '\n')
    requires var r := AboveComments(s, kinds, open, at); Boundary(s, kinds, r)
    ensures var r := AboveComments(s, kinds, open, at);
            && AllTrivia(s, kinds, r, at) && Boundary(s, kinds, at)
            && (open < at ==> open < r) && (r > 0 ==> s[r - 1] == '\n')
    decreases at
  {
    hide Step, RunTo, Boundary, Labelled, CommentLine;
    if at > 0 {
      var previous := LineStart(s, at - 1);
      if previous > open && CommentLine(s, kinds, previous, at) {
        assert previous < at by { CommentLineNonEmpty(s, kinds, previous, at); }
        AboveCommentsIsTrivia(s, kinds, open, previous);
        CommentLineIsTrivia(s, kinds, previous, at);
      }
    }
  }

  lemma {:induction false} CommentLineNonEmpty(s: string, kinds: seq<Kind>, p: nat, q: nat)
    requires q <= |s| == |kinds| && CommentLine(s, kinds, p, q)
    ensures p < q
  {
  }

  // ---------------------------------------------------------------------------
  // Where an entry goes above another
  // ---------------------------------------------------------------------------

  /** The scan of the object at `open` has read `entries` when its next segment begins at `m`. */
  ghost predicate ReadUpTo(s: string, kinds: seq<Kind>, open: nat, m: nat, entries: seq<ObjectEntry>) {
    && open < m <= |s| == |kinds|
    && ScanTo(s, kinds, open + 1, ScanState(0, open + 1, []), m) == Running(ScanState(0, m, entries))
  }

  /** A character that is not trivia comes before a stretch of trivia, or after it. */
  lemma {:induction false} TriviaStops(s: string, kinds: seq<Kind>, lo: nat, hi: nat, k: nat)
    requires AllTrivia(s, kinds, lo, hi) && k < hi && !IsTrivia(s, kinds, k)
    ensures k < lo
  {
  }

  /** After `{`, `}` or a separator, and trivia, a `/` opens a regular expression. */
  lemma {:induction false} OpensAfter(s: string, kinds: seq<Kind>, m: nat, p: nat)
    requires 0 < m <= p <= |s| && p <= |kinds| && AllTrivia(s, kinds, m, p)
    requires kinds[m - 1] == Code && (s[m - 1] == ',' || s[m - 1] == '{' || s[m - 1] == '}')
    ensures OpensRegex(s, kinds, p)
  {
    var e := SignificantEnd(s, kinds, p);
    assert !IsTrivia(s, kinds, m - 1);
    assert e >= m;
    TriviaStops(s, kinds, m, p, e - 1);
  }

  lemma {:induction false} BeforePoint(s: string, kinds: seq<Kind>, scan: ObjectScan, j: nat) returns (m: nat)
    requires Labelled(s, kinds) && |s| == |kinds| && ScanObject(s, kinds, scan.open) == Success(scan)
    requires j < |scan.entries| && 0 <= scan.entries[j].start <= |s| && StartsLine(s, scan.entries[j].start)
    requires var at := AboveComments(s, kinds, scan.open, LineStart(s, scan.entries[j].start));
             at > 0 ==> kinds[at - 1] == Code
    ensures var at := AboveComments(s, kinds, scan.open, LineStart(s, scan.entries[j].start));
            && 0 < m <= at <= scan.entries[j].start && s[at - 1] == '\n'
            && kinds[m - 1] == Code && (s[m - 1] == ',' || s[m - 1] == '{')
            && AllTrivia(s, kinds, m, at) && AllTrivia(s, kinds, at, scan.entries[j].start)
            && Boundary(s, kinds, at) && OpensRegex(s, kinds, at)
            && ReadUpTo(s, kinds, scan.open, m, scan.entries[..j])
  {
    hide Step, RunTo, OpensRegex, ScanTo, Boundary, AboveComments;
    ScanObjectWithin(s, kinds, scan.open);
    var start := scan.entries[j].start;
    var line := LineStart(s, start);
    var at := AboveComments(s, kinds, scan.open, line);
    m := EntryOrigin(s, kinds, scan.open + 1, ScanState(0, scan.open + 1, []), |s|, j);
    if m == scan.open + 1 { ScanNothing(s, kinds, scan.open); }
    assert !IsTrivia(s, kinds, m - 1);
    assert AllTrivia(s, kinds, line, start);
    TriviaStops(s, kinds, line, start, m - 1);
    if at > 0 { CodeIsTopLevel(s, kinds, at - 1); } else { BoundaryAtStart(s, kinds); }
    AboveCommentsIsTrivia(s, kinds, scan.open, line);
    assert AllTrivia(s, kinds, at, start);
    TriviaStops(s, kinds, at, start, m - 1);
    OpensAfter(s, kinds, m, at);
  }

  lemma {:induction false} ScanNothing(s: string, kinds: seq<Kind>, open: nat)
    requires open < |s| == |kinds|
    ensures ReadUpTo(s, kinds, open, open + 1, [])
  {
  }

  lemma {:induction false} BoundaryAtStart(s: string, kinds: seq<Kind>)
    requires |s| == |kinds|
    ensures Boundary(s, kinds, 0)
  {
  }

  // ---------------------------------------------------------------------------
  // A block of text that holds one entry
  // ---------------------------------------------------------------------------

  /**
   * Read on its own, `x` is the entry `entry` and its separator, before `es`, and ends with a
   * line break.
   */
  ghost predicate OneEntry(x: string, kx: seq<Kind>, es: nat, entry: ObjectEntry) {
    && Lex(x) == Success(kx) && x != "" && x[|x| - 1] == '\n' && kx[|x| - 1] == Code
    && 0 < es <= |x| && AllTrivia(x, kx, es, |x|)
    && ScanTo(x, kx, 0, ScanState(0, 0, []), |x|) == Running(ScanState(0, es, [entry]))
  }

  lemma {:induction false} OneEntryEnds(x: string, kx: seq<Kind>, es: nat, entry: ObjectEntry)
    requires OneEntry(x, kx, es, entry)
    ensures IsCodeComma(x, kx, es - 1) && OpensRegex(x, kx, |x|)
  {
    hide Step, RunTo, Lex, OpensRegex, ScanTo;
    ScanSeparator(x, kx, 0, ScanState(0, 0, []), |x|);
    OpensAfter(x, kx, es, |x|);
  }

  /** A block is labelled the same way inside a file, wherever a `/` would open a regular expression. */
  lemma {:induction false} BlockLabels(x: string, kx: seq<Kind>, s2: string, pre: seq<Kind>) returns (mid: seq<Kind>)
    requires Lex(x) == Success(kx) && x != "" && x[|x| - 1] == '\n' && kx[|x| - 1] == Code
    requires |pre| + |x| <= |s2| && Agree(x, s2, |pre|, 0, |x|)
    requires OpensRegex(s2, pre, |pre|) && (|pre| > 0 ==> !IsIdent(s2[|pre| - 1]))
    ensures RunTo(s2, LexState(pre, []), |pre| + |x|) == Success(LexState(mid, []))
    ensures |mid| == |pre| + |x| && Agree(pre, mid, 0, 0, |pre|) && Agree(kx, mid, |pre|, 0, |x|)
  {
    hide Step, RunTo, OpensRegex, Agree;
    var st := LexState(pre, []);
    OpensAtStart(x, []);
    MovedEmpty([], pre);
    RunShift(x, Start, s2, st, 0, |pre|, |x|);
    mid := RunTo(s2, st, |pre| + |x|).value.kinds;
  }

  // ---------------------------------------------------------------------------
  // Inserting above an entry
  // ---------------------------------------------------------------------------

  /** `s2` is `s1` with `x` inserted at `at`, and `k2` are the labels that go with it. */
  ghost predicate Inserted<T(!new)>(s1: seq<T>, x: seq<T>, at: nat, s2: seq<T>) {
    && at <= |s1| && |s2| == |s1| + |x|
    && Agree(s1, s2, 0, 0, at) && Agree(x, s2, at, 0, |x|) && Agree(s1, s2, |x|, at, |s1|)
  }

  lemma {:induction false} InsertedText(s1: string, x: string, at: nat)
    requires at <= |s1|
    ensures Inserted(s1, x, at, s1[..at] + x + s1[at..])
  {
  }

  lemma {:induction false} InsertLabels(s1: string, k1: seq<Kind>, at: nat, x: string, kx: seq<Kind>, es: nat,
                                        entry: ObjectEntry, s2: string)
    returns (k2: seq<Kind>)
    requires Labelled(s1, k1) && 0 < at <= |s1| && s1[at - 1] == '\n' && k1[at - 1] == Code
    requires Boundary(s1, k1, at) && OpensRegex(s1, k1, at)
    requires OneEntry(x, kx, es, entry) && Inserted(s1, x, at, s2)
    ensures Labelled(s2, k2) && Inserted(k1, kx, at, k2)
  {
    hide Step, RunTo, OpensRegex, Boundary, Lex, AllTrivia, ScanTo, Agree;
    var pre := TopLevel(k1, at).kinds;
    AgreePrefix(k1, pre, at);
    OneEntryEnds(x, kx, es, entry);
    assert !IsIdent(s2[at - 1]) by { AgreeAt(s1, s2, 0, 0, at, at - 1); }
    OpensFromStart(s1, k1, s2, pre, at);
    var mid := BlockLabels(x, kx, s2, pre);
    assert !IsIdent(s2[at + |x| - 1]) by { AgreeAt(x, s2, at, 0, |x|, |x| - 1); }
    OpensRegexPrefix(s2, pre, mid, at);
    OpensAtStart(x, kx);
    OpensRegexShift(x, kx, s2, mid, 0, at, |x|);
    k2 := SpliceLabels(s1, k1, at, at, s2, mid);
    AgreePart(mid, k2, 0, 0, |mid|, 0, at);
    AgreePart(mid, k2, 0, 0, |mid|, at, |mid|);
    AgreeTrans(pre, mid, k2, 0, 0, 0, at);
    AgreeTrans(k1, pre, k2, 0, 0, 0, at);
    AgreeTrans(kx, mid, k2, at, 0, 0, |x|);
  }

  /** A `/` looks back at the same thing in two files that start with the same labelled text. */
  lemma {:induction false} OpensFromStart(s1: string, k1: seq<Kind>, s2: string, k2: seq<Kind>, p: nat)
    requires Agree(s1, s2, 0, 0, p) && Agree(k1, k2, 0, 0, p)
    ensures OpensRegex(s1, k1, p) == OpensRegex(s2, k2, p)
  {
    hide OpensRegex;
    OpensAtStart(s1, k1);
    OpensAtStart(s2, k2);
    OpensRegexShift(s1, k1, s2, k2, 0, 0, p);
  }

  /** The scan goes on through a block as through the block alone. */
  lemma {:induction false} BlockScan(x: string, kx: seq<Kind>, es: nat, entry: ObjectEntry, s2: string, k2: seq<Kind>,
                                     p: nat, acc: seq<ObjectEntry>)
    requires OneEntry(x, kx, es, entry) && p + |x| <= |s2| == |k2| && Same(x, kx, s2, k2, p, 0, |x|)
    requires ScanTo(s2, k2, p + |x|, ScanState(0, p + |x|, acc + [Move(entry, p)]), |s2|).Complete?
    ensures ScanTo(s2, k2, p, ScanState(0, p, acc), |s2|)
         == ScanTo(s2, k2, p + |x|, ScanState(0, p + |x|, acc + [Move(entry, p)]), |s2|)
  {
    hide Lex, ScanTo, Agree, MovedEntries, AllTrivia;
    MovedStart([], acc, p);
    ScanShift(x, kx, s2, k2, p, 0, ScanState(0, 0, []), ScanState(0, p, acc), [], acc, |x|);
    ScanCompose(s2, k2, p, ScanState(0, p, acc), p + |x|, |s2|);
    OneMoved(entry, ScanTo(s2, k2, p, ScanState(0, p, acc), p + |x|).state.entries, acc, p);
    AgreePart(x, s2, p, 0, |x|, es, |x|);
    AgreePart(kx, k2, p, 0, |x|, es, |x|);
    TriviaMoved(x, kx, s2, k2, p, es, |x|);
    ScanFromTrivia(s2, k2, p + es, p + |x|, p + |x|, acc + [Move(entry, p)], |s2|);
  }

  lemma {:induction false} OneMoved(entry: ObjectEntry, es: seq<ObjectEntry>, acc: seq<ObjectEntry>, d: int)
    requires MovedEntries([entry], es, [], acc, d)
    ensures es == acc + [Move(entry, d)]
  {
    assert [entry][0..] == [entry];
    assert MoveAll([entry], d) == [Move(entry, d)];
  }

  lemma {:induction false} TriviaMoved(s1: string, k1: seq<Kind>, s2: string, k2: seq<Kind>, d: int, lo: nat, hi: nat)
    requires AllTrivia(s1, k1, lo, hi) && lo <= hi && Same(s1, k1, s2, k2, d, lo, hi)
    ensures lo + d >= 0 && AllTrivia(s2, k2, lo + d, hi + d)
  {
    forall k | lo + d <= k < hi + d ensures IsTrivia(s2, k2, k) {
      assert IsTrivia(s1, k1, k - d);
      assert s1[k - d] == s2[k - d + d] && k1[k - d] == k2[k - d + d];
    }
  }

  /** A scan that has reached a separator goes on from it. */
  lemma {:induction false} ScanGoesOn(s: string, kinds: seq<Kind>, scan: ObjectScan, m: nat, p: nat, acc: seq<ObjectEntry>)
    requires |s| == |kinds| && ScanObject(s, kinds, scan.open) == Success(scan)
    requires ReadUpTo(s, kinds, scan.open, m, acc) && m <= p <= |s| && AllTrivia(s, kinds, m, p)
    ensures ScanTo(s, kinds, p, ScanState(0, p, acc), |s|) == Complete(scan.close, scan.entries)
  {
    hide ScanTo;
    ScanCompose(s, kinds, scan.open + 1, ScanState(0, scan.open + 1, []), m, |s|);
    ScanFromTrivia(s, kinds, m, m, p, acc, |s|);
  }

  /** What an object literal reads as once its scan has reached `m` and goes on to the end. */
  lemma {:induction false} ScanEnds(s: string, kinds: seq<Kind>, open: nat, m: nat, p: nat, acc: seq<ObjectEntry>)
    requires ReadUpTo(s, kinds, open, m, acc) && m <= p <= |s| && AllTrivia(s, kinds, m, p)
    requires At(s, open, '{') && kinds[open] == Code
    requires ScanTo(s, kinds, p, ScanState(0, p, acc), |s|).Complete?
    ensures var r := ScanTo(s, kinds, p, ScanState(0, p, acc), |s|);
            ScanObject(s, kinds, open) == Success(ObjectScan(open, r.close, r.entries))
  {
    hide ScanTo;
    ScanCompose(s, kinds, open + 1, ScanState(0, open + 1, []), m, |s|);
    ScanFromTrivia(s, kinds, m, m, p, acc, |s|);
  }

  /** Up to a separator, a scan does not depend on what follows it. */
  lemma {:induction false} ReadUpToSame(s1: string, k1: seq<Kind>, s2: string, k2: seq<Kind>, open: nat, m: nat, acc: seq<ObjectEntry>)
    requires ReadUpTo(s1, k1, open, m, acc) && |s2| == |k2| && Same(s1, k1, s2, k2, 0, 0, m)
    ensures ReadUpTo(s2, k2, open, m, acc)
  {
    hide ScanTo, Agree;
    AgreePart(s1, s2, 0, 0, m, open + 1, m);
    AgreePart(k1, k2, 0, 0, m, open + 1, m);
    ScanSame(s1, k1, s2, k2, open + 1, ScanState(0, open + 1, []), m);
  }

  /**
   * Above an entry: the file with `x` inserted where `insertEntry` puts it is read as the same
   * object with exactly the new entry in front of `before`, every other entry keeping its text.
   */
  lemma {:induction false} InsertBeforeReadsBack(s1: string, k1: seq<Kind>, scan: ObjectScan, j: nat,
                              x: string, kx: seq<Kind>, es: nat, entry: ObjectEntry, s2: string)
    returns (k2: seq<Kind>)
    requires Labelled(s1, k1) && |s1| == |k1| && ScanObject(s1, k1, scan.open) == Success(scan)
    requires j < |scan.entries| && 0 <= scan.entries[j].start <= |s1| && StartsLine(s1, scan.entries[j].start)
    requires OneEntry(x, kx, es, entry)
    requires var at := AboveComments(s1, k1, scan.open, LineStart(s1, scan.entries[j].start));
             && (at > 0 ==> k1[at - 1] == Code)
             && Inserted(s1, x, at, s2)
    ensures var at := AboveComments(s1, k1, scan.open, LineStart(s1, scan.entries[j].start));
            && Labelled(s2, k2) && Inserted(k1, kx, at, k2)
            && ScanObject(s2, k2, scan.open)
               == Success(ObjectScan(scan.open, scan.close + |x|,
                          scan.entries[..j] + [Move(entry, at)] + MoveAll(scan.entries[j..], |x|)))
  {
    hide Step, RunTo, OpensRegex, Boundary, Lex, ScanTo, AboveComments, LineStart, StartsLine, AllTrivia, Agree;
    var at := AboveComments(s1, k1, scan.open, LineStart(s1, scan.entries[j].start));
    var m := BeforePoint(s1, k1, scan, j);
    k2 := InsertLabels(s1, k1, at, x, kx, es, entry, s2);
    var acc, acc2 := scan.entries[..j], scan.entries[..j] + [Move(entry, at)];
    AgreePart(s1, s2, 0, 0, at, 0, m);
    AgreePart(k1, k2, 0, 0, at, 0, m);
    ReadUpToSame(s1, k1, s2, k2, scan.open, m, acc);
    AgreeAt(s1, s2, 0, 0, at, scan.open);
    AgreeAt(k1, k2, 0, 0, at, scan.open);
    AgreePart(s1, s2, 0, 0, at, m, at);
    AgreePart(k1, k2, 0, 0, at, m, at);
    TriviaMoved(s1, k1, s2, k2, 0, m, at);
    ScanGoesOn(s1, k1, scan, m, at, acc);
    MovedStart(acc, acc2, |x|);
    ScanShift(s1, k1, s2, k2, |x|, at, ScanState(0, at, acc), ScanState(0, at + |x|, acc2), acc, acc2, |s1|);
    BlockScan(x, kx, es, entry, s2, k2, at, acc);
    ScanEnds(s2, k2, scan.open, m, at, acc);
    assert scan.entries[j..] == scan.entries[|acc|..];
  }
}

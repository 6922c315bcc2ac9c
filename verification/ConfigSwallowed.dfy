/**
 * A line that `insertEntry` puts inside a block comment declares nothing: the object is read with
 * the entries it had.
 */
module ConfigSwallowed {
  import opened Wrappers
  import opened Text
  import opened SourceLexer
  import opened LexerTokens
  import opened LexerShift
  import opened LexerSplice
  import opened ObjectScan
  import opened ObjectShift
  import opened ScanSplice
  import opened ConfigEdit
  import opened ConfigSplice
  import opened ConfigAppend
  import opened ConfigReplace
  import opened ConfigFind
  import opened ConfigInsert
  import opened ConfigEntries
  import opened ConfigGrowth

  // ---------------------------------------------------------------------------
  // An object whose comment has swallowed lines
  // ---------------------------------------------------------------------------

  /** The new file is read as the same object, changed, with entries of the same names. */
  ghost predicate NoNewEntry(s1: string, k1: seq<Kind>, scan: ObjectScan, s2: string, k2: seq<Kind>, scan2: ObjectScan) {
    Changed(s1, k1, scan, s2, k2, scan2) && SameKeys(scan.entries, scan2.entries)
  }

  lemma {:induction false} NoNewEntryTwice(s1: string, k1: seq<Kind>, scan: ObjectScan, s2: string, k2: seq<Kind>, scan2: ObjectScan,
                                           s3: string, k3: seq<Kind>, scan3: ObjectScan)
    requires NoNewEntry(s1, k1, scan, s2, k2, scan2) && NoNewEntry(s2, k2, scan2, s3, k3, scan3)
    requires scan.open < scan.close < |s1| && scan.open < scan2.close < |s2|
    ensures NoNewEntry(s1, k1, scan, s3, k3, scan3)
  {
    hide Lex, ScanObject, Agree, FindConfigObject;
    var d, e := scan2.close - scan.close, scan3.close - scan2.close;
    AgreeTrans(s1, s2, s3, 0, 0, 0, scan.open + 1);
    AgreeTrans(k1, k2, k3, 0, 0, 0, scan.open + 1);
    AgreeEnds(s1, s2, d, scan.close);
    var last := |s1| + d;
    AgreePart(s2, s3, e, scan2.close, |s2|, scan2.close, last);
    AgreePart(k2, k3, e, scan2.close, |s2|, scan2.close, last);
    AgreeTrans(s1, s2, s3, d, e, scan.close, |s1|);
    AgreeTrans(k1, k2, k3, d, e, scan.close, |s1|);
    var config := FindConfigObject(s1, k1);
    if config.Success? && config.value <= scan.open && k1[config.value] == Code {
      AgreeAt(k1, k2, 0, 0, scan.open + 1, config.value);
    }
  }

  lemma {:induction false} AgreeEnds(s1: string, s2: string, d: int, from: nat)
    requires Agree(s1, s2, d, from, |s1|)
    ensures |s1| + d <= |s2|
  {
  }

  /** `x` goes in at `p`, at the newline `q` labelled as a comment, before the `\r` in front of it, or behind it. */
  ghost predicate AtCommentedBreak(s: string, kinds: seq<Kind>, p: nat, q: nat) {
    && q < |s| == |kinds| && s[q] == '\n' && kinds[q] == Comment
    && (p == q || p == q + 1 || (p + 1 == q && s[p] == '\r'))
  }

  /** Lines put in there leave the object with the entries it had, those beside the comment with their text. */
  lemma {:induction false} SwallowedLine(s: string, k1: seq<Kind>, scan: ObjectScan, p: nat, q: nat, x: string, s2: string)
    returns (k2: seq<Kind>, scan2: ObjectScan, c: nat, e: nat)
    requires Labelled(s, k1) && |s| == |k1| && ScanObject(s, k1, scan.open) == Success(scan)
    requires AtCommentedBreak(s, k1, p, q) && scan.open < q < scan.close && NoTerminator(x)
    requires s2 == s[..p] + x + s[p..] && p <= |s|
    ensures NoNewEntry(s, k1, scan, s2, k2, scan2) && c <= q < e && GrownFile(s, k1, c, e, |x|, s2, k2)
    ensures EntriesGrown(c, e, |x|, scan.entries, scan2.entries)
  {
    hide Lex, RunTo, FindConfigObject, ScanObject, Agree, IsBlockComment, GrownFile, EntriesGrown, NoTerminator;
    LexedFromStart(s, k1);
    BoundaryAtStart(s, k1);
    c, e := NewlineInBlock(s, Start, k1, q);
    InsertedText(s, x, p);
    ScanObjectCloses(s, k1, scan);
    InBlock(s, k1, c, e, p, q);
    BehindBrace(s, k1, c, e, scan.open, q);
    BeforeBrace(s, k1, c, e, scan.close, q);
    k2 := GrowLabels(s, k1, c, e, p, x, s2);
    GrownIsFile(s, k1, c, e, p, x, s2, k2);
    var es2 := ObjectGrown(s, k1, c, e, |x|, s2, k2, scan);
    scan2 := ObjectScan(scan.open, scan.close + |x|, es2);
    GrownNames(c, e, |x|, scan.entries, es2);
    GrownAround(s, k1, c, e, |x|, s2, k2, scan);
    var config := FindConfigObject(s, k1);
    if config.Success? && config.value <= scan.open && k1[config.value] == Code {
      ConfigGrown(s, k1, c, e, |x|, s2, k2, config.value);
    }
  }

  lemma {:induction false} GrownAround(s: string, k1: seq<Kind>, c: nat, e: nat, d: nat, s2: string, k2: seq<Kind>, scan: ObjectScan)
    requires GrownFile(s, k1, c, e, d, s2, k2) && scan.open < c && e <= scan.close <= |s|
    ensures Around(s, k1, scan, s2, k2, scan.close + d)
  {
    hide Agree;
    AgreePart(s, s2, 0, 0, c, 0, scan.open + 1);
    AgreePart(k1, k2, 0, 0, c, 0, scan.open + 1);
    AgreePart(s, s2, d, e, |s|, scan.close, |s|);
    AgreePart(k1, k2, d, e, |s|, scan.close, |s|);
  }

  lemma {:induction false} InBlock(s: string, kinds: seq<Kind>, c: nat, e: nat, p: nat, q: nat)
    requires IsBlockComment(s, kinds, c, e) && AtCommentedBreak(s, kinds, p, q) && c + 2 <= q && q + 3 <= e
    ensures c + 2 <= p && p + 2 <= e
  {
  }

  lemma {:induction false} BehindBrace(s: string, kinds: seq<Kind>, c: nat, e: nat, open: nat, q: nat)
    requires IsBlockComment(s, kinds, c, e) && c <= q < e && open < q && open < |kinds| && kinds[open] == Code
    ensures open < c
  {
  }

  lemma {:induction false} BeforeBrace(s: string, kinds: seq<Kind>, c: nat, e: nat, close: nat, q: nat)
    requires IsBlockComment(s, kinds, c, e) && c <= q < close < |kinds| && kinds[close] == Code
    ensures e <= close
  {
  }

  // ---------------------------------------------------------------------------
  // The lines that were put in
  // ---------------------------------------------------------------------------

  lemma {:induction false} TerminatorJoin(a: string, b: string)
    requires NoTerminator(a) && NoTerminator(b)
    ensures NoTerminator(a + b)
  {
  }

  lemma {:induction false} SpaceTerminates(indent: string, eol: string)
    requires IsIndent(indent) && IsEol(eol)
    ensures NoTerminator(indent) && NoTerminator(eol)
  {
  }

  lemma {:induction false} JoinedStays(lines: seq<string>, indent: string, eol: string)
    requires IsIndent(indent) && IsEol(eol) && forall line :: line in lines ==> NoTerminator(line)
    ensures NoTerminator(JoinedLines(lines, indent, eol))
    decreases |lines|
  {
    hide NoTerminator;
    if lines == [] {
      NothingTerminates();
    } else {
      SpaceTerminates(indent, eol);
      TerminatorJoin(indent, lines[0]);
      if |lines| > 1 {
        JoinedStays(lines[1..], indent, eol);
        TerminatorJoin(indent + lines[0], eol);
        TerminatorJoin(indent + lines[0] + eol, JoinedLines(lines[1..], indent, eol));
      }
    }
  }

  lemma {:induction false} NothingTerminates()
    ensures NoTerminator("")
  {
  }

  // ---------------------------------------------------------------------------
  // Above an entry
  // ---------------------------------------------------------------------------

  /** From a literal space on, literals run through every space. */
  lemma {:induction false} LiteralRun(s: string, kinds: seq<Kind>, lo: nat, hi: nat)
    requires Labelled(s, kinds) && lo <= hi < |s| == |kinds| && kinds[lo] == Literal && AllSpace(s, lo, hi)
    ensures kinds[hi] == Literal
    decreases hi - lo
  {
    hide Lex, RunTo;
    if lo < hi {
      LexedFromStart(s, kinds);
      LiteralSpace(s, Start, kinds, lo);
      LiteralRun(s, kinds, lo + 1, hi);
    }
  }

  /** Climbing stays behind the brace, at line starts, and out of literals. */
  lemma {:induction false} ClimbsOverComments(s: string, kinds: seq<Kind>, open: nat, at: nat)
    requires Labelled(s, kinds) && open < at <= |s| == |kinds| && s[at - 1] == '\n' && kinds[at - 1] != Literal
    ensures var r := AboveComments(s, kinds, open, at);
            open < r <= at && s[r - 1] == '\n' && kinds[r - 1] != Literal
    decreases at
  {
    hide Lex, LastLine, SkipSpaces;
    var previous := LineStart(s, at - 1);
    if previous > open && CommentLine(s, kinds, previous, at) {
      CommentLineNonEmpty(s, kinds, previous, at);
      var marker := SkipSpaces(s, previous, at);
      if kinds[previous - 1] == Literal { LiteralRun(s, kinds, previous - 1, marker); }
      ClimbsOverComments(s, kinds, open, previous);
    }
  }

  /** The line of an entry that starts its line: behind the brace, and not in a literal. */
  lemma {:induction false} LineOfEntry(s: string, kinds: seq<Kind>, scan: ObjectScan, j: nat)
    requires Labelled(s, kinds) && |s| == |kinds| && ScanObject(s, kinds, scan.open) == Success(scan) && j < |scan.entries|
    requires 0 <= scan.entries[j].start <= |s| && StartsLine(s, scan.entries[j].start)
    ensures var line := LineStart(s, scan.entries[j].start);
            && scan.open < line <= scan.entries[j].start < scan.close && s[line - 1] == '\n' && kinds[line - 1] != Literal
  {
    hide Lex, ScanObject, ScanTo, ReadEntry, LastLine;
    var start := scan.entries[j].start;
    var line := LineStart(s, start);
    ScanObjectRange(s, kinds, scan, j);
    ScanObjectCloses(s, kinds, scan);
    SpaceStops(s, line, start, scan.open);
    var m := EntryFrom(s, kinds, scan, j);
    SpaceStops(s, line, start, m - 1);
    TriviaPart(s, kinds, m, start, m, line);
    NoLiteralAfter(s, kinds, m - 1, line);
  }

  /** An entry follows a separator or the brace, and trivia. */
  lemma {:induction false} EntryFrom(s: string, kinds: seq<Kind>, scan: ObjectScan, j: nat) returns (m: nat)
    requires |s| == |kinds| && ScanObject(s, kinds, scan.open) == Success(scan) && j < |scan.entries|
    ensures scan.open < m <= scan.entries[j].start < |s| && AllTrivia(s, kinds, m, scan.entries[j].start)
    ensures kinds[m - 1] == Code && (s[m - 1] == ',' || s[m - 1] == '{') && !IsTrivia(s, kinds, scan.entries[j].start)
  {
    hide ScanTo, AllTrivia;
    m := EntryOrigin(s, kinds, scan.open + 1, ScanState(0, scan.open + 1, []), |s|, j);
  }

  lemma {:induction false} IndentOf(s: string, i: nat)
    requires i <= |s|
    ensures IsIndent(LineIndent(s, i))
  {
    hide LineStart;
  }

  lemma {:induction false} BehindOpen(s: string, kinds: seq<Kind>, scan: ObjectScan, at: nat)
    requires |s| == |kinds| && ScanObject(s, kinds, scan.open) == Success(scan) && scan.open < at && at <= |s| && s[at - 1] == '\n'
    ensures scan.open < at - 1
  {
    hide ScanTo;
    ScanObjectCloses(s, kinds, scan);
  }

  /** Entries come one after the other. */
  lemma {:induction false} EntriesOrdered(s: string, kinds: seq<Kind>, scan: ObjectScan, j: nat, n: nat)
    requires |s| == |kinds| && ScanObject(s, kinds, scan.open) == Success(scan) && j < n < |scan.entries|
    ensures scan.entries[j].end <= scan.entries[n].start
  {
    hide ScanTo, ReadEntry, AllTrivia, EntryAt;
    var es := scan.entries;
    var m, c := EntryPoint(s, kinds, scan, j);
    ReadEntryStarts(s, kinds, m, c, es[j]);
    EntriesFrom(s, kinds, c + 1, es[..j] + [es[j]]);
    assert es[|es[..j] + [es[j]]|..] == es[j + 1..];
    assert es[n] == es[j + 1..][n - j - 1];
  }

  /** An entry from `before` on stands behind the comment, and keeps its text. */
  lemma {:induction false} KeptBehind(s: string, k1: seq<Kind>, c: nat, e: nat, d: nat, s2: string, k2: seq<Kind>,
                                      scan: ObjectScan, scan2: ObjectScan, j: nat, n: nat)
    requires |s| == |k1| && ScanObject(s, k1, scan.open) == Success(scan) && j <= n < |scan.entries|
    requires GrownFile(s, k1, c, e, d, s2, k2) && EntriesGrown(c, e, d, scan.entries, scan2.entries)
    requires c <= scan.entries[j].start < |s| && !IsTrivia(s, k1, scan.entries[j].start)
    ensures n < |scan2.entries| && Kept(s, k1, scan.entries[n], s2, k2, scan2.entries[n], d)
  {
    hide ScanObject, Agree;
    var start := scan.entries[j].start;
    if n > j {
      ScanObjectRange(s, k1, scan, j);
      EntriesOrdered(s, k1, scan, j, n);
    }
    ScanObjectRange(s, k1, scan, n);
    ScanObjectCloses(s, k1, scan);
    OutsideComment(s, k1, c, e, d, s2, k2, start);
    AgreePart(s, s2, d, e, |s|, scan.entries[n].start, scan.entries[n].end);
    AgreePart(k1, k2, d, e, |s|, scan.entries[n].start, scan.entries[n].end);
  }

  lemma {:induction false} AllKeptBehind(s: string, k1: seq<Kind>, c: nat, e: nat, d: nat, s2: string, k2: seq<Kind>,
                                         scan: ObjectScan, scan2: ObjectScan, j: nat)
    requires |s| == |k1| && ScanObject(s, k1, scan.open) == Success(scan) && j < |scan.entries|
    requires GrownFile(s, k1, c, e, d, s2, k2) && EntriesGrown(c, e, d, scan.entries, scan2.entries)
    requires c <= scan.entries[j].start
    ensures KeptFrom(s, k1, scan.entries, s2, k2, scan2.entries, j, d)
  {
    hide ScanObject, GrownFile, Kept, EntryGrown;
    var m := EntryFrom(s, k1, scan, j);
    forall n | j <= n < |scan.entries| ensures Kept(s, k1, scan.entries[n], s2, k2, scan2.entries[n], d) {
      KeptBehind(s, k1, c, e, d, s2, k2, scan, scan2, j, n);
    }
  }

  /** What `insertEntry` makes of a file when it goes above an entry. */
  lemma {:induction false} SourceAbove(parsed: Parsed, scan: ObjectScan, lines: seq<string>, indent: string, j: nat, s2: string)
    returns (at: nat, x: string)
    requires ReadOf(parsed, scan) && j < |scan.entries| && lines != [] && IsIndent(indent) && forall line :: line in lines ==> NoTerminator(line)
    requires !GoesInCode(parsed, scan, Some(scan.entries[j])) && 0 <= scan.entries[j].start <= |parsed.source|
    requires InsertBefore(parsed, scan, lines, indent, scan.entries[j]) == Success(s2)
    ensures scan.open + 1 < at <= scan.entries[j].start < scan.close < |parsed.source| && AtCommentedBreak(parsed.source, parsed.kinds, at, at - 1)
    ensures NoTerminator(x) && s2 == parsed.source[..at] + x + parsed.source[at..]
  {
    hide Lex, FindConfigObject, ScanObject, HasCrLf, LineIndent, AboveComments, StartsLine, LineStart, LineEnd, Lines, JoinedLines,
      IsIndent, NoTerminator;
    var s, kinds, before := parsed.source, parsed.kinds, scan.entries[j];
    LineOfEntry(s, kinds, scan, j);
    var line := LineStart(s, before.start);
    ClimbsOverComments(s, kinds, scan.open, line);
    at := AboveComments(s, kinds, scan.open, line);
    x := JoinedLines(lines, indent, parsed.eol) + parsed.eol;
    LinesJoin(lines, indent, parsed.eol);
    BrokenStays(lines, indent, parsed.eol);
    BehindOpen(s, kinds, scan, at);
    ScanObjectCloses(s, kinds, scan);
  }

  lemma {:induction false} SwallowedBefore(parsed: Parsed, scan: ObjectScan, lines: seq<string>, indent: string, j: nat, s2: string)
    returns (k2: seq<Kind>, scan2: ObjectScan, d: nat)
    requires ReadOf(parsed, scan) && j < |scan.entries| && lines != [] && IsIndent(indent) && forall line :: line in lines ==> NoTerminator(line)
    requires !GoesInCode(parsed, scan, Some(scan.entries[j])) && 0 <= scan.entries[j].start <= |parsed.source|
    requires InsertBefore(parsed, scan, lines, indent, scan.entries[j]) == Success(s2)
    ensures NoNewEntry(parsed.source, parsed.kinds, scan, s2, k2, scan2)
    ensures KeptFrom(parsed.source, parsed.kinds, scan.entries, s2, k2, scan2.entries, j, d)
  {
    hide Lex, FindConfigObject, ScanObject, InsertBefore, GoesInCode, IsIndent, NoTerminator, NoNewEntry, GrownFile, EntriesGrown, KeptFrom;
    var s, kinds := parsed.source, parsed.kinds;
    var at, x := SourceAbove(parsed, scan, lines, indent, j, s2);
    var c, e;
    k2, scan2, c, e := SwallowedLine(s, kinds, scan, at, at - 1, x, s2);
    d := |x|;
    AllKeptBehind(s, kinds, c, e, d, s2, k2, scan, scan2, j);
  }

  // ---------------------------------------------------------------------------
  // Behind the last entry
  // ---------------------------------------------------------------------------

  /** The labels of a file with a separator added behind an entry. */
  lemma {:induction false} SeparatorLexed(s: string, k1: seq<Kind>, end: nat, close: nat, s2: string) returns (k2: seq<Kind>)
    requires Labelled(s, k1) && 0 < end <= close < |s| == |k1| && k1[close] == Code && s[close] == '}' && !IsTrivia(s, k1, end - 1)
    requires TriviaOrCommas(s, k1, end, close) && s2 == s[..end] + "," + s[end..]
    ensures |k2| == |s2| == |s| + 1 && Agree(s, s2, 0, 0, end) && Agree(s, s2, 1, end, |s|) && Agree(k1, k2, 1, end, |s|)
    ensures Agree(k1, k2, 0, 0, end) && IsCodeComma(s2, k2, end) && Labelled(s2, k2)
  {
    hide RunTo, Lex, Boundary, Agree, StopsAt, SameLeft, OpensRegex, TriviaOrCommas, NoSlash, ReadsOn;
    NoLiterals(s, k1, end, close);
    EndIsBoundary(s, k1, end, close);
    InsertedText(s, ",", end);
    AgreeAt(",", s2, end, 0, 1, 0);
    var pre := TopLevel(k1, end).kinds;
    var comma := pre + [Code];
    ReadsChar(s2, pre);
    var mid := AppendRest(s, k1, end, close, s2, comma);
    ReadsOnTrans(s2, pre, comma, mid);
    ReadsOnRuns(s2, pre, mid);
    ReadsOnRuns(s2, comma, mid);
    CommaStops(s, k1, end, s2);
    AgreePart(s, s2, 1, end, |s|, close + 1, |s|);
    k2 := SpliceLabels(s, k1, end, close + 1, s2, mid);
    SeparatorLabels(k1, end, close, pre, comma, mid, k2);
  }

  /** A separator added behind the last entry, where none was, leaves the same entries. */
  lemma {:induction false} SeparatorAdded(s: string, k1: seq<Kind>, scan: ObjectScan, s2: string) returns (k2: seq<Kind>)
    requires Labelled(s, k1) && |s| == |k1| && ScanObject(s, k1, scan.open) == Success(scan) && scan.entries != []
    requires var end := scan.entries[|scan.entries| - 1].end;
             && 0 <= end <= scan.close < |s| && s2 == s[..end] + "," + s[end..]
             && forall k :: end <= k < scan.close ==> !IsCodeComma(s, k1, k)
    ensures var end := scan.entries[|scan.entries| - 1].end;
            && |k2| == |s2| == |s| + 1 && Agree(s, s2, 0, 0, end) && Agree(s, s2, 1, end, |s|) && Agree(k1, k2, 1, end, |s|)
            && Agree(k1, k2, 0, 0, end) && IsCodeComma(s2, k2, end)
    ensures Labelled(s2, k2) && ScanObject(s2, k2, scan.open) == Success(ObjectScan(scan.open, scan.close + 1, scan.entries))
  {
    hide Lex, Agree, ScanTo, ScanObject, ReadEntry, TriviaOrCommas, AllTrivia, ReadUpTo, IsCodeComma;
    var n := |scan.entries| - 1;
    var last, close := scan.entries[n], scan.close;
    var end: nat := last.end;
    var m := LastPoint(s, k1, scan);
    ScanObjectCloses(s, k1, scan);
    k2 := SeparatorLexed(s, k1, end, close, s2);
    var acc := scan.entries[..n];
    assert acc + [last] == scan.entries;
    AddedSeparator(s, k1, scan.open, m, acc, last, s2, k2);
    NoCommaIsTrivia(s, k1, end, close);
    SeparatorClosed(s, k1, scan, end, s2, k2);
  }

  /** Behind the added separator the object ends as it did. */
  lemma {:induction false} SeparatorClosed(s: string, k1: seq<Kind>, scan: ObjectScan, end: nat, s2: string, k2: seq<Kind>)
    requires |s| == |k1| && |k2| == |s2| == |s| + 1 && scan.open < end <= scan.close < |s| && At(s, scan.open, '{') && At(s, scan.close, '}')
    requires k1[scan.open] == Code && k1[scan.close] == Code && AllTrivia(s, k1, end, scan.close)
    requires Same(s, k1, s2, k2, 0, 0, end) && Same(s, k1, s2, k2, 1, end, |s|)
    requires ReadUpTo(s2, k2, scan.open, end + 1, scan.entries)
    ensures ScanObject(s2, k2, scan.open) == Success(ObjectScan(scan.open, scan.close + 1, scan.entries))
  {
    hide Agree, ScanTo, AllTrivia, ReadUpTo;
    var close := scan.close;
    AgreePart(s, s2, 1, end, |s|, end, close);
    AgreePart(k1, k2, 1, end, |s|, end, close);
    TriviaMoved(s, k1, s2, k2, 1, end, close);
    AgreeAt(s, s2, 1, end, |s|, close);
    AgreeAt(k1, k2, 1, end, |s|, close);
    ScanClose(s2, k2, end + 1, close + 1, scan.entries);
    AllTriviaNothing(s2, k2, end + 1);
    AgreeAt(s, s2, 0, 0, end, scan.open);
    AgreeAt(k1, k2, 0, 0, end, scan.open);
    ScanEnds(s2, k2, scan.open, end + 1, end + 1, scan.entries);
  }

  lemma {:induction false} CommaStops(s: string, k1: seq<Kind>, end: nat, s2: string)
    requires 0 < end <= |s| && end <= |k1| && end < |s2| && s2[end] == ',' && k1[end - 1] != Comment
    ensures StopsAt(s, s2, end, 0, k1)
  {
  }

  /** The labels around the added separator. */
  lemma {:induction false} SeparatorLabels(k1: seq<Kind>, end: nat, close: nat, pre: seq<Kind>, comma: seq<Kind>,
                                           mid: seq<Kind>, k2: seq<Kind>)
    requires end <= close < |k1| && pre == k1[..end] && comma == pre + [Code] && |mid| == close + 2
    requires Agree(pre, mid, 0, 0, end) && Agree(k1, mid, 1, end, close + 1) && Agree(mid, k2, 0, 0, |mid|) && Agree(k1, k2, 1, close + 1, |k1|)
    requires Agree(comma, mid, 0, 0, end + 1)
    ensures Agree(k1, k2, 0, 0, end) && Agree(k1, k2, 1, end, |k1|) && end < |k2| && k2[end] == Code
  {
    AgreePrefix(k1, pre, end);
    AgreeTrans(k1, pre, mid, 0, 0, 0, end);
    AgreePart(mid, k2, 0, 0, |mid|, 0, end);
    AgreeTrans(k1, mid, k2, 0, 0, 0, end);
    AgreePart(mid, k2, 0, 0, |mid|, end + 1, close + 2);
    AgreeTrans(k1, mid, k2, 1, 0, end, close + 1);
    AgreeJoin(k1, k2, 1, end, close + 1, |k1|);
    assert comma[end] == mid[end + 0] && mid[end] == k2[end + 0];
  }

  lemma {:induction false} NoCommaIsTrivia(s: string, kinds: seq<Kind>, end: nat, close: nat)
    requires end <= close <= |s| == |kinds| && TriviaOrCommas(s, kinds, end, close)
    requires forall k :: end <= k < close ==> !IsCodeComma(s, kinds, k)
    ensures AllTrivia(s, kinds, end, close)
  {
    forall k | end <= k < close ensures IsTrivia(s, kinds, k) { TriviaOrComma(s, kinds, end, close, k); }
  }

  /** The config object found is the same behind an added separator. */
  lemma {:induction false} CommaKeepsConfig(s: string, k1: seq<Kind>, scan: ObjectScan, s2: string, k2: seq<Kind>, config: nat)
    requires Labelled(s, k1) && |s| == |k1| && ScanObject(s, k1, scan.open) == Success(scan) && scan.entries != []
    requires FindConfigObject(s, k1) == Success(config) && config <= scan.open && k1[config] == Code
    requires var end := scan.entries[|scan.entries| - 1].end;
             && 0 <= end < scan.close < |s| && |k2| == |s2| == |s| + 1 && Agree(s, s2, 0, 0, end) && Agree(s, s2, 1, end, |s|)
             && Agree(k1, k2, 0, 0, end) && Agree(k1, k2, 1, end, |s|) && IsCodeComma(s2, k2, end)
    ensures FindConfigObject(s2, k2) == Success(config)
  {
    hide Lex, FindConfigObject, ScanTo, ReadEntry, Agree, MatchStop, MatchDefine, MatchExport;
    var end: nat := scan.entries[|scan.entries| - 1].end;
    var m := LastPoint(s, k1, scan);
    ScanObjectCloses(s, k1, scan);
    EndIsNoWord(s, k1, end, scan.close);
    forall i | 0 <= i < end && CodeMatch(s2, k2, i) ensures MatchStop(s2, i) <= end { MatchBefore(s2, k2, i, end); }
    AgreeAt(s, s2, 1, end, |s|, end);
    AgreeAt(k1, k2, 1, end, |s|, end);
    forall i | end <= i < end + 2 ensures !CodeMatch(s2, k2, i) { NoMatchAtTrivia(s2, k2, i); }
    AgreePart(s, s2, 1, end, |s|, end + 1, |s|);
    AgreePart(k1, k2, 1, end, |s|, end + 1, |s|);
    SpliceKeepsConfig(s, k1, config, end, end + 1, s2, k2, end + 2);
  }

  /** What follows the last entry is a space, a comment or a separator. */
  lemma {:induction false} EndIsNoWord(s: string, kinds: seq<Kind>, end: nat, close: nat)
    requires Labelled(s, kinds) && 0 < end < close < |s| == |kinds| && kinds[close] == Code && !IsTrivia(s, kinds, end - 1)
    requires TriviaOrCommas(s, kinds, end, close)
    ensures !IsWord(s[end]) && (IsTrivia(s, kinds, end) || s[end] == ',')
  {
    hide Lex, RunTo;
    NoLiterals(s, kinds, end, close);
    TriviaOrComma(s, kinds, end, close, end);
    if kinds[end] == Comment {
      TokenBoundaryHere(s, kinds, end);
      BoundaryGoesOn(s, kinds, end);
      var t := NextToken(s, TopLevel(kinds, end), kinds);
    }
  }

  /** The file with the separator reads as one with no new entry. */
  lemma {:induction false} SeparatorIsNoEntry(s: string, k1: seq<Kind>, scan: ObjectScan, s2: string)
    returns (k2: seq<Kind>, scan2: ObjectScan)
    requires Labelled(s, k1) && |s| == |k1| && ScanObject(s, k1, scan.open) == Success(scan) && scan.entries != []
    requires var end := scan.entries[|scan.entries| - 1].end;
             && scan.open < end < scan.close < |s| && s2 == s[..end] + "," + s[end..]
             && forall k :: end <= k < scan.close ==> !IsCodeComma(s, k1, k)
    ensures NoNewEntry(s, k1, scan, s2, k2, scan2) && scan2 == ObjectScan(scan.open, scan.close + 1, scan.entries)
    ensures var end := scan.entries[|scan.entries| - 1].end;
            Same(s, k1, s2, k2, 1, end, |s|)
  {
    hide Lex, FindConfigObject, ScanObject, Agree;
    var end := scan.entries[|scan.entries| - 1].end;
    k2 := SeparatorAdded(s, k1, scan, s2);
    scan2 := ObjectScan(scan.open, scan.close + 1, scan.entries);
    AgreePart(s, s2, 0, 0, end, 0, scan.open + 1);
    AgreePart(k1, k2, 0, 0, end, 0, scan.open + 1);
    AgreePart(s, s2, 1, end, |s|, scan.close, |s|);
    AgreePart(k1, k2, 1, end, |s|, scan.close, |s|);
    var config := FindConfigObject(s, k1);
    if config.Success? && config.value <= scan.open && k1[config.value] == Code {
      CommaKeepsConfig(s, k1, scan, s2, k2, config.value);
    }
  }

  /** What `insertEntry` makes of a file when it appends. */
  lemma {:induction false} AppendedSource(parsed: Parsed, scan: ObjectScan, lines: seq<string>, indent: string, s2: string)
    returns (end: nat, lineEnd: nat, nl: nat, c: string)
    requires ReadOf(parsed, scan) && scan.entries != [] && LineEnd(parsed.source, scan.entries[|scan.entries| - 1].end) < scan.close
    requires InsertLast(parsed, scan, lines, indent, scan.entries[|scan.entries| - 1]) == Success(s2)
    ensures var s, entries := parsed.source, scan.entries;
            && end == entries[|entries| - 1].end && nl == LineEnd(s, end) && nl < scan.close
            && lineEnd <= nl && (lineEnd == nl || (lineEnd + 1 == nl && s[lineEnd] == '\r')) && end <= lineEnd
            && SeparatorIn(s, parsed.kinds, end, scan.close, lineEnd) == Some(c == "") && (c == "" || c == ",")
            && s2 == s[..end] + c + s[end..lineEnd] + (parsed.eol + JoinedLines(lines, indent, parsed.eol)) + s[lineEnd..]
  {
    hide Lex, FindConfigObject, ScanObject, HasCrLf, SeparatorIn, LineEnd, JoinedLines;
    var s := parsed.source;
    var last := scan.entries[|scan.entries| - 1];
    end, nl := last.end, LineEnd(s, last.end);
    lineEnd := LineBreak(s, end);
    LastIsNoSpace(s, parsed.kinds, scan);
    c := if SeparatorIn(s, parsed.kinds, end, scan.close, lineEnd).value then "" else ",";
    var joined := JoinedLines(lines, indent, parsed.eol);
    assert s[..end] + c + s[end..lineEnd] + parsed.eol + joined == s[..end] + c + s[end..lineEnd] + (parsed.eol + joined);
  }

  lemma {:induction false} LastIsNoSpace(s: string, kinds: seq<Kind>, scan: ObjectScan)
    requires Labelled(s, kinds) && |s| == |kinds| && ScanObject(s, kinds, scan.open) == Success(scan) && scan.entries != []
    ensures 0 < scan.entries[|scan.entries| - 1].end <= |s| && !IsSpace(s[scan.entries[|scan.entries| - 1].end - 1])
  {
    hide Lex, ScanObject, ScanTo, ReadEntry;
    var m := LastPoint(s, kinds, scan);
  }

  /** A literal has no place between the last entry and the end of its line. */
  lemma {:induction false} BreakNotLiteral(s: string, kinds: seq<Kind>, scan: ObjectScan, nl: nat)
    requires Labelled(s, kinds) && |s| == |kinds| && ScanObject(s, kinds, scan.open) == Success(scan) && scan.entries != []
    requires scan.entries[|scan.entries| - 1].end <= nl < scan.close
    ensures kinds[nl] != Literal && scan.open < nl
  {
    hide Lex, ScanTo, ReadEntry;
    var m := LastPoint(s, kinds, scan);
    NoLiterals(s, kinds, scan.entries[|scan.entries| - 1].end, scan.close);
  }

  lemma {:induction false} SwallowedWithComma(s: string, kinds: seq<Kind>, scan: ObjectScan, end: nat, lineEnd: nat, nl: nat,
                                              x: string, s2: string) returns (k2: seq<Kind>, scan2: ObjectScan)
    requires Labelled(s, kinds) && |s| == |kinds| && ScanObject(s, kinds, scan.open) == Success(scan)
    requires scan.entries != [] && end == scan.entries[|scan.entries| - 1].end
    requires scan.open < end <= lineEnd <= nl < scan.close < |s| && AtCommentedBreak(s, kinds, lineEnd, nl) && NoTerminator(x)
    requires forall k :: end <= k < scan.close ==> !IsCodeComma(s, kinds, k)
    requires s2 == s[..end] + "," + s[end..lineEnd] + x + s[lineEnd..]
    ensures NoNewEntry(s, kinds, scan, s2, k2, scan2)
  {
    hide Lex, FindConfigObject, ScanObject, NoTerminator, Agree, ConfigKept, Around;
    var s' := s[..end] + "," + s[end..];
    var k', scan' := SeparatorIsNoEntry(s, kinds, scan, s');
    AgreeAt(s, s', 1, end, |s|, nl);
    AgreeAt(kinds, k', 1, end, |s|, nl);
    AgreeAt(s, s', 1, end, |s|, lineEnd);
    assert s'[..lineEnd + 1] == s[..end] + "," + s[end..lineEnd] && s'[lineEnd + 1..] == s[lineEnd..];
    var c, e;
    k2, scan2, c, e := SwallowedLine(s', k', scan', lineEnd + 1, nl + 1, x, s2);
    NoNewEntryTwice(s, kinds, scan, s', k', scan', s2, k2, scan2);
  }

  lemma {:induction false} SwallowedLast(parsed: Parsed, scan: ObjectScan, lines: seq<string>, indent: string, s2: string)
    returns (k2: seq<Kind>, scan2: ObjectScan)
    requires ReadOf(parsed, scan) && scan.entries != [] && IsIndent(indent) && forall line :: line in lines ==> NoTerminator(line)
    requires LineEnd(parsed.source, scan.entries[|scan.entries| - 1].end) < scan.close && !GoesInCode(parsed, scan, None)
    requires InsertLast(parsed, scan, lines, indent, scan.entries[|scan.entries| - 1]) == Success(s2)
    ensures NoNewEntry(parsed.source, parsed.kinds, scan, s2, k2, scan2)
  {
    hide Lex, FindConfigObject, ScanObject, HasCrLf, InsertLast, SeparatorIn, LineEnd, NoTerminator, NoNewEntry, JoinedLines, IsIndent;
    var s, kinds := parsed.source, parsed.kinds;
    var end, lineEnd, nl, c := AppendedSource(parsed, scan, lines, indent, s2);
    BreakNotLiteral(s, kinds, scan, nl);
    LastBehindBrace(s, kinds, scan);
    BreakHere(s, end);
    var x := parsed.eol + JoinedLines(lines, indent, parsed.eol);
    BrokenStays(lines, indent, parsed.eol);
    k2, scan2 := SwallowedAt(s, kinds, scan, end, lineEnd, nl, c, x, s2);
  }

  lemma {:induction false} BrokenStays(lines: seq<string>, indent: string, eol: string)
    requires IsIndent(indent) && IsEol(eol) && forall line :: line in lines ==> NoTerminator(line)
    ensures NoTerminator(eol + JoinedLines(lines, indent, eol)) && NoTerminator(JoinedLines(lines, indent, eol) + eol)
  {
    hide NoTerminator, JoinedLines, IsIndent;
    JoinedStays(lines, indent, eol);
    SpaceTerminates(indent, eol);
    TerminatorJoin(eol, JoinedLines(lines, indent, eol));
    TerminatorJoin(JoinedLines(lines, indent, eol), eol);
  }

  lemma {:induction false} SwallowedAt(s: string, kinds: seq<Kind>, scan: ObjectScan, end: nat, lineEnd: nat, nl: nat,
                                       c: string, x: string, s2: string) returns (k2: seq<Kind>, scan2: ObjectScan)
    requires Labelled(s, kinds) && |s| == |kinds| && ScanObject(s, kinds, scan.open) == Success(scan)
    requires scan.entries != [] && end == scan.entries[|scan.entries| - 1].end
    requires scan.open < end <= lineEnd <= nl < scan.close < |s| && AtCommentedBreak(s, kinds, lineEnd, nl) && NoTerminator(x)
    requires SeparatorIn(s, kinds, end, scan.close, lineEnd) == Some(c == "") && (c == "" || c == ",")
    requires s2 == s[..end] + c + s[end..lineEnd] + x + s[lineEnd..]
    ensures NoNewEntry(s, kinds, scan, s2, k2, scan2)
  {
    hide Lex, FindConfigObject, ScanObject, NoTerminator, NoNewEntry, AtCommentedBreak, SeparatorIn;
    if c == "" {
      assert s[..end] + c + s[end..lineEnd] == s[..lineEnd];
      var a, b;
      k2, scan2, a, b := SwallowedLine(s, kinds, scan, lineEnd, nl, x, s2);
    } else {
      k2, scan2 := SwallowedWithComma(s, kinds, scan, end, lineEnd, nl, x, s2);
    }
  }

  lemma {:induction false} BreakHere(s: string, i: nat)
    requires i <= |s| && LineEnd(s, i) < |s|
    ensures s[LineEnd(s, i)] == '\n'
  {
  }

  lemma {:induction false} LastBehindBrace(s: string, kinds: seq<Kind>, scan: ObjectScan)
    requires |s| == |kinds| && ScanObject(s, kinds, scan.open) == Success(scan) && scan.entries != []
    ensures scan.open < scan.entries[|scan.entries| - 1].end <= scan.close < |s|
  {
    hide ScanObject;
    ScanObjectRange(s, kinds, scan, |scan.entries| - 1);
    ScanObjectCloses(s, kinds, scan);
  }

  // ---------------------------------------------------------------------------
  // Wherever it was put
  // ---------------------------------------------------------------------------

  /**
   * Lines that end no comment, put where a block comment covers the place, leave the object with
   * entries of the same names; those from `before` on keep their text.
   */
  lemma {:induction false} InsertSwallowed(parsed: Parsed, scan: ObjectScan, lines: seq<string>, before: Option<ObjectEntry>, s2: string)
    returns (k2: seq<Kind>, scan2: ObjectScan, j: nat, d: nat)
    requires ReadOf(parsed, scan) && lines != [] && (forall line :: line in lines ==> NoTerminator(line))
    requires (before.Some? ==> before.value in scan.entries) && !GoesInCode(parsed, scan, before)
    requires InsertEntry(parsed, scan, lines, before) == Success(s2)
    ensures NoNewEntry(parsed.source, parsed.kinds, scan, s2, k2, scan2)
    ensures before.Some? ==>
              && j < |scan.entries| && scan.entries[j] == before.value
              && KeptFrom(parsed.source, parsed.kinds, scan.entries, s2, k2, scan2.entries, j, d)
  {
    hide Lex, ScanObject, InsertBefore, InsertLast, StartsLine, LineEnd, LineIndent, HasCrLf, NoNewEntry, KeptFrom, NoTerminator;
    assert scan.entries != [];
    var indent := LineIndent(parsed.source, scan.entries[0].start);
    IndentOf(parsed.source, scan.entries[0].start);
    j, d := 0, 0;
    if before.Some? {
      j := IndexOf(scan.entries, before.value);
      k2, scan2, d := SwallowedBefore(parsed, scan, lines, indent, j, s2);
    } else {
      k2, scan2 := SwallowedLast(parsed, scan, lines, indent, s2);
    }
  }
}

/**
 * `insertEntry` read back: lines that read as one entry, put where `insertEntry` puts them, give
 * the same object with exactly that entry more, wherever the object stands in the file.
 */
module ConfigInsert {
  import opened Wrappers
  import opened Text
  import opened SourceLexer
  import opened LexerTokens
  import opened LexerSplice
  import opened ObjectScan
  import opened ObjectShift
  import opened ScanSplice
  import opened ConfigEdit
  import opened ConfigSplice
  import opened ConfigAppend
  import opened ConfigReplace
  import opened ConfigFind

  // ---------------------------------------------------------------------------
  // Lines that read as one entry
  // ---------------------------------------------------------------------------

  ghost predicate IsIndent(indent: string) {
    forall k :: 0 <= k < |indent| ==> indent[k] == ' ' || indent[k] == '\t'
  }

  predicate IsEol(eol: string) { eol == "\n" || eol == "\r\n" }

  /** Text that reads as one entry and its separator, and holds no config object of its own. */
  ghost predicate EntryBlock(x: string, kx: seq<Kind>, es: nat, entry: ObjectEntry) {
    OneEntry(x, kx, es, entry) && |kx| == |x| && NoConfig(x, kx)
  }

  ghost predicate BlockReads(lines: seq<string>, indent: string, eol: string, brk: string) {
    exists kx, es, entry :: EntryBlock(JoinedLines(lines, indent, eol) + brk, kx, es, entry)
  }

  /** However they are indented and ended, the lines read as one entry. */
  ghost predicate ReadsAsOne(lines: seq<string>, eol: string) {
    lines != [] && forall indent, brk :: IsIndent(indent) && IsEol(brk) ==> BlockReads(lines, indent, eol, brk)
  }

  lemma {:induction false} BlockRead(lines: seq<string>, indent: string, eol: string, brk: string, x: string)
    returns (kx: seq<Kind>, es: nat, entry: ObjectEntry)
    requires ReadsAsOne(lines, eol) && IsIndent(indent) && IsEol(brk) && x == JoinedLines(lines, indent, eol) + brk
    ensures EntryBlock(x, kx, es, entry)
  {
    hide EntryBlock, JoinedLines, IsIndent;
    assert BlockReads(lines, indent, eol, brk);
    kx, es, entry :| EntryBlock(x, kx, es, entry);
  }

  lemma {:induction false} LinesJoin(lines: seq<string>, indent: string, eol: string)
    requires lines != []
    ensures Lines(lines, indent, eol) == JoinedLines(lines, indent, eol) + eol
  {
    if |lines| == 1 {
      assert Lines(lines[1..], indent, eol) == "";
    } else {
      LinesJoin(lines[1..], indent, eol);
    }
  }

  /** The last character a match looks at is a bracket. */
  lemma {:induction false} MatchHasBracket(s: string, i: nat)
    requires MatchDefine(s, i).Some? || MatchExport(s, i).Some?
    ensures 0 < MatchStop(s, i) <= |s| && (s[MatchStop(s, i) - 1] == '(' || s[MatchStop(s, i) - 1] == '{')
  {
  }

  // ---------------------------------------------------------------------------
  // What an insertion leaves
  // ---------------------------------------------------------------------------

  /** A file read into labels and one of its object literals. */
  ghost predicate ReadOf(parsed: Parsed, scan: ObjectScan) {
    && Labelled(parsed.source, parsed.kinds) && |parsed.kinds| == |parsed.source|
    && ScanObject(parsed.source, parsed.kinds, scan.open) == Success(scan)
    && scan.open < scan.close < |parsed.source|
    && EntriesWithin(scan.entries, scan.open + 1, scan.close)
    && parsed.eol == (if HasCrLf(parsed.source) then "\r\n" else "\n")
    && IsIndent(parsed.unit)
  }

  /** The line break a new entry goes behind is not inside a block comment. */
  ghost predicate GoesInCode(parsed: Parsed, scan: ObjectScan, before: Option<ObjectEntry>)
    requires |parsed.kinds| == |parsed.source| && EntriesWithin(scan.entries, scan.open + 1, scan.close)
    requires scan.open < scan.close < |parsed.source| && (before.Some? ==> before.value in scan.entries)
  {
    if scan.entries == [] then true
    else if before.Some? then
      var at := AboveComments(parsed.source, parsed.kinds, scan.open, LineStart(parsed.source, before.value.start));
      at > 0 ==> parsed.kinds[at - 1] == Code
    else
      var nl := LineEnd(parsed.source, scan.entries[|scan.entries| - 1].end);
      nl < |parsed.kinds| ==> parsed.kinds[nl] == Code
  }

  /** The offset an entry has moved by, when a new one came in at index `i`. */
  function Offset(n: nat, i: nat, d: int): int { if n < i then 0 else d }

  /** A config object found at `open` or before it is found again. */
  ghost predicate ConfigKept(s1: string, k1: seq<Kind>, open: nat, s2: string, k2: seq<Kind>)
    requires |s1| == |k1| && |s2| == |k2|
  {
    var config := FindConfigObject(s1, k1);
    config.Success? && config.value <= open && k1[config.value] == Code ==> FindConfigObject(s2, k2) == config
  }

  /** Outside the braces of the object nothing has changed, but that it moved. */
  ghost predicate Around(s1: string, k1: seq<Kind>, scan: ObjectScan, s2: string, k2: seq<Kind>, close: nat) {
    && Same(s1, k1, s2, k2, 0, 0, scan.open + 1) && Same(s1, k1, s2, k2, close - scan.close, scan.close, |s1|)
    && |s2| == |s1| + close - scan.close
  }

  /** The object literal reads as `scan2` in a new file that is the old one outside its braces, its config object included. */
  ghost predicate Changed(s1: string, k1: seq<Kind>, scan: ObjectScan, s2: string, k2: seq<Kind>, scan2: ObjectScan) {
    && Labelled(s2, k2) && |k2| == |s2| && |k1| == |s1|
    && scan2.open == scan.open && ScanObject(s2, k2, scan.open) == Success(scan2)
    && Around(s1, k1, scan, s2, k2, scan2.close) && ConfigKept(s1, k1, scan.open, s2, k2)
  }

  /**
   * The new file is read as the same object with `added` at index `i`; every other entry has its
   * text and labels, moved by `d` behind the new one; the config object found is the same.
   */
  ghost predicate HasNewEntry(s1: string, k1: seq<Kind>, scan: ObjectScan, s2: string, k2: seq<Kind>,
                              i: nat, added: ObjectEntry, d: int, close: nat) {
    && Labelled(s2, k2) && |k2| == |s2| && |k1| == |s1| && i <= |scan.entries|
    && ScanObject(s2, k2, scan.open)
       == Success(ObjectScan(scan.open, close, scan.entries[..i] + [added] + MoveAll(scan.entries[i..], d)))
    && (forall n :: 0 <= n < |scan.entries| ==>
          Same(s1, k1, s2, k2, Offset(n, i, d), scan.entries[n].start, scan.entries[n].end))
    && Around(s1, k1, scan, s2, k2, close) && ConfigKept(s1, k1, scan.open, s2, k2)
  }

  /** A block, the entry it reads as, and where it and that entry have gone. */
  datatype NewEntry = NewEntry(x: string, kx: seq<Kind>, es: nat, entry: ObjectEntry, p: nat, i: nat, d: int, close: nat)

  ghost predicate Gained(s1: string, k1: seq<Kind>, scan: ObjectScan, s2: string, k2: seq<Kind>, n: NewEntry) {
    && EntryBlock(n.x, n.kx, n.es, n.entry) && Same(n.x, n.kx, s2, k2, n.p, 0, |n.x|)
    && HasNewEntry(s1, k1, scan, s2, k2, n.i, Move(n.entry, n.p), n.d, n.close)
  }

  /** The entries read before a separator end before it. */
  lemma {:induction false} EntriesBefore(s: string, kinds: seq<Kind>, open: nat, m: nat, acc: seq<ObjectEntry>)
    requires ReadUpTo(s, kinds, open, m, acc)
    ensures EntriesWithin(acc, open + 1, m)
  {
    hide ScanTo;
    ScanWithin(s, kinds, open + 1, ScanState(0, open + 1, []), m, open + 1);
  }

  /** The entries read from `p` on start there or later. */
  lemma {:induction false} EntriesFrom(s: string, kinds: seq<Kind>, p: nat, acc: seq<ObjectEntry>)
    requires p <= |s| == |kinds| && ScanTo(s, kinds, p, ScanState(0, p, acc), |s|).Complete?
    ensures var r := ScanTo(s, kinds, p, ScanState(0, p, acc), |s|);
            acc <= r.entries && EntriesWithin(r.entries[|acc|..], p, r.close) && r.close < |s|
  {
    hide ScanTo, Agree, MovedEntries;
    MovedStart(acc, [], 0);
    AgreePrefix(s, s, |s|);
    AgreePrefix(kinds, kinds, |kinds|);
    AgreePart(s, s, 0, 0, |s|, p, |s|);
    AgreePart(kinds, kinds, 0, 0, |s|, p, |s|);
    ScanShift(s, kinds, s, kinds, 0, p, ScanState(0, p, acc), ScanState(0, p, []), acc, [], |s|);
    var r, r' := ScanTo(s, kinds, p, ScanState(0, p, acc), |s|), ScanTo(s, kinds, p, ScanState(0, p, []), |s|);
    ScanExtends(s, kinds, p, ScanState(0, p, acc), |s|);
    ScanWithin(s, kinds, p, ScanState(0, p, []), |s|, p);
    MovedFromNothing(r.entries, r'.entries, acc);
  }

  lemma {:induction false} MovedFromNothing(e1: seq<ObjectEntry>, e2: seq<ObjectEntry>, acc: seq<ObjectEntry>)
    requires MovedEntries(e1, e2, acc, [], 0)
    ensures e2 == e1[|acc|..]
  {
    MoveAllNothing(e1[|acc|..]);
  }

  lemma {:induction false} IndexOf(entries: seq<ObjectEntry>, e: ObjectEntry) returns (j: nat)
    requires e in entries
    ensures j < |entries| && entries[j] == e
  {
    j :| j < |entries| && entries[j] == e;
  }

  /** Nothing in front of an insertion point behind trivia reads on into it. */
  lemma {:induction false} NoMatchAcross(s: string, kinds: seq<Kind>, m: nat, a: nat, i: nat)
    requires 0 < m <= a <= |s| == |kinds| && AllTrivia(s, kinds, m, a) && (s[m - 1] == ',' || s[m - 1] == '{')
    requires i < a && CodeMatch(s, kinds, i)
    ensures MatchStop(s, i) <= a
  {
    hide MatchDefine, MatchExport, MatchStop;
    if i >= m {
      assert IsTrivia(s, kinds, i);
      NoMatchAtTrivia(s, kinds, i);
    } else {
      MatchBefore(s, kinds, i, m - 1);
    }
  }

  lemma {:induction false} BlockFacts(x: string, kx: seq<Kind>, es: nat, entry: ObjectEntry)
    requires OneEntry(x, kx, es, entry)
    ensures |x| == |kx| && 0 < es <= |x| && AllTrivia(x, kx, es, |x|) && IsCodeComma(x, kx, es - 1)
    ensures forall k :: es <= k < |x| ==> IsTrivia(x, kx, k)
  {
    hide ScanTo, Lex, OpensRegex;
    OneEntryEnds(x, kx, es, entry);
  }

  lemma {:induction false} InsertBeforeKeepsConfig(s1: string, k1: seq<Kind>, open: nat, m: nat, at: nat,
                                                   x: string, kx: seq<Kind>, es: nat, entry: ObjectEntry, s2: string, k2: seq<Kind>)
    requires |s1| == |k1| && FindConfigObject(s1, k1) == Success(open) && k1[open] == Code && open < m <= at <= |s1|
    requires AllTrivia(s1, k1, m, at) && (s1[m - 1] == ',' || s1[m - 1] == '{') && s1[at - 1] == '\n'
    requires OneEntry(x, kx, es, entry) && NoConfig(x, kx)
    requires Inserted(s1, x, at, s2) && |k2| == |s2| && Inserted(k1, kx, at, k2)
    ensures FindConfigObject(s2, k2) == Success(open)
  {
    hide FindConfigObject, OneEntry, Agree, MatchStop, MatchDefine, MatchExport, AllTrivia;
    BlockFacts(x, kx, es, entry);
    AgreeAt(s1, s2, 0, 0, at, m - 1);
    AgreePart(s1, s2, 0, 0, at, m, at);
    AgreePart(k1, k2, 0, 0, at, m, at);
    TriviaMoved(s1, k1, s2, k2, 0, m, at);
    forall i | 0 <= i < at && CodeMatch(s2, k2, i) ensures MatchStop(s2, i) <= at { NoMatchAcross(s2, k2, m, at, i); }
    forall i | at <= i < at + |x| ensures !CodeMatch(s2, k2, i) { BlockHasNoMatch(x, kx, es, s2, k2, at, i); }
    SpliceKeepsConfig(s1, k1, open, at, at, s2, k2, at + |x|);
  }

  lemma {:induction false} InsertBlockBefore(parsed: Parsed, scan: ObjectScan, lines: seq<string>, indent: string,
                                             before: ObjectEntry, s2: string)
    returns (k2: seq<Kind>, n: NewEntry)
    requires ReadOf(parsed, scan) && ReadsAsOne(lines, parsed.eol) && before in scan.entries && IsIndent(indent)
    requires GoesInCode(parsed, scan, Some(before)) && 0 <= before.start <= |parsed.source|
    requires InsertBefore(parsed, scan, lines, indent, before) == Success(s2)
    ensures Gained(parsed.source, parsed.kinds, scan, s2, k2, n) && n.x == JoinedLines(lines, indent, parsed.eol) + parsed.eol
    ensures n.i < |scan.entries| && scan.entries[n.i] == before
  {
    hide Lex, ScanObject, AboveComments, StartsLine, LineStart, HasCrLf, OneEntry, ReadEntry, ScanTo, Agree, FindConfigObject,
      AllTrivia, Boundary, OpensRegex, Lines, JoinedLines, NoConfig;
    var s1, k1 := parsed.source, parsed.kinds;
    var i := IndexOf(scan.entries, before);
    var at := AboveComments(s1, k1, scan.open, LineStart(s1, before.start));
    var x := JoinedLines(lines, indent, parsed.eol) + parsed.eol;
    LinesJoin(lines, indent, parsed.eol);
    var kx, es, entry := BlockRead(lines, indent, parsed.eol, parsed.eol, x);
    InsertedText(s1, x, at);
    k2 := InsertBeforeReadsBack(s1, k1, scan, i, x, kx, es, entry, s2);
    n := NewEntry(x, kx, es, entry, at, i, |x|, scan.close + |x|);
    var m := BeforePoint(s1, k1, scan, i);
    BeforeEntriesKept(s1, k1, scan, i, m, at, |x|, s2, k2);
    ScanObjectCloses(s1, k1, scan);
    ReadUpToAfter(s1, k1, scan.open, m, scan.entries[..i]);
    ScanGoesOn(s1, k1, scan, m, at, scan.entries[..i]);
    InsertedAround(s1, k1, scan, at, x, kx, s2, k2);
    var config := FindConfigObject(s1, k1);
    if config.Success? && config.value <= scan.open && k1[config.value] == Code {
      InsertBeforeKeepsConfig(s1, k1, config.value, m, at, x, kx, es, entry, s2, k2);
    }
  }

  lemma {:induction false} InsertedAround(s1: string, k1: seq<Kind>, scan: ObjectScan, at: nat, x: string,
                                          kx: seq<Kind>, s2: string, k2: seq<Kind>)
    requires |s1| == |k1| && |x| == |kx| && Inserted(s1, x, at, s2) && Inserted(k1, kx, at, k2) && scan.open < at <= scan.close <= |s1|
    ensures Around(s1, k1, scan, s2, k2, scan.close + |x|)
  {
    hide Agree;
    AgreePart(s1, s2, 0, 0, at, 0, scan.open + 1);
    AgreePart(k1, k2, 0, 0, at, 0, scan.open + 1);
    AgreePart(s1, s2, |x|, at, |s1|, scan.close, |s1|);
    AgreePart(k1, k2, |x|, at, |s1|, scan.close, |s1|);
  }

  lemma {:induction false} BeforeEntriesKept(s1: string, k1: seq<Kind>, scan: ObjectScan, i: nat, m: nat, at: nat, d: int,
                                             s2: string, k2: seq<Kind>)
    requires |s1| == |k1| && |s2| == |k2| && ScanObject(s1, k1, scan.open) == Success(scan) && i <= |scan.entries|
    requires ReadUpTo(s1, k1, scan.open, m, scan.entries[..i]) && m <= at <= |s1| && AllTrivia(s1, k1, m, at)
    requires Same(s1, k1, s2, k2, 0, 0, at) && Same(s1, k1, s2, k2, d, at, |s1|)
    ensures forall n :: 0 <= n < |scan.entries| ==>
              Same(s1, k1, s2, k2, Offset(n, i, d), scan.entries[n].start, scan.entries[n].end)
  {
    hide ScanObject, ScanTo, Agree, AllTrivia;
    EntriesBefore(s1, k1, scan.open, m, scan.entries[..i]);
    ScanGoesOn(s1, k1, scan, m, at, scan.entries[..i]);
    EntriesFrom(s1, k1, at, scan.entries[..i]);
    forall n | 0 <= n < |scan.entries|
      ensures Same(s1, k1, s2, k2, Offset(n, i, d), scan.entries[n].start, scan.entries[n].end)
    {
      var e := scan.entries[n];
      if n < i {
        assert e == scan.entries[..i][n];
        AgreePart(s1, s2, 0, 0, at, e.start, e.end);
        AgreePart(k1, k2, 0, 0, at, e.start, e.end);
      } else {
        assert e == scan.entries[i..][n - i];
        AgreePart(s1, s2, d, at, |s1|, e.start, e.end);
        AgreePart(k1, k2, d, at, |s1|, e.start, e.end);
      }
    }
  }

  // ---------------------------------------------------------------------------
  // Behind the last entry
  // ---------------------------------------------------------------------------

  /** The first character behind an entry that is not a space: a separator, a comment or the brace. */
  lemma {:induction false} FirstBehind(s: string, kinds: seq<Kind>, end: nat, close: nat) returns (w: nat)
    requires Labelled(s, kinds) && end <= close < |s| && Boundary(s, kinds, end) && TriviaOrCommas(s, kinds, end, close)
    requires s[close] == '}'
    ensures end <= w <= close && AllSpace(s, end, w) && (s[w] == ',' || s[w] == '/' || s[w] == '}')
  {
    hide Lex, RunTo, Boundary, SkipSpaces;
    w := SkipSpaces(s, end, close);
    SpaceTokens(s, kinds, end, w);
    var x := s[w];
    if w < close && x != ',' {
      assert kinds[w] == Comment;
      BoundaryGoesOn(s, kinds, w);
      var e := NextToken(s, TopLevel(kinds, w), kinds);
    }
  }

  lemma {:induction false} NoMatchPastSpaces(s: string, kinds: seq<Kind>, a: nat, w: nat, i: nat)
    requires a <= w < |s| && AllSpace(s, a, w) && (s[w] == ',' || s[w] == '/' || s[w] == '}')
    requires i < a && CodeMatch(s, kinds, i)
    ensures MatchStop(s, i) <= a
  {
    hide MatchDefine, MatchExport, MatchStop;
    MatchBefore(s, kinds, i, w);
    MatchHasBracket(s, i);
    SpaceStops(s, a, w, MatchStop(s, i) - 1);
  }

  /** A character that is not a space comes before a stretch of spaces, or after it. */
  lemma {:induction false} SpaceStops(s: string, lo: nat, hi: nat, k: nat)
    requires hi <= |s| && AllSpace(s, lo, hi) && k < |s| && !IsSpace(s[k])
    ensures k < lo || hi <= k
  {
  }

  /** In the new file, what follows the last entry up to the new one matches nothing. */
  lemma {:induction false} NoMatchBehind(s1: string, k1: seq<Kind>, end: nat, nl: nat, c: string, x: string, p: nat,
                                         s2: string, k2: seq<Kind>, i: nat)
    requires |s1| == |k1| && |s2| == |k2| && Appended(s1, end, nl, c, x, p, s2) && AppendedUpTo(k1, end, nl, c, p, k2)
    requires TriviaOrCommas(s1, k1, end, nl) && end <= i < p
    ensures !CodeMatch(s2, k2, i)
  {
    hide MatchDefine, MatchExport;
    if i >= end + |c| && i < nl + |c| {
      TriviaOrComma(s1, k1, end, nl, i - |c|);
      assert s1[i - |c|] == s2[i - |c| + |c|] && k1[i - |c|] == k2[i - |c| + |c|];
    }
    NoMatchAtTrivia(s2, k2, i);
  }

  lemma {:induction false} AppendKeepsConfig(s1: string, k1: seq<Kind>, open: nat, end: nat, nl: nat, close: nat, c: string, m': nat,
                                             x: string, kx: seq<Kind>, es: nat, entry: ObjectEntry, p: nat, s2: string, k2: seq<Kind>)
    requires Labelled(s1, k1) && |s1| == |k1| && FindConfigObject(s1, k1) == Success(open) && k1[open] == Code
    requires open < end <= nl < close < |s1| && s1[close] == '}' && s1[nl] == '\n'
    requires Boundary(s1, k1, end) && TriviaOrCommas(s1, k1, end, close) && SeparatorAt(s1, k1, end, nl, c, m')
    requires OneEntry(x, kx, es, entry) && NoConfig(x, kx)
    requires |s2| == |k2| && Appended(s1, end, nl, c, x, p, s2) && AppendedUpTo(k1, end, nl, c, p, k2)
    requires Agree(kx, k2, p, 0, |x|) && Agree(k1, k2, p + |x| - nl - 1, nl + 1, |s1|)
    ensures FindConfigObject(s2, k2) == Success(open)
  {
    hide Lex, RunTo, Boundary, FindConfigObject, OneEntry, Agree, MatchStop, MatchDefine, MatchExport, AllTrivia;
    BlockFacts(x, kx, es, entry);
    var w := FirstBehind(s1, k1, end, close);
    var w2 := if c == "," then end else w;
    if c == "" {
      SpaceStops(s1, end, w, m' - 1);
      AgreeAt(s1, s2, 0, end, nl, w);
      forall k | end <= k < w ensures IsSpace(s2[k]) { AgreeAt(s1, s2, 0, end, nl, k); }
    }
    TriviaOrCommasPart(s1, k1, end, close, end, nl);
    forall i | 0 <= i < end && CodeMatch(s2, k2, i) ensures MatchStop(s2, i) <= end { NoMatchPastSpaces(s2, k2, end, w2, i); }
    forall i | end <= i < p + |x| ensures !CodeMatch(s2, k2, i) {
      if i < p {
        NoMatchBehind(s1, k1, end, nl, c, x, p, s2, k2, i);
      } else {
        BlockHasNoMatch(x, kx, es, s2, k2, p, i);
      }
    }
    SpliceKeepsConfig(s1, k1, open, end, nl + 1, s2, k2, p + |x|);
  }

  /** The text of an entry added behind the last one. */
  lemma {:induction false} AppendedText(s: string, end: nat, hasComma: bool, block: string, eol: string, s2: string)
    returns (x: string, p: nat)
    requires 0 < end <= |s| && LineEnd(s, end) < |s| && !IsSpace(s[end - 1])
    requires eol == (if HasCrLf(s) then "\r\n" else "\n")
    requires s2 == s[..end] + (if hasComma then "" else ",") + Slice(s, end, LineBreak(s, end)) + eol + block + s[LineBreak(s, end)..]
    ensures x == block + s[LineBreak(s, end)..LineEnd(s, end) + 1]
    ensures s[LineBreak(s, end)..LineEnd(s, end) + 1] == "\n" || s[LineBreak(s, end)..LineEnd(s, end) + 1] == "\r\n"
    ensures Appended(s, end, LineEnd(s, end), if hasComma then "" else ",", x, p, s2)
  {
    hide LineEnd, HasCrLf, Appended;
    var c := if hasComma then "" else ",";
    var nl, lineEnd := LineEnd(s, end), LineBreak(s, end);
    assert end <= lineEnd;
    if lineEnd < nl { CrLfAt(s, lineEnd); }
    x := block + s[lineEnd..nl + 1];
    p := lineEnd + |c| + |eol|;
    assert s[lineEnd..nl + 1] == if lineEnd < nl then "\r\n" else "\n";
    RestSplits(s[..end] + c + s[end..lineEnd] + eol, block, s, lineEnd, nl);
    AppendedParts(s, end, nl, lineEnd, c, eol, x, p, s2);
  }

  lemma {:induction false} RestSplits(head: string, block: string, s: string, lineEnd: nat, nl: nat)
    requires lineEnd <= nl < |s|
    ensures head + block + s[lineEnd..] == head + (block + s[lineEnd..nl + 1]) + s[nl + 1..]
  {
    assert s[lineEnd..] == s[lineEnd..nl + 1] + s[nl + 1..];
  }

  lemma {:induction false} CrLfAt(s: string, i: nat)
    requires i + 1 < |s| && s[i] == '\r' && s[i + 1] == '\n'
    ensures HasCrLf(s)
  {
    assert s[i..i + 2] == "\r\n";
    assert HasPrefixAt(s, i, "\r\n");
  }

  lemma {:induction false} AppendedParts(s: string, end: nat, nl: nat, lineEnd: nat, c: string, eol: string, x: string, p: nat, s2: string)
    requires end <= lineEnd <= nl < |s| && s[nl] == '\n' && (lineEnd < nl ==> lineEnd == nl - 1 && s[lineEnd] == '\r' && eol == "\r\n")
    requires (c == "" || c == ",") && (eol == "\n" || eol == "\r\n") && p == lineEnd + |c| + |eol|
    requires s2 == s[..end] + c + s[end..lineEnd] + eol + x + s[nl + 1..]
    ensures Appended(s, end, nl, c, x, p, s2)
  {
    hide Agree, BreaksLine;
    var t1, t3, rest := s[..end], s[end..lineEnd], s[nl + 1..];
    assert |t1| == end && |t3| == lineEnd - end && |rest| == |s| - nl - 1;
    SixParts(t1, c, t3, eol, x, rest, s2);
    AgreePrefixOf(s, s2, end);
    AgreeOfSlice(s, s2, end, lineEnd, end + |c|);
    AgreeOfSlice(s, s2, nl + 1, |s|, p + |x|);
    if c == "," { AgreeAt(c, s2, end, 0, |c|, 0); }
    AgreeAt(eol, s2, lineEnd + |c|, 0, |eol|, 0);
    AgreeAt(eol, s2, lineEnd + |c|, 0, |eol|, |eol| - 1);
    if lineEnd < nl { AgreeOne(s, s2, |c|, end, lineEnd); }
    assert BreaksLine(s2, nl + |c|, p) by { LineBroken(s2, nl + |c|, p, eol, lineEnd + |c|); }
  }

  lemma {:induction false} LineBroken(s2: string, from: nat, p: nat, eol: string, q: nat)
    requires (eol == "\n" || eol == "\r\n") && p == q + |eol| <= |s2| && q <= from < p
    requires s2[q] == eol[0] && s2[p - 1] == eol[|eol| - 1]
    ensures BreaksLine(s2, from, p)
  {
  }

  lemma {:induction false} AgreePrefixOf(s: string, s2: string, end: nat)
    requires end <= |s| && Agree(s[..end], s2, 0, 0, end)
    ensures Agree(s, s2, 0, 0, end)
  {
    forall k {:trigger s[k]} | 0 <= k < end ensures s[k] == s2[k] { assert s[..end][k] == s[k]; }
  }

  lemma {:induction false} SixParts(t1: string, c: string, t3: string, eol: string, x: string, rest: string, s2: string)
    requires s2 == t1 + c + t3 + eol + x + rest
    ensures && Agree(t1, s2, 0, 0, |t1|) && Agree(c, s2, |t1|, 0, |c|) && Agree(t3, s2, |t1| + |c|, 0, |t3|)
            && Agree(eol, s2, |t1| + |c| + |t3|, 0, |eol|) && Agree(x, s2, |t1| + |c| + |t3| + |eol|, 0, |x|)
            && Agree(rest, s2, |t1| + |c| + |t3| + |eol| + |x|, 0, |rest|)
  {
    hide Agree;
    AgreeConcat(t1, c);
    AgreeConcat(t1 + c, t3);
    AgreeConcat(t1 + c + t3, eol);
    AgreeConcat(t1 + c + t3 + eol, x);
    AgreeConcat(t1 + c + t3 + eol + x, rest);
    var a1, a2, a3 := t1 + c + t3, t1 + c + t3 + eol, t1 + c + t3 + eol + x;
    AgreeAppend(t1, t1 + c, t3, 0, 0, |t1|);
    AgreeAppend(t1, a1, eol, 0, 0, |t1|);
    AgreeAppend(t1, a2, x, 0, 0, |t1|);
    AgreeAppend(t1, a3, rest, 0, 0, |t1|);
    AgreeAppend(c, t1 + c, t3, |t1|, 0, |c|);
    AgreeAppend(c, a1, eol, |t1|, 0, |c|);
    AgreeAppend(c, a2, x, |t1|, 0, |c|);
    AgreeAppend(c, a3, rest, |t1|, 0, |c|);
    AgreeAppend(t3, a1, eol, |t1 + c|, 0, |t3|);
    AgreeAppend(t3, a2, x, |t1 + c|, 0, |t3|);
    AgreeAppend(t3, a3, rest, |t1 + c|, 0, |t3|);
    AgreeAppend(eol, a2, x, |a1|, 0, |eol|);
    AgreeAppend(eol, a3, rest, |a1|, 0, |eol|);
    AgreeAppend(x, a3, rest, |a2|, 0, |x|);
  }

  lemma {:induction false} AppendedEntries(entries: seq<ObjectEntry>, added: ObjectEntry)
    ensures entries[..|entries|] + [added] + MoveAll(entries[|entries|..], 0) == entries + [added]
  {
    assert entries[..|entries|] == entries && entries[|entries|..] == [];
  }

  /** The block appended, and what the new file reads as. */
  lemma {:induction false} AppendBlock(parsed: Parsed, scan: ObjectScan, hasComma: bool, x: string, kx: seq<Kind>, es: nat,
                                       entry: ObjectEntry, p: nat, s2: string)
    returns (k2: seq<Kind>, n: NewEntry)
    requires ReadOf(parsed, scan) && scan.entries != [] && EntryBlock(x, kx, es, entry)
    requires var s1, k1 := parsed.source, parsed.kinds;
             var end := scan.entries[|scan.entries| - 1].end;
             && LineEnd(s1, end) < scan.close && k1[LineEnd(s1, end)] == Code
             && SeparatorIn(s1, k1, end, scan.close, LineBreak(s1, end)) == Some(hasComma)
             && Appended(s1, end, LineEnd(s1, end), if hasComma then "" else ",", x, p, s2)
    ensures Gained(parsed.source, parsed.kinds, scan, s2, k2, n) && n.x == x && n.i == |scan.entries|
  {
    hide Lex, RunTo, ScanObject, HasCrLf, OneEntry, ReadEntry, ScanTo, Agree, FindConfigObject, AllTrivia, Boundary, OpensRegex,
      LineEnd, SeparatorIn, Appended, LineBreak, ReadUpTo, TriviaOrCommas, SeparatorAt, AppendedUpTo, NoConfig, Gained, Around, ConfigKept;
    var s1, k1 := parsed.source, parsed.kinds;
    var end := scan.entries[|scan.entries| - 1].end;
    var nl, c := LineEnd(s1, end), if hasComma then "" else ",";
    var m := LastPoint(s1, k1, scan);
    k2 := InsertLastReadsBack(s1, k1, scan, hasComma, x, kx, es, entry, p, s2);
    AppendFacts(s1, end, nl, c, x, p, s2);
    n := NewEntry(x, kx, es, entry, p, |scan.entries|, 0, scan.close + |s2| - |s1|);
    AppendedUpToFacts(k1, end, nl, c, p, k2);
    LastEntriesKept(s1, k1, scan, m, s2, k2);
    AppendedAround(s1, k1, scan, end, nl, p + |x| - nl - 1, s2, k2);
    AppendKept(s1, k1, scan, hasComma, m, x, kx, es, entry, p, s2, k2);
    AppendedGained(s1, k1, scan, s2, k2, n);
  }

  lemma {:induction false} AppendedGained(s1: string, k1: seq<Kind>, scan: ObjectScan, s2: string, k2: seq<Kind>, n: NewEntry)
    requires n.i == |scan.entries| && n.d == 0 && EntryBlock(n.x, n.kx, n.es, n.entry) && Same(n.x, n.kx, s2, k2, n.p, 0, |n.x|)
    requires Labelled(s2, k2) && |k2| == |s2| && |k1| == |s1|
    requires ScanObject(s2, k2, scan.open) == Success(ObjectScan(scan.open, n.close, scan.entries + [Move(n.entry, n.p)]))
    requires forall j :: 0 <= j < |scan.entries| ==> Same(s1, k1, s2, k2, Offset(j, |scan.entries|, 0), scan.entries[j].start, scan.entries[j].end)
    requires Around(s1, k1, scan, s2, k2, n.close) && ConfigKept(s1, k1, scan.open, s2, k2)
    ensures Gained(s1, k1, scan, s2, k2, n)
  {
    hide Lex, ScanObject, EntryBlock, Same, Around, ConfigKept;
    AppendedEntries(scan.entries, Move(n.entry, n.p));
  }

  lemma {:induction false} AppendKept(s1: string, k1: seq<Kind>, scan: ObjectScan, hasComma: bool, m: nat, x: string, kx: seq<Kind>,
                                      es: nat, entry: ObjectEntry, p: nat, s2: string, k2: seq<Kind>)
    requires Labelled(s1, k1) && |s1| == |k1| && ScanObject(s1, k1, scan.open) == Success(scan) && scan.entries != []
    requires OneEntry(x, kx, es, entry) && NoConfig(x, kx) && |s2| == |k2|
    requires var n, last := |scan.entries| - 1, scan.entries[|scan.entries| - 1];
             && scan.open < m < last.end <= scan.close < |s1| && k1[scan.close] == Code && !IsTrivia(s1, k1, last.end - 1)
             && ReadUpTo(s1, k1, scan.open, m, scan.entries[..n])
             && ScanTo(s1, k1, m, ScanState(0, m, scan.entries[..n]), last.end) == Running(ScanState(0, m, scan.entries[..n]))
             && ReadEntry(s1, k1, m, last.end) == Some(last) && TriviaOrCommas(s1, k1, last.end, scan.close)
             && LineEnd(s1, last.end) < scan.close && k1[LineEnd(s1, last.end)] == Code
             && SeparatorIn(s1, k1, last.end, scan.close, LineBreak(s1, last.end)) == Some(hasComma)
             && Appended(s1, last.end, LineEnd(s1, last.end), if hasComma then "" else ",", x, p, s2)
             && AppendedUpTo(k1, last.end, LineEnd(s1, last.end), if hasComma then "" else ",", p, k2)
             && Agree(kx, k2, p, 0, |x|) && Agree(k1, k2, p + |x| - LineEnd(s1, last.end) - 1, LineEnd(s1, last.end) + 1, |s1|)
    ensures ConfigKept(s1, k1, scan.open, s2, k2)
  {
    hide Lex, RunTo, ScanObject, HasCrLf, OneEntry, ReadEntry, ScanTo, Agree, FindConfigObject, AllTrivia, Boundary, OpensRegex,
      LineEnd, SeparatorIn, Appended, LineBreak, ReadUpTo, TriviaOrCommas, SeparatorAt, AppendedUpTo, NoConfig;
    var config := FindConfigObject(s1, k1);
    if config.Success? && config.value <= scan.open && k1[config.value] == Code {
      var end := scan.entries[|scan.entries| - 1].end;
      var nl, c := LineEnd(s1, end), if hasComma then "" else ",";
      ScanObjectCloses(s1, k1, scan);
      AppendBoundaries(s1, k1, end, nl, scan.close);
      var m' := SeparatorPoint(s1, k1, scan, m, hasComma);
      AppendKeepsConfig(s1, k1, config.value, end, nl, scan.close, c, m', x, kx, es, entry, p, s2, k2);
    }
  }

  lemma {:induction false} AppendedAround(s1: string, k1: seq<Kind>, scan: ObjectScan, end: nat, nl: nat, d: int, s2: string, k2: seq<Kind>)
    requires |s1| == |k1| && scan.open < end <= nl < scan.close <= |s1| && 0 <= scan.close + d && |s2| == |s1| + d
    requires Agree(s1, s2, 0, 0, end) && Agree(k1, k2, 0, 0, end) && Agree(s1, s2, d, nl + 1, |s1|) && Agree(k1, k2, d, nl + 1, |s1|)
    ensures Around(s1, k1, scan, s2, k2, scan.close + d)
  {
    hide Agree;
    AgreePart(s1, s2, 0, 0, end, 0, scan.open + 1);
    AgreePart(k1, k2, 0, 0, end, 0, scan.open + 1);
    AgreePart(s1, s2, d, nl + 1, |s1|, scan.close, |s1|);
    AgreePart(k1, k2, d, nl + 1, |s1|, scan.close, |s1|);
  }

  /** The text that appending gives. */
  lemma {:induction false} InsertLastText(parsed: Parsed, scan: ObjectScan, lines: seq<string>, indent: string, s2: string)
    returns (hasComma: bool)
    requires |parsed.kinds| == |parsed.source| && scan.entries != []
    requires 0 < scan.entries[|scan.entries| - 1].end <= scan.close < |parsed.source|
    requires InsertLast(parsed, scan, lines, indent, scan.entries[|scan.entries| - 1]) == Success(s2)
    ensures var s, end := parsed.source, scan.entries[|scan.entries| - 1].end;
            && SeparatorIn(s, parsed.kinds, end, scan.close, LineBreak(s, end)) == Some(hasComma)
            && s2 == s[..end] + (if hasComma then "" else ",") + Slice(s, end, LineBreak(s, end)) + parsed.eol
                     + JoinedLines(lines, indent, parsed.eol) + s[LineBreak(s, end)..]
  {
    hide SeparatorIn, LineBreak, JoinedLines;
    var s, end := parsed.source, scan.entries[|scan.entries| - 1].end;
    hasComma := SeparatorIn(s, parsed.kinds, end, scan.close, LineBreak(s, end)).value;
  }

  lemma {:induction false} BreakIsCode(parsed: Parsed, scan: ObjectScan)
    requires |parsed.kinds| == |parsed.source| && EntriesWithin(scan.entries, scan.open + 1, scan.close)
    requires scan.open < scan.close < |parsed.source| && scan.entries != [] && GoesInCode(parsed, scan, None)
    requires LineEnd(parsed.source, scan.entries[|scan.entries| - 1].end) < scan.close
    ensures parsed.kinds[LineEnd(parsed.source, scan.entries[|scan.entries| - 1].end)] == Code
  {
    hide LineEnd;
  }

  lemma {:induction false} InsertBlockLast(parsed: Parsed, scan: ObjectScan, lines: seq<string>, indent: string, s2: string)
    returns (k2: seq<Kind>, n: NewEntry, brk: string)
    requires ReadOf(parsed, scan) && ReadsAsOne(lines, parsed.eol) && scan.entries != [] && IsIndent(indent)
    requires GoesInCode(parsed, scan, None)
    requires LineEnd(parsed.source, scan.entries[|scan.entries| - 1].end) < scan.close
    requires InsertLast(parsed, scan, lines, indent, scan.entries[|scan.entries| - 1]) == Success(s2)
    ensures Gained(parsed.source, parsed.kinds, scan, s2, k2, n) && IsEol(brk) && n.x == JoinedLines(lines, indent, parsed.eol) + brk
    ensures n.i == |scan.entries|
  {
    hide Lex, RunTo, ScanObject, HasCrLf, ReadEntry, ScanTo, Agree, FindConfigObject, AllTrivia, Boundary, OpensRegex, EntryBlock,
      LineEnd, SeparatorIn, Appended, LineBreak, ReadUpTo, TriviaOrCommas, IsIndent, Gained, JoinedLines, ReadsAsOne, InsertLast, GoesInCode;
    var s1 := parsed.source;
    var end := scan.entries[|scan.entries| - 1].end;
    var m := LastPoint(s1, parsed.kinds, scan);
    var hasComma := InsertLastText(parsed, scan, lines, indent, s2);
    BreakIsCode(parsed, scan);
    var x, p := AppendedText(s1, end, hasComma, JoinedLines(lines, indent, parsed.eol), parsed.eol, s2);
    brk := s1[LineBreak(s1, end)..LineEnd(s1, end) + 1];
    var kx, es, entry := BlockRead(lines, indent, parsed.eol, brk, x);
    k2, n := AppendBlock(parsed, scan, hasComma, x, kx, es, entry, p, s2);
  }

  lemma {:induction false} LastEntriesKept(s1: string, k1: seq<Kind>, scan: ObjectScan, m: nat, s2: string, k2: seq<Kind>)
    requires |s1| == |k1| && |s2| == |k2| && scan.entries != [] && scan.open < m
    requires ReadUpTo(s1, k1, scan.open, m, scan.entries[..|scan.entries| - 1])
    requires var last := scan.entries[|scan.entries| - 1];
             m < last.end && 0 <= last.start <= last.end && Same(s1, k1, s2, k2, 0, 0, last.end)
    ensures forall n :: 0 <= n < |scan.entries| ==>
              Same(s1, k1, s2, k2, Offset(n, |scan.entries|, 0), scan.entries[n].start, scan.entries[n].end)
  {
    hide ScanTo, Agree;
    var last := scan.entries[|scan.entries| - 1];
    EntriesBefore(s1, k1, scan.open, m, scan.entries[..|scan.entries| - 1]);
    forall n | 0 <= n < |scan.entries|
      ensures Same(s1, k1, s2, k2, Offset(n, |scan.entries|, 0), scan.entries[n].start, scan.entries[n].end)
    {
      var e := scan.entries[n];
      if n < |scan.entries| - 1 { assert e == scan.entries[..|scan.entries| - 1][n]; }
      AgreePart(s1, s2, 0, 0, last.end, e.start, e.end);
      AgreePart(k1, k2, 0, 0, last.end, e.start, e.end);
    }
  }

  // ---------------------------------------------------------------------------
  // Into an empty object
  // ---------------------------------------------------------------------------

  lemma {:induction false} FilledText(s: string, open: nat, close: nat, eol: string, x: string, base: string, s2: string)
    requires open < close < |s| && (eol == "\n" || eol == "\r\n") && IsIndent(base)
    requires s2 == s[..open + 1] + eol + x + base + s[close..]
    ensures Filled(s, open, close, x, open + 1 + |eol|, open + 1 + |eol| + |x| + |base|, s2)
  {
    hide Agree;
    var t1, rest := s[..open + 1], s[close..];
    assert t1 + eol + x + base + rest + "" == s2;
    SixParts(t1, eol, x, base, rest, "", s2);
    AgreePrefixOf(s, s2, open + 1);
    AgreeOfSlice(s, s2, close, |s|, open + 1 + |eol| + |x| + |base|);
    forall k | open + 1 <= k < open + 1 + |eol| ensures IsSpace(s2[k]) { AgreeAt(eol, s2, |t1|, 0, |eol|, k - |t1|); }
    var n := |t1| + |eol| + |x|;
    forall k | n <= k < n + |base| ensures IsSpace(s2[k]) { AgreeAt(base, s2, n, 0, |base|, k - n); }
  }

  lemma {:induction false} FilledKeepsConfig(s1: string, k1: seq<Kind>, open: nat, close: nat, x: string, kx: seq<Kind>, es: nat,
                                             entry: ObjectEntry, p: nat, q: nat, s2: string, k2: seq<Kind>, config: nat)
    requires |s1| == |k1| && |s2| == |k2| && FindConfigObject(s1, k1) == Success(config) && k1[config] == Code
    requires config <= open < |s1| && k1[open] == Code && s1[open] == '{'
    requires Filled(s1, open, close, x, p, q, s2) && OneEntry(x, kx, es, entry) && NoConfig(x, kx)
    requires AllSpace(s1, open + 1, close)
    requires Agree(k1, k2, 0, 0, open + 1) && Agree(kx, k2, p, 0, |x|) && Agree(k1, k2, q - close, close, |s1|)
    ensures FindConfigObject(s2, k2) == Success(config)
  {
    hide FindConfigObject, OneEntry, Agree, MatchStop, MatchDefine, MatchExport;
    BlockFacts(x, kx, es, entry);
    AgreeAt(s1, s2, 0, 0, open + 1, open);
    forall i | 0 <= i < open + 1 && CodeMatch(s2, k2, i) ensures MatchStop(s2, i) <= open + 1 { MatchBefore(s2, k2, i, open); }
    forall i | open + 1 <= i < q ensures !CodeMatch(s2, k2, i) {
      if p <= i < p + |x| {
        BlockHasNoMatch(x, kx, es, s2, k2, p, i);
      } else {
        assert IsSpace(s2[i]);
        NoMatchAtTrivia(s2, k2, i);
      }
    }
    SpliceKeepsConfig(s1, k1, config, open + 1, close, s2, k2, q);
  }

  /** The block filled in, and what the new file reads as. */
  lemma {:induction false} FillBlock(parsed: Parsed, scan: ObjectScan, x: string, kx: seq<Kind>, es: nat, entry: ObjectEntry,
                                     p: nat, q: nat, s2: string)
    returns (k2: seq<Kind>, n: NewEntry)
    requires ReadOf(parsed, scan) && scan.entries == [] && EntryBlock(x, kx, es, entry)
    requires AllSpace(parsed.source, scan.open + 1, scan.close) && Filled(parsed.source, scan.open, scan.close, x, p, q, s2)
    ensures Gained(parsed.source, parsed.kinds, scan, s2, k2, n) && n.x == x && n.i == 0
  {
    hide Lex, RunTo, ScanObject, HasCrLf, OneEntry, Agree, FindConfigObject, Filled, NoConfig, AllSpace;
    var s1, k1 := parsed.source, parsed.kinds;
    ScanObjectCloses(s1, k1, scan);
    k2 := InsertFirstReadsBack(s1, k1, scan, x, kx, es, entry, p, q, s2);
    n := NewEntry(x, kx, es, entry, p, 0, 0, q);
    FilledEnds(s1, scan.open, scan.close, x, p, q, s2);
    assert scan.entries[..0] + [Move(entry, p)] + MoveAll(scan.entries[0..], 0) == [Move(entry, p)];
    var config := FindConfigObject(s1, k1);
    if config.Success? && config.value <= scan.open && k1[config.value] == Code {
      FilledKeepsConfig(s1, k1, scan.open, scan.close, x, kx, es, entry, p, q, s2, k2, config.value);
    }
  }

  lemma {:induction false} Regroup(a: string, j: string, e: string)
    ensures a + j + e == a + (j + e)
  {
  }

  lemma {:induction false} InsertBlockFirst(parsed: Parsed, scan: ObjectScan, lines: seq<string>, s2: string)
    returns (k2: seq<Kind>, n: NewEntry, indent: string)
    requires ReadOf(parsed, scan) && ReadsAsOne(lines, parsed.eol) && scan.entries == []
    requires InsertFirst(parsed, scan, lines) == Success(s2)
    ensures Gained(parsed.source, parsed.kinds, scan, s2, k2, n) && IsIndent(indent) && n.i == 0
    ensures n.x == JoinedLines(lines, indent, parsed.eol) + parsed.eol
  {
    hide Lex, ScanObject, HasCrLf, Agree, Filled, LineIndent, Gained, JoinedLines, EntryBlock;
    var s1, eol := parsed.source, parsed.eol;
    var base := LineIndent(s1, scan.open);
    indent := base + parsed.unit;
    var joined := JoinedLines(lines, indent, eol);
    var x := joined + eol;
    var p := scan.open + 1 + |eol|;
    var kx, es, entry := BlockRead(lines, indent, eol, eol, x);
    Regroup(s1[..scan.open + 1] + eol, joined, eol);
    FilledText(s1, scan.open, scan.close, eol, x, base, s2);
    k2, n := FillBlock(parsed, scan, x, kx, es, entry, p, p + |x| + |base|, s2);
  }

  lemma {:induction false} FilledEnds(s1: string, open: nat, close: nat, x: string, p: nat, q: nat, s2: string)
    requires Filled(s1, open, close, x, p, q, s2)
    ensures p + |x| <= |s2| && Agree(x, s2, p, 0, |x|) && Agree(s1, s2, 0, 0, open + 1) && Agree(s1, s2, q - close, close, |s1|)
    ensures |s2| == |s1| + q - close
  {
  }

  /**
   * However they are placed, lines that read as one entry are read back as that entry, above
   * `before` or last, in the same object with the same other entries.
   */
  lemma {:induction false} InsertReadsBack(parsed: Parsed, scan: ObjectScan, lines: seq<string>, before: Option<ObjectEntry>, s2: string)
    returns (k2: seq<Kind>, n: NewEntry, indent: string, brk: string)
    requires ReadOf(parsed, scan) && ReadsAsOne(lines, parsed.eol) && (before.Some? ==> before.value in scan.entries)
    requires GoesInCode(parsed, scan, before) && InsertEntry(parsed, scan, lines, before) == Success(s2)
    ensures Gained(parsed.source, parsed.kinds, scan, s2, k2, n)
    ensures IsIndent(indent) && IsEol(brk) && n.x == JoinedLines(lines, indent, parsed.eol) + brk
    ensures if before.Some? then n.i < |scan.entries| && scan.entries[n.i] == before.value else n.i == |scan.entries|
  {
    hide Lex, ScanObject, InsertFirst, InsertBefore, InsertLast, StartsLine, LineEnd, GoesInCode, LineIndent, Gained, HasCrLf, ReadsAsOne,
      JoinedLines;
    brk := parsed.eol;
    if scan.entries == [] {
      k2, n, indent := InsertBlockFirst(parsed, scan, lines, s2);
    } else {
      indent := LineIndent(parsed.source, scan.entries[0].start);
      if before.Some? {
        k2, n := InsertBlockBefore(parsed, scan, lines, indent, before.value, s2);
      } else {
        k2, n, brk := InsertBlockLast(parsed, scan, lines, indent, s2);
      }
    }
  }
}

/** The value of an entry of a `neon.ts` file, replaced by another one, read back. */
module ConfigValue {
  import opened Wrappers
  import opened Text
  import opened SourceLexer
  import opened LexerTokens
  import opened LexerShift
  import opened LexerSplice
  import opened ObjectScan
  import opened ObjectShift
  import opened ScanSplice
  import opened ConfigEdit
  import opened ConfigSplice
  import opened ConfigAppend
  import opened ConfigReplace
  import opened ConfigFind
  import opened ConfigInsert
  import opened ConfigLines
  import opened ConfigEntries
  import opened ConfigFields
  import opened ConfigNested

  // ---------------------------------------------------------------------------
  // The text around a value
  // ---------------------------------------------------------------------------

  /** `[a, b)` is a value: behind a colon and trivia, and before trivia and the end of its segment at `c`. */
  ghost predicate ValueAt(s: string, kinds: seq<Kind>, colon: nat, a: nat, b: nat, c: nat) {
    && Labelled(s, kinds) && |kinds| == |s| && colon < a <= b <= c < |s|
    && s[colon] == ':' && kinds[colon] == Code && AllTrivia(s, kinds, colon + 1, a)
    && AllTrivia(s, kinds, b, c) && kinds[c] == Code && (s[c] == ',' || s[c] == '}')
    && Boundary(s, kinds, a) && Boundary(s, kinds, b) && Boundary(s, kinds, c) && NoSlash(s, kinds, b, c)
    && (kinds[a - 1] == Comment ==> s[a] != '\n') && (kinds[a - 1] == Code ==> s[a - 1] != '/') && kinds[a - 1] != Literal
  }

  lemma {:induction false} ValueFacts(s: string, kinds: seq<Kind>, colon: nat, a: nat, b: nat, c: nat)
    requires ValueAt(s, kinds, colon, a, b, c)
    ensures Labelled(s, kinds) && |kinds| == |s| && colon < a <= b <= c < |s| && s[colon] == ':' && AllTrivia(s, kinds, colon + 1, a)
    ensures AllTrivia(s, kinds, b, c) && kinds[c] == Code && (s[c] == ',' || s[c] == '}')
  {
    hide Lex, Boundary, AllTrivia;
  }

  /** A keyed entry's value begins behind its colon; without one, the colon is the last character. */
  lemma {:induction false} ValueBegins(s: string, kinds: seq<Kind>, start: nat, end: nat) returns (colon: nat)
    requires Labelled(s, kinds) && start < end < |s| && EntryAt(s, kinds, start, end).keyed && !IsTrivia(s, kinds, end - 1)
    ensures var a := EntryAt(s, kinds, start, end).valueStart;
            && colon < a && s[colon] == ':' && kinds[colon] == Code && AllTrivia(s, kinds, colon + 1, a) && Boundary(s, kinds, a)
            && (kinds[a - 1] == Comment ==> s[a] != '\n') && (kinds[a - 1] == Code ==> s[a - 1] != '/') && kinds[a - 1] != Literal
  {
    hide Lex, RunTo, ReadKey, Boundary;
    var a := EntryAt(s, kinds, start, end).valueStart;
    if a < end {
      colon := ValueStarts(s, kinds, start, end);
    } else {
      colon := ColonOf(s, kinds, start, end);
      TriviaStops(s, kinds, colon + 1, end, end - 1);
      CodeIsTopLevel(s, kinds, colon);
    }
  }

  lemma {:induction false} TriviaIsTriviaOrCommas(s: string, kinds: seq<Kind>, lo: nat, hi: nat)
    requires AllTrivia(s, kinds, lo, hi) && hi <= |s| == |kinds|
    ensures TriviaOrCommas(s, kinds, lo, hi)
  {
    forall k | lo <= k < hi ensures IsTrivia(s, kinds, k) || IsCodeComma(s, kinds, k) { assert IsTrivia(s, kinds, k); }
  }

  /** Where the value of an entry of an object stands. */
  lemma {:induction false} ValueStands(s: string, kinds: seq<Kind>, scan: ObjectScan, j: nat) returns (colon: nat, c: nat)
    requires Labelled(s, kinds) && |s| == |kinds| && ScanObject(s, kinds, scan.open) == Success(scan)
    requires j < |scan.entries| && scan.entries[j].keyed
    ensures var e := scan.entries[j];
            && 0 <= e.valueStart && 0 <= e.end && ValueAt(s, kinds, colon, e.valueStart, e.end, c)
            && scan.open < colon && c <= scan.close
  {
    hide Lex, RunTo, ReadEntry, ScanTo, EntryAt, Boundary, AllTrivia, ReadUpTo;
    var e := scan.entries[j];
    var m;
    m, c := EntryPoint(s, kinds, scan, j);
    ReadEntryStarts(s, kinds, m, c, e);
    ReadEntryIs(s, kinds, m, c, e);
    ReadEntryEnds(s, kinds, m, c, e);
    colon := ValueBegins(s, kinds, e.start, e.end);
    TriviaIsTriviaOrCommas(s, kinds, e.end, c);
    NoLiterals(s, kinds, e.end, c);
    EndIsBoundary(s, kinds, e.end, c);
    KeyBehind(s, kinds, m, c, e, colon);
  }

  /** The colon stands behind the start of the segment. */
  lemma {:induction false} KeyBehind(s: string, kinds: seq<Kind>, m: nat, c: nat, e: ObjectEntry, colon: nat)
    requires m <= e.start < e.valueStart && 0 <= colon < e.valueStart <= |s| == |kinds|
    requires !IsTrivia(s, kinds, e.start) && AllTrivia(s, kinds, colon + 1, e.valueStart)
    ensures m <= colon
  {
    TriviaStops(s, kinds, colon + 1, e.valueStart, e.start);
  }

  // ---------------------------------------------------------------------------
  // The new value
  // ---------------------------------------------------------------------------

  /** The text of `value` has taken the place of `[a, b)`. */
  ghost predicate Rewritten(s1: string, a: nat, b: nat, value: seq<Piece>, s2: string, b2: nat, d: int) {
    && a <= b <= |s1| && |s2| == |s1| + d && b2 == b + d == a + |Written(value)|
    && Agree(s1, s2, 0, 0, a) && Agree(Written(value), s2, a, 0, |Written(value)|) && Agree(s1, s2, d, b, |s1|)
  }

  lemma {:induction false} RewrittenText(s1: string, a: nat, b: nat, value: seq<Piece>, s2: string)
    requires a <= b <= |s1| && s2 == s1[..a] + Written(value) + s1[b..]
    ensures Rewritten(s1, a, b, value, s2, a + |Written(value)|, a + |Written(value)| - b)
  {
    hide Agree, Written, Labels;
    var w := Written(value);
    var head, tail := s1[..a], s1[b..];
    assert |head| == a && |head + w| == a + |w| && s2 == (head + w) + tail && tail == s1[b..|s1|];
    AgreeConcat(head, w);
    AgreeConcat(head + w, tail);
    AgreeAppend(w, head + w, tail, a, 0, |w|);
    AgreeAppend(head, head + w, tail, 0, 0, a);
    AgreePrefixOf(s1, s2, a);
    AgreeOfSlice(s1, s2, b, |s1|, a + |w|);
  }

  /** The labels of the new file. */
  ghost predicate Relabelled(k1: seq<Kind>, a: nat, b: nat, value: seq<Piece>, k2: seq<Kind>, d: int) {
    && Agree(k1, k2, 0, 0, a) && Agree(Labels(value), k2, a, 0, |Labels(value)|) && Agree(k1, k2, d, b, |k1|)
  }

  lemma {:induction false} ValueStops(s1: string, k1: seq<Kind>, colon: nat, a: nat, b: nat, c: nat, s2: string)
    requires ValueAt(s1, k1, colon, a, b, c)
    ensures StopsAt(s1, s2, a, 0, k1)
  {
    hide Lex, Boundary, AllTrivia;
  }

  lemma {:induction false} RelabelledIs(k1: seq<Kind>, a: nat, b: nat, c: nat, value: seq<Piece>, pre: seq<Kind>, mid: seq<Kind>,
                                        k2: seq<Kind>, b2: nat, d: int)
    requires a <= b <= c < |k1| && pre == k1[..a] && b2 == b + d == a + |Labels(value)| && |mid| == c + 1 + d
    requires Agree(pre + Labels(value), mid, 0, 0, b2) && Agree(k1, mid, d, b, c + 1)
    requires Agree(mid, k2, 0, 0, |mid|) && Agree(k1, k2, d, c + 1, |k1|)
    ensures Relabelled(k1, a, b, value, k2, d)
  {
    hide Agree, Labels;
    var l, both := Labels(value), pre + Labels(value);
    AgreeConcat(pre, l);
    AgreePart(mid, k2, 0, 0, |mid|, 0, b2);
    AgreeTrans(both, mid, k2, 0, 0, 0, b2);
    AgreePart(both, k2, 0, 0, b2, 0, a);
    AgreeTrans(pre, both, k2, 0, 0, 0, a);
    AgreePrefix(k1, pre, a);
    AgreeTrans(k1, pre, k2, 0, 0, 0, a);
    AgreePart(both, k2, 0, 0, b2, a, b2);
    AgreeTrans(l, both, k2, a, 0, 0, |l|);
    AgreePart(mid, k2, 0, 0, |mid|, b2, |mid|);
    AgreeTrans(k1, mid, k2, d, 0, b, c + 1);
    AgreeJoin(k1, k2, d, b, c + 1, |k1|);
  }

  lemma {:induction false} ValueLabels(s1: string, k1: seq<Kind>, colon: nat, a: nat, b: nat, c: nat, value: seq<Piece>,
                                       s2: string, b2: nat, d: int) returns (k2: seq<Kind>)
    requires ValueAt(s1, k1, colon, a, b, c) && IsValue(value) && Rewritten(s1, a, b, value, s2, b2, d)
    ensures Labelled(s2, k2) && |k2| == |s2| && Relabelled(k1, a, b, value, k2, d)
  {
    hide RunTo, Lex, Boundary, Agree, NoSlash, StopsAt, OpensRegex, SameLeft, AllTrivia, Written, Labels, Depth, Spaced, IsSpace;
    var pre := TopLevel(k1, a).kinds;
    ReadsPieces(value, s2, pre);
    var mid1 := pre + Labels(value);
    var mid := AppendRest(s1, k1, b, c, s2, mid1);
    ReadsOnRuns(s2, mid1, mid);
    ReadsOnTrans(s2, pre, mid1, mid);
    ReadsOnRuns(s2, pre, mid);
    ValueStops(s1, k1, colon, a, b, c, s2);
    CodeIsTopLevel(s1, k1, c);
    AgreePart(s1, s2, d, b, |s1|, c + 1, |s1|);
    k2 := SpliceLabels(s1, k1, a, c + 1, s2, mid);
    RelabelledIs(k1, a, b, c, value, pre, mid, k2, b2, d);
  }

  /** The new value is passed over by any scan. */
  lemma {:induction false} ValuePasses(s1: string, k1: seq<Kind>, a: nat, b: nat, value: seq<Piece>, s2: string,
                                       k2: seq<Kind>, b2: nat, d: int)
    requires |s1| == |k1| && |s2| == |k2| && IsValue(value) && Rewritten(s1, a, b, value, s2, b2, d) && Relabelled(k1, a, b, value, k2, d)
    ensures Refilled(s1, k1, a, b, s2, k2, b2, d)
  {
    hide Agree, Written, Labels, ScanTo, Spaced;
    var w := Written(value);
    forall m: nat, acc | m <= a ensures ScanTo(s2, k2, a, ScanState(0, m, acc), b2) == Running(ScanState(0, m, acc)) {
      ScanPieces(value, s2, k2, a, ScanState(0, m, acc), 0);
    }
    AgreeAt(w, s2, a, 0, |w|, 0);
    AgreeAt(w, s2, a, 0, |w|, |w| - 1);
    AgreeAt(Labels(value), k2, a, 0, |w|, 0);
    AgreeAt(Labels(value), k2, a, 0, |w|, |w| - 1);
    NoComment(value, 0);
    NoComment(value, |w| - 1);
  }

  lemma {:induction false} NoBraceInTrivia(s: string, kinds: seq<Kind>, lo: nat, hi: nat, q: nat)
    requires AllTrivia(s, kinds, lo, hi) && lo <= q < hi <= |s| == |kinds| && kinds[q] == Code
    ensures s[q] != '(' && s[q] != '{'
  {
    assert IsTrivia(s, kinds, q);
  }

  lemma {:induction false} ValueBraces(s1: string, k1: seq<Kind>, a: nat, b: nat, c: nat, value: seq<Piece>, s2: string, k2: seq<Kind>,
                                       b2: nat, d: int, c2: nat)
    requires |s1| == |k1| && |s2| == |k2| && IsValue(value) && Rewritten(s1, a, b, value, s2, b2, d) && Relabelled(k1, a, b, value, k2, d)
    requires b <= c <= |s1| && c2 == c + d && AllTrivia(s1, k1, b, c)
    ensures b2 <= c2 && BracesSpaced(s2, k2, a, c2) && AllTrivia(s2, k2, b2, c2)
  {
    hide Agree, Written, Labels, Depth, AllTrivia, IsSpace;
    AgreePart(s1, s2, d, b, |s1|, b, c);
    AgreePart(k1, k2, d, b, |k1|, b, c);
    TriviaMoved(s1, k1, s2, k2, d, b, c);
    forall q {:trigger s2[q]} | a <= q < c2 && k2[q] == Code
      ensures s2[q] != '(' && (s2[q] == '{' ==> q == a || (q - 2 >= a && s2[q - 1] == ' ' && s2[q - 2] == ':'))
    {
      if q < b2 {
        SpacedBraces(value, true, s2, k2, a, q);
      } else {
        NoBraceInTrivia(s2, k2, b2, c2, q);
      }
    }
  }

  lemma {:induction false} ValueKeepsConfig(s1: string, k1: seq<Kind>, colon: nat, a: nat, b: nat, c: nat, value: seq<Piece>,
                                            s2: string, k2: seq<Kind>, b2: nat, d: int, config: nat, c2: nat)
    requires ValueAt(s1, k1, colon, a, b, c) && IsValue(value) && Rewritten(s1, a, b, value, s2, b2, d)
    requires Labelled(s2, k2) && |k2| == |s2| && Relabelled(k1, a, b, value, k2, d) && c2 == c + d
    requires FindConfigObject(s1, k1) == Success(config) && config < colon && k1[config] == Code
    ensures FindConfigObject(s2, k2) == Success(config)
  {
    hide Lex, FindConfigObject, Agree, MatchStop, MatchDefine, MatchExport, Boundary, NoSlash, AllTrivia, Written, Labels, IsValue;
    ValueFacts(s1, k1, colon, a, b, c);
    ValueBraces(s1, k1, a, b, c, value, s2, k2, b2, d, c2);
    AgreeAt(s1, s2, 0, 0, a, colon);
    AgreePart(s1, s2, 0, 0, a, colon + 1, a);
    AgreePart(k1, k2, 0, 0, a, colon + 1, a);
    TriviaMoved(s1, k1, s2, k2, 0, colon + 1, a);
    AgreeAt(s1, s2, d, b, |s1|, c);
    AgreeAt(k1, k2, d, b, |k1|, c);
    forall i | 0 <= i < a && CodeMatch(s2, k2, i) ensures MatchStop(s2, i) <= a {
      if i <= colon {
        MatchBefore(s2, k2, i, colon);
      } else {
        assert IsTrivia(s2, k2, i);
        NoMatchAtTrivia(s2, k2, i);
      }
    }
    forall i | a <= i < c2 + 1 ensures !CodeMatch(s2, k2, i) {
      if i < c2 {
        if CodeMatch(s2, k2, i) { MatchBefore(s2, k2, i, c2); }
        NoMatchWithin(s2, k2, a, c2, i);
      } else {
        NoMatchAtOther(s2, k2, i);
      }
    }
    AgreePart(s1, s2, d, b, |s1|, c + 1, |s1|);
    AgreePart(k1, k2, d, b, |k1|, c + 1, |k1|);
    SpliceKeepsConfig(s1, k1, config, a, c + 1, s2, k2, c2 + 1);
  }

  /** A value replaced by another one: the object reads as the same one, with that entry saying the new value. */
  lemma {:induction false} ValueReplaced(s1: string, k1: seq<Kind>, scan: ObjectScan, j: nat, name: string, value: seq<Piece>, s2: string)
    returns (k2: seq<Kind>, scan2: ObjectScan, d: int)
    requires Labelled(s1, k1) && |s1| == |k1| && ScanObject(s1, k1, scan.open) == Success(scan)
    requires j < |scan.entries| && scan.entries[j].keyed && scan.entries[j].key == Some(name) && IsValue(value)
    requires 0 <= scan.entries[j].valueStart <= scan.entries[j].valueEnd <= |s1|
    requires s2 == s1[..scan.entries[j].valueStart] + Written(value) + s1[scan.entries[j].valueEnd..]
    ensures Changed(s1, k1, scan, s2, k2, scan2) && ReplacedEntries(scan, j, d, scan2.entries)
    ensures j < |scan2.entries| && Says(s2, k2, scan2.entries[j], name, value)
    ensures Same(s1, k1, s2, k2, 0, 0, scan.entries[j].valueStart)
    ensures 0 <= scan.entries[j].valueEnd && Same(s1, k1, s2, k2, d, scan.entries[j].valueEnd, |s1|)
  {
    hide Lex, ScanObject, FindConfigObject, Agree, ReplacedEntries, Refilled, Written, Labels, IsValue, ValueAt;
    var e := scan.entries[j];
    ScanObjectRange(s1, k1, scan, j);
    var a: nat, b: nat := e.valueStart, e.end;
    var colon, c := ValueStands(s1, k1, scan, j);
    ValueFacts(s1, k1, colon, a, b, c);
    var b2 := a + |Written(value)|;
    d := b2 - b;
    var c2: nat := c + d;
    RewrittenText(s1, a, b, value, s2);
    k2 := ValueLabels(s1, k1, colon, a, b, c, value, s2, b2, d);
    ValuePasses(s1, k1, a, b, value, s2, k2, b2, d);
    var es2 := RefillReadsBack(s1, k1, scan, j, s2, k2, d, b2);
    scan2 := ObjectScan(scan.open, scan.close + d, es2);
    RefilledAround(s1, k1, scan, a, b, s2, k2, d);
    ReplacedAt(scan, j, d, es2);
    var config := FindConfigObject(s1, k1);
    if config.Success? && config.value <= scan.open && k1[config.value] == Code {
      ValueKeepsConfig(s1, k1, colon, a, b, c, value, s2, k2, b2, d, config.value, c2);
    }
  }
}

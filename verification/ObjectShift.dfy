/**
 * The entries an object literal is split into depend only on its own text and labels: moving
 * them moves the entries, and trivia around an entry belongs to none.
 */
module ObjectShift {
  import opened Wrappers
  import opened Text
  import opened SourceLexer
  import opened ObjectScan

  function Move(e: ObjectEntry, d: int): ObjectEntry {
    e.(start := e.start + d, end := e.end + d, valueStart := e.valueStart + d, valueEnd := e.valueEnd + d)
  }

  function MoveAll(es: seq<ObjectEntry>, d: int): (r: seq<ObjectEntry>)
    ensures |r| == |es| && forall i :: 0 <= i < |es| ==> r[i] == Move(es[i], d)
  {
    seq(|es|, i requires 0 <= i < |es| => Move(es[i], d))
  }

  function MoveOption(e: Option<ObjectEntry>, d: int): Option<ObjectEntry> {
    match e case None => None case Some(entry) => Some(Move(entry, d))
  }

  /** Text and labels agree on a range. */
  ghost predicate Same(s1: string, k1: seq<Kind>, s2: string, k2: seq<Kind>, d: int, lo: int, hi: int) {
    Agree(s1, s2, d, lo, hi) && Agree(k1, k2, d, lo, hi)
  }

  // ---------------------------------------------------------------------------
  // One entry
  // ---------------------------------------------------------------------------

  lemma {:induction false} SkipTriviaShift(s1: string, k1: seq<Kind>, s2: string, k2: seq<Kind>, d: int, from: nat, till: nat)
    requires from <= till && Same(s1, k1, s2, k2, d, from, till)
    ensures SkipTrivia(s2, k2, from + d, till + d) == SkipTrivia(s1, k1, from, till) + d
    decreases |s1| - from
  {
    if from < till && IsTrivia(s1, k1, from) {
      SkipTriviaShift(s1, k1, s2, k2, d, from + 1, till);
    }
  }

  lemma {:induction false} TrimTriviaEndShift(s1: string, k1: seq<Kind>, s2: string, k2: seq<Kind>, d: int, from: nat, till: nat)
    requires from <= till && Same(s1, k1, s2, k2, d, from, till)
    ensures TrimTriviaEnd(s2, k2, from + d, till + d) == TrimTriviaEnd(s1, k1, from, till) + d
    decreases till
  {
    if from < till {
      assert s1[till - 1] == s2[till - 1 + d] && k1[till - 1] == k2[till - 1 + d];
      if IsTrivia(s1, k1, till - 1) { TrimTriviaEndShift(s1, k1, s2, k2, d, from, till - 1); }
    }
  }

  lemma {:induction false} LiteralEndShift(k1: seq<Kind>, k2: seq<Kind>, d: int, i: nat, till: nat)
    requires i <= till && Agree(k1, k2, d, i, till)
    ensures LiteralEnd(k2, i + d, till + d) == LiteralEnd(k1, i, till) + d
    decreases |k1| - i
  {
    if i < till && k1[i] == Literal { LiteralEndShift(k1, k2, d, i + 1, till); }
  }

  lemma {:induction false} IdentEndShift(s1: string, s2: string, d: int, i: nat, till: nat)
    requires i <= till && Agree(s1, s2, d, i, till)
    ensures IdentEnd(s2, i + d, till + d) == IdentEnd(s1, i, till) + d
    decreases |s1| - i
  {
    if i < till && IsIdent(s1[i]) { IdentEndShift(s1, s2, d, i + 1, till); }
  }

  lemma {:induction false} QuotedShift(s1: string, s2: string, d: int, start: nat, end: nat, close: nat)
    requires Agree(s1, s2, d, start, end) && start <= close <= end
    ensures QuotedText(s1, start, close) == QuotedText(s2, start + d, close + d)
  {
    if close >= start + 2 { SliceShift(s1, s2, d, start, end, start + 1, close - 1); }
  }

  lemma {:induction false} ReadKeyShift(s1: string, k1: seq<Kind>, s2: string, k2: seq<Kind>, d: int, start: nat, end: nat)
    requires start < end && Same(s1, k1, s2, k2, d, start, end)
    ensures var r1, r2 := ReadKey(s1, k1, start, end), ReadKey(s2, k2, start + d, end + d);
            if r1.None? then r2.None? else r2 == Some((r1.value.0, r1.value.1 + d))
  {
    hide LiteralEnd, IdentEnd, Agree, QuotedText;
    AgreeAt(s1, s2, d, start, end, start);
    AgreeAt(k1, k2, d, start, end, start);
    AgreeBounds(s1, s2, d, start, end);
    AgreeBounds(k1, k2, d, start, end);
    if k1[start] == Literal {
      LiteralEndShift(k1, k2, d, start, end);
      QuotedShift(s1, s2, d, start, end, LiteralEnd(k1, start, end));
    } else {
      IdentEndShift(s1, s2, d, start, end);
      SliceShift(s1, s2, d, start, end, start, IdentEnd(s1, start, end));
    }
  }

  lemma {:induction false} EntryAtShift(s1: string, k1: seq<Kind>, s2: string, k2: seq<Kind>, d: int, start: nat, end: nat)
    requires start < end && Same(s1, k1, s2, k2, d, start, end)
    ensures EntryAt(s2, k2, start + d, end + d) == Move(EntryAt(s1, k1, start, end), d)
  {
    hide SkipTrivia, ReadKey;
    ReadKeyShift(s1, k1, s2, k2, d, start, end);
    var key := ReadKey(s1, k1, start, end);
    if key.Some? {
      SkipTriviaShift(s1, k1, s2, k2, d, key.value.1, end);
      var colon := SkipTrivia(s1, k1, key.value.1, end);
      if colon < end {
        assert s1[colon] == s2[colon + d] && k1[colon] == k2[colon + d];
        SkipTriviaShift(s1, k1, s2, k2, d, colon + 1, end);
      }
    }
  }

  lemma {:induction false} ReadEntryShift(s1: string, k1: seq<Kind>, s2: string, k2: seq<Kind>, d: int, from: nat, till: nat)
    requires from <= till && Same(s1, k1, s2, k2, d, from, till)
    ensures ReadEntry(s2, k2, from + d, till + d) == MoveOption(ReadEntry(s1, k1, from, till), d)
  {
    hide SkipTrivia, TrimTriviaEnd, EntryAt;
    SkipTriviaShift(s1, k1, s2, k2, d, from, till);
    var start := SkipTrivia(s1, k1, from, till);
    if start < till {
      TrimTriviaEndShift(s1, k1, s2, k2, d, start, till);
      EntryAtShift(s1, k1, s2, k2, d, start, TrimTriviaEnd(s1, k1, start, till));
    }
  }

  lemma {:induction false} SkipTriviaFrom(s: string, kinds: seq<Kind>, from: nat, from': nat, till: nat)
    requires from <= from' <= till <= |s| && till <= |kinds| && AllTrivia(s, kinds, from, from')
    ensures SkipTrivia(s, kinds, from, till) == SkipTrivia(s, kinds, from', till)
    decreases |s| - from
  {
    if from < from' {
      assert IsTrivia(s, kinds, from);
      SkipTriviaFrom(s, kinds, from + 1, from', till);
    }
  }

  lemma {:induction false} TrimTriviaEndTill(s: string, kinds: seq<Kind>, from: nat, till': nat, till: nat)
    requires from <= till' <= till <= |s| && till <= |kinds| && AllTrivia(s, kinds, till', till)
    ensures TrimTriviaEnd(s, kinds, from, till) == TrimTriviaEnd(s, kinds, from, till')
    decreases till
  {
    if till' < till {
      assert IsTrivia(s, kinds, till - 1);
      TrimTriviaEndTill(s, kinds, from, till', till - 1);
    }
  }

  /** Trivia before and after an entry is not part of it. */
  lemma {:induction false} ReadEntryWithin(s: string, kinds: seq<Kind>, from: nat, from': nat, till': nat, till: nat)
    requires from <= from' <= till' <= till <= |s| && till <= |kinds|
    requires AllTrivia(s, kinds, from, from') && AllTrivia(s, kinds, till', till)
    ensures ReadEntry(s, kinds, from, till) == ReadEntry(s, kinds, from', till')
  {
    hide SkipTrivia, TrimTriviaEnd, EntryAt;
    SkipTriviaFrom(s, kinds, from, from', till);
    var start := SkipTrivia(s, kinds, from', till');
    if start < till' {
      SkipTriviaStop(s, kinds, from', start, till);
      TrimTriviaEndTill(s, kinds, start, till', till);
    } else {
      assert AllTrivia(s, kinds, from', till);
      SkipTriviaStop(s, kinds, from', till, till);
    }
  }

  lemma {:induction false} SkipTriviaStop(s: string, kinds: seq<Kind>, from: nat, i: nat, till: nat)
    requires from <= i <= till <= |s| && till <= |kinds| && AllTrivia(s, kinds, from, i)
    requires i < till ==> !IsTrivia(s, kinds, i)
    ensures SkipTrivia(s, kinds, from, till) == i
    decreases |s| - from
  {
    if from < i {
      assert IsTrivia(s, kinds, from);
      SkipTriviaStop(s, kinds, from + 1, i, till);
    }
  }

  // ---------------------------------------------------------------------------
  // The scan
  // ---------------------------------------------------------------------------

  lemma {:induction false} ScanCompose(s: string, kinds: seq<Kind>, i: nat, st: ScanState, mid: nat, till: nat)
    requires i <= mid <= till <= |s| == |kinds| && st.entryStart <= i
    ensures var r := ScanTo(s, kinds, i, st, mid);
            ScanTo(s, kinds, i, st, till) == if r.Running? then ScanTo(s, kinds, mid, r.state, till) else r
    decreases |s| - i
  {
    hide ReadEntry;
    if i < mid {
      var r := ScanStep(s, kinds, i, st);
      if r.Running? { ScanCompose(s, kinds, i + 1, r.state, mid, till); }
    }
  }

  /** Trivia neither nests nor separates. */
  lemma {:induction false} ScanTrivia(s: string, kinds: seq<Kind>, i: nat, st: ScanState, till: nat)
    requires i <= till <= |s| == |kinds| && st.entryStart <= i && AllTrivia(s, kinds, i, till)
    ensures ScanTo(s, kinds, i, st, till) == Running(st)
    decreases |s| - i
  {
    hide ReadEntry;
    if i < till {
      assert IsTrivia(s, kinds, i);
      ScanTrivia(s, kinds, i + 1, st, till);
    }
  }

  /** `st2` is `st1` moved by `d`, apart from the entries each started with. */
  ghost predicate MovedScan(st1: ScanState, st2: ScanState, pre1: seq<ObjectEntry>, pre2: seq<ObjectEntry>, d: int) {
    && st2.depth == st1.depth && st2.entryStart == st1.entryStart + d
    && MovedEntries(st1.entries, st2.entries, pre1, pre2, d)
  }

  ghost predicate MovedEntries(e1: seq<ObjectEntry>, e2: seq<ObjectEntry>, pre1: seq<ObjectEntry>, pre2: seq<ObjectEntry>, d: int) {
    && |pre1| <= |e1| && e1[..|pre1|] == pre1
    && e2 == pre2 + MoveAll(e1[|pre1|..], d)
  }

  ghost predicate MovedOutcome(r1: ScanOutcome, r2: ScanOutcome, pre1: seq<ObjectEntry>, pre2: seq<ObjectEntry>, d: int) {
    match r1
    case Running(st1) => r2.Running? && MovedScan(st1, r2.state, pre1, pre2, d)
    case Complete(close, es) => r2.Complete? && r2.close == close + d && MovedEntries(es, r2.entries, pre1, pre2, d)
    case Stray(at) => r2.Stray? && r2.at == at + d
  }

  lemma {:induction false} MovedAppend(e1: seq<ObjectEntry>, e2: seq<ObjectEntry>, pre1: seq<ObjectEntry>,
                                       pre2: seq<ObjectEntry>, d: int, x: Option<ObjectEntry>)
    requires MovedEntries(e1, e2, pre1, pre2, d)
    ensures MovedEntries(e1 + OptionSeq(x), e2 + OptionSeq(MoveOption(x, d)), pre1, pre2, d)
  {
    var x1 := e1 + OptionSeq(x);
    assert x1[..|pre1|] == e1[..|pre1|];
    assert x1[|pre1|..] == e1[|pre1|..] + OptionSeq(x);
    assert MoveAll(x1[|pre1|..], d) == MoveAll(e1[|pre1|..], d) + OptionSeq(MoveOption(x, d));
  }

  lemma {:induction false} ScanStepShift(s1: string, k1: seq<Kind>, s2: string, k2: seq<Kind>, d: int, i: nat,
                      st1: ScanState, st2: ScanState, pre1: seq<ObjectEntry>, pre2: seq<ObjectEntry>)
    requires |s1| == |k1| && |s2| == |k2| && st1.entryStart <= i < |s1| && Same(s1, k1, s2, k2, d, st1.entryStart, i + 1)
    requires MovedScan(st1, st2, pre1, pre2, d)
    ensures MovedOutcome(ScanStep(s1, k1, i, st1), ScanStep(s2, k2, i + d, st2), pre1, pre2, d)
  {
    hide ReadEntry, MovedEntries;
    assert s1[i] == s2[i + d] && k1[i] == k2[i + d];
    ReadEntryShift(s1, k1, s2, k2, d, st1.entryStart, i);
    MovedAppend(st1.entries, st2.entries, pre1, pre2, d, ReadEntry(s1, k1, st1.entryStart, i));
  }

  lemma {:induction false} ScanShift(s1: string, k1: seq<Kind>, s2: string, k2: seq<Kind>, d: int, i: nat,
                                     st1: ScanState, st2: ScanState, pre1: seq<ObjectEntry>, pre2: seq<ObjectEntry>, till: nat)
    requires |s1| == |k1| && |s2| == |k2| && st1.entryStart <= i <= till && Same(s1, k1, s2, k2, d, st1.entryStart, till)
    requires MovedScan(st1, st2, pre1, pre2, d)
    ensures MovedOutcome(ScanTo(s1, k1, i, st1, till), ScanTo(s2, k2, i + d, st2, till + d), pre1, pre2, d)
    decreases |s1| - i
  {
    hide ScanStep, MovedEntries;
    if i < till {
      ScanStepShift(s1, k1, s2, k2, d, i, st1, st2, pre1, pre2);
      var r1, r2 := ScanStep(s1, k1, i, st1), ScanStep(s2, k2, i + d, st2);
      if r1.Running? { ScanShift(s1, k1, s2, k2, d, i + 1, r1.state, r2.state, pre1, pre2, till); }
    }
  }

  /** An entry may as well start after the trivia in front of it. */
  lemma {:induction false} ScanEntryStart(s: string, kinds: seq<Kind>, i: nat, st: ScanState, entryStart: nat, till: nat)
    requires st.entryStart <= entryStart <= i <= till <= |s| == |kinds|
    requires AllTrivia(s, kinds, st.entryStart, entryStart)
    ensures var r, r' := ScanTo(s, kinds, i, st, till), ScanTo(s, kinds, i, st.(entryStart := entryStart), till);
            r == r' || (r.Running? && r'.Running? && r.state.entryStart == st.entryStart && r' == Running(r.state.(entryStart := entryStart)))
    decreases |s| - i
  {
    hide ReadEntry, ScanStep;
    if i < till {
      StepEntryStart(s, kinds, i, st, entryStart);
      var r, r' := ScanStep(s, kinds, i, st), ScanStep(s, kinds, i, st.(entryStart := entryStart));
      if r.Running? && r != r' { ScanEntryStart(s, kinds, i + 1, r.state, entryStart, till); }
    }
  }

  lemma {:induction false} StepEntryStart(s: string, kinds: seq<Kind>, i: nat, st: ScanState, entryStart: nat)
    requires st.entryStart <= entryStart <= i < |s| == |kinds| && AllTrivia(s, kinds, st.entryStart, entryStart)
    ensures var r, r' := ScanStep(s, kinds, i, st), ScanStep(s, kinds, i, st.(entryStart := entryStart));
            r == r' || (r.Running? && r'.Running? && r.state.entryStart == st.entryStart && r' == Running(r.state.(entryStart := entryStart)))
  {
    hide ReadEntry;
    AllTriviaHere(s, kinds, i);
    ReadEntryWithin(s, kinds, st.entryStart, entryStart, i, i);
  }

  lemma {:induction false} AllTriviaHere(s: string, kinds: seq<Kind>, i: nat)
    requires i <= |s| == |kinds|
    ensures AllTrivia(s, kinds, i, i)
  {
  }
}

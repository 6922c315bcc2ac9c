/** How the scan of an object literal splits at its separators, and goes on after a splice. */
module ScanSplice {
  import opened Wrappers
  import opened SourceLexer
  import opened ObjectScan
  import opened ObjectShift

  /** A scan only adds entries. */
  lemma {:induction false} ScanExtends(s: string, kinds: seq<Kind>, i: nat, st: ScanState, till: nat)
    requires i <= till <= |s| == |kinds| && st.entryStart <= i
    ensures var r := ScanTo(s, kinds, i, st, till);
            && (r.Running? ==> st.entries <= r.state.entries)
            && (r.Complete? ==> st.entries <= r.entries)
    decreases |s| - i
  {
    hide ReadEntry;
    if i < till {
      var r := ScanStep(s, kinds, i, st);
      if r.Running? { ScanExtends(s, kinds, i + 1, r.state, till); }
    }
  }

  /** An entry after the first is read from just after a separator. */
  lemma {:induction false} ScanSeparator(s: string, kinds: seq<Kind>, i: nat, st: ScanState, till: nat)
    requires i <= till <= |s| == |kinds| && st.entryStart <= i
    ensures var r := ScanTo(s, kinds, i, st, till);
            r.Running? && r.state.entryStart != st.entryStart ==>
              i < r.state.entryStart <= till && IsCodeComma(s, kinds, r.state.entryStart - 1)
    ensures var r := ScanTo(s, kinds, i, st, till);
            r.Running? && r.state.entries != st.entries ==> r.state.entryStart != st.entryStart
    decreases |s| - i
  {
    hide ReadEntry;
    if i < till {
      var r := ScanStep(s, kinds, i, st);
      if r.Running? { ScanSeparator(s, kinds, i + 1, r.state, till); }
    }
  }

  /**
   * Where the segment of the `j`-th entry begins: where the scan stands now, or just after a
   * separator, with exactly the entries before it read.
   */
  lemma {:induction false} EntryOrigin(s: string, kinds: seq<Kind>, i: nat, st: ScanState, till: nat, j: nat) returns (m: nat)
    requires i <= till <= |s| == |kinds| && st.entryStart <= i && ScanTo(s, kinds, i, st, till).Complete?
    requires |st.entries| <= j < |ScanTo(s, kinds, i, st, till).entries|
    ensures var entries := ScanTo(s, kinds, i, st, till).entries;
            && (|| (m == st.entryStart && entries[..j] == st.entries)
                || (&& i < m <= till && ScanTo(s, kinds, i, st, m) == Running(ScanState(0, m, entries[..j]))
                    && IsCodeComma(s, kinds, m - 1)))
            && m <= entries[j].start < |s| && AllTrivia(s, kinds, m, entries[j].start)
            && !IsTrivia(s, kinds, entries[j].start)
    decreases |s| - i
  {
    hide ReadEntry, AllTrivia;
    var step := ScanStep(s, kinds, i, st);
    var read := ReadEntry(s, kinds, st.entryStart, i);
    if step.Complete? {
      m := st.entryStart;
    } else {
      ScanExtends(s, kinds, i + 1, step.state, till);
      if j < |step.state.entries| {
        m := st.entryStart;
      } else {
        m := EntryOrigin(s, kinds, i + 1, step.state, till, j);
        if m != st.entryStart && m == step.state.entryStart {
          assert ScanTo(s, kinds, i + 1, step.state, i + 1) == Running(step.state);
        }
      }
    }
  }

  ghost predicate TriviaOrCommas(s: string, kinds: seq<Kind>, lo: nat, hi: nat) {
    && hi <= |s| == |kinds|
    && forall k {:trigger s[k]} {:trigger kinds[k]} :: lo <= k < hi ==> IsTrivia(s, kinds, k) || IsCodeComma(s, kinds, k)
  }

  lemma {:induction false} TriviaOrComma(s: string, kinds: seq<Kind>, lo: nat, hi: nat, k: nat)
    requires TriviaOrCommas(s, kinds, lo, hi) && lo <= k < hi
    ensures k < |s| == |kinds| && (IsTrivia(s, kinds, k) || IsCodeComma(s, kinds, k))
  {
  }

  lemma {:induction false} TriviaOrCommasPart(s: string, kinds: seq<Kind>, lo: nat, hi: nat, lo': nat, hi': nat)
    requires TriviaOrCommas(s, kinds, lo, hi) && lo <= lo' && hi' <= hi
    ensures TriviaOrCommas(s, kinds, lo', hi')
  {
    forall k | lo' <= k < hi' ensures IsTrivia(s, kinds, k) || IsCodeComma(s, kinds, k) { TriviaOrComma(s, kinds, lo, hi, k); }
  }

  /** When no entry is added any more, only trivia and commas are left. */
  lemma {:induction false} TailIsTrivia(s: string, kinds: seq<Kind>, i: nat, st: ScanState, till: nat)
    requires i <= till <= |s| == |kinds| && st.entryStart <= i
    requires ScanTo(s, kinds, i, st, till).Complete? && ScanTo(s, kinds, i, st, till).entries == st.entries
    ensures TriviaOrCommas(s, kinds, st.entryStart, ScanTo(s, kinds, i, st, till).close)
    decreases |s| - i
  {
    hide ReadEntry, EntryAt;
    var step := ScanStep(s, kinds, i, st);
    if step.Running? {
      ScanExtends(s, kinds, i + 1, step.state, till);
      assert |step.state.entries| == |st.entries|;
      assert step.state.entries == st.entries;
      TailIsTrivia(s, kinds, i + 1, step.state, till);
      if step.state.entryStart != st.entryStart {
        assert AllTrivia(s, kinds, st.entryStart, i) && IsCodeComma(s, kinds, i);
        var close := ScanTo(s, kinds, i, st, till).close;
        forall k | st.entryStart <= k < close ensures IsTrivia(s, kinds, k) || IsCodeComma(s, kinds, k) {
          assert k < i ==> IsTrivia(s, kinds, k);
          if k > i { TriviaOrComma(s, kinds, i + 1, close, k); }
        }
      }
    }
  }

  /** Where the segment under way ends: at the next separator, or at the closing brace. */
  lemma {:induction false} NextSeparator(s: string, kinds: seq<Kind>, i: nat, st: ScanState, till: nat) returns (c: nat)
    requires i <= till <= |s| == |kinds| && st.entryStart <= i && ScanTo(s, kinds, i, st, till).Complete?
    ensures i <= c < till && kinds[c] == Code && (s[c] == ',' || (s[c] == '}' && c == ScanTo(s, kinds, i, st, till).close))
    ensures ScanTo(s, kinds, i, st, c) == Running(st.(depth := 0))
    decreases |s| - i
  {
    hide ReadEntry;
    var step := ScanStep(s, kinds, i, st);
    if step.Complete? || (IsCodeComma(s, kinds, i) && st.depth == 0) {
      c := i;
    } else {
      c := NextSeparator(s, kinds, i + 1, step.state, till);
    }
  }

  /** The segment of an entry ends where the scan, without nesting, meets the next separator. */
  lemma {:induction false} EntrySegment(s: string, kinds: seq<Kind>, m: nat, acc: seq<ObjectEntry>) returns (c: nat)
    requires m <= |s| == |kinds| && ScanTo(s, kinds, m, ScanState(0, m, acc), |s|).Complete?
    requires |acc| < |ScanTo(s, kinds, m, ScanState(0, m, acc), |s|).entries|
    requires var e := ScanTo(s, kinds, m, ScanState(0, m, acc), |s|).entries[|acc|];
             m <= e.start < |s| && AllTrivia(s, kinds, m, e.start) && !IsTrivia(s, kinds, e.start)
    ensures var r := ScanTo(s, kinds, m, ScanState(0, m, acc), |s|);
            && m <= c <= r.close && (c < r.close ==> IsCodeComma(s, kinds, c))
            && ReadEntry(s, kinds, m, c) == Some(r.entries[|acc|])
            && ScanTo(s, kinds, m, ScanState(0, m, acc), c) == Running(ScanState(0, m, acc))
            && (c < r.close ==> ScanTo(s, kinds, c + 1, ScanState(0, c + 1, acc + [r.entries[|acc|]]), |s|) == r)
            && (c == r.close ==> r.entries == acc + [r.entries[|acc|]])
  {
    hide ReadEntry, EntryAt;
    var st := ScanState(0, m, acc);
    var r := ScanTo(s, kinds, m, st, |s|);
    c := NextSeparator(s, kinds, m, st, |s|);
    ScanCompose(s, kinds, m, st, c, |s|);
    var step := ScanStep(s, kinds, c, st);
    var read := ReadEntry(s, kinds, m, c);
    if step.Running? {
      ScanExtends(s, kinds, c + 1, step.state, |s|);
      if read.None? {
        assert step.state == ScanState(0, c + 1, acc);
        ScanFirstAfter(s, kinds, c + 1, acc);
        assert false;
      }
    }
  }

  /** The first entry added from a separator on starts after it. */
  lemma {:induction false} ScanFirstAfter(s: string, kinds: seq<Kind>, p: nat, acc: seq<ObjectEntry>)
    requires p <= |s| == |kinds| && ScanTo(s, kinds, p, ScanState(0, p, acc), |s|).Complete?
    requires |acc| < |ScanTo(s, kinds, p, ScanState(0, p, acc), |s|).entries|
    ensures p <= ScanTo(s, kinds, p, ScanState(0, p, acc), |s|).entries[|acc|].start
  {
    var m := EntryOrigin(s, kinds, p, ScanState(0, p, acc), |s|, |acc|);
  }

  /** Commas and trivia after an entry add none. */
  lemma {:induction false} CommaRun(s: string, kinds: seq<Kind>, i: nat, st: ScanState, till: nat) returns (m: nat)
    requires i <= till <= |s| == |kinds| && st.entryStart <= i && st.depth == 0
    requires AllTrivia(s, kinds, st.entryStart, i) && TriviaOrCommas(s, kinds, i, till)
    ensures ScanTo(s, kinds, i, st, till) == Running(st.(entryStart := m))
    ensures m == st.entryStart || (i < m <= till && IsCodeComma(s, kinds, m - 1) && ScanTo(s, kinds, i, st, m) == Running(st.(entryStart := m)))
    ensures AllTrivia(s, kinds, m, till)
    decreases |s| - i
  {
    hide ReadEntry, EntryAt;
    m := st.entryStart;
    if i < till {
      var step := ScanStep(s, kinds, i, st);
      TriviaOrCommasPart(s, kinds, i, till, i + 1, till);
      if IsCodeComma(s, kinds, i) {
        assert ReadEntry(s, kinds, st.entryStart, i).None?;
        assert step == Running(st.(entryStart := i + 1));
      } else {
        assert IsTrivia(s, kinds, i) && step == Running(st);
      }
      m := CommaRun(s, kinds, i + 1, step.state, till);
      assert m != st.entryStart && m == i + 1 ==> ScanTo(s, kinds, i + 1, step.state, m) == Running(step.state);
    }
  }

  /** Trivia in front of an entry can be passed over. */
  lemma {:induction false} ScanFromTrivia(s: string, kinds: seq<Kind>, m: nat, i: nat, p: nat, acc: seq<ObjectEntry>, till: nat)
    requires m <= i <= p <= till <= |s| == |kinds| && AllTrivia(s, kinds, m, p)
    requires ScanTo(s, kinds, p, ScanState(0, p, acc), till).Complete? || ScanTo(s, kinds, i, ScanState(0, m, acc), till).Complete?
    ensures ScanTo(s, kinds, i, ScanState(0, m, acc), till) == ScanTo(s, kinds, p, ScanState(0, p, acc), till)
  {
    hide ScanTo;
    ScanCompose(s, kinds, i, ScanState(0, m, acc), p, till);
    ScanTrivia(s, kinds, i, ScanState(0, m, acc), p);
    ScanEntryStart(s, kinds, p, ScanState(0, m, acc), p, till);
  }

  lemma {:induction false} MoveAllNothing(es: seq<ObjectEntry>)
    ensures MoveAll(es, 0) == es
  {
  }

  lemma {:induction false} MovedNothing(e1: seq<ObjectEntry>, e2: seq<ObjectEntry>, pre: seq<ObjectEntry>)
    requires MovedEntries(e1, e2, pre, pre, 0)
    ensures e2 == e1
  {
    MoveAllNothing(e1[|pre|..]);
  }

  lemma {:induction false} MovedStart(pre1: seq<ObjectEntry>, pre2: seq<ObjectEntry>, d: int)
    ensures MovedEntries(pre1, pre2, pre1, pre2, d)
  {
    assert pre1[|pre1|..] == [];
  }

  /** The scan of a stretch that did not move. */
  lemma {:induction false} ScanSame(s1: string, k1: seq<Kind>, s2: string, k2: seq<Kind>, i: nat, st: ScanState, till: nat)
    requires |s1| == |k1| && |s2| == |k2| && st.entryStart <= i <= till && Same(s1, k1, s2, k2, 0, st.entryStart, till)
    ensures ScanTo(s2, k2, i, st, till) == ScanTo(s1, k1, i, st, till)
  {
    hide ScanTo, MovedEntries;
    MovedStart(st.entries, st.entries, 0);
    ScanShift(s1, k1, s2, k2, 0, i, st, st, st.entries, st.entries, till);
    var r1, r2 := ScanTo(s1, k1, i, st, till), ScanTo(s2, k2, i, st, till);
    if r1.Running? {
      MovedNothing(r1.state.entries, r2.state.entries, st.entries);
    } else if r1.Complete? {
      MovedNothing(r1.entries, r2.entries, st.entries);
    }
  }
}

/**
 * Objects inside objects of a `neon.ts` file: when an entry's value has changed, the object around
 * it is read as the same one, with that entry ending elsewhere.
 */
module ConfigNested {
  import opened Wrappers
  import opened Text
  import opened SourceLexer
  import opened ObjectScan
  import opened ObjectShift
  import opened ScanSplice
  import opened ConfigEdit
  import opened ConfigSplice
  import opened ConfigAppend
  import opened ConfigReplace
  import opened ConfigInsert
  import opened ConfigLines
  import opened ConfigEntries

  // ---------------------------------------------------------------------------
  // What a scan passes over
  // ---------------------------------------------------------------------------

  /** A key and its colon open, close and separate nothing. */
  lemma {:induction false} KeyPasses(s: string, kinds: seq<Kind>, m: nat, c: nat, e: ObjectEntry, acc: seq<ObjectEntry>)
    requires m <= c <= |s| == |kinds| && ReadEntry(s, kinds, m, c) == Some(e) && e.keyed
    ensures m <= e.valueStart <= |s| && ScanTo(s, kinds, m, ScanState(0, m, acc), e.valueStart) == Running(ScanState(0, m, acc))
  {
    hide ReadEntry, ScanTo, SkipTrivia, LiteralEnd, IdentEnd;
    var key := ReadKey(s, kinds, e.start, e.end).value.1;
    var colon := ColonOf(s, kinds, e.start, e.end);
    forall k | m <= k < e.valueStart
      ensures kinds[k] != Code || (!OpensBracket(s[k]) && !ClosesBracket(s[k]) && s[k] != ',')
    {
      if k < e.start || key <= k < colon || colon < k {
        assert IsTrivia(s, kinds, k);
      }
    }
    ScanQuiet(s, kinds, m, ScanState(0, m, acc), e.valueStart);
  }

  /** Seen from one level further out, the scan of an object comes back to where it was behind the closing brace. */
  lemma {:induction false} DeeperFrom(s: string, kinds: seq<Kind>, i: nat, st: ScanState, m: nat, acc: seq<ObjectEntry>)
    requires i <= |s| == |kinds| && st.entryStart <= i && m <= i && ScanTo(s, kinds, i, st, |s|).Complete?
    ensures var close := ScanTo(s, kinds, i, st, |s|).close;
            ScanTo(s, kinds, i, ScanState(st.depth + 1, m, acc), close + 1) == Running(ScanState(0, m, acc))
    decreases |s| - i
  {
    hide ReadEntry;
    var r := ScanStep(s, kinds, i, st);
    if r.Running? {
      DeeperFrom(s, kinds, i + 1, r.state, m, acc);
    } else {
      ScanHere(s, kinds, i + 1, ScanState(0, m, acc));
    }
  }

  /** An object literal is passed over, whatever it holds. */
  lemma {:induction false} ObjectPasses(s: string, kinds: seq<Kind>, scan: ObjectScan, m: nat, acc: seq<ObjectEntry>)
    requires |s| == |kinds| && ScanObject(s, kinds, scan.open) == Success(scan) && m <= scan.open
    ensures scan.open < scan.close < |s|
    ensures ScanTo(s, kinds, scan.open, ScanState(0, m, acc), scan.close + 1) == Running(ScanState(0, m, acc))
  {
    hide ReadEntry;
    ScanObjectCloses(s, kinds, scan);
    DeeperFrom(s, kinds, scan.open + 1, ScanState(0, scan.open + 1, []), m, acc);
  }

  // ---------------------------------------------------------------------------
  // An entry whose value has changed
  // ---------------------------------------------------------------------------

  /** Text that the scan passes over, without trivia at its ends. */
  ghost predicate Passes(s: string, kinds: seq<Kind>, a: nat, b: nat) {
    && a < b <= |s| == |kinds| && !IsTrivia(s, kinds, a) && !IsTrivia(s, kinds, b - 1)
    && forall m: nat, acc :: m <= a ==> ScanTo(s, kinds, a, ScanState(0, m, acc), b) == Running(ScanState(0, m, acc))
  }

  /** The value `[a, b)` has become `[a, b2)`. */
  ghost predicate Refilled(s1: string, k1: seq<Kind>, a: nat, b: nat, s2: string, k2: seq<Kind>, b2: nat, d: int) {
    && |s1| == |k1| && |s2| == |k2| == |s1| + d && a <= b <= |s1| && b2 == b + d
    && Same(s1, k1, s2, k2, 0, 0, a) && Same(s1, k1, s2, k2, d, b, |s1|) && Passes(s2, k2, a, b2)
  }

  lemma {:induction false} RefilledParts(s1: string, k1: seq<Kind>, a: nat, b: nat, s2: string, k2: seq<Kind>, b2: nat, d: int)
    requires Refilled(s1, k1, a, b, s2, k2, b2, d)
    ensures |s1| == |k1| && |s2| == |k2| == |s1| + d && a <= b <= |s1| && b2 == b + d && a < b2 <= |s2|
    ensures Same(s1, k1, s2, k2, 0, 0, a) && Same(s1, k1, s2, k2, d, b, |s1|) && !IsTrivia(s2, k2, a) && !IsTrivia(s2, k2, b2 - 1)
  {
    hide Agree, ScanTo;
  }

  lemma {:induction false} PassedOver(s: string, kinds: seq<Kind>, a: nat, b: nat, m: nat, acc: seq<ObjectEntry>)
    requires Passes(s, kinds, a, b) && m <= a
    ensures a <= b <= |s| == |kinds| && ScanTo(s, kinds, a, ScanState(0, m, acc), b) == Running(ScanState(0, m, acc))
  {
    hide ScanTo;
  }

  /** The entry, read with its new value. */
  lemma {:induction false} EntryAtRefilled(s1: string, k1: seq<Kind>, e: ObjectEntry, s2: string, k2: seq<Kind>, b2: nat, d: int)
    requires 0 <= e.start < e.end <= |s1| && e.end <= |k1| && e == EntryAt(s1, k1, e.start, e.end) && e.keyed
    requires Refilled(s1, k1, e.valueStart, e.end, s2, k2, b2, d)
    ensures e.start < b2 <= |s2| == |k2| && EntryAt(s2, k2, e.start, b2) == Grow(e, d)
  {
    hide SkipTrivia, ReadKey, Agree, ScanTo, Passes;
    var a: nat, start: nat, end: nat := e.valueStart, e.start, e.end;
    RefilledParts(s1, k1, a, end, s2, k2, b2, d);
    var key := ReadKey(s1, k1, start, end).value;
    var colon := ColonOf(s1, k1, start, end);
    AgreeAt(s1, s2, 0, 0, a, colon);
    AgreeAt(k1, k2, 0, 0, a, colon);
    AgreePart(s1, s2, 0, 0, a, 0, colon + 1);
    AgreePart(k1, k2, 0, 0, a, 0, colon + 1);
    ReadKeyGrown(s1, k1, s2, k2, start, end, colon, b2);
    SkipGrown(s1, k1, s2, k2, key.1, colon, b2, a);
    TriviaUnmoved(s1, k1, s2, k2, colon + 1, a, a);
    SkipTriviaStop(s2, k2, colon + 1, a, b2);
  }

  lemma {:induction false} ReadRefilled(s1: string, k1: seq<Kind>, m: nat, c: nat, e: ObjectEntry, s2: string,
                                        k2: seq<Kind>, d: int, b2: nat, c2: nat)
    requires m <= c <= |s1| == |k1| && ReadEntry(s1, k1, m, c) == Some(e) && e.keyed && c2 == c + d
    requires 0 <= e.valueStart && 0 <= e.end && Refilled(s1, k1, e.valueStart, e.end, s2, k2, b2, d)
    ensures m <= c2 <= |s2| == |k2| && ReadEntry(s2, k2, m, c2) == Some(Grow(e, d))
  {
    hide SkipTrivia, TrimTriviaEnd, EntryAt, Agree, ScanTo, Refilled;
    RefilledParts(s1, k1, e.valueStart, e.end, s2, k2, b2, d);
    EntryAtRefilled(s1, k1, e, s2, k2, b2, d);
    TriviaUnmoved(s1, k1, s2, k2, m, e.start, e.valueStart);
    AgreeAt(s1, s2, 0, 0, e.valueStart, e.start);
    AgreeAt(k1, k2, 0, 0, e.valueStart, e.start);
    SkipTriviaStop(s2, k2, m, e.start, c2);
    AgreePart(s1, s2, d, e.end, |s1|, e.end, c);
    AgreePart(k1, k2, d, e.end, |s1|, e.end, c);
    TriviaMoved(s1, k1, s2, k2, d, e.end, c);
    TrimTriviaEndTill(s2, k2, e.start, b2, c2);
    TrimNothing(s2, k2, e.start, b2);
  }

  lemma {:induction false} SegmentRefilled(s1: string, k1: seq<Kind>, m: nat, c: nat, e: ObjectEntry, acc: seq<ObjectEntry>,
                                           s2: string, k2: seq<Kind>, d: int, b2: nat, c2: nat)
    requires m <= c <= |s1| == |k1| && ReadEntry(s1, k1, m, c) == Some(e) && e.keyed && c2 == c + d
    requires 0 <= e.valueStart && 0 <= e.end && Refilled(s1, k1, e.valueStart, e.end, s2, k2, b2, d)
    ensures m <= c2 <= |s2| == |k2| && ScanTo(s2, k2, m, ScanState(0, m, acc), c2) == Running(ScanState(0, m, acc))
  {
    hide ReadEntry, Agree, ScanTo, Refilled, Passes, AllTrivia;
    var a: nat, st := e.valueStart, ScanState(0, m, acc);
    RefilledParts(s1, k1, a, e.end, s2, k2, b2, d);
    ReadEntryEnds(s1, k1, m, c, e);
    KeyPasses(s1, k1, m, c, e, acc);
    AgreePart(s1, s2, 0, 0, a, m, a);
    AgreePart(k1, k2, 0, 0, a, m, a);
    ScanSame(s1, k1, s2, k2, m, st, a);
    PassedOver(s2, k2, a, b2, m, acc) by { assert Refilled(s1, k1, a, e.end, s2, k2, b2, d); RefilledPasses(s1, k1, a, e.end, s2, k2, b2, d); }
    AgreePart(s1, s2, d, e.end, |s1|, e.end, c);
    AgreePart(k1, k2, d, e.end, |s1|, e.end, c);
    TriviaMoved(s1, k1, s2, k2, d, e.end, c);
    ScanTrivia(s2, k2, b2, st, c2);
    ScanCompose(s2, k2, m, st, a, c2);
    ScanCompose(s2, k2, a, st, b2, c2);
  }

  lemma {:induction false} RefilledPasses(s1: string, k1: seq<Kind>, a: nat, b: nat, s2: string, k2: seq<Kind>, b2: nat, d: int)
    requires Refilled(s1, k1, a, b, s2, k2, b2, d)
    ensures Passes(s2, k2, a, b2)
  {
    hide Agree, Passes;
  }

  lemma {:induction false} RefilledFrom(s1: string, k1: seq<Kind>, scan: ObjectScan, j: nat, m: nat, c: nat,
                                        s2: string, k2: seq<Kind>, d: int, b2: nat)
    requires SegmentOf(s1, k1, scan, j, m, c) && scan.entries[j].keyed
    requires 0 <= scan.entries[j].valueStart && 0 <= scan.entries[j].end
    requires Refilled(s1, k1, scan.entries[j].valueStart, scan.entries[j].end, s2, k2, b2, d)
    ensures |s2| == |k2| && m <= scan.entries[j].valueStart && m <= |s2|
    ensures var r := ScanTo(s2, k2, m, ScanState(0, m, scan.entries[..j]), |s2|);
            r.Complete? && r.close == scan.close + d && ReplacedEntries(scan, j, d, r.entries)
  {
    hide ScanTo, ReadEntry, Agree, ReadUpTo, IsCodeComma, MoveAll, Refilled;
    var e, c2, acc := scan.entries[j], c + d, scan.entries[..j];
    RefilledParts(s1, k1, e.valueStart, e.end, s2, k2, b2, d);
    ReadRefilled(s1, k1, m, c, e, s2, k2, d, b2, c2);
    SegmentRefilled(s1, k1, m, c, e, acc, s2, k2, d, b2, c2);
    ReadEntryStarts(s1, k1, m, c, e);
    ReplacedTail(s1, k1, scan, j, m, c, s2, k2, d, acc, e.end, c2);
    ScanCompose(s2, k2, m, ScanState(0, m, acc), c2, |s2|);
  }

  /**
   * An object literal whose `j`-th entry has another value is read as the same object: that entry
   * ends elsewhere, the ones after it moved, nothing else changed.
   */
  lemma {:induction false} RefillReadsBack(s1: string, k1: seq<Kind>, scan: ObjectScan, j: nat, s2: string, k2: seq<Kind>, d: int, b2: nat)
    returns (entries: seq<ObjectEntry>)
    requires |s1| == |k1| && ScanObject(s1, k1, scan.open) == Success(scan) && j < |scan.entries| && scan.entries[j].keyed
    requires 0 <= scan.entries[j].valueStart && 0 <= scan.entries[j].end
    requires Refilled(s1, k1, scan.entries[j].valueStart, scan.entries[j].end, s2, k2, b2, d)
    ensures |s2| == |k2| && 0 <= scan.close + d
    ensures ScanObject(s2, k2, scan.open) == Success(ObjectScan(scan.open, scan.close + d, entries))
    ensures ReplacedEntries(scan, j, d, entries)
  {
    hide ScanTo, ReadEntry, AllTrivia, Agree, ReadUpTo, ReplacedEntries, Refilled;
    var open, acc, a: nat := scan.open, scan.entries[..j], scan.entries[j].valueStart;
    var m, c := EntryPoint(s1, k1, scan, j);
    RefilledParts(s1, k1, a, scan.entries[j].end, s2, k2, b2, d);
    RefilledFrom(s1, k1, scan, j, m, c, s2, k2, d, b2);
    entries := ScanTo(s2, k2, m, ScanState(0, m, acc), |s2|).entries;
    ReadUpToAfter(s1, k1, open, m, acc);
    AgreePart(s1, s2, 0, 0, a, 0, m);
    AgreePart(k1, k2, 0, 0, a, 0, m);
    ReadUpToSame(s1, k1, s2, k2, open, m, acc);
    AllTriviaNothing(s2, k2, m);
    ScanObjectCloses(s1, k1, scan);
    AgreeAt(s1, s2, 0, 0, a, open);
    AgreeAt(k1, k2, 0, 0, a, open);
    ScanEnds(s2, k2, open, m, m, acc);
  }

  // ---------------------------------------------------------------------------
  // The object around a changed object
  // ---------------------------------------------------------------------------

  lemma {:induction false} ChangedRefills(s1: string, k1: seq<Kind>, inner: ObjectScan, s2: string, k2: seq<Kind>,
                                          inner2: ObjectScan, d: int)
    requires Changed(s1, k1, inner, s2, k2, inner2) && ScanObject(s1, k1, inner.open) == Success(inner) && d == inner2.close - inner.close
    ensures Refilled(s1, k1, inner.open, inner.close + 1, s2, k2, inner2.close + 1, d)
  {
    hide Lex, ScanTo, FindConfigObject, Agree;
    ScanObjectCloses(s1, k1, inner);
    ScanObjectCloses(s2, k2, inner2);
    AgreePart(s1, s2, 0, 0, inner.open + 1, 0, inner.open);
    AgreePart(k1, k2, 0, 0, inner.open + 1, 0, inner.open);
    AgreePart(s1, s2, d, inner.close, |s1|, inner.close + 1, |s1|);
    AgreePart(k1, k2, d, inner.close, |s1|, inner.close + 1, |s1|);
    forall m: nat, acc | m <= inner2.open
      ensures ScanTo(s2, k2, inner2.open, ScanState(0, m, acc), inner2.close + 1) == Running(ScanState(0, m, acc))
    {
      ObjectPasses(s2, k2, inner2, m, acc);
    }
  }

  /** An object whose entry holds a changed one is changed, in that entry. */
  lemma {:induction false} OuterChanged(s1: string, k1: seq<Kind>, scan: ObjectScan, j: nat, inner: ObjectScan,
                                        s2: string, k2: seq<Kind>, inner2: ObjectScan)
    returns (scan2: ObjectScan, d: int)
    requires |s1| == |k1| && ScanObject(s1, k1, scan.open) == Success(scan) && j < |scan.entries|
    requires Holds(s1, k1, scan.entries[j], inner) && Changed(s1, k1, inner, s2, k2, inner2)
    ensures Changed(s1, k1, scan, s2, k2, scan2) && ReplacedEntries(scan, j, d, scan2.entries)
    ensures j < |scan2.entries| && Holds(s2, k2, scan2.entries[j], inner2)
    ensures Same(s1, k1, s2, k2, 0, 0, inner.open) && Same(s1, k1, s2, k2, d, inner.close + 1, |s1|)
  {
    hide Lex, ScanObject, FindConfigObject, Agree, ReplacedEntries, Refilled;
    d := inner2.close - inner.close;
    var e := scan.entries[j];
    ScanObjectRange(s1, k1, scan, j);
    ChangedRefills(s1, k1, inner, s2, k2, inner2, d);
    var es2 := RefillReadsBack(s1, k1, scan, j, s2, k2, d, inner2.close + 1);
    scan2 := ObjectScan(scan.open, scan.close + d, es2);
    RefilledParts(s1, k1, inner.open, inner.close + 1, s2, k2, inner2.close + 1, d);
    ReplacedAt(scan, j, d, es2);
    RefilledAround(s1, k1, scan, e.valueStart, e.end, s2, k2, d);
  }

  lemma {:induction false} RefilledAround(s1: string, k1: seq<Kind>, scan: ObjectScan, a: nat, b: nat, s2: string, k2: seq<Kind>, d: int)
    requires scan.open < a <= b <= scan.close <= |s1| && |s2| == |s1| + d && 0 <= scan.close + d
    requires Same(s1, k1, s2, k2, 0, 0, a) && Same(s1, k1, s2, k2, d, b, |s1|)
    ensures Around(s1, k1, scan, s2, k2, scan.close + d)
  {
    hide Agree;
    AgreePart(s1, s2, 0, 0, a, 0, scan.open + 1);
    AgreePart(k1, k2, 0, 0, a, 0, scan.open + 1);
    AgreePart(s1, s2, d, b, |s1|, scan.close, |s1|);
    AgreePart(k1, k2, d, b, |s1|, scan.close, |s1|);
  }

  /** The entries of the object around: found where they were, all but the changed one with their text. */
  lemma {:induction false} OuterOthers(s1: string, k1: seq<Kind>, scan: ObjectScan, j: nat, inner: ObjectScan,
                                       s2: string, k2: seq<Kind>, scan2: ObjectScan, d: int, key: string)
    requires |s1| == |k1| && |s2| == |k2| && ScanObject(s1, k1, scan.open) == Success(scan) && j < |scan.entries| && Plain(scan.entries)
    requires Holds(s1, k1, scan.entries[j], inner) && scan.entries[j].key == Some(key) && ReplacedEntries(scan, j, d, scan2.entries)
    requires Same(s1, k1, s2, k2, 0, 0, inner.open) && Same(s1, k1, s2, k2, d, inner.close + 1, |s1|)
    ensures Plain(scan2.entries) && j < |scan2.entries| && FindEntry(scan2.entries, key) == Some(scan2.entries[j])
    ensures OthersKept(s1, k1, scan.entries, s2, k2, scan2.entries, key)
  {
    hide ScanObject, Agree, Plain, FindEntry, OthersKept, ReplacedEntries;
    ScanObjectRange(s1, k1, scan, j);
    ReplacedOthers(s1, k1, scan, j, inner.open, inner.close + 1, s2, k2, d, scan2.entries, key);
    ReplacedAt(scan, j, d, scan2.entries);
  }

  // ---------------------------------------------------------------------------
  // The file around a changed root object
  // ---------------------------------------------------------------------------

  /** A file whose root object has changed is read with the changed one, when that is plain. */
  lemma {:induction false} RootChanged(parsed: Parsed, s2: string, k2: seq<Kind>, scan2: ObjectScan)
    requires ReadOf(parsed, parsed.root) && Changed(parsed.source, parsed.kinds, parsed.root, s2, k2, scan2) && Plain(scan2.entries)
    requires FindConfigObject(parsed.source, parsed.kinds) == Success(parsed.root.open)
    ensures Parse(s2).Success? && WellRead(Parse(s2).value)
    ensures Parse(s2).value.source == s2 && Parse(s2).value.kinds == k2 && Parse(s2).value.root == scan2
  {
    hide Lex, FindConfigObject, ScanObject, Plain, Parse, Agree;
    ScanObjectCloses(parsed.source, parsed.kinds, parsed.root);
    ScanObjectCloses(s2, k2, scan2);
    Parses(s2, k2, scan2.open, scan2.close, scan2.entries);
  }

  /** The object literal an entry holds, or the error that its names are not plain. */
  lemma {:induction false} HeldObject(parsed: Parsed, e: ObjectEntry, inner: ObjectScan)
    requires |parsed.source| == |parsed.kinds| && Holds(parsed.source, parsed.kinds, e, inner)
    ensures 0 <= e.valueStart
    ensures ObjectOf(parsed, e) == if Plain(inner.entries) then Success(Some(inner)) else Failure(NotPlain)
  {
    hide ScanTo, Plain;
    ScanObjectWithin(parsed.source, parsed.kinds, inner.open);
  }

  lemma {:induction false} ObjectHeld(parsed: Parsed, e: ObjectEntry, inner: ObjectScan)
    requires |parsed.source| == |parsed.kinds| && 0 <= e.valueStart && ObjectOf(parsed, e) == Success(Some(inner))
    ensures Holds(parsed.source, parsed.kinds, e, inner) && Plain(inner.entries)
    ensures EntriesWithin(inner.entries, inner.open + 1, inner.close)
  {
    hide ScanObject, Plain;
  }
}

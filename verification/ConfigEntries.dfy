/**
 * The entries of an object by name, and what keeps them: objects that moved, entries that were
 * inserted, and entries whose text changed.
 */
module ConfigEntries {
  import opened Wrappers
  import opened Text
  import opened SourceLexer
  import opened ObjectScan
  import opened ObjectShift
  import opened ScanSplice
  import opened ConfigEdit
  import opened ConfigSplice
  import opened ConfigAppend
  import opened ConfigReplace
  import opened ConfigFind
  import opened ConfigInsert

  // ---------------------------------------------------------------------------
  // Entries by name
  // ---------------------------------------------------------------------------

  lemma {:induction false} FindAt(entries: seq<ObjectEntry>, n: nat, key: string)
    requires n < |entries| && entries[n].key == Some(key) && forall i :: 0 <= i < n ==> entries[i].key != Some(key)
    ensures FindEntry(entries, key) == Some(entries[n])
    decreases n
  {
    if n > 0 { FindAt(entries[1..], n - 1, key); }
  }

  lemma {:induction false} FindNone(entries: seq<ObjectEntry>, key: string)
    requires forall i :: 0 <= i < |entries| ==> entries[i].key != Some(key)
    ensures FindEntry(entries, key) == None
  {
  }

  lemma {:induction false} FoundAt(entries: seq<ObjectEntry>, key: string) returns (n: nat)
    requires FindEntry(entries, key).Some?
    ensures n < |entries| && FindEntry(entries, key) == Some(entries[n]) && entries[n].key == Some(key)
    ensures forall i :: 0 <= i < n ==> entries[i].key != Some(key)
    decreases |entries|
  {
    if entries[0].key == Some(key) {
      n := 0;
    } else {
      var k := FoundAt(entries[1..], key);
      n := k + 1;
      forall i | 0 <= i < n ensures entries[i].key != Some(key) { assert i > 0 ==> entries[1..][i - 1] == entries[i]; }
    }
  }

  lemma {:induction false} NotFound(entries: seq<ObjectEntry>, key: string, i: nat)
    requires FindEntry(entries, key).None? && i < |entries|
    ensures entries[i].key != Some(key)
  {
    assert entries[i] in entries;
  }

  /** In a plain object every name is found where it stands. */
  lemma {:induction false} PlainFind(es: seq<ObjectEntry>, n: nat, key: string)
    requires Plain(es) && n < |es| && es[n].key == Some(key)
    ensures FindEntry(es, key) == Some(es[n])
  {
    FindAt(es, n, key);
  }

  /** An entry of the old object in the new one: the same text and labels, moved. */
  ghost predicate Kept(s1: string, k1: seq<Kind>, e: ObjectEntry, s2: string, k2: seq<Kind>, e2: ObjectEntry, d: int) {
    e2 == Move(e, d) && Same(s1, k1, s2, k2, d, e.start, e.end)
  }

  /** The object an entry's value is. */
  ghost predicate Holds(s: string, kinds: seq<Kind>, e: ObjectEntry, inner: ObjectScan) {
    && |s| == |kinds| && e.keyed && e.valueStart == inner.open && e.valueEnd == inner.close + 1
    && ScanObject(s, kinds, inner.open) == Success(inner)
  }

  /** The entries from index `j` on, with their text, `d` further on. */
  ghost predicate KeptFrom(s1: string, k1: seq<Kind>, es1: seq<ObjectEntry>, s2: string, k2: seq<Kind>, es2: seq<ObjectEntry>, j: nat, d: int) {
    |es1| <= |es2| && forall n :: j <= n < |es1| ==> Kept(s1, k1, es1[n], s2, k2, es2[n], d)
  }

  /** Every entry but `key` is found as before, kept or still absent. */
  ghost predicate OthersKept(s1: string, k1: seq<Kind>, es1: seq<ObjectEntry>, s2: string, k2: seq<Kind>, es2: seq<ObjectEntry>, key: string) {
    forall other :: other != key ==>
      && (FindEntry(es1, other).None? <==> FindEntry(es2, other).None?)
      && (FindEntry(es1, other).Some? ==>
            exists d :: Kept(s1, k1, FindEntry(es1, other).value, s2, k2, FindEntry(es2, other).value, d))
  }

  /** Two lists with the same names in the same order. */
  ghost predicate SameKeys(es1: seq<ObjectEntry>, es2: seq<ObjectEntry>) {
    |es1| == |es2| && forall i :: 0 <= i < |es1| ==> es2[i].key == es1[i].key
  }

  lemma {:induction false} SameKeysPlain(es1: seq<ObjectEntry>, es2: seq<ObjectEntry>)
    requires SameKeys(es1, es2) && Plain(es1)
    ensures Plain(es2)
  {
  }

  /** With the same names, an entry is found at the same index. */
  lemma {:induction false} SameKeysFind(es1: seq<ObjectEntry>, es2: seq<ObjectEntry>, key: string) returns (n: nat)
    requires SameKeys(es1, es2)
    ensures FindEntry(es1, key).None? <==> FindEntry(es2, key).None?
    ensures FindEntry(es1, key).Some? ==>
              && n < |es1| && FindEntry(es1, key) == Some(es1[n]) && FindEntry(es2, key) == Some(es2[n])
              && es1[n].key == Some(key)
  {
    n := 0;
    if FindEntry(es1, key).Some? {
      n := FoundAt(es1, key);
      FindAt(es2, n, key);
    } else {
      forall i | 0 <= i < |es2| ensures es2[i].key != Some(key) { NotFound(es1, key, i); }
      FindNone(es2, key);
    }
  }

  // ---------------------------------------------------------------------------
  // Object values that moved
  // ---------------------------------------------------------------------------

  lemma {:induction false} MovedKeys(es: seq<ObjectEntry>, d: int)
    ensures SameKeys(es, MoveAll(es, d))
  {
  }

  /** An object literal whose text and labels moved is read as the same one, moved. */
  lemma {:induction false} ObjectMoved(s1: string, k1: seq<Kind>, scan: ObjectScan, s2: string, k2: seq<Kind>, d: int)
    requires |s1| == |k1| && |s2| == |k2| && ScanObject(s1, k1, scan.open) == Success(scan)
    requires Same(s1, k1, s2, k2, d, scan.open, scan.close + 1)
    ensures scan.open + d >= 0 && scan.close + d >= 0
    ensures ScanObject(s2, k2, scan.open + d) == Success(ObjectScan(scan.open + d, scan.close + d, MoveAll(scan.entries, d)))
  {
    hide ScanTo, Agree;
    ScanObjectCloses(s1, k1, scan);
    AgreeAt(s1, s2, d, scan.open, scan.close + 1, scan.open);
    AgreeAt(k1, k2, d, scan.open, scan.close + 1, scan.open);
    AgreePart(s1, s2, d, scan.open, scan.close + 1, scan.open + 1, scan.close + 1);
    AgreePart(k1, k2, d, scan.open, scan.close + 1, scan.open + 1, scan.close + 1);
    AgreeWithin(s1, s2, d, scan.open, scan.close + 1);
    var st1 := ScanState(0, scan.open + 1, []);
    var st2 := ScanState(0, scan.open + 1 + d, []);
    ScanCutShort(s1, k1, scan.open + 1, st1, scan.close + 1, |s1|);
    MovedStart([], [], d);
    ScanShift(s1, k1, s2, k2, d, scan.open + 1, st1, st2, [], [], scan.close + 1);
    ScanCompose(s2, k2, scan.open + 1 + d, st2, scan.close + 1 + d, |s2|);
    assert scan.entries[0..] == scan.entries;
    MovedAllFromNothing(scan.entries, ScanTo(s2, k2, scan.open + 1 + d, st2, scan.close + 1 + d).entries, d);
  }

  lemma {:induction false} MovedAllFromNothing(e1: seq<ObjectEntry>, e2: seq<ObjectEntry>, d: int)
    requires MovedEntries(e1, e2, [], [], d)
    ensures e2 == MoveAll(e1, d)
  {
    assert e1[0..] == e1;
  }

  /** A scan that completes does so whatever comes after. */
  lemma {:induction false} ScanCutShort(s: string, kinds: seq<Kind>, i: nat, st: ScanState, mid: nat, till: nat)
    requires i <= mid <= till <= |s| == |kinds| && st.entryStart <= i
    requires ScanTo(s, kinds, i, st, till).Complete? && ScanTo(s, kinds, i, st, till).close < mid
    ensures ScanTo(s, kinds, i, st, mid) == ScanTo(s, kinds, i, st, till)
    decreases |s| - i
  {
    hide ScanStep;
    if i < mid {
      var r := ScanStep(s, kinds, i, st);
      if r.Running? {
        ScanCutShort(s, kinds, i + 1, r.state, mid, till);
      }
    }
  }

  /** The object literal an entry holds is read as the same one where the entry has moved. */
  lemma {:induction false} ObjectOfKept(p1: Parsed, e: ObjectEntry, p2: Parsed, e2: ObjectEntry, d: int)
    requires |p1.source| == |p1.kinds| && |p2.source| == |p2.kinds|
    requires 0 <= e.start < e.valueStart <= e.valueEnd == e.end
    requires Kept(p1.source, p1.kinds, e, p2.source, p2.kinds, e2, d)
    requires ObjectOf(p1, e).Success? && ObjectOf(p1, e).value.Some?
    ensures 0 <= e2.valueStart
    ensures var scan := ObjectOf(p1, e).value.value;
            scan.open + d >= 0 && scan.close + d >= 0 &&
            ObjectOf(p2, e2) == Success(Some(ObjectScan(scan.open + d, scan.close + d, MoveAll(scan.entries, d))))
  {
    hide ScanObject, Agree;
    var scan := ObjectOf(p1, e).value.value;
    ScanObjectCloses(p1.source, p1.kinds, scan);
    AgreePart(p1.source, p2.source, d, e.start, e.end, scan.open, scan.close + 1);
    AgreePart(p1.kinds, p2.kinds, d, e.start, e.end, scan.open, scan.close + 1);
    ObjectMoved(p1.source, p1.kinds, scan, p2.source, p2.kinds, d);
    AgreeAt(p1.source, p2.source, d, e.start, e.end, scan.open);
    MovedKeys(scan.entries, d);
    SameKeysPlain(scan.entries, MoveAll(scan.entries, d));
    ScanObjectWithin(p2.source, p2.kinds, scan.open + d);
  }

  lemma {:induction false} TextKept(p1: Parsed, e: ObjectEntry, p2: Parsed, e2: ObjectEntry, d: int)
    requires 0 <= e.start < e.valueStart <= e.valueEnd == e.end
    requires Kept(p1.source, p1.kinds, e, p2.source, p2.kinds, e2, d)
    ensures e.end <= |p1.source| && 0 <= e2.valueStart <= e2.valueEnd <= |p2.source|
    ensures ValueText(p2.source, e2) == ValueText(p1.source, e)
  {
    SliceShift(p1.source, p2.source, d, e.start, e.end, e.valueStart, e.valueEnd);
  }

  /** Nothing under `preview` stays nothing under `preview`. */
  lemma {:induction false} PreviewKept(p1: Parsed, p2: Parsed, key: string)
    requires WellRead(p1) && WellRead(p2) && key != "preview"
    requires OthersKept(p1.source, p1.kinds, p1.root.entries, p2.source, p2.kinds, p2.root.entries, key)
    requires NotUnderPreview(p1, key).Success?
    ensures NotUnderPreview(p2, key) == Success(true)
  {
    hide ObjectOf, Agree, Kept;
    var f1, f2 := FindEntry(p1.root.entries, "preview"), FindEntry(p2.root.entries, "preview");
    if f1.Some? {
      var d :| Kept(p1.source, p1.kinds, f1.value, p2.source, p2.kinds, f2.value, d);
      EntryRange(p1, f1.value);
      ObjectOfKept(p1, f1.value, p2, f2.value, d);
      var scan := ObjectOf(p1, f1.value).value.value;
      MovedKeys(scan.entries, d);
      var n := SameKeysFind(scan.entries, MoveAll(scan.entries, d), key);
    }
  }

  lemma {:induction false} EntryRange(p: Parsed, e: ObjectEntry)
    requires WellRead(p) && e in p.root.entries
    ensures 0 <= e.start < e.valueStart <= e.valueEnd == e.end <= |p.source|
  {
  }

  lemma {:induction false} ScanObjectRange(s: string, kinds: seq<Kind>, scan: ObjectScan, j: nat)
    requires |s| == |kinds| && ScanObject(s, kinds, scan.open) == Success(scan) && j < |scan.entries|
    ensures scan.open < scan.entries[j].start && scan.entries[j].end <= scan.close
    ensures scan.entries[j].start < scan.entries[j].valueStart <= scan.entries[j].valueEnd == scan.entries[j].end
  {
    hide ScanObject;
    ScanObjectWithin(s, kinds, scan.open);
  }

  // ---------------------------------------------------------------------------
  // The file after an insertion
  // ---------------------------------------------------------------------------

  /** Parsing succeeds when the text is labelled and its root object found and plain. */
  lemma {:induction false} Parses(s: string, kinds: seq<Kind>, open: nat, close: nat, entries: seq<ObjectEntry>)
    requires Labelled(s, kinds) && |s| == |kinds| && FindConfigObject(s, kinds) == Success(open)
    requires ScanObject(s, kinds, open) == Success(ObjectScan(open, close, entries)) && Plain(entries)
    ensures Parse(s).Success? && WellRead(Parse(s).value)
    ensures Parse(s).value.source == s && Parse(s).value.kinds == kinds && Parse(s).value.root == ObjectScan(open, close, entries)
  {
    hide Lex, FindConfigObject, ScanObject, LineIndent, HasCrLf, Plain;
    ScanObjectWithin(s, kinds, open);
  }

  lemma {:induction false} ParsedIs(s: string) returns (parsed: Parsed)
    requires Parse(s).Success?
    ensures parsed == Parse(s).value && WellRead(parsed) && ReadOf(parsed, parsed.root) && parsed.source == s
    ensures FindConfigObject(s, parsed.kinds) == Success(parsed.root.open) && Plain(parsed.root.entries)
  {
    hide Lex, FindConfigObject, ScanObject, HasCrLf, Plain, LineIndent;
    parsed := Parse(s).value;
    UnitIsIndent(s);
  }

  lemma {:induction false} UnitIsIndent(s: string)
    requires Parse(s).Success?
    ensures IsIndent(Parse(s).value.unit)
  {
    hide Lex, FindConfigObject, ScanObject, HasCrLf, Plain, LineIndent;
  }

  lemma {:induction false} InsertedPlain(es: seq<ObjectEntry>, i: nat, added: ObjectEntry, d: int, key: string)
    requires Plain(es) && i <= |es| && added.key == Some(key) && FindEntry(es, key).None?
    ensures Plain(es[..i] + [added] + MoveAll(es[i..], d))
  {
    forall n | 0 <= n < |es| ensures es[n].key != Some(key) { NotFound(es, key, n); }
    var r := es[..i] + [added] + MoveAll(es[i..], d);
    forall n | 0 <= n < |r| ensures r[n].key == if n < i then es[n].key else if n == i then Some(key) else es[n - 1].key {
      if n > i { assert r[n] == MoveAll(es[i..], d)[n - i - 1]; }
    }
  }

  /** Where the old entries stand among the new ones. */
  lemma {:induction false} InsertedIndex(es: seq<ObjectEntry>, i: nat, added: ObjectEntry, d: int, n: nat)
    requires i <= |es| && n < |es|
    ensures var r := es[..i] + [added] + MoveAll(es[i..], d);
            r[if n < i then n else n + 1] == Move(es[n], Offset(n, i, d))
  {
    var r := es[..i] + [added] + MoveAll(es[i..], d);
    if n >= i { assert r[n + 1] == MoveAll(es[i..], d)[n - i]; }
  }

  /** The names of the entries around the new one. */
  lemma {:induction false} InsertedKeys(es: seq<ObjectEntry>, i: nat, added: ObjectEntry, d: int)
    requires i <= |es|
    ensures var r := es[..i] + [added] + MoveAll(es[i..], d);
            |r| == |es| + 1 && forall k :: 0 <= k < |r| ==> r[k].key == if k < i then es[k].key else if k == i then added.key else es[k - 1].key
  {
    var r := es[..i] + [added] + MoveAll(es[i..], d);
    forall k | 0 <= k < |r| ensures r[k].key == if k < i then es[k].key else if k == i then added.key else es[k - 1].key {
      if k > i { InsertedIndex(es, i, added, d, k - 1); }
    }
  }

  lemma {:induction false} AddedIsFound(es: seq<ObjectEntry>, i: nat, added: ObjectEntry, d: int, key: string)
    requires i <= |es| && added.key == Some(key) && FindEntry(es, key).None?
    ensures FindEntry(es[..i] + [added] + MoveAll(es[i..], d), key) == Some(added)
  {
    hide FindEntry;
    InsertedKeys(es, i, added, d);
    forall k | 0 <= k < |es| ensures es[k].key != Some(key) { NotFound(es, key, k); }
    FindAt(es[..i] + [added] + MoveAll(es[i..], d), i, key);
  }

  lemma {:induction false} OtherIsFound(es: seq<ObjectEntry>, i: nat, added: ObjectEntry, d: int, other: string) returns (n: nat)
    requires i <= |es| && added.key != Some(other)
    ensures var r := es[..i] + [added] + MoveAll(es[i..], d);
            if FindEntry(es, other).None? then FindEntry(r, other).None?
            else n < |es| && FindEntry(es, other) == Some(es[n]) && FindEntry(r, other) == Some(Move(es[n], Offset(n, i, d)))
  {
    hide FindEntry;
    var r := es[..i] + [added] + MoveAll(es[i..], d);
    InsertedKeys(es, i, added, d);
    n := 0;
    if FindEntry(es, other).None? {
      forall k | 0 <= k < |es| ensures es[k].key != Some(other) { NotFound(es, other, k); }
      FindNone(r, other);
    } else {
      n := FoundAt(es, other);
      InsertedIndex(es, i, added, d, n);
      FindAt(r, if n < i then n else n + 1, other);
    }
  }

  lemma {:induction false} InsertedFind(es: seq<ObjectEntry>, i: nat, added: ObjectEntry, d: int, key: string,
                                        other: string) returns (n: nat)
    requires i <= |es| && added.key == Some(key) && FindEntry(es, key).None?
    ensures var r := es[..i] + [added] + MoveAll(es[i..], d);
            && FindEntry(r, key) == Some(added)
            && (other != key ==>
                  if FindEntry(es, other).None? then FindEntry(r, other).None?
                  else n < |es| && FindEntry(es, other) == Some(es[n]) && FindEntry(r, other) == Some(Move(es[n], Offset(n, i, d))))
  {
    hide FindEntry, Offset, MoveAll;
    AddedIsFound(es, i, added, d, key);
    n := 0;
    if other != key { n := OtherIsFound(es, i, added, d, other); }
  }

  lemma {:induction false} InsertedOthers(s1: string, k1: seq<Kind>, scan: ObjectScan, s2: string, k2: seq<Kind>,
                                          i: nat, added: ObjectEntry, d: int, close: nat, key: string)
    requires HasNewEntry(s1, k1, scan, s2, k2, i, added, d, close)
    requires added.key == Some(key) && FindEntry(scan.entries, key).None?
    ensures var es2 := scan.entries[..i] + [added] + MoveAll(scan.entries[i..], d);
            OthersKept(s1, k1, scan.entries, s2, k2, es2, key)
  {
    hide FindEntry, Agree, Lex, ScanObject, FindConfigObject;
    var es2 := scan.entries[..i] + [added] + MoveAll(scan.entries[i..], d);
    forall other | other != key
      ensures FindEntry(scan.entries, other).None? <==> FindEntry(es2, other).None?
      ensures FindEntry(scan.entries, other).Some? ==>
                exists d' :: Kept(s1, k1, FindEntry(scan.entries, other).value, s2, k2, FindEntry(es2, other).value, d')
    {
      var n := InsertedFind(scan.entries, i, added, d, key, other);
      if FindEntry(scan.entries, other).Some? {
        assert Kept(s1, k1, scan.entries[n], s2, k2, Move(scan.entries[n], Offset(n, i, d)), Offset(n, i, d));
      }
    }
  }

  // ---------------------------------------------------------------------------
  // The file after a replacement
  // ---------------------------------------------------------------------------

  /** The entries around a changed one keep their text. */
  lemma {:induction false} AroundKept(s1: string, k1: seq<Kind>, scan: ObjectScan, j: nat, a: nat, b: nat, s2: string,
                                      k2: seq<Kind>, d: int)
    requires |s1| == |k1| && |s2| == |k2| && ScanObject(s1, k1, scan.open) == Success(scan) && j < |scan.entries|
    requires scan.entries[j].start <= a <= b <= scan.entries[j].end
    requires Same(s1, k1, s2, k2, 0, 0, a) && Same(s1, k1, s2, k2, d, b, |s1|)
    ensures forall n :: 0 <= n < |scan.entries| && n != j ==>
              Same(s1, k1, s2, k2, if n < j then 0 else d, scan.entries[n].start, scan.entries[n].end)
  {
    hide ScanTo, Agree, ReadEntry, AllTrivia, EntryAt;
    var es := scan.entries;
    var m, c := EntryPoint(s1, k1, scan, j);
    ReadEntryStarts(s1, k1, m, c, es[j]);
    EntriesBefore(s1, k1, scan.open, m, es[..j]);
    if c < scan.close {
      EntriesFrom(s1, k1, c + 1, es[..j] + [es[j]]);
      assert es[|es[..j] + [es[j]]|..] == es[j + 1..];
    }
    forall n | 0 <= n < |es| && n != j ensures Same(s1, k1, s2, k2, if n < j then 0 else d, es[n].start, es[n].end) {
      if n < j {
        assert es[n] == es[..j][n];
        AgreePart(s1, s2, 0, 0, a, es[n].start, es[n].end);
        AgreePart(k1, k2, 0, 0, a, es[n].start, es[n].end);
      } else {
        assert es[n] == es[j + 1..][n - j - 1];
        AgreePart(s1, s2, d, b, |s1|, es[n].start, es[n].end);
        AgreePart(k1, k2, d, b, |s1|, es[n].start, es[n].end);
      }
    }
  }

  /** The entries of a changed object, by index. */
  lemma {:induction false} ReplacedAt(scan: ObjectScan, j: nat, d: int, es2: seq<ObjectEntry>)
    requires ReplacedEntries(scan, j, d, es2)
    ensures |es2| == |scan.entries| && es2[j] == Grow(scan.entries[j], d) && SameKeys(scan.entries, es2)
    ensures forall n :: 0 <= n < |es2| && n != j ==> es2[n] == Move(scan.entries[n], if n < j then 0 else d)
  {
    forall n | 0 <= n < |es2|
      ensures es2[n] == if n < j then scan.entries[n] else if n == j then Grow(scan.entries[j], d) else Move(scan.entries[n], d)
    {
      if n > j { assert es2[n] == MoveAll(scan.entries[j + 1..], d)[n - j - 1]; }
    }
  }

  lemma {:induction false} ReplacedOthers(s1: string, k1: seq<Kind>, scan: ObjectScan, j: nat, a: nat, b: nat,
                                          s2: string, k2: seq<Kind>, d: int, es2: seq<ObjectEntry>, key: string)
    requires |s1| == |k1| && |s2| == |k2| && ScanObject(s1, k1, scan.open) == Success(scan) && j < |scan.entries|
    requires Plain(scan.entries) && scan.entries[j].key == Some(key) && scan.entries[j].start <= a <= b <= scan.entries[j].end
    requires Same(s1, k1, s2, k2, 0, 0, a) && Same(s1, k1, s2, k2, d, b, |s1|)
    requires ReplacedEntries(scan, j, d, es2)
    ensures OthersKept(s1, k1, scan.entries, s2, k2, es2, key)
    ensures Plain(es2) && FindEntry(es2, key) == Some(es2[j])
  {
    hide FindEntry, Agree, ScanObject, ReplacedEntries;
    var es := scan.entries;
    AroundKept(s1, k1, scan, j, a, b, s2, k2, d);
    ReplacedAt(scan, j, d, es2);
    SameKeysPlain(es, es2);
    FindAt(es2, j, key);
    forall other | other != key
      ensures FindEntry(es, other).None? <==> FindEntry(es2, other).None?
      ensures FindEntry(es, other).Some? ==>
                exists d' :: Kept(s1, k1, FindEntry(es, other).value, s2, k2, FindEntry(es2, other).value, d')
    {
      var n := SameKeysFind(es, es2, other);
      if FindEntry(es, other).Some? {
        var off := if n < j then 0 else d;
        assert Kept(s1, k1, es[n], s2, k2, es2[n], off);
      }
    }
  }
}

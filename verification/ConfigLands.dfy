/**
 * Where the line of a function, bucket or Realtime edit lands, and what the file then declares:
 * in code it is read back under its name, in a block comment it is not read at all.
 */
module ConfigLands {
  import opened Wrappers
  import opened Text
  import opened SourceLexer
  import opened ObjectScan
  import opened ObjectShift
  import opened ConfigEdit
  import opened ConfigAppend
  import opened ConfigReplace
  import opened ConfigInsert
  import opened ConfigLines
  import opened ConfigEntries
  import opened ConfigFields
  import opened ConfigGrowth
  import opened ConfigSwallowed
  import opened ConfigNested
  import opened ConfigAccepted

  // ---------------------------------------------------------------------------
  // Places
  // ---------------------------------------------------------------------------

  /** Where a new line goes: the object, and the entry it goes above. */
  datatype Place = Place(scan: ObjectScan, before: Option<ObjectEntry>)

  /** A place is an object of the file and an entry of it. */
  ghost predicate PlaceFits(parsed: Parsed, place: Place) {
    && |parsed.kinds| == |parsed.source| && EntriesWithin(place.scan.entries, place.scan.open + 1, place.scan.close)
    && place.scan.open < place.scan.close < |parsed.source| && (place.before.Some? ==> place.before.value in place.scan.entries)
  }

  ghost predicate InCode(parsed: Parsed, place: Place) {
    PlaceFits(parsed, place) && GoesInCode(parsed, place.scan, place.before)
  }

  /** The place of a new entry of the root object. */
  ghost function RootPlace(parsed: Parsed, key: string): Place { Place(parsed.root, EntryAfter(parsed.root.entries, key)) }

  /** The lines put in there give `t`. */
  ghost predicate Put(parsed: Parsed, place: Place, lines: seq<string>, t: string) {
    PlaceFits(parsed, place) && InsertEntry(parsed, place.scan, lines, place.before) == Success(t)
  }

  /** The lines of a new container with one line in it. */
  function ContainerOf(container: string, line: string, unit: string): seq<string> { [container + ": {", unit + line, "},"] }

  // ---------------------------------------------------------------------------
  // The file around a changed object
  // ---------------------------------------------------------------------------

  /** The file `s2`, with `scan2` in the place of the object literal that the root entry `key` of `parsed` holds. */
  ghost predicate RootHolds(parsed: Parsed, key: string, s2: string, k2: seq<Kind>, scan2: ObjectScan) {
    && Parse(s2).Success? && WellRead(Parse(s2).value) && Parse(s2).value.source == s2 && Parse(s2).value.kinds == k2 && |s2| == |k2|
    && FindEntry(Parse(s2).value.root.entries, key).Some?
    && Holds(s2, k2, FindEntry(Parse(s2).value.root.entries, key).value, scan2)
    && OthersKept(parsed.source, parsed.kinds, parsed.root.entries, s2, k2, Parse(s2).value.root.entries, key)
  }

  /** A changed object literal under the root is read in its place. */
  lemma {:induction false} RootAround(s: string, key: string, inner: ObjectScan, s2: string, k2: seq<Kind>, inner2: ObjectScan)
    requires Parse(s).Success? && WellRead(Parse(s).value)
    requires FindEntry(Parse(s).value.root.entries, key).Some?
    requires Holds(s, Parse(s).value.kinds, FindEntry(Parse(s).value.root.entries, key).value, inner)
    requires Changed(s, Parse(s).value.kinds, inner, s2, k2, inner2)
    ensures RootHolds(Parse(s).value, key, s2, k2, inner2)
  {
    hide Lex, ScanObject, FindEntry, Plain, Parse, Changed, ReplacedEntries, Holds, OthersKept, Agree;
    var parsed := ParsedIs(s);
    var j := FoundAt(parsed.root.entries, key);
    var root2, d := OuterChanged(s, parsed.kinds, parsed.root, j, inner, s2, k2, inner2);
    ChangedLengths(s, parsed.kinds, parsed.root, s2, k2, root2);
    OuterOthers(s, parsed.kinds, parsed.root, j, inner, s2, k2, root2, d, key);
    RootChanged(parsed, s2, k2, root2);
  }

  lemma {:induction false} ChangedLengths(s: string, k1: seq<Kind>, scan: ObjectScan, s2: string, k2: seq<Kind>, scan2: ObjectScan)
    requires Changed(s, k1, scan, s2, k2, scan2)
    ensures |s2| == |k2| && |s| == |k1| && ScanObject(s2, k2, scan2.open) == Success(scan2)
  {
    hide Agree, ScanObject;
  }

  /** The object read in the place of the changed one; with a name that cannot be read, none. */
  lemma {:induction false} RootObject(parsed: Parsed, key: string, s2: string, k2: seq<Kind>, scan2: ObjectScan)
    requires RootHolds(parsed, key, s2, k2, scan2)
    ensures var p2 := Parse(s2).value;
            && WellRead(p2) && ObjectUnder(p2, p2.root.entries, key) == if Plain(scan2.entries) then Some(scan2) else None
  {
    hide Parse, Plain, Holds, OthersKept, ObjectOf, FindEntry;
    var p2 := Parse(s2).value;
    HeldObject(p2, FindEntry(p2.root.entries, key).value, scan2);
  }

  lemma {:induction false} UnderIs(parsed: Parsed, entries: seq<ObjectEntry>, key: string, inner: ObjectScan)
    requires |parsed.kinds| == |parsed.source| && ObjectUnder(parsed, entries, key) == Some(inner)
    ensures FindEntry(entries, key).Some? && Holds(parsed.source, parsed.kinds, FindEntry(entries, key).value, inner)
    ensures Plain(inner.entries) && EntriesWithin(inner.entries, inner.open + 1, inner.close)
    ensures inner.open < inner.close < |parsed.source|
  {
    hide FindEntry, ObjectOf, Plain, Holds;
    var e := FindEntry(entries, key).value;
    ObjectHeld(parsed, e, inner);
    ObjectCloses(parsed, e, inner);
  }

  lemma {:induction false} HeldRead(parsed: Parsed, inner: ObjectScan, e: ObjectEntry)
    requires ReadOf(parsed, parsed.root) && Holds(parsed.source, parsed.kinds, e, inner)
    ensures ReadOf(parsed, inner)
  {
    hide Lex, ScanTo, HasCrLf;
    ScanObjectCloses(parsed.source, parsed.kinds, inner);
    ScanObjectWithin(parsed.source, parsed.kinds, inner.open);
  }

  // ---------------------------------------------------------------------------
  // A line in an object
  // ---------------------------------------------------------------------------

  /** In the changed object the entry `name` says `value`, or, when the name cannot be read back, no name is plain any more. */
  ghost predicate Gains(s2: string, k2: seq<Kind>, scan2: ObjectScan, name: string, value: seq<Piece>) {
    if KeyReads(name) then
      && Plain(scan2.entries) && FindEntry(scan2.entries, name).Some?
      && Says(s2, k2, FindEntry(scan2.entries, name).value, name, value)
    else !Plain(scan2.entries)
  }

  lemma {:induction false} NamelessNotPlain(es: seq<ObjectEntry>, i: nat)
    requires i < |es| && es[i].key.None?
    ensures !Plain(es)
  {
  }

  lemma {:induction false} AddedAt(scan: ObjectScan, i: nat, added: ObjectEntry, d: int)
    requires i <= |scan.entries|
    ensures var es2 := scan.entries[..i] + [added] + MoveAll(scan.entries[i..], d);
            i < |es2| && es2[i] == added
  {
  }

  /** A line put in an object, in code, is gained. */
  lemma {:induction false} LineLands(parsed: Parsed, scan: ObjectScan, name: string, value: seq<Piece>, s2: string)
    returns (k2: seq<Kind>, scan2: ObjectScan)
    requires ReadOf(parsed, scan) && Plain(scan.entries) && FindEntry(scan.entries, name).None? && IsValue(value)
    requires InCode(parsed, Place(scan, None)) && Put(parsed, Place(scan, None), [Line(name, value)], s2)
    ensures Changed(parsed.source, parsed.kinds, scan, s2, k2, scan2) && Gains(s2, k2, scan2, name, value)
  {
    hide Lex, ScanObject, InsertEntry, GoesInCode, IsValue, Line, FindEntry, Plain, KeyReads, Says, ConfigKept, Around, Agree, HasCrLf;
    var i, added, d, close;
    k2, i, added, d, close := LineGained(parsed, scan, name, value, None, s2);
    var es2 := scan.entries[..i] + [added] + MoveAll(scan.entries[i..], d);
    scan2 := ObjectScan(scan.open, close, es2);
    AddedAt(scan, i, added, d);
    if KeyReads(name) {
      SaysKey(s2, k2, added, name, value);
      InsertedPlain(scan.entries, i, added, d, name);
      PlainFind(es2, i, name);
    } else {
      NamelessNotPlain(es2, i);
    }
  }

  /** A container put in the root object, in code, holds what its line says. */
  lemma {:induction false} ContainerLands(s: string, container: string, name: string, value: seq<Piece>, s2: string)
    returns (k2: seq<Kind>, inner: ObjectScan)
    requires Parse(s).Success? && WellRead(Parse(s).value) && FindEntry(Parse(s).value.root.entries, container).None?
    requires IsIdentifier(container) && IsValue(value)
    requires InCode(Parse(s).value, RootPlace(Parse(s).value, container))
    requires Put(Parse(s).value, RootPlace(Parse(s).value, container), ContainerOf(container, Line(name, value), Parse(s).value.unit), s2)
    ensures RootHolds(Parse(s).value, container, s2, k2, inner) && Gains(s2, k2, inner, name, value)
  {
    hide Lex, ScanObject, FindConfigObject, FindEntry, InsertEntry, GoesInCode, OthersKept, Plain, IsIdentifier, Parse, IsValue, Line,
      Holds, Says, KeyReads, HasCrLf, EntryAfter;
    var parsed := ParsedIs(s);
    var es := parsed.root.entries;
    var i, added, d, close, one;
    k2, i, added, d, close, inner, one := ContainerGained(parsed, parsed.root, container, name, value, EntryAfter(es, container), s2);
    var es2 := es[..i] + [added] + MoveAll(es[i..], d);
    InsertedPlain(es, i, added, d, container);
    ScanObjectCloses(s, parsed.kinds, parsed.root);
    LengthsOf(s, parsed.kinds, parsed.root, s2, k2, i, added, d, close);
    Parses(s2, k2, parsed.root.open, close, es2);
    var n := InsertedFind(es, i, added, d, container, container);
    InsertedOthers(s, parsed.kinds, parsed.root, s2, k2, i, added, d, close, container);
    OneGained(s2, k2, inner, one, name, value);
  }

  lemma {:induction false} OneGained(s2: string, k2: seq<Kind>, inner: ObjectScan, one: ObjectEntry, name: string, value: seq<Piece>)
    requires inner.entries == [one] && SaysIfRead(s2, k2, one, name, value)
    ensures Gains(s2, k2, inner, name, value)
  {
    hide KeyReads, Written, Labels, Agree;
    if KeyReads(name) {
      SaysKey(s2, k2, one, name, value);
      PlainFind(inner.entries, 0, name);
    } else {
      NamelessNotPlain(inner.entries, 0);
    }
  }

  // ---------------------------------------------------------------------------
  // Functions and buckets
  // ---------------------------------------------------------------------------

  /** The place of a new function or bucket: its container, or the place of a new container. */
  ghost function NamedPlace(parsed: Parsed, container: string, name: string): Option<Place>
    requires WellRead(parsed)
  {
    var entries := parsed.root.entries;
    if FindEntry(entries, container).None? then Some(RootPlace(parsed, container))
    else
      var inner := ObjectUnder(parsed, entries, container);
      if inner.None? || FindEntry(inner.value.entries, name).Some? then None else Some(Place(inner.value, None))
  }

  lemma {:induction false} NamedBlock(container: string, line: string, unit: string)
    ensures [container + ": {"] + Prefixed([line], unit) + ["},"] == ContainerOf(container, line, unit)
  {
    assert Prefixed([line], unit) == [unit + line] + Prefixed([line][1..], unit);
  }

  /** A name in a container that was kept from being hidden is declared there just when it is read. */
  lemma {:induction false} NamedAfter(parsed: Parsed, container: string, name: string, s2: string, k2: seq<Kind>, scan2: ObjectScan)
    requires WellRead(parsed) && container != "preview" && NotUnderPreview(parsed, container).Success?
    requires RootHolds(parsed, container, s2, k2, scan2)
    ensures WellRead(Parse(s2).value)
    ensures NamedIn(Parse(s2).value, container, name) <==> Plain(scan2.entries) && FindEntry(scan2.entries, name).Some?
  {
    hide Parse, Plain, Holds, OthersKept, FindEntry, ObjectUnder, NotUnderPreview;
    RootObject(parsed, container, s2, k2, scan2);
    PreviewKept(parsed, Parse(s2).value, container);
  }

  lemma {:induction false} GainsName(s2: string, k2: seq<Kind>, scan2: ObjectScan, name: string, value: seq<Piece>)
    requires Gains(s2, k2, scan2, name, value)
    ensures Plain(scan2.entries) && FindEntry(scan2.entries, name).Some? <==> KeyReads(name)
  {
    hide Plain, FindEntry, KeyReads, Says;
  }

  /** `container` is an object literal with the entry `name: value`, as it is written, and `preview` cannot hide it. */
  ghost predicate WrittenIn(parsed: Parsed, container: string, name: string, value: seq<Piece>)
    requires WellRead(parsed)
  {
    && NamedIn(parsed, container, name)
    && var inner := ObjectUnder(parsed, parsed.root.entries, container).value;
       Says(parsed.source, parsed.kinds, FindEntry(inner.entries, name).value, name, value)
  }

  /** The file `t` is read, and says `name: value` in `container`. */
  ghost predicate WrittenInText(t: string, container: string, name: string, value: seq<Piece>) {
    Parse(t).Success? && WellRead(Parse(t).value) && WrittenIn(Parse(t).value, container, name, value)
  }

  /** What an object has gained, its container says. */
  lemma {:induction false} GainedIsWritten(parsed: Parsed, container: string, name: string, value: seq<Piece>,
                                           s2: string, k2: seq<Kind>, scan2: ObjectScan)
    requires WellRead(parsed) && container != "preview" && NotUnderPreview(parsed, container).Success?
    requires RootHolds(parsed, container, s2, k2, scan2) && Gains(s2, k2, scan2, name, value) && KeyReads(name)
    ensures WrittenInText(s2, container, name, value)
  {
    hide Parse, Plain, Holds, OthersKept, FindEntry, ObjectUnder, NotUnderPreview, KeyReads, Says, NamedIn;
    NamedAfter(parsed, container, name, s2, k2, scan2);
    RootObject(parsed, container, s2, k2, scan2);
  }

  /** The file `t` is read, and `name` is in `container`. */
  ghost predicate NamedInText(t: string, container: string, name: string) {
    Parse(t).Success? && WellRead(Parse(t).value) && NamedIn(Parse(t).value, container, name)
  }

  /** A new container: declared just when its line lands in code and its key can be read. */
  lemma {:induction false} NewContainer(s: string, container: string, name: string, value: seq<Piece>, t: string)
    requires Parse(s).Success? && WellRead(Parse(s).value) && FindEntry(Parse(s).value.root.entries, container).None?
    requires IsIdentifier(container) && container != "preview" && IsValue(value) && NotUnderPreview(Parse(s).value, container).Success?
    requires Put(Parse(s).value, RootPlace(Parse(s).value, container), ContainerOf(container, Line(name, value), Parse(s).value.unit), t)
    ensures var code := InCode(Parse(s).value, RootPlace(Parse(s).value, container));
            && (code || NoTerminator(Line(name, value)) ==> (NamedInText(t, container, name) <==> code && KeyReads(name)))
            && (code && KeyReads(name) ==> WrittenInText(t, container, name, value))
  {
    hide Parse, FindEntry, NotUnderPreview, Line, IsValue, IsIdentifier, NamedIn, WrittenInText, KeyReads, RootHolds, Gains, NoTerminator, RootPlace,
      InCode, Put, ContainerOf;
    var parsed := Parse(s).value;
    if InCode(parsed, RootPlace(parsed, container)) {
      var k2, inner := ContainerLands(s, container, name, value, t);
      NamedAfter(parsed, container, name, t, k2, inner);
      GainsName(t, k2, inner, name, value);
      HoldsRoot(parsed, container, t, k2, inner);
      if KeyReads(name) { GainedIsWritten(parsed, container, name, value, t, k2, inner); }
    } else if NoTerminator(Line(name, value)) {
      ContainerSwallowed(s, container, name, value, t);
      AbsentIsUnnamed(Parse(t).value, container, name);
    }
  }

  lemma {:induction false} HoldsRoot(parsed: Parsed, key: string, s2: string, k2: seq<Kind>, scan2: ObjectScan)
    requires RootHolds(parsed, key, s2, k2, scan2)
    ensures Parse(s2).Success? && WellRead(Parse(s2).value)
  {
    hide Parse, FindEntry, Holds, OthersKept;
  }

  lemma {:induction false} AbsentIsUnnamed(parsed: Parsed, container: string, name: string)
    requires WellRead(parsed) && FindEntry(parsed.root.entries, container).None?
    ensures !NamedIn(parsed, container, name)
  {
    hide FindEntry, NotUnderPreview;
  }

  lemma {:induction false} BlockStays(container: string, unit: string, line: string)
    requires IsIdentifier(container) && IsIndent(unit) && NoTerminator(line)
    ensures forall l :: l in ContainerOf(container, line, unit) ==> NoTerminator(l)
  {
    hide NoTerminator, IsIdentifier;
    NameStays(container);
    IndentStays(unit);
    TerminatorJoin(unit, line);
    EndsStay();
    TerminatorJoin(container, ": {");
  }

  lemma {:induction false} NameStays(name: string)
    requires IsIdentifier(name)
    ensures NoTerminator(name)
  {
    assert forall k :: 0 <= k < |name| ==> IsIdent(name[k]);
  }

  lemma {:induction false} IndentStays(unit: string)
    requires IsIndent(unit)
    ensures NoTerminator(unit)
  {
  }

  lemma {:induction false} EndsStay()
    ensures NoTerminator(": {") && NoTerminator("},")
  {
  }

  /** A container put in a block comment is not there. */
  lemma {:induction false} ContainerSwallowed(s: string, container: string, name: string, value: seq<Piece>, t: string)
    requires Parse(s).Success? && WellRead(Parse(s).value) && FindEntry(Parse(s).value.root.entries, container).None?
    requires IsIdentifier(container) && NoTerminator(Line(name, value))
    requires !InCode(Parse(s).value, RootPlace(Parse(s).value, container))
    requires Put(Parse(s).value, RootPlace(Parse(s).value, container), ContainerOf(container, Line(name, value), Parse(s).value.unit), t)
    ensures Parse(t).Success? && WellRead(Parse(t).value) && FindEntry(Parse(t).value.root.entries, container).None?
  {
    hide Lex, ScanObject, FindConfigObject, Parse, FindEntry, InsertEntry, GoesInCode, EntryAfter, Line, IsIdentifier, NoTerminator,
      Plain, Changed, KeptFrom, HasCrLf;
    var parsed := ParsedIs(s);
    BlockStays(container, parsed.unit, Line(name, value));
    var k2, root2, j, d := InsertSwallowed(parsed, parsed.root, ContainerOf(container, Line(name, value), parsed.unit),
                                           EntryAfter(parsed.root.entries, container), t);
    SameKeysPlain(parsed.root.entries, root2.entries);
    RootChanged(parsed, t, k2, root2);
    var n := SameKeysFind(parsed.root.entries, root2.entries, container);
  }

  /** A line put in a block comment of an object leaves it with the names it had. */
  lemma {:induction false} LineSwallowed(parsed: Parsed, scan: ObjectScan, line: string, name: string, t: string)
    returns (k2: seq<Kind>, scan2: ObjectScan)
    requires ReadOf(parsed, scan) && Plain(scan.entries) && FindEntry(scan.entries, name).None? && NoTerminator(line)
    requires !InCode(parsed, Place(scan, None)) && Put(parsed, Place(scan, None), [line], t)
    ensures Changed(parsed.source, parsed.kinds, scan, t, k2, scan2) && SameKeys(scan.entries, scan2.entries)
    ensures Plain(scan2.entries) && FindEntry(scan2.entries, name).None?
  {
    hide Lex, ScanObject, FindEntry, InsertEntry, GoesInCode, NoTerminator, Plain, Changed, KeptFrom, HasCrLf, SameKeys;
    var j, d;
    k2, scan2, j, d := InsertSwallowed(parsed, scan, [line], None, t);
    SameKeysPlain(scan.entries, scan2.entries);
    var n := SameKeysFind(scan.entries, scan2.entries, name);
  }

  /** A new entry in a container that is there. */
  lemma {:induction false} NewInContainer(s: string, container: string, inner: ObjectScan, name: string, value: seq<Piece>, t: string)
    requires Parse(s).Success? && WellRead(Parse(s).value)
    requires ObjectUnder(Parse(s).value, Parse(s).value.root.entries, container) == Some(inner) && FindEntry(inner.entries, name).None?
    requires container != "preview" && IsValue(value) && NotUnderPreview(Parse(s).value, container).Success?
    requires Put(Parse(s).value, Place(inner, None), [Line(name, value)], t)
    ensures var code := InCode(Parse(s).value, Place(inner, None));
            && (code || NoTerminator(Line(name, value)) ==> (NamedInText(t, container, name) <==> code && KeyReads(name)))
            && (code && KeyReads(name) ==> WrittenInText(t, container, name, value))
  {
    hide Parse, FindEntry, NotUnderPreview, Line, IsValue, NamedIn, WrittenInText, KeyReads, RootHolds, ObjectUnder, Plain, InCode, Put,
      Gains, NoTerminator, Changed, Holds, Lex, ScanObject, HasCrLf, FindConfigObject;
    var parsed := ParsedIs(s);
    UnderIs(parsed, parsed.root.entries, container, inner);
    HeldRead(parsed, inner, FindEntry(parsed.root.entries, container).value);
    if InCode(parsed, Place(inner, None)) {
      var k2, scan2 := LineLands(parsed, inner, name, value, t);
      RootAround(s, container, inner, t, k2, scan2);
      NamedAfter(parsed, container, name, t, k2, scan2);
      GainsName(t, k2, scan2, name, value);
      HoldsRoot(parsed, container, t, k2, scan2);
      if KeyReads(name) { GainedIsWritten(parsed, container, name, value, t, k2, scan2); }
    } else if NoTerminator(Line(name, value)) {
      var k2, scan2 := LineSwallowed(parsed, inner, Line(name, value), name, t);
      RootAround(s, container, inner, t, k2, scan2);
      NamedAfter(parsed, container, name, t, k2, scan2);
      HoldsRoot(parsed, container, t, k2, scan2);
    }
  }

  lemma {:induction false} PutContainer(parsed: Parsed, container: string, name: string, line: string, step: EditStep)
    requires WellRead(parsed) && AddNamed(parsed, container, name, [line]) == Success(step) && FindEntry(parsed.root.entries, container).None?
    ensures NotUnderPreview(parsed, container).Success?
    ensures Put(parsed, RootPlace(parsed, container), ContainerOf(container, line, parsed.unit), step.source)
  {
    hide FindEntry, InsertEntry, NotUnderPreview, EntryAfter, Prefixed, ContainerOf;
    NamedBlock(container, line, parsed.unit);
  }

  lemma {:induction false} PutInside(parsed: Parsed, container: string, e: ObjectEntry, name: string, line: string, step: EditStep)
    requires WellRead(parsed) && AddNamed(parsed, container, name, [line]) == Success(step)
    requires FindEntry(parsed.root.entries, container) == Some(e) && 0 <= e.valueStart
    ensures NotUnderPreview(parsed, container).Success? && ObjectUnder(parsed, parsed.root.entries, container).Some?
    ensures var inner := ObjectUnder(parsed, parsed.root.entries, container).value;
            if FindEntry(inner.entries, name).Some? then step.change.None? else Put(parsed, Place(inner, None), [line], step.source)
  {
    hide FindEntry, InsertEntry, NotUnderPreview, ObjectOf, Prefixed;
    ObjectCloses(parsed, e, ObjectOf(parsed, e).value.value);
  }

  /** What `BuildStep` does for a function or a bucket, by its place. */
  lemma {:induction false} NamedByPlace(s: string, container: string, name: string, line: string, step: EditStep)
    requires Parse(s).Success? && WellRead(Parse(s).value)
    requires AddNamed(Parse(s).value, container, name, [line]) == Success(step)
    ensures NotUnderPreview(Parse(s).value, container).Success?
    ensures NamedPlace(Parse(s).value, container, name).None? ==> step.change.None?
    ensures NamedPlace(Parse(s).value, container, name).Some? ==>
              Put(Parse(s).value, NamedPlace(Parse(s).value, container, name).value,
                  if FindEntry(Parse(s).value.root.entries, container).None? then ContainerOf(container, line, Parse(s).value.unit) else [line],
                  step.source)
  {
    hide Parse, FindEntry, NotUnderPreview, ObjectUnder, AddNamed, ContainerOf, Put, RootPlace;
    var parsed := Parse(s).value;
    var found := FindEntry(parsed.root.entries, container);
    if found.None? {
      PutContainer(parsed, container, name, line, step);
    } else {
      EntryRange(parsed, found.value);
      PutInside(parsed, container, found.value, name, line, step);
    }
  }
}

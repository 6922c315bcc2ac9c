/** A field put in an object of a `neon.ts` file, on a line of its own or in a new container, read back. */
module ConfigFields {
  import opened Wrappers
  import opened Text
  import opened SourceLexer
  import opened ObjectScan
  import opened ObjectShift
  import opened ConfigEdit
  import opened ConfigFind
  import opened ConfigInsert
  import opened ConfigLines
  import opened ConfigEntries

  /** The entry says `name: value`, as it is written. */
  ghost predicate Says(s: string, kinds: seq<Kind>, e: ObjectEntry, name: string, value: seq<Piece>) {
    && e.key == Some(name) && e.keyed && 0 <= e.valueStart && e.valueEnd == e.end == e.valueStart + |Written(value)|
    && Same(Written(value), Labels(value), s, kinds, e.valueStart, 0, |Written(value)|)
  }

  /** A key that is written with an escape is read as no name at all. */
  ghost predicate SaysIfRead(s: string, kinds: seq<Kind>, e: ObjectEntry, name: string, value: seq<Piece>) {
    if KeyReads(name) then Says(s, kinds, e, name, value) else e.key.None?
  }

  lemma {:induction false} SaysText(s: string, kinds: seq<Kind>, e: ObjectEntry, name: string, value: seq<Piece>)
    requires Says(s, kinds, e, name, value)
    ensures 0 <= e.valueStart <= e.valueEnd <= |s| && ValueText(s, e) == Written(value)
  {
    hide Written, Labels;
    var w := Written(value);
    AgreeBounds(w, s, e.valueStart, 0, |w|);
    SliceShift(w, s, e.valueStart, 0, |w|, 0, |w|);
    assert w[0..|w|] == w;
  }

  lemma {:induction false} SaysKey(s: string, kinds: seq<Kind>, e: ObjectEntry, name: string, value: seq<Piece>)
    requires Says(s, kinds, e, name, value)
    ensures e.key == Some(name) && e.keyed
  {
    hide Written, Labels;
  }

  lemma {:induction false} FieldSays(name: string, value: seq<Piece>, s: string, kinds: seq<Kind>, p: nat)
    requires var t := Written(Field(name, value)); Same(t, Labels(Field(name, value)), s, kinds, p, 0, |t|)
    ensures SaysIfRead(s, kinds, Move(FieldEntry(name, |Written(Field(name, value))|), p), name, value)
  {
    hide Written, Labels, KeyReads, RenderKey, Agree, Field, LabelsPiece, JsonString;
    if KeyReads(name) {
      FieldParts(name, value);
      KeyWritten(name);
      AgreeHead(RenderKey(name), ": " + Written(value), s, p);
      AgreeHead(": ", Written(value), s, p + |RenderKey(name)|);
      AgreeHead(LabelsPiece(KeyPiece(name)), LabelsPiece(Flat(": ")) + Labels(value), kinds, p);
      AgreeHead(LabelsPiece(Flat(": ")), Labels(value), kinds, p + |RenderKey(name)|);
    }
  }

  /** A block is read in one way only. */
  lemma {:induction false} SameBlock(x: string, k1: seq<Kind>, es1: nat, e1: ObjectEntry, k2: seq<Kind>, es2: nat, e2: ObjectEntry)
    requires EntryBlock(x, k1, es1, e1) && EntryBlock(x, k2, es2, e2)
    ensures k1 == k2 && es1 == es2 && e1 == e2
  {
    hide Lex, ScanTo, NoConfig;
  }

  lemma {:induction false} LineIn(name: string, value: seq<Piece>, n: nat, c: nat, x: string, kx: seq<Kind>,
                                  s2: string, k2: seq<Kind>, p: nat)
    requires FieldLine(name, value, n, c, x, kx) && Same(x, kx, s2, k2, p, 0, |x|)
    ensures var t := Written(Field(name, value)); Same(t, Labels(Field(name, value)), s2, k2, n + p, 0, |t|)
  {
    hide Written, Labels, Field, Lex, BracesSpaced, Agree;
    var t := Written(Field(name, value));
    AgreePart(x, s2, p, 0, |x|, n, c);
    AgreePart(kx, k2, p, 0, |x|, n, c);
    AgreeTrans(t, x, s2, n, p, 0, |t|);
    AgreeTrans(Labels(Field(name, value)), kx, k2, n, p, 0, |t|);
  }

  /** What a gained line says. */
  lemma {:induction false} LineSays(s1: string, k1: seq<Kind>, scan: ObjectScan, s2: string, k2: seq<Kind>, n: NewEntry,
                                    name: string, value: seq<Piece>, indent: string, brk: string)
    requires Gained(s1, k1, scan, s2, k2, n) && IsValue(value) && IsIndent(indent) && IsEol(brk) && n.x == indent + Line(name, value) + brk
    ensures SaysIfRead(s2, k2, Move(n.entry, n.p), name, value)
  {
    hide EntryBlock, HasNewEntry, Written, Field, IsValue, FieldEntry, FieldLine, SaysIfRead, Agree, Labels;
    var x, kx, entry := LineBlock(name, value, indent, brk);
    SameBlock(x, kx, |indent| + |Line(name, value)|, entry, n.kx, n.es, n.entry);
    var t := Written(Field(name, value));
    LineIn(name, value, |indent|, |indent| + |t|, x, kx, s2, k2, n.p);
    FieldSays(name, value, s2, k2, |indent| + n.p);
    assert Move(n.entry, n.p) == Move(FieldEntry(name, |t|), |indent| + n.p);
  }

  /** A declared line, put in an object, is read back as its last entry, or the one above `before`. */
  lemma {:induction false} LineGained(parsed: Parsed, scan: ObjectScan, name: string, value: seq<Piece>,
                                      before: Option<ObjectEntry>, s2: string)
    returns (k2: seq<Kind>, i: nat, added: ObjectEntry, d: int, close: nat)
    requires ReadOf(parsed, scan) && IsValue(value) && (before.Some? ==> before.value in scan.entries)
    requires GoesInCode(parsed, scan, before) && InsertEntry(parsed, scan, [Line(name, value)], before) == Success(s2)
    ensures HasNewEntry(parsed.source, parsed.kinds, scan, s2, k2, i, added, d, close)
    ensures SaysIfRead(s2, k2, added, name, value)
    ensures if before.Some? then i < |scan.entries| && scan.entries[i] == before.value else i == |scan.entries|
  {
    hide Lex, ScanObject, InsertEntry, GoesInCode, HasCrLf, HasNewEntry, IsValue, Line, ReadsAsOne, EntryBlock, SaysIfRead, Agree;
    LineReadsAsOne(name, value, parsed.eol);
    var n, indent, brk;
    k2, n, indent, brk := InsertReadsBack(parsed, scan, [Line(name, value)], before, s2);
    assert JoinedLines([Line(name, value)], indent, parsed.eol) == indent + Line(name, value);
    LineSays(parsed.source, parsed.kinds, scan, s2, k2, n, name, value, indent, brk);
    i, added, d, close := n.i, Move(n.entry, n.p), n.d, n.close;
  }

  /** A container in a file is an object literal with its one entry. */
  lemma {:induction false} ContainerHolds(s: string, kinds: seq<Kind>, e: ObjectEntry, container: string, eol: string, indent: string,
                                          unit: string, name: string, value: seq<Piece>)
    returns (inner: ObjectScan, one: ObjectEntry)
    requires |s| == |kinds| && Says(s, kinds, e, container, ContainerValue(eol, indent, unit, name, value))
    requires IsValue(value) && IsEol(eol) && IsIndent(indent) && IsIndent(unit)
    ensures Holds(s, kinds, e, inner) && inner.entries == [one] && SaysIfRead(s, kinds, one, name, value)
  {
    hide Written, Labels, ScanObject, ContainerValue, Field, IsValue, FieldEntry, SaysIfRead, Agree;
    var v := ContainerValue(eol, indent, unit, name, value);
    var t, kt, p, f := Written(v), Labels(v), ContainedAt(eol, indent, unit), Written(Field(name, value));
    ContainerScans(eol, indent, unit, name, value);
    var o := e.valueStart;
    one := Move(Move(FieldEntry(name, |f|), p), o);
    AgreeBounds(t, s, o, 0, |t|);
    AgreeBounds(f, t, p, 0, |f|);
    ObjectMoved(t, kt, ObjectScan(0, |t| - 1, [Move(FieldEntry(name, |f|), p)]), s, kinds, o);
    assert MoveAll([Move(FieldEntry(name, |f|), p)], o) == [one];
    inner := ObjectScan(o, |t| - 1 + o, [one]);
    AgreePart(t, s, o, 0, |t|, p, p + |f|);
    AgreePart(kt, kinds, o, 0, |t|, p, p + |f|);
    AgreeTrans(f, t, s, p, o, 0, |f|);
    AgreeTrans(Labels(Field(name, value)), kt, kinds, p, o, 0, |f|);
    FieldSays(name, value, s, kinds, p + o);
    assert one == Move(FieldEntry(name, |f|), p + o);
  }

  /** A container put in an object is read back as an object literal with the one entry. */
  lemma {:induction false} ContainerGained(parsed: Parsed, scan: ObjectScan, container: string, name: string, value: seq<Piece>,
                                           before: Option<ObjectEntry>, s2: string)
    returns (k2: seq<Kind>, i: nat, added: ObjectEntry, d: int, close: nat, inner: ObjectScan, one: ObjectEntry)
    requires ReadOf(parsed, scan) && IsIdentifier(container) && IsValue(value) && (before.Some? ==> before.value in scan.entries)
    requires GoesInCode(parsed, scan, before)
    requires InsertEntry(parsed, scan, [container + ": {", parsed.unit + Line(name, value), "},"], before) == Success(s2)
    ensures HasNewEntry(parsed.source, parsed.kinds, scan, s2, k2, i, added, d, close) && added.key == Some(container)
    ensures Holds(s2, k2, added, inner) && inner.entries == [one] && SaysIfRead(s2, k2, one, name, value)
    ensures if before.Some? then i < |scan.entries| && scan.entries[i] == before.value else i == |scan.entries|
  {
    hide Lex, ScanObject, InsertEntry, GoesInCode, HasCrLf, HasNewEntry, IsValue, Line, ReadsAsOne, EntryBlock, SaysIfRead, Agree, JoinedLines,
      ContainerValue, IsIdentifier, IsIndent, Holds;
    var eol, unit := parsed.eol, parsed.unit;
    var lines := [container + ": {", unit + Line(name, value), "},"];
    ContainerReadsAsOne(container, name, value, unit, eol);
    var n, indent, brk;
    k2, n, indent, brk := InsertReadsBack(parsed, scan, lines, before, s2);
    ContainerLines(container, eol, indent, unit, name, value);
    var v := ContainerValue(eol, indent, unit, name, value);
    ContainerIsValue(eol, indent, unit, name, value);
    LineSays(parsed.source, parsed.kinds, scan, s2, k2, n, container, v, indent, brk);
    i, added, d, close := n.i, Move(n.entry, n.p), n.d, n.close;
    assert Says(s2, k2, added, container, v) by { SaysNamed(s2, k2, added, container, v); }
    LengthsOf(parsed.source, parsed.kinds, scan, s2, k2, i, added, d, close);
    inner, one := ContainerHolds(s2, k2, added, container, eol, indent, unit, name, value);
  }

  lemma {:induction false} SaysNamed(s: string, kinds: seq<Kind>, e: ObjectEntry, name: string, value: seq<Piece>)
    requires IsIdentifier(name) && SaysIfRead(s, kinds, e, name, value)
    ensures Says(s, kinds, e, name, value)
  {
    hide IsIdentifier, Says;
  }

  lemma {:induction false} LengthsOf(s1: string, k1: seq<Kind>, scan: ObjectScan, s2: string, k2: seq<Kind>, i: nat,
                                     added: ObjectEntry, d: int, close: nat)
    requires HasNewEntry(s1, k1, scan, s2, k2, i, added, d, close)
    ensures |s2| == |k2|
  {
  }
}

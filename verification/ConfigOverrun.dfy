/**
 * A line whose own text ends the block comment it is put in: what it should declare stays hidden,
 * what the comment held comes to light, and the read-back takes that for the declaration.
 */
module ConfigOverrun {
  import opened Wrappers
  import opened Text
  import opened SourceLexer
  import opened ObjectScan
  import opened ObjectShift
  import opened ConfigEdit
  import opened ConfigAppend
  import opened ConfigReplace
  import opened ConfigLines
  import opened ConfigEntries
  import opened ConfigGrowth
  import opened ConfigNested
  import opened ConfigSplice
  import opened ConfigDeclares
  import opened ConfigAccepted
  import opened ConfigLands
  import opened ConfigPlaces
  import opened ConfigLayout
  import opened ConfigExamples

  // ---------------------------------------------------------------------------
  // The two texts
  // ---------------------------------------------------------------------------

  const TOP := HEAD + ("{\n" + ("functions" + (": {\n" + "a: {}")))
  const BOTTOM := "\n}\n}"

  /** What is commented out. */
  const OLD := "\n" + ("s: {}" + ",\n")

  /** A file with a function, and another one commented out behind it. */
  const BEFORE := TOP + (" " + (("/*" + OLD + "/*\n*/") + BOTTOM))

  /** The same file with the line of the edit in the comment. */
  const AFTER := TOP + (", " + ("/*\ns: { name: \"*/" + (" " + ("//\", source: \"x.ts\" }," + (OLD + ("/*\n*/" + BOTTOM))))))

  const OVERRUN := FunctionEdit("s", "*/ //", "x.ts", [], true)

  lemma {:induction false} StretchesAre()
    ensures IsBare(TOP) && IsBare(TOP + " ") && IsBare(TOP + ", ") && IsBare(" ") && IsBare(OLD) && IsBare(BOTTOM)
    ensures IsBlock("/*\n*/") && IsNote("//\", source: \"x.ts\" },")
  {
    assert BlockEnd("/*\n*/", 2) == BlockEnd("/*\n*/", 3) == Some(5);
  }

  lemma {:induction false} FirstBlock(text: string)
    requires text == "/*" + OLD + "/*\n*/"
    ensures IsBlock(text) && |text| == 15
  {
    BlockEndSkip(text, 2, 13);
    assert BlockEnd(text, 13) == Some(15);
  }

  lemma {:induction false} SecondBlock(text: string)
    requires text == "/*\ns: { name: \"*/"
    ensures IsBlock(text) && |text| == 17
  {
    BlockEndSkip(text, 2, 15);
    assert BlockEnd(text, 15) == Some(17);
  }

  /** Code but for one comment. */
  ghost predicate BeforeKinds(kinds: seq<Kind>) {
    |kinds| == 55 && forall k :: 0 <= k < 55 ==> kinds[k] == if 36 <= k < 51 then Comment else Code
  }

  /** Code but for three comments. */
  ghost predicate AfterKinds(kinds: seq<Kind>) {
    |kinds| == 94 && forall k :: 0 <= k < 94 ==>
      kinds[k] == if 37 <= k < 54 || 55 <= k < 77 || 85 <= k < 90 then Comment else Code
  }

  lemma {:induction false} BeforeReads() returns (kinds: seq<Kind>)
    ensures Labelled(BEFORE, kinds) && BeforeKinds(kinds) && |BEFORE| == 55
  {
    hide IsBare, IsBlock, IsNote, Laid, Marked;
    var a, b, c := TOP + " ", "/*" + OLD + "/*\n*/", BOTTOM;
    StretchesAre();
    FirstBlock(b);
    var z := Bare(c, End);
    var y := Block(b, z);
    var x := Bare(a, y);
    Layered(z);
    Nothing();
    Layered(y);
    Layered(x);
    assert Legible(z) && Legible(y);
    LayoutLex(x);
    kinds := Marked(x);
    assert |TOP| == 35;
    Assoc(TOP, " ", b + c);
  }

  lemma {:induction false} Layered(x: Layout)
    requires !x.End?
    ensures Laid(x) == x.text + Laid(x.rest) && Marked(x) == Fill(|x.text|, if x.Bare? then Code else Comment) + Marked(x.rest)
  {
  }

  lemma {:induction false} TailReads() returns (x: Layout)
    ensures Legible(x) && x.Bare? && x.text == OLD && Laid(x) == OLD + ("/*\n*/" + BOTTOM) && |Laid(x)| == 17
    ensures forall k :: 0 <= k < 17 ==> Marked(x)[k] == if 8 <= k < 13 then Comment else Code
  {
    hide IsBare, IsBlock, IsNote, Laid, Marked;
    StretchesAre();
    var y := Bare(BOTTOM, End);
    Layered(y);
    assert Laid(End) == "" && Marked(End) == [] && BOTTOM + "" == BOTTOM by { Nothing(); }
    Layered(Block("/*\n*/", y));
    x := Bare(OLD, Block("/*\n*/", y));
    Layered(x);
  }

  lemma {:induction false} Nothing()
    ensures Laid(End) == "" && Marked(End) == [] && BOTTOM + "" == BOTTOM
  {
  }

  lemma {:induction false} AfterText(rest: string)
    requires rest == "/*\ns: { name: \"*/" + (" " + ("//\", source: \"x.ts\" }," + (OLD + ("/*\n*/" + BOTTOM))))
    ensures AFTER == (TOP + ", ") + rest
  {
    Assoc(TOP, ", ", rest);
  }

  lemma {:induction false} AfterReads() returns (kinds: seq<Kind>)
    ensures Labelled(AFTER, kinds) && AfterKinds(kinds) && |AFTER| == 94
  {
    hide IsBare, IsBlock, IsNote, Laid, Marked;
    var a, b, d := TOP + ", ", "/*\ns: { name: \"*/", "//\", source: \"x.ts\" },";
    StretchesAre();
    SecondBlock(b);
    var x5 := TailReads();
    var x4 := Note(d, x5);
    var x3 := Bare(" ", x4);
    var x2 := Block(b, x3);
    var x1 := Bare(a, x2);
    Layered(x4);
    Layered(x3);
    Layered(x2);
    Layered(x1);
    assert Legible(x4) && Legible(x3) && Legible(x2) && Legible(x1);
    LayoutLex(x1);
    kinds := Marked(x1);
    assert |TOP| == 35 && |a| == 37 && |d| == 22;
    assert Laid(x2) == b + (" " + (d + Laid(x5)));
    AfterText(Laid(x2));
  }

  // ---------------------------------------------------------------------------
  // The objects in them
  // ---------------------------------------------------------------------------

  /** The parts of a concatenation that stands from `n` on. */
  lemma {:induction false} Dropped(s: string, n: nat, a: string, b: string)
    requires n <= |s| && s[n..] == a + b
    ensures n + |a| <= |s| && s[n..n + |a|] == a && s[n + |a|..] == b
  {
    assert s == s[..n] + (a + b);
  }

  lemma {:induction false} TopText(s: string)
    requires |s| >= 35 && s[..35] == TOP
    ensures s[..15] == HEAD && s[15] == '{' && s[16] == '\n' && s[17..26] == "functions" && s[26] == ':' && s[27] == ' ' && s[28] == '{'
    ensures s[29] == '\n' && s[30..35] == "a: {}"
  {
    assert s[0..35] == s[..35];
    var t := s[..35];
    assert t[0..] == TOP && |HEAD| == 15;
    Dropped(t, 0, HEAD, "{\n" + ("functions" + (": {\n" + "a: {}")));
    Dropped(t, 15, "{\n", "functions" + (": {\n" + "a: {}"));
    Dropped(t, 17, "functions", ": {\n" + "a: {}");
    Dropped(t, 26, ": {\n", "a: {}");
    var a, b := t[15..17], t[26..30];
    assert t[15] == a[0] && t[16] == a[1] && t[26] == b[0] && t[27] == b[1] && t[28] == b[2] && t[29] == b[3];
    assert s[..15] == t[0..15] && s[17..26] == t[17..26] && s[30..35] == t[30..];
  }

  /** A field with an empty object, in code. */
  lemma {:induction false} EmptyField(name: string, s: string, kinds: seq<Kind>, m: nat, p: nat, acc: seq<ObjectEntry>)
    returns (e: ObjectEntry)
    requires IsIdentifier(name) && |name| == 1 && |s| == |kinds| && m <= p && p + 5 <= |s| && AllTrivia(s, kinds, m, p)
    requires s[p..p + 5] == name + ": {}" && forall k :: p <= k < p + 5 ==> kinds[k] == Code
    ensures e == ObjectEntry(Some(name), true, p, p + 5, p + 3, p + 5)
    ensures ReadEntry(s, kinds, m, p + 5) == Some(e)
    ensures ScanTo(s, kinds, m, ScanState(0, m, acc), p + 5) == Running(ScanState(0, m, acc))
  {
    hide Written, Labels, ReadEntry, ScanTo, RenderKey, IsIdentifier, AllTrivia;
    var value := [Opening('{'), Closing('}')];
    HeadWritten(Opening('{'), Closing('}'));
    assert ['{'] + ['}'] == "{}";
    FieldText(name, value);
    NameIsIdent(name);
    var field := Field(name, value);
    assert Written(field) == s[p..p + 5];
    forall k | 0 <= k < 5 ensures Labels(field)[k] == Code { FlatLabels(field, k); }
    assert IsValue(value);
    FieldAt(name, value, s, kinds, m, p, p + 5, acc);
    e := Move(FieldEntry(name, 5), p);
  }

  const A_ENTRY := ObjectEntry(Some("a"), true, 30, 35, 33, 35)
  const S_ENTRY := ObjectEntry(Some("s"), true, 78, 83, 81, 83)

  /** Both texts start alike: the object under `functions`, and the entry `a` in it. */
  lemma {:induction false} FirstField(s: string, kinds: seq<Kind>)
    requires 35 <= |s| == |kinds| && s[..35] == TOP && forall k :: 0 <= k < 35 ==> kinds[k] == Code
    ensures ReadEntry(s, kinds, 29, 35) == Some(A_ENTRY)
    ensures ScanTo(s, kinds, 29, ScanState(0, 29, []), 35) == Running(ScanState(0, 29, []))
  {
    hide ReadEntry, ScanTo;
    TopText(s);
    assert AllTrivia(s, kinds, 29, 30);
    var e := EmptyField("a", s, kinds, 29, 30, []);
  }

  lemma {:induction false} BeforeText()
    ensures |BEFORE| == 55 && BEFORE[..35] == TOP && BEFORE[35..36] == " " && BEFORE[36..38] == "/*" && BEFORE[38..46] == OLD
    ensures BEFORE[46..51] == "/*\n*/" && BEFORE[51..] == BOTTOM
  {
    var x3 := "/*\n*/" + BOTTOM;
    var x2 := "/*" + (OLD + x3);
    assert ("/*" + OLD + "/*\n*/") + BOTTOM == x2;
    assert |TOP| == 35 && BEFORE[0..] == TOP + (" " + x2);
    Dropped(BEFORE, 0, TOP, " " + x2);
    Dropped(BEFORE, 35, " ", x2);
    Dropped(BEFORE, 36, "/*", OLD + x3);
    Dropped(BEFORE, 38, OLD, x3);
    Dropped(BEFORE, 46, "/*\n*/", BOTTOM);
  }

  lemma {:induction false} BeforeChars()
    ensures |BEFORE| == 55 && BEFORE[35] == ' ' && BEFORE[36] == '/' && BEFORE[37] == '*' && BEFORE[38] == '\n'
    ensures BEFORE[51] == '\n' && BEFORE[52] == '}' && BEFORE[53] == '\n' && BEFORE[54] == '}'
  {
    BeforeText();
    var a, b, c, d := BEFORE[35..36], BEFORE[36..38], BEFORE[38..46], BEFORE[51..];
    assert BEFORE[35] == a[0] && BEFORE[36] == b[0] && BEFORE[37] == b[1] && BEFORE[38] == c[0];
    assert BEFORE[51] == d[0] && BEFORE[52] == d[1] && BEFORE[53] == d[2] && BEFORE[54] == d[3];
  }

  lemma {:induction false} InnerBefore(s: string, kinds: seq<Kind>)
    requires s == BEFORE && BeforeKinds(kinds)
    ensures |s| == 55 && ScanObject(s, kinds, 28) == Success(ObjectScan(28, 52, [A_ENTRY]))
  {
    hide ReadEntry, ScanTo;
    BeforeText();
    BeforeChars();
    TopText(s);
    FirstField(s, kinds);
    assert AllTrivia(s, kinds, 35, 52);
    OneScanned(s, kinds);
  }

  lemma {:induction false} OneScanned(s: string, kinds: seq<Kind>)
    requires |s| == |kinds| == 55 && s[28] == '{' && kinds[28] == Code && s[52] == '}' && kinds[52] == Code && AllTrivia(s, kinds, 35, 52)
    requires ReadEntry(s, kinds, 29, 35) == Some(A_ENTRY)
    requires ScanTo(s, kinds, 29, ScanState(0, 29, []), 35) == Running(ScanState(0, 29, []))
    ensures ScanObject(s, kinds, 28) == Success(ObjectScan(28, 52, [A_ENTRY]))
  {
    hide ReadEntry, ScanTo;
    var st := ScanState(0, 29, []);
    AllTriviaNothing(s, kinds, 29);
    ReadEntryWithin(s, kinds, 29, 29, 35, 52);
    ScanTrivia(s, kinds, 35, st, 52);
    ScanCompose(s, kinds, 29, st, 35, 55);
    ScanCompose(s, kinds, 35, st, 52, 55);
    SeparatorStep(s, kinds, 52, 29, [], A_ENTRY);
    ScanOne(s, kinds, 52, st);
    ScanCompose(s, kinds, 52, st, 53, 55);
    assert [] + [A_ENTRY] == [A_ENTRY];
  }

  lemma {:induction false} AfterParts()
    ensures |AFTER| == 94 && AFTER[..35] == TOP && AFTER[35..37] == ", " && AFTER[54..55] == " "
    ensures AFTER[77..85] == OLD && AFTER[90..] == BOTTOM
  {
    var x6 := "/*\n*/" + BOTTOM;
    var x5 := OLD + x6;
    var x4 := "//\", source: \"x.ts\" }," + x5;
    var x3 := " " + x4;
    var x2 := "/*\ns: { name: \"*/" + x3;
    assert |TOP| == 35 && AFTER[0..] == TOP + (", " + x2);
    Dropped(AFTER, 0, TOP, ", " + x2);
    Dropped(AFTER, 35, ", ", x2);
    Dropped(AFTER, 37, "/*\ns: { name: \"*/", x3);
    Dropped(AFTER, 54, " ", x4);
    Dropped(AFTER, 55, "//\", source: \"x.ts\" },", x5);
    Dropped(AFTER, 77, OLD, x6);
    Dropped(AFTER, 85, "/*\n*/", BOTTOM);
  }

  lemma {:induction false} FirstSeparated(s: string, kinds: seq<Kind>)
    requires 36 < |s| == |kinds| && s[..35] == TOP && s[35] == ',' && forall k :: 0 <= k < 36 ==> kinds[k] == Code
    ensures ScanTo(s, kinds, 29, ScanState(0, 29, []), 36) == Running(ScanState(0, 36, [A_ENTRY]))
  {
    hide ReadEntry, ScanTo;
    FirstField(s, kinds);
    SeparatorStep(s, kinds, 35, 29, [], A_ENTRY);
    ScanOne(s, kinds, 35, ScanState(0, 29, []));
    ScanCompose(s, kinds, 29, ScanState(0, 29, []), 35, 36);
    assert [] + [A_ENTRY] == [A_ENTRY];
  }

  lemma {:induction false} SecondSeparated(s: string, kinds: seq<Kind>)
    requires 84 < |s| == |kinds| && s[83] == ',' && kinds[83] == Code && ReadEntry(s, kinds, 36, 83) == Some(S_ENTRY)
    requires ScanTo(s, kinds, 36, ScanState(0, 36, [A_ENTRY]), 83) == Running(ScanState(0, 36, [A_ENTRY]))
    ensures ScanTo(s, kinds, 36, ScanState(0, 36, [A_ENTRY]), 84) == Running(ScanState(0, 84, [A_ENTRY, S_ENTRY]))
  {
    hide ReadEntry, ScanTo;
    SeparatorStep(s, kinds, 83, 36, [A_ENTRY], S_ENTRY);
    ScanOne(s, kinds, 83, ScanState(0, 36, [A_ENTRY]));
    ScanCompose(s, kinds, 36, ScanState(0, 36, [A_ENTRY]), 83, 84);
    assert [A_ENTRY] + [S_ENTRY] == [A_ENTRY, S_ENTRY];
  }

  lemma {:induction false} BothScanned(s: string, kinds: seq<Kind>)
    requires |s| == |kinds| == 94 && s[28] == '{' && kinds[28] == Code && s[91] == '}' && kinds[91] == Code && AllTrivia(s, kinds, 84, 91)
    requires ScanTo(s, kinds, 29, ScanState(0, 29, []), 36) == Running(ScanState(0, 36, [A_ENTRY]))
    requires ScanTo(s, kinds, 36, ScanState(0, 36, [A_ENTRY]), 84) == Running(ScanState(0, 84, [A_ENTRY, S_ENTRY]))
    ensures ScanObject(s, kinds, 28) == Success(ObjectScan(28, 91, [A_ENTRY, S_ENTRY]))
  {
    hide ReadEntry, ScanTo;
    ScanCompose(s, kinds, 29, ScanState(0, 29, []), 36, 94);
    ScanCompose(s, kinds, 36, ScanState(0, 36, [A_ENTRY]), 84, 94);
    ScanClose(s, kinds, 84, 91, [A_ENTRY, S_ENTRY]);
  }

  /** What the comment held is the second entry now. */
  lemma {:induction false} InnerAfter(s: string, kinds: seq<Kind>)
    requires s == AFTER && AfterKinds(kinds)
    ensures |s| == 94 && ScanObject(s, kinds, 28) == Success(ObjectScan(28, 91, [A_ENTRY, S_ENTRY]))
  {
    hide ReadEntry, ScanTo, ScanObject;
    AfterParts();
    AfterBlank();
    TopText(s);
    FirstSeparated(s, kinds);
    SecondField(s, kinds);
    SecondSeparated(s, kinds);
    assert s[91] == s[90..][1];
    BothScanned(s, kinds);
  }

  lemma {:induction false} OldText(t: string)
    requires t == OLD
    ensures |t| == 8 && t[0] == '\n' && t[1..6] == "s: {}" && t[6] == ',' && t[7] == '\n'
  {
    assert t[0..] == "\n" + ("s: {}" + ",\n");
    Dropped(t, 0, "\n", "s: {}" + ",\n");
    Dropped(t, 1, "s: {}", ",\n");
    var tail := t[6..];
    assert t[0] == t[0..1][0] && t[6] == tail[0] && t[7] == tail[1];
  }

  lemma {:induction false} SecondField(s: string, kinds: seq<Kind>)
    requires s == AFTER && AfterKinds(kinds)
    ensures |s| == 94 && s[83] == ',' && AllTrivia(s, kinds, 84, 91)
    ensures ReadEntry(s, kinds, 36, 83) == Some(S_ENTRY)
    ensures ScanTo(s, kinds, 36, ScanState(0, 36, [A_ENTRY]), 83) == Running(ScanState(0, 36, [A_ENTRY]))
  {
    hide ReadEntry, ScanTo, AllTrivia;
    AfterParts();
    OldText(s[77..85]);
    assert s[83] == s[77..85][6] && s[78..83] == s[77..85][1..6];
    BlankBetween(kinds);
    var e := EmptyField("s", s, kinds, 36, 78, [A_ENTRY]);
  }

  lemma {:induction false} BlankBetween(kinds: seq<Kind>)
    requires AfterKinds(kinds)
    ensures AllTrivia(AFTER, kinds, 36, 78) && AllTrivia(AFTER, kinds, 84, 91)
  {
    AfterParts();
    AfterBlank();
  }

  lemma {:induction false} AfterBlank()
    ensures |AFTER| == 94 && AFTER[35] == ',' && AFTER[36] == ' ' && AFTER[54] == ' '
    ensures AFTER[77] == '\n' && AFTER[84] == '\n' && AFTER[90] == '\n'
  {
    AfterParts();
    var a, b, c, d := AFTER[35..37], AFTER[54..55], AFTER[77..85], AFTER[90..];
    assert AFTER[35] == a[0] && AFTER[36] == a[1] && AFTER[54] == b[0] && AFTER[77] == c[0] && AFTER[84] == c[7] && AFTER[90] == d[0];
  }

  function Functions(close: nat): ObjectEntry { ObjectEntry(Some("functions"), true, 17, close + 1, 28, close + 1) }

  lemma {:induction false} FunctionsKey(s: string, kinds: seq<Kind>, close: nat)
    requires 35 <= |s| == |kinds| && s[..35] == TOP && 35 <= close < |s| && s[close] == '}' && kinds[close] == Code
    requires forall k :: 0 <= k < 35 ==> kinds[k] == Code
    ensures ReadEntry(s, kinds, 17, close + 1) == Some(Functions(close))
  {
    hide IdentEnd, SkipTrivia, TrimTriviaEnd;
    TopText(s);
    var word := s[17..26];
    forall k | 17 <= k < 26 ensures IsIdent(s[k]) { assert s[k] == word[k - 17]; }
    assert s[17] == word[0];
    IdentEndAt(s, 17, 26, close + 1);
    assert SkipTrivia(s, kinds, 17, close + 1) == 17 && TrimTriviaEnd(s, kinds, 17, close + 1) == close + 1;
    assert SkipTrivia(s, kinds, 26, close + 1) == 26;
    SkipsOne(s, kinds, 27, close + 1);
  }

  lemma {:induction false} SkipsOne(s: string, kinds: seq<Kind>, from: nat, till: nat)
    requires from + 1 < till <= |s| && till <= |kinds| && IsTrivia(s, kinds, from) && !IsTrivia(s, kinds, from + 1)
    ensures SkipTrivia(s, kinds, from, till) == from + 1
  {
  }

  /** The root object around the one under `functions`. */
  lemma {:induction false} OuterScans(s: string, kinds: seq<Kind>, inner: ObjectScan)
    requires 35 <= |s| == |kinds| && s[..35] == TOP && forall k :: 0 <= k < 35 ==> kinds[k] == Code
    requires ScanObject(s, kinds, 28) == Success(inner) && 35 <= inner.close && inner.close + 3 == |s|
    requires s[inner.close] == '}' && s[inner.close + 1] == '\n' && s[inner.close + 2] == '}'
    requires kinds[inner.close] == Code && kinds[inner.close + 2] == Code
    ensures ScanObject(s, kinds, 15) == Success(ObjectScan(15, inner.close + 2, [Functions(inner.close)]))
  {
    hide ReadEntry, ScanTo, ScanObject;
    TopText(s);
    OuterEntry(s, kinds, inner.close);
    OuterRuns(s, kinds, inner);
    OuterCloses(s, kinds, inner.close);
  }

  lemma {:induction false} OuterEntry(s: string, kinds: seq<Kind>, close: nat)
    requires 35 <= |s| == |kinds| && s[..35] == TOP && forall k :: 0 <= k < 35 ==> kinds[k] == Code
    requires 35 <= close && close + 3 == |s| && s[close] == '}' && s[close + 1] == '\n' && kinds[close] == Code
    ensures ReadEntry(s, kinds, 16, close + 2) == Some(Functions(close))
  {
    hide ReadEntry;
    TopText(s);
    AllTriviaNothing(s, kinds, 16);
    assert AllTrivia(s, kinds, 16, 17) && AllTrivia(s, kinds, close + 1, close + 2);
    FunctionsKey(s, kinds, close);
    ReadEntryWithin(s, kinds, 16, 17, close + 1, close + 2);
  }

  lemma {:induction false} OuterCloses(s: string, kinds: seq<Kind>, close: nat)
    requires 35 <= close && close + 3 == |s| == |kinds| && s[15] == '{' && kinds[15] == Code
    requires s[close + 2] == '}' && kinds[close + 2] == Code
    requires ReadEntry(s, kinds, 16, close + 2) == Some(Functions(close))
    requires ScanTo(s, kinds, 16, ScanState(0, 16, []), close + 2) == Running(ScanState(0, 16, []))
    ensures ScanObject(s, kinds, 15) == Success(ObjectScan(15, close + 2, [Functions(close)]))
  {
    hide ReadEntry, ScanTo;
    SeparatorStep(s, kinds, close + 2, 16, [], Functions(close));
    ScanOne(s, kinds, close + 2, ScanState(0, 16, []));
    ScanCompose(s, kinds, 16, ScanState(0, 16, []), close + 2, close + 3);
    assert [] + [Functions(close)] == [Functions(close)];
  }

  lemma {:induction false} OuterRuns(s: string, kinds: seq<Kind>, inner: ObjectScan)
    requires 35 <= |s| == |kinds| && s[..35] == TOP && forall k :: 0 <= k < 35 ==> kinds[k] == Code
    requires ScanObject(s, kinds, 28) == Success(inner) && inner.close + 3 == |s| && s[inner.close + 1] == '\n'
    ensures ScanTo(s, kinds, 16, ScanState(0, 16, []), inner.close + 2) == Running(ScanState(0, 16, []))
  {
    hide ReadEntry, ScanTo, ScanObject;
    var close, st := inner.close, ScanState(0, 16, []);
    TopText(s);
    var word := s[17..26];
    forall k | 16 <= k < 28 ensures !OpensBracket(s[k]) && !ClosesBracket(s[k]) && s[k] != ',' {
      if 17 <= k < 26 { assert s[k] == word[k - 17]; }
    }
    ScanQuiet(s, kinds, 16, st, 28);
    ScannedAt(s, kinds, 28, inner);
    ObjectPasses(s, kinds, inner, 16, []);
    assert AllTrivia(s, kinds, close + 1, close + 2);
    ScanTrivia(s, kinds, close + 1, st, close + 2);
    ScanCompose(s, kinds, 16, st, 28, close + 2);
    ScanCompose(s, kinds, 28, st, close + 1, close + 2);
  }

  lemma {:induction false} ScannedAt(s: string, kinds: seq<Kind>, open: nat, scan: ObjectScan)
    requires |s| == |kinds| && ScanObject(s, kinds, open) == Success(scan)
    ensures scan.open == open < scan.close < |s|
  {
    hide ScanTo;
  }

  // ---------------------------------------------------------------------------
  // The two files
  // ---------------------------------------------------------------------------

  /** The file `s` declares the functions of `inner`, and nothing else. */
  ghost predicate ReadAs(s: string, kinds: seq<Kind>, inner: ObjectScan) {
    && Parse(s).Success? && WellRead(Parse(s).value) && Parse(s).value.source == s && Parse(s).value.kinds == kinds && |s| == |kinds|
    && Parse(s).value.root == ObjectScan(15, inner.close + 2, [Functions(inner.close)])
    && ScanObject(s, kinds, 28) == Success(inner) && inner.open == 28 && Plain(inner.entries)
  }

  lemma {:induction false} NoOther(s: string)
    requires |s| >= 35 && s[..35] == TOP
    ensures forall k :: 16 <= k < 35 ==> s[k] != 'd' && s[k] != 'e'
  {
    assert forall k :: 16 <= k < 35 ==> TOP[k] != 'd' && TOP[k] != 'e';
    assert forall k :: 0 <= k < 35 ==> s[k] == TOP[k];
  }

  lemma {:induction false} ReadsAs(s: string, kinds: seq<Kind>, inner: ObjectScan)
    requires Labelled(s, kinds) && 35 <= |s| == |kinds| && s[..35] == TOP && forall k :: 0 <= k < 35 ==> kinds[k] == Code
    requires forall k :: 35 <= k < |s| && kinds[k] == Code ==> s[k] != 'd' && s[k] != 'e'
    requires ScanObject(s, kinds, 28) == Success(inner) && 35 <= inner.close && inner.close + 3 == |s| && Plain(inner.entries)
    requires s[inner.close] == '}' && s[inner.close + 1] == '\n' && s[inner.close + 2] == '}'
    requires kinds[inner.close] == Code && kinds[inner.close + 2] == Code
    ensures ReadAs(s, kinds, inner)
  {
    hide Lex, FindConfigObject, ScanObject, Parse;
    TopText(s);
    NoOther(s);
    HeadFound(s, kinds);
    ScannedAt(s, kinds, 28, inner);
    OuterScans(s, kinds, inner);
    Parses(s, kinds, 15, inner.close + 2, [Functions(inner.close)]);
  }

  lemma {:induction false} BeforeFile() returns (kinds: seq<Kind>)
    ensures BeforeKinds(kinds) && ReadAs(BEFORE, kinds, ObjectScan(28, 52, [A_ENTRY]))
  {
    hide Lex, ScanObject, ReadAs;
    kinds := BeforeReads();
    InnerBefore(BEFORE, kinds);
    BeforeText();
    BeforeChars();
    var s := BEFORE;
    ReadsAs(s, kinds, ObjectScan(28, 52, [A_ENTRY]));
  }

  lemma {:induction false} AfterFile() returns (kinds: seq<Kind>)
    ensures ReadAs(AFTER, kinds, ObjectScan(28, 91, [A_ENTRY, S_ENTRY]))
  {
    hide Lex, ScanObject, ReadAs;
    kinds := AfterReads();
    InnerAfter(AFTER, kinds);
    AfterParts();
    AfterBlank();
    var s, mid := AFTER, AFTER[77..85];
    forall k | 77 <= k < 85 ensures s[k] != 'd' && s[k] != 'e' { assert s[k] == mid[k - 77]; }
    assert s[90] == s[90..][0] && s[91] == s[90..][1] && s[92] == s[90..][2] && s[93] == s[90..][3];
    ReadsAs(s, kinds, ObjectScan(28, 91, [A_ENTRY, S_ENTRY]));
  }

  /** The object under `functions`, as the editor finds it. */
  lemma {:induction false} UnderFunctions(s: string, kinds: seq<Kind>, inner: ObjectScan)
    requires ReadAs(s, kinds, inner)
    ensures var parsed := Parse(s).value;
            && FindEntry(parsed.root.entries, "functions") == Some(Functions(inner.close))
            && NotUnderPreview(parsed, "functions") == Success(true)
            && ObjectOf(parsed, Functions(inner.close)) == Success(Some(inner))
            && ObjectUnder(parsed, parsed.root.entries, "functions") == Some(inner)
  {
    hide Parse, ScanObject, ObjectOf, Plain;
    var parsed, es := Parse(s).value, [Functions(inner.close)];
    assert FindEntry(es, "functions") == Some(es[0]);
    assert FindEntry(es, "preview").None? by { assert FindEntry(es[1..], "preview").None?; }
    HeldObject(parsed, Functions(inner.close), inner);
  }

  // ---------------------------------------------------------------------------
  // The edit
  // ---------------------------------------------------------------------------

  const LINE := "s: { name: \"*/" + " " + "//\", source: \"x.ts\" },"

  lemma {:induction false} PlainJson(t: string)
    requires NeedsNoEscape(t)
    ensures JsonBody(t) == t
    decreases |t|
  {
    if t != [] {
      PlainJson(t[1..]);
      assert [t[0]] + t[1..] == t;
    }
  }

  lemma {:induction false} LineParts()
    ensures "s" + ": { name: " == "s: { name: " && "\"" + "*/ //" + "\"" == "\"*/" + " " + "//\""
    ensures "s: { name: " + "\"*/" == "s: { name: \"*/"
  {
  }

  lemma {:induction false} LineEnds()
    ensures ", source: " + ("\"" + "x.ts" + "\"") + "" + " }," == ", source: \"x.ts\" },"
    ensures "//\"" + ", source: \"x.ts\" }," == "//\", source: \"x.ts\" },"
  {
  }

  lemma {:induction false} Regrouped(a: string, q1: string, q2: string, q3: string, b1: string, b2: string, b3: string)
    ensures a + (q1 + q2 + q3) + b1 + b2 + "" + b3 == (a + q1) + q2 + (q3 + (b1 + b2 + "" + b3))
  {
    var l, r := a + (q1 + q2 + q3) + b1 + b2 + "" + b3, (a + q1) + q2 + (q3 + (b1 + b2 + "" + b3));
    assert l == a + q1 + q2 + q3 + b1 + b2 + b3;
    assert r == a + q1 + q2 + q3 + b1 + b2 + b3;
  }

  lemma {:induction false} OverrunLine()
    ensures FunctionLine("s", "*/ //", "x.ts", [], true) == LINE
  {
    hide JsonBody;
    PlainJson("*/ //");
    PlainJson("x.ts");
    NameIsIdent("s");
    LineParts();
    LineEnds();
    Regrouped("s: { name: ", "\"*/", " ", "//\"", ", source: ", "\"" + "x.ts" + "\"", " },");
  }

  /** The text with the line put behind the first entry, regrouped. */
  lemma {:induction false} Spliced(top: string, l1: string, l2: string, l3: string, old1: string, old2: string)
    ensures top + "," + " /*" + "\n" + (l1 + l2 + l3) + (old1 + old2)
         == top + (", " + (("/*\n" + l1) + (l2 + (l3 + (old1 + old2)))))
  {
    assert "," + " /*" + "\n" == ", " + "/*\n";
    var a, b, c := "," + " /*" + "\n", l1 + l2 + l3, old1 + old2;
    assert top + "," + " /*" + "\n" + b + c == top + (a + (b + c));
    assert b + c == l1 + (l2 + (l3 + c));
    assert a + (b + c) == ", " + ("/*\n" + (b + c));
    Assoc("/*\n", l1, l2 + (l3 + c));
  }

  lemma {:induction false} SlicesJoin(s: string, a: nat, b: nat, c: nat)
    requires a <= b <= c <= |s|
    ensures s[a..c] == s[a..b] + s[b..c] && s[b..] == s[b..c] + s[c..]
  {
  }

  lemma {:induction false} BeforeRest()
    ensures |BEFORE| == 55 && BEFORE[35..38] == " /*" && BEFORE[38..] == OLD + ("/*\n*/" + BOTTOM)
  {
    BeforeText();
    SlicesJoin(BEFORE, 35, 36, 38);
    SlicesJoin(BEFORE, 38, 38, 46);
    SlicesJoin(BEFORE, 46, 46, 51);
    assert " " + "/*" == " /*";
  }

  lemma {:induction false} CommentStart()
    ensures "/*\n" + "s: { name: \"*/" == "/*\ns: { name: \"*/"
  {
  }

  lemma {:induction false} Result(s: string)
    requires s == BEFORE
    ensures |s| == 55 && s[..35] + "," + s[35..38] + "\n" + LINE + s[38..] == AFTER
  {
    BeforeText();
    BeforeRest();
    CommentStart();
    Spliced(TOP, "s: { name: \"*/", " ", "//\", source: \"x.ts\" },", OLD, "/*\n*/" + BOTTOM);
  }

  lemma {:induction false} BeforeLines(s: string)
    requires s == BEFORE
    ensures |s| == 55 && !HasCrLf(s) && StartsLine(s, 30) && LineIndent(s, 30) == "" && LineEnd(s, 35) == 38 && s[37] == '*'
  {
    hide HasCrLf, LineEnd;
    BeforeText();
    BeforeChars();
    TopText(s);
    NoReturn();
    assert s[30] == s[30..35][0];
    assert LineStart(s, 30) == 30 && IndentEnd(s, 30) == 30 && s[30..30] == "";
    LineEndAt(s, 35, 38);
  }

  lemma {:induction false} LineEndAt(s: string, i: nat, e: nat)
    requires i <= e < |s| && s[e] == '\n' && forall k :: i <= k < e ==> s[k] != '\n'
    ensures LineEnd(s, i) == e
    decreases e - i
  {
    if i < e { LineEndAt(s, i + 1, e); }
  }

  lemma {:induction false} BreakHasReturn(s: string)
    ensures HasCrLf(s) ==> '\r' in s
  {
    if HasCrLf(s) {
      var i :| 0 <= i < |s| && HasPrefixAt(s, i, "\r\n");
      assert s[i] == s[i..i + 2][0];
    }
  }

  lemma {:induction false} NoReturn()
    ensures !HasCrLf(BEFORE)
  {
    hide HasCrLf;
    BreakHasReturn(BEFORE);
    assert '\r' !in TOP && '\r' !in " " + (("/*" + OLD + "/*\n*/") + BOTTOM);
  }

  lemma {:induction false} NoCommaBehind(kinds: seq<Kind>)
    requires BeforeKinds(kinds)
    ensures |BEFORE| == 55 && SeparatorIn(BEFORE, kinds, 35, 52, 38) == Some(false)
  {
    var s := BEFORE;
    BeforeChars();
    assert forall k :: 35 <= k < 52 ==> !IsCodeComma(s, kinds, k);
  }

  lemma {:induction false} PutsBehind(parsed: Parsed, inner: ObjectScan, line: string)
    requires |parsed.source| == |parsed.kinds| == 55 && inner == ObjectScan(28, 52, [A_ENTRY]) && parsed.eol == "\n"
    requires var s := parsed.source;
             && StartsLine(s, 30) && LineIndent(s, 30) == "" && LineEnd(s, 35) == 38 && s[37] == '*'
             && SeparatorIn(s, parsed.kinds, 35, 52, 38) == Some(false)
    ensures var s := parsed.source;
            InsertEntry(parsed, inner, [line], None) == Success(s[..35] + "," + s[35..38] + "\n" + line + s[38..])
  {
    hide LineEnd, StartsLine, LineIndent, SeparatorIn;
    assert JoinedLines([line], "", "\n") == "" + line == line;
    assert inner.entries[|inner.entries| - 1] == A_ENTRY;
    assert LineBreak(parsed.source, 35) == 38;
  }

  lemma {:induction false} AddsBehind(parsed: Parsed, inner: ObjectScan, line: string, t: string)
    requires WellRead(parsed) && inner == ObjectScan(28, 52, [A_ENTRY]) && inner.close < |parsed.source|
    requires FindEntry(parsed.root.entries, "functions") == Some(Functions(52)) && NotUnderPreview(parsed, "functions") == Success(true)
    requires ObjectOf(parsed, Functions(52)) == Success(Some(inner)) && InsertEntry(parsed, inner, [line], None) == Success(t)
    ensures AddNamed(parsed, "functions", "s", [line]) == Success(EditStep(t, Some(Added("functions.s"))))
    ensures ObjectUnder(parsed, parsed.root.entries, "functions") == Some(inner)
    ensures NamedPlace(parsed, "functions", "s") == Some(Place(inner, None))
  {
    hide ObjectOf, NotUnderPreview, InsertEntry;
    assert FindEntry([A_ENTRY], "s").None?;
    assert "functions" + "." + "s" == "functions.s";
  }

  lemma {:induction false} InComment(parsed: Parsed, inner: ObjectScan)
    requires |parsed.source| == |parsed.kinds| == 55 && inner == ObjectScan(28, 52, [A_ENTRY]) && BeforeKinds(parsed.kinds)
    requires LineEnd(parsed.source, 35) == 38
    ensures !InCode(parsed, Place(inner, None))
  {
    hide LineEnd;
    assert inner.entries[|inner.entries| - 1] == A_ENTRY;
  }

  /** What the step does, from what is read of the file. */
  lemma {:induction false} StepAdds(s: string, parsed: Parsed, edit: ConfigEdit, line: string, step: EditStep, place: Place)
    requires Parse(s) == Success(parsed) && WellRead(parsed) && edit.FunctionEdit? && edit.slug == "s"
    requires line == FunctionLine(edit.slug, edit.name, edit.source, edit.env, edit.typescript)
    requires AddNamed(parsed, "functions", "s", [line]) == Success(step)
    requires NamedPlace(parsed, "functions", "s") == Some(place) && !InCode(parsed, place)
    ensures BuildStep(s, edit) == Success(step) && !PlacedInCode(s, edit)
  {
    hide Parse, AddNamed, FunctionLine, NamedPlace, InCode;
  }

  /** The line goes behind the first entry, into the comment. */
  lemma {:induction false} Takes(kinds: seq<Kind>, s: string, t: string)
    requires s == BEFORE && t == AFTER && BeforeKinds(kinds) && ReadAs(s, kinds, ObjectScan(28, 52, [A_ENTRY]))
    ensures BuildStep(s, OVERRUN) == Success(EditStep(t, Some(Added("functions.s")))) && !PlacedInCode(s, OVERRUN)
  {
    hide Parse, ScanObject, ObjectOf, FunctionLine, LineEnd, StartsLine, LineIndent, NotUnderPreview, ObjectUnder, SeparatorIn, HasCrLf,
      InsertEntry, AddNamed, FindEntry, NamedPlace, BuildStep, PlacedInCode, InCode;
    var parsed, inner := Parse(s).value, ObjectScan(28, 52, [A_ENTRY]);
    UnderFunctions(s, kinds, inner);
    OverrunLine();
    Result(s);
    BeforeLines(s);
    NoCommaBehind(kinds);
    PutsBehind(parsed, inner, LINE);
    AddsBehind(parsed, inner, LINE, t);
    InComment(parsed, inner);
    StepAdds(s, parsed, OVERRUN, LINE, EditStep(t, Some(Added("functions.s"))), Place(inner, None));
  }

  /** The value asked for is longer than the object found. */
  lemma {:induction false} ValueIsLong()
    ensures |Written(FunctionValue("*/ //", "x.ts", [], true))| == 33
  {
    hide Written, Labels, FunctionValue, FunctionLine, IsValue, Field;
    var value := FunctionValue("*/ //", "x.ts", [], true);
    FunctionIsValue("s", "*/ //", "x.ts", [], true);
    OverrunLine();
    FieldText("s", value);
    NameIsIdent("s");
    assert |LINE| == 37;
  }

  lemma {:induction false} FindsSecond(entries: seq<ObjectEntry>)
    requires entries == [A_ENTRY, S_ENTRY]
    ensures FindEntry(entries, "s") == Some(S_ENTRY)
  {
    assert entries[1..] == [S_ENTRY];
    assert FindEntry([S_ENTRY], "s") == Some(S_ENTRY);
  }

  lemma {:induction false} ShortIsOther(parsed: Parsed, inner: ObjectScan, value: seq<Piece>)
    requires WellRead(parsed) && ObjectUnder(parsed, parsed.root.entries, "functions") == Some(inner)
    requires FindEntry(inner.entries, "s") == Some(S_ENTRY) && |Written(value)| == 33
    ensures !WrittenIn(parsed, "functions", "s", value)
  {
    hide ObjectUnder, FindEntry, Written, Labels, NamedIn, Same;
  }

  lemma {:induction false} NamedThere(parsed: Parsed, inner: ObjectScan)
    requires WellRead(parsed) && ObjectUnder(parsed, parsed.root.entries, "functions") == Some(inner)
    requires NotUnderPreview(parsed, "functions") == Success(true) && FindEntry(inner.entries, "s") == Some(S_ENTRY)
    ensures NamedIn(parsed, "functions", "s")
  {
    hide ObjectUnder, FindEntry, NotUnderPreview;
  }

  lemma {:induction false} DeclaresOther(s: string, edit: ConfigEdit)
    requires Parse(s).Success? && WellRead(Parse(s).value) && edit.FunctionEdit? && NamedIn(Parse(s).value, "functions", edit.slug)
    requires !WrittenIn(Parse(s).value, "functions", edit.slug, FunctionValue(edit.name, edit.source, edit.env, edit.typescript))
    ensures Declares(Parse(s).value, edit) && !AsWritten(s, edit)
  {
    hide Parse, NamedIn, WrittenIn, FunctionValue;
  }

  lemma {:induction false} AfterDeclares(s: string)
    requires s == AFTER
    ensures Parse(s).Success? && Declares(Parse(s).value, OVERRUN) && !AsWritten(s, OVERRUN)
  {
    hide Parse, ScanObject, ObjectOf, NotUnderPreview, ObjectUnder, FindEntry, Written, Labels, FunctionValue, NamedIn, WrittenIn, Plain,
      Declares, AsWritten;
    var kinds := AfterFile();
    var inner := ObjectScan(28, 91, [A_ENTRY, S_ENTRY]);
    UnderFunctions(s, kinds, inner);
    FindsSecond(inner.entries);
    ValueIsLong();
    NamedThere(Parse(s).value, inner);
    ShortIsOther(Parse(s).value, inner, FunctionValue("*/ //", "x.ts", [], true));
    DeclaresOther(s, OVERRUN);
  }

  lemma {:induction false} LineEndsComment()
    ensures !StaysInComments(OVERRUN)
  {
    hide FunctionLine;
    OverrunLine();
    assert LINE[12] == '*' && LINE[13] == '/';
  }

  lemma {:induction false} AppliesOne(s: string, edit: ConfigEdit, step: EditStep, change: Change)
    requires !edit.ServiceEdit? && BuildStep(s, edit) == Success(step) && step.change == Some(change)
    ensures Apply(s, edit) == Success(EditResult(step.source, [change]))
    ensures EditNeonConfig(s, edit).Success? ==> EditNeonConfig(s, edit) == Success(EditResult(step.source, [change]))
  {
    hide BuildStep, RunSteps;
    RunOne(s, edit);
  }

  /**
   * The edit is accepted, with the change reported, though its line is in a comment: the entry found
   * under its name is the one that was commented out, which says neither the name nor the source
   * asked for.
   */
  lemma {:induction false} OverrunAccepted()
    ensures EditNeonConfig(BEFORE, OVERRUN) == Success(EditResult(AFTER, [Added("functions.s")]))
    ensures !PlacedInCode(BEFORE, OVERRUN) && !StaysInComments(OVERRUN) && !AsWritten(AFTER, OVERRUN)
  {
    hide Parse, BuildStep, EditNeonConfig, ReadAs, PlacedInCode, StaysInComments, AsWritten, Apply;
    var kinds := BeforeFile();
    Takes(kinds, BEFORE, AFTER);
    AppliesOne(BEFORE, OVERRUN, EditStep(AFTER, Some(Added("functions.s"))), Added("functions.s"));
    AfterDeclares(AFTER);
    LineEndsComment();
    AcceptedIffDeclared(BEFORE, OVERRUN);
  }
}

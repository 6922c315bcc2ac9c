/** Two small `neon.ts` files whose edits are written, read back, and refused. */
module ConfigExamples {
  import opened Wrappers
  import opened Text
  import opened SourceLexer
  import opened ObjectScan
  import opened ObjectShift
  import opened ConfigEdit
  import opened ConfigSplice
  import opened ConfigAppend
  import opened ConfigFind
  import opened ConfigLines
  import opened ConfigEntries
  import opened ConfigGrowth
  import opened ConfigInsert
  import opened ConfigLayout
  import opened ConfigConverge
  import opened ConfigDeclares
  import opened ConfigRefused
  import opened ConfigLands
  import opened ConfigPlaces

  const HEAD := "export default "

  /** An empty policy. */
  const EMPTY := HEAD + "{}"

  lemma {:induction false} HeadIsExport(s: string)
    requires 16 < |s| && s[..15] == HEAD && s[15] == '{'
    ensures MatchExport(s, 0) == Some(15)
  {
    assert s[..6] == s[..15][..6] == "export" && s[7..14] == s[..15][7..14] == "default";
    assert s[6] == s[..15][6] && s[7] == s[..15][7] && s[14] == s[..15][14];
    assert SkipSpaces(s, 6, |s|) == 7 && SkipSpaces(s, 14, |s|) == 15;
  }

  lemma {:induction false} HeadMatches(s: string, i: nat)
    requires 16 < |s| && s[..15] == HEAD && s[15] == '{' && 0 < i <= 15
    ensures MatchDefine(s, i).None? && MatchExport(s, i).None?
  {
    FirstChar(s, i, "defineConfig");
    FirstChar(s, i, "export");
    assert i < 15 ==> s[i] == s[..15][i];
    assert s[i - 1] == s[..15][i - 1];
  }

  /** Behind the head, code without a `d` or an `e` holds no other config object. */
  lemma {:induction false} HeadFound(s: string, kinds: seq<Kind>)
    requires 16 < |s| == |kinds| && s[..15] == HEAD && s[15] == '{' && kinds[0] == Code
    requires forall k :: 16 <= k < |s| && kinds[k] == Code ==> s[k] != 'd' && s[k] != 'e'
    ensures FindConfigObject(s, kinds) == Success(15)
  {
    hide FindConfigObject, MatchExport, MatchDefine, HasPrefixAt;
    HeadIsExport(s);
    OneKind(s, 0);
    forall k | CodeMatch(s, kinds, k) ensures k == 0 {
      if 0 < k <= 15 { HeadMatches(s, k); }
      if 15 < k { MatchStarts(s, k); }
    }
    FindsOne(s, kinds, 0, 15);
  }

  lemma {:induction false} MatchStarts(s: string, i: nat)
    requires MatchDefine(s, i).Some? || MatchExport(s, i).Some?
    ensures i < |s| && (s[i] == 'd' || s[i] == 'e')
  {
    FirstChar(s, i, "defineConfig");
    FirstChar(s, i, "export");
  }

  // ---------------------------------------------------------------------------
  // A name that has to be escaped
  // ---------------------------------------------------------------------------

  lemma {:induction false} EmptyReads() returns (parsed: Parsed)
    ensures Parse(EMPTY) == Success(parsed) && WellRead(parsed) && parsed.source == EMPTY && parsed.root == ObjectScan(15, 16, [])
  {
    hide Parse, FindConfigObject, Laid, Marked, Legible;
    var x := Bare(EMPTY, End);
    var kinds := Marked(x);
    EmptyLaid(x);
    LayoutLex(x);
    HeadFound(EMPTY, kinds);
    EmptyScans(kinds);
    Parses(EMPTY, kinds, 15, 16, []);
    parsed := Parse(EMPTY).value;
  }

  lemma {:induction false} EmptyText()
    ensures |EMPTY| == 17 && EMPTY[..15] == HEAD && EMPTY[15] == '{' && EMPTY[16] == '}' && IsBare(EMPTY)
  {
  }

  lemma {:induction false} EmptyLaid(x: Layout)
    requires x == Bare(EMPTY, End)
    ensures Legible(x) && Laid(x) == EMPTY && |EMPTY| == 17 && EMPTY[..15] == HEAD && EMPTY[15] == '{' && EMPTY[16] == '}'
    ensures forall k :: 0 <= k < 17 ==> Marked(x)[k] == Code
  {
    hide IsBare;
    EmptyText();
    assert Laid(End) == "" && Marked(End) == [] && EMPTY + "" == EMPTY;
  }

  lemma {:induction false} EmptyScans(kinds: seq<Kind>)
    requires |kinds| == 17 && forall k :: 0 <= k < 17 ==> kinds[k] == Code
    ensures |EMPTY| == 17 && ScanObject(EMPTY, kinds, 15) == Success(ObjectScan(15, 16, []))
  {
    EmptyText();
    AllTriviaNothing(EMPTY, kinds, 16);
    var st := ScanState(0, 16, []);
    assert ReadEntry(EMPTY, kinds, 16, 16).None?;
    assert ScanStep(EMPTY, kinds, 16, st) == Complete(16, []);
  }

  const QUOTED_NAME := BucketEdit("a\"b", Private)

  /** A bucket put where code is, under a name that cannot be read back, is refused. */
  lemma {:induction false} UnreadNameRefused(s: string, parsed: Parsed, edit: ConfigEdit)
    requires Parse(s) == Success(parsed) && WellRead(parsed) && edit.BucketEdit? && BuildStep(s, edit).Success?
    requires PlaceOf(parsed, edit).Some? && InCode(parsed, PlaceOf(parsed, edit).value) && !KeyReads(edit.bucket)
    ensures Apply(s, edit).Success? && EditNeonConfig(s, edit).Failure?
  {
    hide Parse, EditNeonConfig, BuildStep, InCode, PlaceOf, KeyReads, StaysInComments, RunSteps;
    RunOne(s, edit);
    EditLandsIff(s, edit);
  }

  /** A bucket whose name needs an escape is written into an empty policy, not found there again, and refused. */
  lemma {:induction false} EscapedNameRefused()
    ensures Apply(EMPTY, QUOTED_NAME).Success? && EditNeonConfig(EMPTY, QUOTED_NAME).Failure?
  {
    hide Parse, EditNeonConfig, BucketLine, BuildStep, InCode, PlaceOf, NoTerminator, KeyReads, Apply;
    var parsed := EmptyReads();
    EmptyTakes(EMPTY, parsed, QUOTED_NAME);
    EscapedKey();
    UnreadNameRefused(EMPTY, parsed, QUOTED_NAME);
  }

  lemma {:induction false} EscapedKey()
    ensures !KeyReads("a\"b")
  {
    assert "a\"b"[1..] == "\"b" && "\"b"[1..] == "b" && "b"[1..] == "";
    assert JsonBody("a\"b") == "a" + ("\\\"" + ("b" + ""));
    assert JsonBody("a\"b")[1] == '\\';
    assert !IsIdent("a\"b"[1]);
  }

  /** A policy without entries takes a new container. */
  lemma {:induction false} EmptyTakes(s: string, parsed: Parsed, edit: ConfigEdit)
    requires Parse(s) == Success(parsed) && WellRead(parsed) && edit.BucketEdit?
    requires parsed.root.entries == [] && parsed.root.close == parsed.root.open + 1
    ensures BuildStep(s, edit).Success?
    ensures PlaceOf(parsed, edit).Some? && InCode(parsed, PlaceOf(parsed, edit).value)
  {
    hide Parse, BucketLine, AddNamed, PlaceOf, InCode;
    EmptyAdds(parsed, "buckets", edit.bucket, BucketLine(edit.bucket, edit.access));
    EmptyPlace(parsed, edit);
  }

  lemma {:induction false} EmptyAdds(parsed: Parsed, container: string, name: string, line: string)
    requires WellRead(parsed) && parsed.root.entries == [] && parsed.root.close == parsed.root.open + 1
    ensures AddNamed(parsed, container, name, [line]).Success?
  {
    hide LineIndent, JoinedLines, Prefixed;
    assert AllSpace(parsed.source, parsed.root.open + 1, parsed.root.close);
  }

  lemma {:induction false} EmptyPlace(parsed: Parsed, edit: ConfigEdit)
    requires WellRead(parsed) && parsed.root.entries == [] && edit.BucketEdit?
    ensures PlaceOf(parsed, edit).Some? && InCode(parsed, PlaceOf(parsed, edit).value)
  {
  }

  // ---------------------------------------------------------------------------
  // A place that a block comment covers
  // ---------------------------------------------------------------------------

  /** A policy whose one entry is followed by a comment that holds the line break. */
  const COMMENTED := HEAD + "{" + "\na: 1 " + "/*\n*/" + "\n}"

  lemma {:induction false} CommentedText()
    ensures var s := COMMENTED;
            && |s| == 29 && s[..15] == HEAD && s[15] == '{' && s[16..22] == "\na: 1 " && s[22..27] == "/*\n*/" && s[27] == '\n' && s[28] == '}'
            && s[..22] == HEAD + "{" + "\na: 1 " && s[27..] == "\n}"
  {
    var s := COMMENTED;
    assert |HEAD| == 15 && s == HEAD + ("{" + ("\na: 1 " + ("/*\n*/" + "\n}")));
    assert s[15..] == "{" + ("\na: 1 " + ("/*\n*/" + "\n}"));
    assert s[15] == s[15..][0] && s[27] == s[27..][0] && s[28] == s[27..][1];
  }

  /** Code before and after the comment. */
  ghost predicate CommentedKinds(kinds: seq<Kind>) {
    |kinds| == 29 && forall k :: 0 <= k < 29 ==> kinds[k] == if 22 <= k < 27 then Comment else Code
  }

  lemma {:induction false} FlatLabels(ps: seq<Piece>, k: nat)
    requires k < |Labels(ps)| && forall i :: 0 <= i < |ps| ==> !ps[i].Quoted?
    ensures Labels(ps)[k] == Code
    decreases |ps|
  {
    var n := |LabelsPiece(ps[0])|;
    if k < n { PieceLabels(ps[0], k); } else { FlatLabels(ps[1..], k - n); }
  }

  lemma {:induction false} CommentedParts()
    ensures IsBare(HEAD + "{" + "\na: 1 ") && IsBlock("/*\n*/") && IsBare("\n}")
  {
    assert IsBare(HEAD) && IsBare("\na: 1 ");
    assert BlockEnd("/*\n*/", 2) == BlockEnd("/*\n*/", 3) == Some(5);
  }

  lemma {:induction false} CommentedReads() returns (kinds: seq<Kind>)
    ensures Labelled(COMMENTED, kinds) && CommentedKinds(kinds)
  {
    hide IsBare, IsBlock;
    var a, b, c := HEAD + "{" + "\na: 1 ", "/*\n*/", "\n}";
    CommentedParts();
    CommentedText();
    LayoutLex(Bare(a, Block(b, Bare(c, End))));
    kinds := Marked(Bare(a, Block(b, Bare(c, End))));
    assert Laid(Bare(c, End)) == c + "" && Laid(Block(b, Bare(c, End))) == b + (c + "");
    assert Marked(Bare(c, End)) == Fill(2, Code) + [] && Marked(Block(b, Bare(c, End))) == Fill(5, Comment) + (Fill(2, Code) + []);
    assert COMMENTED == a + (b + (c + ""));
  }

  const ENTRY := ObjectEntry(Some("a"), true, 17, 21, 20, 21)

  lemma {:induction false} EntryReads(kinds: seq<Kind>)
    requires CommentedKinds(kinds)
    ensures |COMMENTED| == 29 && ReadEntry(COMMENTED, kinds, 16, 21) == Some(ENTRY)
    ensures ScanTo(COMMENTED, kinds, 16, ScanState(0, 16, []), 21) == Running(ScanState(0, 16, []))
  {
    hide Written, Labels, ReadEntry, ScanTo, RenderKey;
    var s, field := COMMENTED, Field("a", [Flat("1")]);
    CommentedText();
    OneWritten("1");
    NameIsIdent("a");
    FieldText("a", [Flat("1")]);
    assert Written(field) == "a: 1" && |Labels(field)| == 4;
    assert "\na: 1 "[1..5] == "a: 1" && s[17..21] == s[16..22][1..5];
    forall k | 0 <= k < 4 ensures Labels(field)[k] == Code { FlatLabels(field, k); }
    OneIsValue();
    FieldAt("a", [Flat("1")], s, kinds, 16, 17, 21, []);
  }

  lemma {:induction false} OneIsValue()
    ensures IsValue([Flat("1")])
  {
    OneWritten("1");
    assert [Flat("1")][1..] == [];
  }

  lemma {:induction false} CommentedScans(kinds: seq<Kind>)
    requires CommentedKinds(kinds)
    ensures |COMMENTED| == 29 && ScanObject(COMMENTED, kinds, 15) == Success(ObjectScan(15, 28, [ENTRY]))
  {
    hide ReadEntry, ScanTo;
    var s, st := COMMENTED, ScanState(0, 16, []);
    CommentedText();
    EntryReads(kinds);
    assert s[21] == s[16..22][5];
    assert AllTrivia(s, kinds, 21, 28);
    AllTriviaNothing(s, kinds, 16);
    ReadEntryWithin(s, kinds, 16, 16, 21, 28);
    ScanTrivia(s, kinds, 21, st, 28);
    ScanCompose(s, kinds, 16, st, 21, 29);
    ScanCompose(s, kinds, 21, st, 28, 29);
    ScanOne(s, kinds, 28, st);
    assert [] + [ENTRY] == [ENTRY];
  }

  lemma {:induction false} CommentedParses() returns (parsed: Parsed)
    ensures Parse(COMMENTED) == Success(parsed) && WellRead(parsed) && parsed.source == COMMENTED
    ensures parsed.root == ObjectScan(15, 28, [ENTRY]) && CommentedKinds(parsed.kinds)
  {
    hide Parse, FindConfigObject, ScanObject;
    var kinds := CommentedReads();
    CommentedText();
    var s := COMMENTED;
    forall k | 16 <= k < |s| && kinds[k] == Code ensures s[k] != 'd' && s[k] != 'e' {
      assert k < 22 ==> s[k] == s[16..22][k - 16];
    }
    HeadFound(s, kinds);
    CommentedScans(kinds);
    Parses(s, kinds, 15, 28, [ENTRY]);
    parsed := Parse(s).value;
  }

  lemma {:induction false} LastLineEnds()
    ensures |COMMENTED| == 29 && LineEnd(COMMENTED, 21) == 24 && StartsLine(COMMENTED, 17) && COMMENTED[23] == '*'
  {
    var s := COMMENTED;
    CommentedText();
    var c := s[22..27];
    assert c[0] == s[22] && c[1] == s[23] && c[2] == s[24];
    assert s[16] == s[16..22][0] && s[21] == s[16..22][5];
    assert LineEnd(s, 24) == 24 && LineEnd(s, 23) == 24 && LineEnd(s, 22) == 24;
    assert LineStart(s, 17) == 17;
  }

  lemma {:induction false} PutsLast(parsed: Parsed, line: string)
    requires WellRead(parsed) && parsed.root == ObjectScan(15, 28, [ENTRY])
    requires var s := parsed.source;
             LineEnd(s, 21) == 24 && StartsLine(s, 17) && s[23] == '*' && SeparatorIn(s, parsed.kinds, 21, 28, 24).Some?
    ensures InsertEntry(parsed, parsed.root, [line], None).Success?
  {
    hide LineEnd, StartsLine, LineIndent, JoinedLines, SeparatorIn;
    assert parsed.root.entries[|parsed.root.entries| - 1] == ENTRY;
    assert LineBreak(parsed.source, 21) == 24;
  }

  lemma {:induction false} ToggleAdds(parsed: Parsed)
    requires WellRead(parsed) && parsed.root.entries == [ENTRY]
    requires InsertEntry(parsed, parsed.root, ["aiGateway" + ": true,"], None).Success?
    ensures SetToggle(parsed, AiGateway).Success?
  {
    hide InsertEntry, FindEntry, EntryAfter;
    NothingBehind();
  }

  lemma {:induction false} BreakInComment(parsed: Parsed)
    requires WellRead(parsed) && parsed.root == ObjectScan(15, 28, [ENTRY])
    requires LineEnd(parsed.source, 21) == 24 && parsed.kinds[24] == Comment
    ensures !GoesInCode(parsed, parsed.root, None)
  {
    hide LineEnd;
    assert parsed.root.entries[|parsed.root.entries| - 1] == ENTRY;
  }

  lemma {:induction false} PutInComment(s: string, parsed: Parsed)
    requires Parse(s) == Success(parsed) && WellRead(parsed) && parsed.source == s && parsed.root == ObjectScan(15, 28, [ENTRY])
    requires LineEnd(s, 21) == 24 && parsed.kinds[24] == Comment
    ensures !PlaceInCode(s, AiGateway)
  {
    hide Parse, LineEnd, GoesInCode, FindEntry, EntryAfter;
    NothingBehind();
    BreakInComment(parsed);
  }

  lemma {:induction false} StepToggles(s: string, parsed: Parsed)
    requires Parse(s) == Success(parsed) && WellRead(parsed) && SetToggle(parsed, AiGateway).Success?
    ensures BuildStep(s, ServiceEdit(AiGateway)).Success?
  {
    hide Parse, SetToggle;
  }

  /** The line for the AI Gateway goes into the comment, and is put there. */
  lemma {:induction false} CommentedTakes(parsed: Parsed)
    requires Parse(COMMENTED) == Success(parsed) && WellRead(parsed) && parsed.source == COMMENTED
    requires parsed.root == ObjectScan(15, 28, [ENTRY]) && CommentedKinds(parsed.kinds)
    ensures BuildStep(COMMENTED, ServiceEdit(AiGateway)).Success? && !PlaceInCode(COMMENTED, AiGateway)
  {
    hide Parse, LineEnd, StartsLine, BuildStep, PlaceInCode, SeparatorIn, InsertEntry, SetToggle;
    LastLineEnds();
    NoComma(parsed.kinds);
    PutsLast(parsed, "aiGateway" + ": true,");
    ToggleAdds(parsed);
    StepToggles(COMMENTED, parsed);
    PutInComment(COMMENTED, parsed);
  }

  lemma {:induction false} NothingBehind()
    ensures FindEntry([ENTRY], "preview").None? && FindEntry([ENTRY], "aiGateway").None? && EntryAfter([ENTRY], "aiGateway").None?
  {
    assert IndexIn(KeyOrder, "a", 0) == -1 by {
      assert IndexIn(KeyOrder, "a", 9) == -1 && IndexIn(KeyOrder, "a", 8) == -1 && IndexIn(KeyOrder, "a", 7) == -1;
      assert IndexIn(KeyOrder, "a", 6) == -1 && IndexIn(KeyOrder, "a", 5) == -1 && IndexIn(KeyOrder, "a", 4) == -1;
      assert IndexIn(KeyOrder, "a", 3) == -1 && IndexIn(KeyOrder, "a", 2) == -1 && IndexIn(KeyOrder, "a", 1) == -1;
    }
    assert IndexIn(KeyOrder, "aiGateway", 2) == 2;
  }

  lemma {:induction false} NoComma(kinds: seq<Kind>)
    requires CommentedKinds(kinds)
    ensures |COMMENTED| == 29 && SeparatorIn(COMMENTED, kinds, 21, 28, 24).Some?
  {
    var s := COMMENTED;
    CommentedText();
    assert s[21] == s[16..22][5];
    assert forall k :: 21 <= k < 28 ==> !IsCodeComma(s, kinds, k);
  }

  lemma {:induction false} AppliesAlone(s: string)
    requires BuildStep(s, ServiceEdit(AiGateway)).Success?
    ensures Apply(s, ServiceEdit(AiGateway)).Success? && ServicesOf(s, AiGateway) == [AiGateway]
  {
    hide Parse, BuildStep, DataApiIsExternal, RunSteps;
    RunOne(s, ServiceEdit(AiGateway));
  }

  lemma {:induction false} NotAllInCode(s: string, steps: seq<Service>)
    requires steps != [] && !PlaceInCode(s, steps[0])
    ensures !StepsInCode(s, steps)
  {
    hide PlaceInCode, BuildStep;
  }

  /** A service whose one line is put in a block comment is refused. */
  lemma {:induction false} CoveredPlaceRefused(s: string)
    requires BuildStep(s, ServiceEdit(AiGateway)).Success? && !PlaceInCode(s, AiGateway)
    ensures Apply(s, ServiceEdit(AiGateway)).Success? && EditNeonConfig(s, ServiceEdit(AiGateway)).Failure?
  {
    hide EditNeonConfig, BuildStep, PlaceInCode, StepsInCode, ServicesOf, Apply;
    AppliesAlone(s);
    NotAllInCode(s, [AiGateway]);
    EditAppliesIff(s, AiGateway);
  }

  /** The AI Gateway turned on in that file is written into the comment, not found there, and refused. */
  lemma {:induction false} CommentedPlaceRefused()
    ensures Apply(COMMENTED, ServiceEdit(AiGateway)).Success? && EditNeonConfig(COMMENTED, ServiceEdit(AiGateway)).Failure?
  {
    hide Parse, EditNeonConfig, BuildStep, PlaceInCode, Apply;
    var parsed := CommentedParses();
    CommentedTakes(parsed);
    CoveredPlaceRefused(COMMENTED);
  }
}

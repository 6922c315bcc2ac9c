/**
 * The lines the editor writes, as pieces: bare text, JSON strings and brackets. Each of them reads
 * as one entry of the object it goes in, whatever texts it holds.
 */
module ConfigLines {
  import opened Wrappers
  import opened Text
  import opened SourceLexer
  import opened LexerTokens
  import opened LexerSplice
  import opened ObjectScan
  import opened ObjectShift
  import opened ConfigEdit
  import opened ConfigSplice
  import opened ConfigAppend
  import opened ConfigReplace
  import opened ConfigFind
  import opened ConfigInsert

  datatype Piece = Flat(text: string) | Quoted(text: string) | Opening(bracket: char) | Closing(bracket: char)

  /** Characters that start no comment and no literal. */
  predicate IsPlain(c: char) { c != '/' && c != '"' && c != '\'' && c != '`' }

  predicate IsFlat(text: string) {
    forall k :: 0 <= k < |text| ==> IsPlain(text[k]) && !OpensBracket(text[k]) && !ClosesBracket(text[k])
  }

  predicate Fine(ps: seq<Piece>) {
    forall i :: 0 <= i < |ps| ==> FinePiece(ps[i])
  }

  predicate FinePiece(p: Piece) {
    match p
    case Flat(text) => IsFlat(text)
    case Quoted(_) => true
    case Opening(c) => c == '{' || c == '['
    case Closing(c) => c == '}' || c == ']'
  }

  function WrittenPiece(p: Piece): string {
    match p
    case Flat(text) => text
    case Quoted(text) => JsonString(text)
    case Opening(c) => [c]
    case Closing(c) => [c]
  }

  function Written(ps: seq<Piece>): string {
    if ps == [] then "" else WrittenPiece(ps[0]) + Written(ps[1..])
  }

  function LabelsPiece(p: Piece): (r: seq<Kind>)
    ensures |r| == |WrittenPiece(p)|
  {
    Fill(|WrittenPiece(p)|, if p.Quoted? then Literal else Code)
  }

  function Labels(ps: seq<Piece>): (r: seq<Kind>)
    ensures |r| == |Written(ps)|
  {
    if ps == [] then [] else LabelsPiece(ps[0]) + Labels(ps[1..])
  }

  /** The nesting after the pieces; none when they close too much, or separate outside brackets. */
  function Depth(ps: seq<Piece>, d: nat): Option<nat> {
    if ps == [] then Some(d)
    else
      match ps[0]
      case Flat(text) => if d == 0 && ',' in text then None else Depth(ps[1..], d)
      case Quoted(_) => Depth(ps[1..], d)
      case Opening(_) => Depth(ps[1..], d + 1)
      case Closing(_) => if d == 0 then None else Depth(ps[1..], d - 1)
  }

  predicate EndsField(text: string) { |text| >= 2 && text[|text| - 2] == ':' && text[|text| - 1] == ' ' }

  /** Every brace follows a colon and a space, or comes first where it may. */
  predicate Spaced(ps: seq<Piece>, ready: bool) {
    ps == [] ||
    match ps[0]
    case Flat(text) => Spaced(ps[1..], EndsField(text))
    case Opening(c) => (c == '{' ==> ready) && Spaced(ps[1..], false)
    case _ => Spaced(ps[1..], false)
  }

  // ---------------------------------------------------------------------------
  // Pieces put together
  // ---------------------------------------------------------------------------

  lemma {:induction false} Assoc<T>(a: seq<T>, b: seq<T>, c: seq<T>)
    ensures a + (b + c) == a + b + c
  {
  }

  lemma {:induction false} WrittenJoin(a: seq<Piece>, b: seq<Piece>)
    ensures Written(a + b) == Written(a) + Written(b) && Labels(a + b) == Labels(a) + Labels(b)
    decreases |a|
  {
    hide WrittenPiece, LabelsPiece;
    if a == [] {
      assert a + b == b;
    } else {
      assert (a + b)[1..] == a[1..] + b;
      WrittenJoin(a[1..], b);
      Assoc(WrittenPiece(a[0]), Written(a[1..]), Written(b));
      Assoc(LabelsPiece(a[0]), Labels(a[1..]), Labels(b));
    }
  }

  lemma {:induction false} DepthJoin(a: seq<Piece>, b: seq<Piece>, d: nat)
    ensures Depth(a + b, d) == match Depth(a, d) case None => None case Some(e) => Depth(b, e)
    decreases |a|
  {
    if a == [] {
      assert a + b == b;
    } else {
      assert (a + b)[1..] == a[1..] + b;
      match a[0]
      case Flat(_) => DepthJoin(a[1..], b, d);
      case Quoted(_) => DepthJoin(a[1..], b, d);
      case Opening(_) => DepthJoin(a[1..], b, d + 1);
      case Closing(_) => if d > 0 { DepthJoin(a[1..], b, d - 1); }
    }
  }

  /** Pieces behind others: what matters is whether those end a field name. */
  lemma {:induction false} SpacedJoin(a: seq<Piece>, b: seq<Piece>, ready: bool, ready': bool)
    requires Spaced(a, ready) && Spaced(b, ready') && (ready' ==> a != [] && a[|a| - 1].Flat? && EndsField(a[|a| - 1].text))
    ensures Spaced(a + b, ready)
    decreases |a|
  {
    if a == [] {
      assert a + b == b;
      if ready && !ready' { SpacedMore(b); }
    } else {
      assert (a + b)[1..] == a[1..] + b;
      var next := a[0].Flat? && EndsField(a[0].text);
      if |a| == 1 {
        assert a[1..] + b == b;
        if next && !ready' { SpacedMore(b); }
      } else {
        SpacedJoin(a[1..], b, next, ready');
      }
    }
  }

  lemma {:induction false} SpacedMore(b: seq<Piece>)
    requires Spaced(b, false)
    ensures Spaced(b, true)
  {
  }

  // ---------------------------------------------------------------------------
  // Reading pieces
  // ---------------------------------------------------------------------------

  lemma {:induction false} ReadsPlainText(s2: string, pre: seq<Kind>, n: nat)
    requires |pre| + n <= |s2| && forall k :: |pre| <= k < |pre| + n ==> IsPlain(s2[k])
    ensures ReadsOn(s2, pre, pre + Fill(n, Code))
    decreases n
  {
    hide Step, RunTo;
    if n == 0 {
      assert pre + Fill(0, Code) == pre;
      ReadsNothing(s2, pre);
    } else {
      ReadsChar(s2, pre);
      ReadsPlainText(s2, pre + [Code], n - 1);
      assert pre + [Code] + Fill(n - 1, Code) == pre + Fill(n, Code);
      ReadsOnTrans(s2, pre, pre + [Code], pre + Fill(n, Code));
    }
  }

  /** An escaped character does not end a string, and neither does one that needs no escape. */
  lemma {:induction false} JsonCharPasses(c: char, s2: string, i: nat)
    requires Agree(JsonChar(c), s2, i, 0, |JsonChar(c)|)
    ensures StringEnd(s2, i, '"') == StringEnd(s2, i + |JsonChar(c)|, '"')
  {
    var t := JsonChar(c);
    assert t[0] == s2[0 + i];
    if |t| == 6 {
      HexIsPlain(c as int / 16);
      HexIsPlain(c as int % 16);
      assert t[2] == s2[2 + i] && t[3] == s2[3 + i] && t[4] == s2[4 + i] && t[5] == s2[5 + i];
      assert StringEnd(s2, i, '"') == StringEnd(s2, i + 2, '"') == StringEnd(s2, i + 3, '"');
      assert StringEnd(s2, i + 3, '"') == StringEnd(s2, i + 4, '"') == StringEnd(s2, i + 5, '"');
    }
  }

  lemma {:induction false} HexIsPlain(n: nat)
    requires n < 16
    ensures HexDigit(n) != '"' && HexDigit(n) != '\\' && HexDigit(n) != '\n'
  {
  }

  lemma {:induction false} JsonBodyPasses(t: string, s2: string, i: nat)
    requires Agree(JsonBody(t), s2, i, 0, |JsonBody(t)|)
    ensures StringEnd(s2, i, '"') == StringEnd(s2, i + |JsonBody(t)|, '"')
    decreases |t|
  {
    hide StringEnd, JsonChar;
    if t != [] {
      var n, whole := |JsonChar(t[0])|, JsonBody(t);
      AgreeHead(JsonChar(t[0]), JsonBody(t[1..]), s2, i);
      JsonCharPasses(t[0], s2, i);
      JsonBodyPasses(t[1..], s2, i + n);
    }
  }

  /** The parts of a concatenation that stands at `i`. */
  lemma {:induction false} AgreeHead<T(!new)>(a: seq<T>, b: seq<T>, s2: seq<T>, i: nat)
    requires Agree(a + b, s2, i, 0, |a| + |b|)
    ensures Agree(a, s2, i, 0, |a|) && Agree(b, s2, i + |a|, 0, |b|)
  {
    forall k {:trigger a[k]} | 0 <= k < |a| ensures a[k] == s2[k + i] { assert (a + b)[k] == a[k]; }
    forall k {:trigger b[k]} | 0 <= k < |b| ensures b[k] == s2[k + (i + |a|)] { assert (a + b)[k + |a|] == b[k]; }
  }

  lemma {:induction false} ReadsQuoted(t: string, s2: string, pre: seq<Kind>)
    requires Agree(JsonString(t), s2, |pre|, 0, |JsonString(t)|)
    ensures ReadsOn(s2, pre, pre + Fill(|JsonString(t)|, Literal))
  {
    hide StringEnd, JsonBody, OpensRegex;
    var n := |JsonString(t)|;
    var mid := pre + Fill(n, Literal);
    assert JsonString(t) == "\"" + (JsonBody(t) + "\"");
    AgreeHead("\"", JsonBody(t) + "\"", s2, |pre|);
    AgreeHead(JsonBody(t), "\"", s2, |pre| + 1);
    AgreeAt("\"", s2, |pre|, 0, 1, 0);
    AgreeAt("\"", s2, |pre| + n - 1, 0, 1, 0);
    JsonBodyPasses(t, s2, |pre| + 1);
    StringEndsHere(s2, |pre| + n - 1);
    assert pre[..|pre|] == pre;
    assert Step(s2, LexState(pre, [])) == Success(LexState(mid, []));
    assert RunTo(s2, LexState(mid, []), |mid|) == Success(LexState(mid, []));
    AgreePrefix(pre, mid, |pre|);
  }

  lemma {:induction false} StringEndsHere(s: string, i: nat)
    requires At(s, i, '"')
    ensures StringEnd(s, i, '"') == Some(i + 1)
  {
  }

  /** Pieces are read with their labels, wherever they stand. */
  lemma {:induction false} ReadsPieces(ps: seq<Piece>, s2: string, pre: seq<Kind>)
    requires Fine(ps) && Agree(Written(ps), s2, |pre|, 0, |Written(ps)|)
    ensures ReadsOn(s2, pre, pre + Labels(ps))
    decreases |ps|
  {
    hide RunTo, Agree, JsonString, WrittenPiece, LabelsPiece, FinePiece;
    if ps == [] {
      AgreeBounds(Written(ps), s2, |pre|, 0, 0);
      assert pre + [] == pre;
      ReadsNothing(s2, pre);
    } else {
      var p, n := ps[0], |WrittenPiece(ps[0])|;
      AgreeHead(WrittenPiece(p), Written(ps[1..]), s2, |pre|);
      ReadsPiece(p, s2, pre);
      var mid := pre + LabelsPiece(p);
      ReadsPieces(ps[1..], s2, mid);
      Assoc(pre, LabelsPiece(p), Labels(ps[1..]));
      ReadsOnTrans(s2, pre, mid, pre + Labels(ps));
    }
  }

  lemma {:induction false} ReadsPiece(p: Piece, s2: string, pre: seq<Kind>)
    requires FinePiece(p) && Agree(WrittenPiece(p), s2, |pre|, 0, |WrittenPiece(p)|)
    ensures ReadsOn(s2, pre, pre + LabelsPiece(p))
  {
    hide RunTo, Step, JsonString;
    if p.Quoted? {
      ReadsQuoted(p.text, s2, pre);
    } else {
      var t := WrittenPiece(p);
      forall k | |pre| <= k < |pre| + |t| ensures IsPlain(s2[k]) { assert t[k - |pre|] == s2[k - |pre| + |pre|]; }
      ReadsPlainText(s2, pre, |t|);
    }
  }

  /** Pieces are scanned through without an entry. */
  lemma {:induction false} ScanPieces(ps: seq<Piece>, s: string, kinds: seq<Kind>, i: nat, st: ScanState, d: nat)
    requires Fine(ps) && |s| == |kinds| && st.entryStart <= i && Depth(ps, st.depth) == Some(d)
    requires Agree(Written(ps), s, i, 0, |Written(ps)|) && Agree(Labels(ps), kinds, i, 0, |Written(ps)|)
    ensures i + |Written(ps)| <= |s| && ScanTo(s, kinds, i, st, i + |Written(ps)|) == Running(st.(depth := d))
    decreases |ps|
  {
    hide ScanTo, Agree, LabelsPiece, WrittenPiece;
    AgreeBounds(Written(ps), s, i, 0, |Written(ps)|);
    if ps == [] {
      ScanHere(s, kinds, i, st);
    } else {
      var p, n := ps[0], |WrittenPiece(ps[0])|;
      AgreeHead(WrittenPiece(p), Written(ps[1..]), s, i);
      AgreeHead(LabelsPiece(p), Labels(ps[1..]), kinds, i);
      var next := st.(depth := if p.Opening? then st.depth + 1 else if p.Closing? then st.depth - 1 else st.depth);
      ScanPiece(p, s, kinds, i, st, next);
      ScanPieces(ps[1..], s, kinds, i + n, next, d);
      ScanCompose(s, kinds, i, st, i + n, i + |Written(ps)|);
    }
  }

  lemma {:induction false} ScanHere(s: string, kinds: seq<Kind>, i: nat, st: ScanState)
    requires i <= |s| == |kinds| && st.entryStart <= i
    ensures ScanTo(s, kinds, i, st, i) == Running(st)
  {
  }

  lemma {:induction false} ScanPiece(p: Piece, s: string, kinds: seq<Kind>, i: nat, st: ScanState, next: ScanState)
    requires FinePiece(p) && |s| == |kinds| && st.entryStart <= i && i + |WrittenPiece(p)| <= |s|
    requires Agree(WrittenPiece(p), s, i, 0, |WrittenPiece(p)|) && Agree(LabelsPiece(p), kinds, i, 0, |WrittenPiece(p)|)
    requires p.Flat? && st.depth == 0 ==> ',' !in p.text
    requires p.Closing? ==> st.depth > 0
    requires next == st.(depth := if p.Opening? then st.depth + 1 else if p.Closing? then st.depth - 1 else st.depth)
    ensures ScanTo(s, kinds, i, st, i + |WrittenPiece(p)|) == Running(next)
  {
    hide ScanTo, JsonString;
    var n := |WrittenPiece(p)|;
    if p.Flat? || p.Quoted? {
      forall k | i <= k < i + n
        ensures kinds[k] != Code || (!OpensBracket(s[k]) && !ClosesBracket(s[k]) && (s[k] == ',' ==> st.depth > 0))
      {
        assert LabelsPiece(p)[k - i] == kinds[k - i + i];
        assert WrittenPiece(p)[k - i] == s[k - i + i];
        if p.Flat? { assert p.text[k - i] in p.text; }
      }
      ScanQuiet(s, kinds, i, st, i + n);
    } else {
      assert WrittenPiece(p)[0] == s[0 + i] && LabelsPiece(p)[0] == kinds[0 + i];
      ScanOne(s, kinds, i, st);
    }
  }

  /** Literals and characters that neither nest nor separate. */
  lemma {:induction false} ScanQuiet(s: string, kinds: seq<Kind>, i: nat, st: ScanState, till: nat)
    requires i <= till <= |s| == |kinds| && st.entryStart <= i
    requires forall k :: i <= k < till ==>
               kinds[k] != Code || (!OpensBracket(s[k]) && !ClosesBracket(s[k]) && (s[k] == ',' ==> st.depth > 0))
    ensures ScanTo(s, kinds, i, st, till) == Running(st)
    decreases till - i
  {
    hide ReadEntry;
    if i < till { ScanQuiet(s, kinds, i + 1, st, till); }
  }

  // ---------------------------------------------------------------------------
  // No config object in them
  // ---------------------------------------------------------------------------

  /** From a code character on, plain characters are code. */
  lemma {:induction false} LabelsStay(s: string, kinds: seq<Kind>, i: nat, q: nat)
    requires Labelled(s, kinds) && i <= q < |s| && kinds[i] == Code && forall k :: i < k <= q ==> IsPlain(s[k])
    ensures kinds[q] == Code
    decreases q - i
  {
    hide Lex, RunTo, Step;
    if i < q {
      LabelsStay(s, kinds, i, q - 1);
      CodeIsTopLevel(s, kinds, q - 1);
      BoundaryGoesOn(s, kinds, q);
      var e := NextToken(s, TopLevel(kinds, q), kinds);
    }
  }

  /** No parenthesis, and no brace but behind a field name or at `lo`. */
  ghost predicate BracesSpaced(s: string, kinds: seq<Kind>, lo: nat, hi: nat) {
    && hi <= |s| && hi <= |kinds|
    && forall q {:trigger s[q]} :: lo <= q < hi && kinds[q] == Code ==>
         s[q] != '(' && (s[q] == '{' ==> q == lo || (q - 2 >= lo && s[q - 1] == ' ' && s[q - 2] == ':'))
  }

  lemma {:induction false} NoMatchWithin(s: string, kinds: seq<Kind>, lo: nat, hi: nat, i: nat)
    requires Labelled(s, kinds) && |s| == |kinds| && BracesSpaced(s, kinds, lo, hi) && lo <= i < hi
    requires CodeMatch(s, kinds, i) ==> MatchStop(s, i) <= hi
    ensures !CodeMatch(s, kinds, i)
  {
    hide Lex, MatchDefine, MatchExport;
    if CodeMatch(s, kinds, i) {
      MatchHasBracket(s, i);
      StopsAfter(s, i);
      StartsBeforeEnd(s, i);
      var q := MatchStop(s, i) - 1;
      MatchReads(s, i, i);
      forall k | i < k <= q ensures IsPlain(s[k]) { if k < MatchEnd(s, i) { MatchReads(s, i, k); } }
      LabelsStay(s, kinds, i, q);
      assert s[q] == '{' && q - 2 >= lo && s[q - 1] == ' ' && s[q - 2] == ':';
      assert i <= q - 2;
      MatchReads(s, i, q - 2);
      assert false;
    }
  }

  lemma {:induction false} SpacedBraces(ps: seq<Piece>, ready: bool, s: string, kinds: seq<Kind>, i: nat, q: nat)
    requires Fine(ps) && Spaced(ps, ready)
    requires Agree(Written(ps), s, i, 0, |Written(ps)|) && Agree(Labels(ps), kinds, i, 0, |Written(ps)|)
    requires i <= q < i + |Written(ps)| && kinds[q] == Code
    ensures s[q] != '(' && (s[q] == '{' ==> (q == i && ready) || (q - 2 >= i && s[q - 1] == ' ' && s[q - 2] == ':'))
    decreases |ps|
  {
    hide JsonString, LabelsPiece;
    var p := ps[0];
    var t := WrittenPiece(p);
    AgreeHead(t, Written(ps[1..]), s, i);
    AgreeHead(LabelsPiece(p), Labels(ps[1..]), kinds, i);
    if q < i + |t| {
      assert t[q - i] == s[q - i + i] && LabelsPiece(p)[q - i] == kinds[q - i + i];
      PieceLabels(p, q - i);
    } else {
      var next := p.Flat? && EndsField(p.text);
      SpacedBraces(ps[1..], next, s, kinds, i + |t|, q);
      if q == i + |t| && next { assert t[|t| - 2] == s[|t| - 2 + i] && t[|t| - 1] == s[|t| - 1 + i]; }
    }
  }

  lemma {:induction false} PieceLabels(p: Piece, k: nat)
    requires k < |WrittenPiece(p)|
    ensures LabelsPiece(p)[k] == if p.Quoted? then Literal else Code
  {
  }

  // ---------------------------------------------------------------------------
  // A named value
  // ---------------------------------------------------------------------------

  /** A value that reads as one: balanced, with no separator of its own, and no space around it. */
  ghost predicate IsValue(value: seq<Piece>) {
    && Fine(value) && Depth(value, 0) == Some(0) && Spaced(value, true)
    && Written(value) != "" && !IsSpace(Written(value)[0]) && !IsSpace(Written(value)[|Written(value)| - 1])
  }

  function KeyPiece(name: string): Piece { if IsIdentifier(name) then Flat(name) else Quoted(name) }

  /** `name: value`. */
  function Field(name: string, value: seq<Piece>): seq<Piece> { [KeyPiece(name), Flat(": ")] + value }

  /** Whether a rendered key is read back: as an identifier, or as a string without escapes. */
  predicate KeyReads(name: string) { IsIdentifier(name) || '\\' !in JsonBody(name) }

  lemma {:induction false} KeyWritten(name: string)
    ensures WrittenPiece(KeyPiece(name)) == RenderKey(name) && FinePiece(KeyPiece(name)) && RenderKey(name) != ""
    ensures !IsSpace(RenderKey(name)[0]) && (IsIdentifier(name) ==> ',' !in name)
  {
    hide JsonBody;
    if IsIdentifier(name) {
      forall k | 0 <= k < |name| ensures IsPlain(name[k]) && !OpensBracket(name[k]) && !ClosesBracket(name[k]) && name[k] != ',' {
        assert IsIdent(name[k]);
      }
      assert IsIdent(name[0]);
    }
  }

  /** Where the parts of a field stand. */
  lemma {:induction false} FieldParts(name: string, value: seq<Piece>)
    ensures var t, k := Written(Field(name, value)), |RenderKey(name)|;
            && t == RenderKey(name) + (": " + Written(value)) && |t| == k + 2 + |Written(value)|
            && t[..k] == RenderKey(name) && t[k] == ':' && t[k + 1] == ' ' && t[k + 2..] == Written(value)
            && (forall i {:trigger t[k + 2 + i]} :: 0 <= i < |Written(value)| ==> t[k + 2 + i] == Written(value)[i])
    ensures var kt, k := Labels(Field(name, value)), |RenderKey(name)|;
            && kt == LabelsPiece(KeyPiece(name)) + (LabelsPiece(Flat(": ")) + Labels(value))
            && kt[k] == Code && kt[k + 1] == Code
            && (forall i :: 0 <= i < k ==> kt[i] == if IsIdentifier(name) then Code else Literal)
  {
    hide Written, Labels, RenderKey, JsonString;
    KeyWritten(name);
    var head := [KeyPiece(name), Flat(": ")];
    WrittenJoin(head, value);
    HeadWritten(KeyPiece(name), Flat(": "));
    assert RenderKey(name) + ": " + Written(value) == RenderKey(name) + (": " + Written(value));
    assert LabelsPiece(KeyPiece(name)) + LabelsPiece(Flat(": ")) + Labels(value)
        == LabelsPiece(KeyPiece(name)) + (LabelsPiece(Flat(": ")) + Labels(value));
  }

  lemma {:induction false} HeadWritten(a: Piece, b: Piece)
    ensures Written([a, b]) == WrittenPiece(a) + WrittenPiece(b) && Labels([a, b]) == LabelsPiece(a) + LabelsPiece(b)
  {
    hide WrittenPiece, LabelsPiece;
    assert [a, b][1..] == [b] && [b][1..] == [];
    assert Written([b]) == WrittenPiece(b) && Labels([b]) == LabelsPiece(b);
  }

  lemma {:induction false} FieldFine(name: string, value: seq<Piece>)
    requires IsValue(value)
    ensures Fine(Field(name, value)) && Depth(Field(name, value), 0) == Some(0) && Spaced(Field(name, value), false)
  {
    hide Depth, Written, WrittenPiece, Spaced;
    KeyWritten(name);
    var head := [KeyPiece(name), Flat(": ")];
    HeadDepth(name);
    DepthJoin(head, value, 0);
    SpacedJoin(head, value, false, true);
  }

  lemma {:induction false} HeadDepth(name: string)
    ensures var head := [KeyPiece(name), Flat(": ")]; Depth(head, 0) == Some(0) && Spaced(head, false) && FinePiece(Flat(": "))
  {
    hide WrittenPiece;
    KeyWritten(name);
    var head := [KeyPiece(name), Flat(": ")];
    assert head[1..] == [Flat(": ")] && [Flat(": ")][1..] == [];
    assert Depth([], 0) == Some(0) && Depth([Flat(": ")], 0) == Some(0);
  }

  /** What the field is read as, when it starts at 0. */
  function FieldEntry(name: string, n: nat): ObjectEntry {
    if KeyReads(name) then ObjectEntry(Some(name), true, 0, n, |RenderKey(name)| + 2, n) else Unkeyed(None, 0, n)
  }

  /** The characters a string is written with as they are. */
  predicate NeedsNoEscape(name: string) { forall k :: 0 <= k < |name| ==> name[k] != '"' && name[k] != '\\' && name[k] >= ' ' }

  /** A key is read back exactly when it is an identifier, or holds no quote, backslash or control character. */
  lemma {:induction false} KeyReadsIff(name: string)
    ensures KeyReads(name) <==> IsIdentifier(name) || NeedsNoEscape(name)
  {
    hide IsIdentifier;
    BodyEscapes(name);
  }

  lemma {:induction false} BodyEscapes(name: string)
    ensures '\\' !in JsonBody(name) <==> NeedsNoEscape(name)
    decreases |name|
  {
    hide JsonChar;
    if name != "" {
      CharEscapes(name[0]);
      BodyEscapes(name[1..]);
      assert forall k :: 1 <= k < |name| ==> name[k] == name[1..][k - 1];
    }
  }

  lemma {:induction false} CharEscapes(c: char)
    ensures '\\' !in JsonChar(c) <==> c != '"' && c != '\\' && c >= ' '
  {
    assert JsonChar(c)[0] == if c == '"' || c == '\\' || c < ' ' then '\\' else c;
  }

  lemma {:induction false} PlainBody(name: string)
    requires '\\' !in JsonBody(name)
    ensures JsonBody(name) == name
  {
    if name != "" {
      var c, rest := JsonChar(name[0]), JsonBody(name[1..]);
      assert c[0] in JsonBody(name);
      assert c == [name[0]];
      forall x | x in rest ensures x in JsonBody(name) {}
      PlainBody(name[1..]);
      assert [name[0]] + name[1..] == name;
    }
  }

  lemma {:induction false} IdentEndAt(s: string, i: nat, e: nat, till: nat)
    requires i <= e < till <= |s| && AllIdent(s, i, e) && !IsIdent(s[e])
    ensures IdentEnd(s, i, till) == e
    decreases e - i
  {
    if i < e {
      assert IsIdent(s[i]);
      IdentEndAt(s, i + 1, e, till);
    }
  }

  lemma {:induction false} LiteralEndAt(kinds: seq<Kind>, i: nat, e: nat, till: nat)
    requires i <= e < till <= |kinds| && (forall k :: i <= k < e ==> kinds[k] == Literal) && kinds[e] != Literal
    ensures LiteralEnd(kinds, i, till) == e
    decreases e - i
  {
    if i < e { LiteralEndAt(kinds, i + 1, e, till); }
  }

  lemma {:induction false} FieldReadKey(name: string, value: seq<Piece>)
    requires Written(value) != ""
    ensures var t, kt, k := Written(Field(name, value)), Labels(Field(name, value)), |RenderKey(name)|;
            ReadKey(t, kt, 0, |t|) == if KeyReads(name) then Some((name, k)) else None
  {
    hide Written, Labels, IdentEnd, LiteralEnd, JsonBody, Field, LabelsPiece, IsIdentifier;
    var t, kt, k := Written(Field(name, value)), Labels(Field(name, value)), |RenderKey(name)|;
    FieldParts(name, value);
    KeyWritten(name);
    assert t[0] == t[..k][0] && kt[0] == if IsIdentifier(name) then Code else Literal;
    if IsIdentifier(name) {
      NameIsIdent(name);
      forall i | 0 <= i < k ensures IsIdent(t[i]) { assert t[..k][i] == t[i]; }
      IdentEndAt(t, 0, k, |t|);
    } else {
      LiteralEndAt(kt, 0, k, |t|);
      assert t[1..k - 1] == t[..k][1..k - 1] == JsonBody(name);
      if '\\' !in JsonBody(name) { PlainBody(name); }
    }
  }

  lemma {:induction false} NameIsIdent(name: string)
    requires IsIdentifier(name)
    ensures RenderKey(name) == name && |name| > 0 && IsIdent(name[0]) && !IsDigit(name[0]) && AllIdent(name, 0, |name|)
  {
  }

  /** On its own a field is one entry, whose value is what was written. */
  lemma {:induction false} FieldReads(name: string, value: seq<Piece>)
    requires IsValue(value)
    ensures var t, kt := Written(Field(name, value)), Labels(Field(name, value));
            && ReadEntry(t, kt, 0, |t|) == Some(FieldEntry(name, |t|))
            && ScanTo(t, kt, 0, ScanState(0, 0, []), |t|) == Running(ScanState(0, 0, []))
            && (KeyReads(name) ==> t[FieldEntry(name, |t|).valueStart..] == Written(value))
  {
    hide Written, Labels, SkipTrivia, TrimTriviaEnd, ReadKey, RenderKey, Field, KeyReads, ScanTo, JsonBody, Fine, Depth, Spaced;
    var t, kt, k := Written(Field(name, value)), Labels(Field(name, value)), |RenderKey(name)|;
    FieldParts(name, value);
    FieldReadKey(name, value);
    KeyWritten(name);
    FieldFine(name, value);
    AgreeSelf(t);
    AgreeSelf(kt);
    ScanPieces(Field(name, value), t, kt, 0, ScanState(0, 0, []), 0);
    var n := |t|;
    assert t[0] == t[..k][0];
    assert t[n - 1] == Written(value)[|Written(value)| - 1] by { assert t[k + 2 + (|Written(value)| - 1)] == t[n - 1]; }
    assert t[k + 2] == Written(value)[0] by { assert t[k + 2 + 0] == t[k + 2]; }
    NoComment(Field(name, value), 0);
    NoComment(Field(name, value), n - 1);
    NoComment(Field(name, value), k + 2);
    SkipTriviaStop(t, kt, 0, 0, n);
    TrimNothing(t, kt, 0, n);
    SkipTriviaStop(t, kt, k, k, n);
    SkipTriviaStop(t, kt, k + 1, k + 2, n);
  }

  lemma {:induction false} AgreeSelf<T(!new)>(s: seq<T>)
    ensures Agree(s, s, 0, 0, |s|)
  {
  }

  lemma {:induction false} NoComment(ps: seq<Piece>, i: nat)
    requires i < |Written(ps)|
    ensures Labels(ps)[i] != Comment
    decreases |ps|
  {
    hide WrittenPiece, LabelsPiece;
    if i < |WrittenPiece(ps[0])| { PieceLabels(ps[0], i); } else { NoComment(ps[1..], i - |WrittenPiece(ps[0])|); }
  }

  lemma {:induction false} MovedTo(t: string, kt: seq<Kind>, e: Option<ObjectEntry>, s: string, kinds: seq<Kind>,
                                   p: nat, q: nat, m: nat, acc: seq<ObjectEntry>)
    requires |t| == |kt| && |s| == |kinds| && q == p + |t| && m <= p && Same(t, kt, s, kinds, p, 0, |t|)
    requires ReadEntry(t, kt, 0, |t|) == e && ScanTo(t, kt, 0, ScanState(0, 0, []), |t|) == Running(ScanState(0, 0, []))
    ensures q <= |s| && ReadEntry(s, kinds, p, q) == MoveOption(e, p)
    ensures ScanTo(s, kinds, p, ScanState(0, m, acc), q) == Running(ScanState(0, m, acc))
  {
    hide ReadEntry, ScanTo, Agree;
    AgreeBounds(t, s, p, 0, |t|);
    ReadEntryShift(t, kt, s, kinds, p, 0, |t|);
    SegmentShift(t, kt, s, kinds, p, 0, |t|, ScanState(0, 0, []), ScanState(0, m, acc), 0);
  }

  /** A field standing at `[p, q)` in a labelled text, behind trivia from `m` on: the entry of its segment. */
  lemma {:induction false} FieldAt(name: string, value: seq<Piece>, s: string, kinds: seq<Kind>, m: nat, p: nat,
                                   q: nat, acc: seq<ObjectEntry>)
    requires IsValue(value) && |s| == |kinds| && m <= p && AllTrivia(s, kinds, m, p)
    requires var t := Written(Field(name, value));
             q == p + |t| && Agree(t, s, p, 0, |t|) && Agree(Labels(Field(name, value)), kinds, p, 0, |t|)
    ensures q <= |s| && ReadEntry(s, kinds, m, q) == Some(Move(FieldEntry(name, |Written(Field(name, value))|), p))
    ensures ScanTo(s, kinds, m, ScanState(0, m, acc), q) == Running(ScanState(0, m, acc))
  {
    hide Written, Labels, ReadEntry, ScanTo, FieldEntry, Agree, AllTrivia, Field, IsValue;
    var t, kt := Written(Field(name, value)), Labels(Field(name, value));
    FieldReads(name, value);
    MovedTo(t, kt, Some(FieldEntry(name, |t|)), s, kinds, p, q, m, acc);
    AllTriviaNothing(s, kinds, q);
    ReadEntryWithin(s, kinds, m, p, q, q);
    ScanTrivia(s, kinds, m, ScanState(0, m, acc), p);
    ScanCompose(s, kinds, m, ScanState(0, m, acc), p, q);
  }

  // ---------------------------------------------------------------------------
  // A line, and a container
  // ---------------------------------------------------------------------------

  /** The line that declares a field. */
  function Line(name: string, value: seq<Piece>): string { Written(Field(name, value)) + "," }

  lemma {:induction false} FlatSpace(text: string)
    requires forall k :: 0 <= k < |text| ==> IsSpace(text[k])
    ensures IsFlat(text) && ',' !in text && IsFlat("," + text)
  {
    forall k | 0 <= k < |text| ensures IsPlain(text[k]) && !OpensBracket(text[k]) && !ClosesBracket(text[k]) && text[k] != ',' {
      assert IsSpace(text[k]);
    }
  }

  /** The pieces of a field between `before` and `after`. */
  lemma {:induction false} Between(before: string, field: seq<Piece>, after: string)
    ensures var ps := [Flat(before)] + field + [Flat(after)];
            && Written(ps) == before + Written(field) + after
            && Labels(ps) == Fill(|before|, Code) + Labels(field) + Fill(|after|, Code)
  {
    OneWritten(before);
    OneWritten(after);
    WrittenJoin([Flat(before)], field);
    WrittenJoin([Flat(before)] + field, [Flat(after)]);
  }

  lemma {:induction false} OneWritten(text: string)
    ensures Written([Flat(text)]) == text && Labels([Flat(text)]) == Fill(|text|, Code)
  {
    assert [Flat(text)][1..] == [];
    assert Written([]) == "" && Labels([]) == [];
  }

  lemma {:induction false} PiecesLex(ps: seq<Piece>)
    requires Fine(ps)
    ensures Lex(Written(ps)) == Success(Labels(ps))
  {
    hide Step, Written, Labels, Fine;
    AgreeSelf(Written(ps));
    ReadsPieces(ps, Written(ps), []);
    assert [] + Labels(ps) == Labels(ps);
  }

  lemma {:induction false} BetweenFine(before: string, field: seq<Piece>, after: string)
    requires Fine(field) && IsFlat(before) && IsFlat(after) && Spaced(field, false)
    ensures Fine([Flat(before)] + field + [Flat(after)]) && Spaced([Flat(before)] + field + [Flat(after)], false)
  {
    hide Spaced, IsFlat;
    assert Spaced([Flat(before)], false) && Spaced([Flat(after)], false) by { OneSpaced(before); OneSpaced(after); }
    SpacedJoin([Flat(before)], field, false, false);
    SpacedJoin([Flat(before)] + field, [Flat(after)], false, false);
  }

  lemma {:induction false} OneSpaced(text: string)
    ensures Spaced([Flat(text)], false)
  {
    assert [Flat(text)][1..] == [];
  }

  /** A field between an indentation and its separator with a line break: the text and its labels. */
  ghost predicate FieldLine(name: string, value: seq<Piece>, n: nat, c: nat, x: string, kx: seq<Kind>) {
    && Labelled(x, kx) && |kx| == |x| && n <= c < |x| && x[c] == ',' && kx[c] == Code && kx[|x| - 1] == Code && x[|x| - 1] == '\n'
    && (forall k :: 0 <= k < n || c < k < |x| ==> IsSpace(x[k])) && BracesSpaced(x, kx, 0, |x|)
    && c == n + |Written(Field(name, value))| && Same(Written(Field(name, value)), Labels(Field(name, value)), x, kx, n, 0, c - n)
  }

  lemma {:induction false} LinePieces(field: seq<Piece>, indent: string, brk: string) returns (x: string, kx: seq<Kind>)
    requires Fine(field) && Spaced(field, false) && IsIndent(indent) && IsEol(brk)
    ensures x == indent + (Written(field) + ",") + brk && Labelled(x, kx) && |kx| == |x| && BracesSpaced(x, kx, 0, |x|)
    ensures kx == Fill(|indent|, Code) + Labels(field) + Fill(|brk| + 1, Code)
  {
    hide Written, Labels, Fine, Spaced, Lex, Agree;
    var after := "," + brk;
    FlatSpace(indent);
    FlatSpace(brk);
    BetweenFine(indent, field, after);
    Between(indent, field, after);
    var ps := [Flat(indent)] + field + [Flat(after)];
    x, kx := Written(ps), Labels(ps);
    assert indent + Written(field) + ("," + brk) == indent + (Written(field) + ",") + brk;
    PiecesLex(ps);
    AgreeSelf(x);
    AgreeSelf(kx);
    forall q {:trigger x[q]} | 0 <= q < |x| && kx[q] == Code
      ensures x[q] != '(' && (x[q] == '{' ==> q == 0 || (q - 2 >= 0 && x[q - 1] == ' ' && x[q - 2] == ':'))
    {
      SpacedBraces(ps, false, x, kx, 0, q);
    }
  }

  lemma {:induction false} LineIsField(name: string, value: seq<Piece>, indent: string, brk: string) returns (x: string, kx: seq<Kind>)
    requires IsValue(value) && IsIndent(indent) && IsEol(brk)
    ensures x == indent + Line(name, value) + brk && FieldLine(name, value, |indent|, |indent| + |Written(Field(name, value))|, x, kx)
  {
    hide Written, Labels, Field, IsValue, Fine, Spaced, Lex, Agree, BracesSpaced;
    var field := Field(name, value);
    var t, n := Written(field), |indent|;
    FieldFine(name, value);
    x, kx := LinePieces(field, indent, brk);
    assert x == indent + t + ("," + brk);
    PartsAgree(indent, t, "," + brk);
    PartsAgree(Fill(n, Code), Labels(field), Fill(|brk| + 1, Code));
  }

  /** The line that declares a field reads as one entry, however it is indented and ended. */
  lemma {:induction false} LineBlock(name: string, value: seq<Piece>, indent: string, brk: string) returns (x: string,
                                     kx: seq<Kind>, entry: ObjectEntry)
    requires IsValue(value) && IsIndent(indent) && IsEol(brk)
    ensures x == indent + Line(name, value) + brk && EntryBlock(x, kx, |indent| + |Line(name, value)|, entry)
    ensures entry == Move(FieldEntry(name, |Written(Field(name, value))|), |indent|)
    ensures FieldLine(name, value, |indent|, |indent| + |Written(Field(name, value))|, x, kx)
  {
    hide Written, Labels, Field, IsValue, FieldEntry, Lex, ScanTo, CodeMatch, Agree, BracesSpaced, AllTrivia;
    x, kx := LineIsField(name, value, indent, brk);
    var n, c := |indent|, |indent| + |Written(Field(name, value))|;
    entry := Move(FieldEntry(name, |Written(Field(name, value))|), n);
    BlockScans(name, value, x, kx, n, c);
    forall i ensures !CodeMatch(x, kx, i) { BlockNoMatch(x, kx, c, i); }
  }

  lemma {:induction false} PartsAgree<T(!new)>(a: seq<T>, b: seq<T>, c: seq<T>)
    ensures var s := a + b + c;
            Agree(a, s, 0, 0, |a|) && Agree(b, s, |a|, 0, |b|) && Agree(c, s, |a| + |b|, 0, |c|)
  {
  }

  lemma {:induction false} BlockScans(name: string, value: seq<Piece>, x: string, kx: seq<Kind>, n: nat, c: nat)
    requires IsValue(value) && |x| == |kx| && n <= c < |x| && x[c] == ',' && kx[c] == Code && kx[|x| - 1] == Code
    requires forall k :: 0 <= k < n || c < k < |x| ==> IsSpace(x[k])
    requires var t := Written(Field(name, value));
             c == n + |t| && Agree(t, x, n, 0, |t|) && Agree(Labels(Field(name, value)), kx, n, 0, |t|)
    ensures AllTrivia(x, kx, c + 1, |x|)
    ensures ScanTo(x, kx, 0, ScanState(0, 0, []), |x|)
         == Running(ScanState(0, c + 1, [Move(FieldEntry(name, |Written(Field(name, value))|), n)]))
  {
    hide Written, Labels, Field, IsValue, FieldEntry, ScanTo, ReadEntry, Agree;
    var st, entry := ScanState(0, 0, []), Move(FieldEntry(name, |Written(Field(name, value))|), n);
    SpacesAreTrivia(x, kx, 0, n);
    SpacesAreTrivia(x, kx, c + 1, |x|);
    FieldAt(name, value, x, kx, 0, n, c, []);
    SeparatorStep(x, kx, c, 0, [], entry);
    ScanOne(x, kx, c, st);
    assert [] + [entry] == [entry];
    var next := ScanState(0, c + 1, [entry]);
    ScanTrivia(x, kx, c + 1, next, |x|);
    ScanCompose(x, kx, 0, st, c, |x|);
    ScanCompose(x, kx, c, st, c + 1, |x|);
  }

  /** Neither before the separator, nor from it on. */
  lemma {:induction false} BlockNoMatch(x: string, kx: seq<Kind>, c: nat, i: int)
    requires Labelled(x, kx) && |x| == |kx| && c < |x| && x[c] == ',' && forall k :: c < k < |x| ==> IsSpace(x[k])
    requires BracesSpaced(x, kx, 0, |x|)
    ensures !CodeMatch(x, kx, i)
  {
    hide Lex, MatchDefine, MatchExport, MatchStop;
    if CodeMatch(x, kx, i) {
      if i >= c {
        NoMatchAtTrivia(x, kx, i);
      } else {
        MatchBefore(x, kx, i, c);
        NoMatchWithin(x, kx, 0, |x|, i);
      }
    }
  }

  // ---------------------------------------------------------------------------
  // The values the editor writes
  // ---------------------------------------------------------------------------

  /** Pieces that keep the depth `d`, and do not start with a brace. */
  ghost predicate Level(ps: seq<Piece>, d: nat) {
    Fine(ps) && Depth(ps, d) == Some(d) && Spaced(ps, false)
  }

  lemma {:induction false} LevelJoin(a: seq<Piece>, b: seq<Piece>, d: nat)
    requires Level(a, d) && Level(b, d)
    ensures Level(a + b, d) && Written(a + b) == Written(a) + Written(b)
  {
    hide Depth, Spaced, Written, FinePiece;
    DepthJoin(a, b, d);
    SpacedJoin(a, b, false, false);
    WrittenJoin(a, b);
  }

  lemma {:induction false} FlatLevel(text: string, d: nat)
    requires IsFlat(text) && (d == 0 ==> ',' !in text)
    ensures Level([Flat(text)], d) && Written([Flat(text)]) == text
  {
    OneWritten(text);
    assert [Flat(text)][1..] == [] && Depth([], d) == Some(d);
  }

  lemma {:induction false} QuotedLevel(text: string, d: nat)
    ensures Level([Quoted(text)], d) && Written([Quoted(text)]) == JsonString(text)
  {
    hide JsonString;
    var q := [Quoted(text)];
    assert q[1..] == [] && Depth([], d) == Some(d) && Written([]) == "" && Spaced([], false) && FinePiece(q[0]);
    assert Depth(q, d) == Some(d) && Spaced(q, false);
  }

  /** A key and its value at some depth. */
  lemma {:induction false} FieldLevel(head: seq<Piece>, value: seq<Piece>, d: nat)
    requires Level(head, d) && head != [] && head[|head| - 1].Flat? && EndsField(head[|head| - 1].text)
    requires Fine(value) && Depth(value, d) == Some(d) && Spaced(value, true)
    ensures Level(head + value, d) && Written(head + value) == Written(head) + Written(value)
  {
    hide Depth, Spaced, Written, FinePiece;
    DepthJoin(head, value, d);
    SpacedJoin(head, value, false, true);
    WrittenJoin(head, value);
  }

  /** Pieces between a pair of brackets. */
  function Bracketed(open: char, inner: seq<Piece>, close: char): seq<Piece> {
    [Opening(open)] + inner + [Closing(close)]
  }

  lemma {:induction false} OnePiece(p: Piece)
    ensures Written([p]) == WrittenPiece(p) && Labels([p]) == LabelsPiece(p)
  {
    hide WrittenPiece, LabelsPiece;
    assert [p][1..] == [] && Written([]) == "" && Labels([]) == [];
  }

  lemma {:induction false} BracketedText(open: char, inner: seq<Piece>, close: char)
    ensures var v := Bracketed(open, inner, close);
            Written(v) == [open] + Written(inner) + [close] && Labels(v) == [Code] + Labels(inner) + [Code]
  {
    hide Written, Labels;
    var head, tail := [Opening(open)], [Closing(close)];
    OnePiece(Opening(open));
    OnePiece(Closing(close));
    WrittenJoin(head, inner);
    WrittenJoin(head + inner, tail);
  }

  lemma {:induction false} BracketedDepth(open: char, inner: seq<Piece>, close: char, d: nat)
    requires Depth(inner, d + 1) == Some(d + 1)
    ensures Depth(Bracketed(open, inner, close), d) == Some(d)
  {
    var head, tail := [Opening(open)], [Closing(close)];
    assert head[1..] == [] && tail[1..] == [];
    assert Depth([], d + 1) == Some(d + 1) && Depth([], d) == Some(d);
    DepthJoin(head, inner, d);
    DepthJoin(head + inner, tail, d);
  }

  lemma {:induction false} BracketedSpaced(open: char, inner: seq<Piece>, close: char, ready: bool)
    requires Spaced(inner, false) && (open == '{' ==> ready)
    ensures Spaced(Bracketed(open, inner, close), ready)
  {
    var head, tail := [Opening(open)], [Closing(close)];
    assert head[1..] == [] && tail[1..] == [];
    assert Spaced(head, ready) && Spaced(tail, false);
    SpacedJoin(head, inner, ready, false);
    SpacedJoin(head + inner, tail, ready, false);
  }

  lemma {:induction false} BracketedIs(open: char, inner: seq<Piece>, close: char, d: nat)
    requires (open == '{' && close == '}') || (open == '[' && close == ']')
    requires Level(inner, d + 1)
    ensures var v := Bracketed(open, inner, close);
            && Fine(v) && Depth(v, d) == Some(d) && Spaced(v, true) && Written(v) == [open] + Written(inner) + [close]
            && (open == '[' ==> Level(v, d)) && IsSpace(open) == IsSpace(close) == false
            && Labels(v) == [Code] + Labels(inner) + [Code]
  {
    hide FinePiece, Written, Labels, Depth, Spaced;
    EndsFine(open, close);
    BracketedText(open, inner, close);
    BracketedDepth(open, inner, close, d);
    BracketedSpaced(open, inner, close, true);
    if open == '[' { BracketedSpaced(open, inner, close, false); }
  }

  lemma {:induction false} EndsFine(open: char, close: char)
    requires (open == '{' && close == '}') || (open == '[' && close == ']')
    ensures FinePiece(Opening(open)) && FinePiece(Closing(close))
  {
  }

  lemma {:induction false} BracketedValue(open: char, inner: seq<Piece>, close: char)
    requires (open == '{' && close == '}') || (open == '[' && close == ']')
    requires Level(inner, 1)
    ensures var v := Bracketed(open, inner, close);
            IsValue(v) && Written(v) == [open] + Written(inner) + [close] && Labels(v) == [Code] + Labels(inner) + [Code]
  {
    hide Written, Depth, Spaced, Fine, Labels;
    BracketedIs(open, inner, close, 0);
    var t := [open] + Written(inner) + [close];
    assert t[0] == open && t[|t| - 1] == close;
  }

  function WordValue(word: string): seq<Piece> { [Flat(word)] }

  lemma {:induction false} WordIsValue(word: string)
    requires word == "true" || word == "false"
    ensures IsValue(WordValue(word)) && Written(WordValue(word)) == word
  {
    FlatLevel(word, 0);
    SpacedMore([Flat(word)]);
  }

  function BucketValue(access: Access): seq<Piece> {
    Bracketed('{', [Flat(" access: ")] + [Quoted(if access == Private then "private" else "public_read")] + [Flat(" ")], '}')
  }

  lemma {:induction false} BucketIsValue(bucket: string, access: Access)
    ensures IsValue(BucketValue(access)) && Line(bucket, BucketValue(access)) == BucketLine(bucket, access)
  {
    hide Level, IsValue, Written, JsonString, RenderKey;
    var word := if access == Private then "private" else "public_read";
    var a, b, c := [Flat(" access: ")], [Quoted(word)], [Flat(" ")];
    FlatLevel(" access: ", 1);
    QuotedLevel(word, 1);
    FlatLevel(" ", 1);
    LevelJoin(a, b, 1);
    LevelJoin(a + b, c, 1);
    BracketedValue('{', a + b + c, '}');
    FieldText(bucket, BucketValue(access));
    BucketText(RenderKey(bucket), JsonString(word));
  }

  lemma {:induction false} BucketText(k: string, j: string)
    ensures k + (": " + (['{'] + (" access: " + j + " ") + ['}'])) + "," == k + ": { access: " + j + " },"
  {
  }

  lemma {:induction false} FieldText(name: string, value: seq<Piece>)
    ensures Written(Field(name, value)) == RenderKey(name) + (": " + Written(value))
  {
    FieldParts(name, value);
  }

  function QuotedItems(items: seq<string>): seq<Piece> {
    if items == [] then []
    else if |items| == 1 then [Quoted(items[0])]
    else [Quoted(items[0])] + [Flat(",")] + QuotedItems(items[1..])
  }

  lemma {:induction false} ItemsLevel(items: seq<string>, d: nat)
    requires d > 0
    ensures Level(QuotedItems(items), d) && Written(QuotedItems(items)) == Joined(JsonStrings(items), ",")
    decreases |items|
  {
    hide Level, JsonString;
    if items == [] {
      NothingLevel(d);
    } else {
      QuotedLevel(items[0], d);
      var rest := JsonStrings(items[1..]);
      assert JsonStrings(items) == [JsonString(items[0])] + rest;
      JsonStringsLength(items);
      if |items| == 1 {
        assert JsonStrings(items) == [JsonString(items[0])];
      } else {
        FlatLevel(",", d);
        ItemsLevel(items[1..], d);
        LevelJoin([Quoted(items[0])], [Flat(",")], d);
        LevelJoin([Quoted(items[0])] + [Flat(",")], QuotedItems(items[1..]), d);
        assert JsonStrings(items)[1..] == rest;
      }
    }
  }

  lemma {:induction false} NothingLevel(d: nat)
    ensures Level([], d) && Written([]) == ""
  {
  }

  lemma {:induction false} JsonStringsLength(items: seq<string>)
    ensures |JsonStrings(items)| == |items|
  {
    if items != [] { JsonStringsLength(items[1..]); }
  }

  function OriginsValue(origins: seq<string>): seq<Piece> { Bracketed('[', QuotedItems(origins), ']') }

  lemma {:induction false} OriginsIsValue(origins: seq<string>)
    ensures IsValue(OriginsValue(origins)) && Written(OriginsValue(origins)) == JsonList(origins)
    ensures Level(OriginsValue(origins), 1)
  {
    hide IsValue, Level;
    ItemsLevel(origins, 1);
    ItemsLevel(origins, 2);
    BracketedValue('[', QuotedItems(origins), ']');
    BracketedIs('[', QuotedItems(origins), ']', 1);
  }

  function RealtimePieces(enabled: bool, origins: Option<seq<string>>): seq<Piece> {
    if enabled && origins.Some? then
      Bracketed('{', [Flat(" allowedOrigins: ")] + OriginsValue(origins.value) + [Flat(" ")], '}')
    else WordValue(if enabled then "true" else "false")
  }

  lemma {:induction false} RealtimeIsValue(enabled: bool, origins: Option<seq<string>>)
    ensures IsValue(RealtimePieces(enabled, origins)) && Written(RealtimePieces(enabled, origins)) == RealtimeValue(enabled, origins)
  {
    hide IsValue, Level, Written, JsonList;
    if enabled && origins.Some? {
      var a, b, c := [Flat(" allowedOrigins: ")], OriginsValue(origins.value), [Flat(" ")];
      FlatLevel(" allowedOrigins: ", 1);
      FlatLevel(" ", 1);
      OriginsIsValue(origins.value);
      LevelJoin(a, b, 1);
      LevelJoin(a + b, c, 1);
      BracketedValue('{', a + b + c, '}');
      OriginsText(JsonList(origins.value));
    } else {
      WordIsValue(if enabled then "true" else "false");
    }
  }

  lemma {:induction false} OriginsText(j: string)
    ensures ['{'] + (" allowedOrigins: " + j + " ") + ['}'] == "{ allowedOrigins: " + j + " }"
  {
  }

  // ---------------------------------------------------------------------------
  // A function
  // ---------------------------------------------------------------------------

  /** Names an `env` object can be written with: without quotes, slashes or brackets. */
  predicate EnvReads(env: seq<string>) { forall i :: 0 <= i < |env| ==> IsFlat(env[i]) }

  function EnvItem(name: string, assertion: string): seq<Piece> {
    [KeyPiece(name)] + [Flat(": process.env." + name + assertion)]
  }

  function EnvPieces(env: seq<string>, assertion: string): seq<Piece> {
    if env == [] then []
    else if |env| == 1 then EnvItem(env[0], assertion)
    else EnvItem(env[0], assertion) + [Flat(", ")] + EnvPieces(env[1..], assertion)
  }

  lemma {:induction false} KeyLevel(name: string, d: nat)
    ensures Level([KeyPiece(name)], d) && Written([KeyPiece(name)]) == RenderKey(name)
  {
    hide Level, JsonString, IsIdentifier;
    KeyWritten(name);
    if IsIdentifier(name) {
      assert IsFlat(name) by { assert FinePiece(KeyPiece(name)); }
      FlatLevel(name, d);
    } else {
      QuotedLevel(name, d);
    }
  }

  lemma {:induction false} EnvItemLevel(name: string, assertion: string, d: nat)
    requires IsFlat(name) && (assertion == "" || assertion == "!") && d > 0
    ensures Level(EnvItem(name, assertion), d)
    ensures Written(EnvItem(name, assertion)) == RenderKey(name) + ": process.env." + name + assertion
  {
    hide Level, Written, RenderKey;
    var text := ": process.env." + name + assertion;
    assert IsFlat(text) by { assert IsFlat(": process.env.") && IsFlat(assertion); }
    KeyLevel(name, d);
    FlatLevel(text, d);
    LevelJoin([KeyPiece(name)], [Flat(text)], d);
    assert RenderKey(name) + (": process.env." + name + assertion) == RenderKey(name) + ": process.env." + name + assertion;
  }

  lemma {:induction false} EnvLevel(env: seq<string>, assertion: string, d: nat)
    requires EnvReads(env) && (assertion == "" || assertion == "!") && d > 0
    ensures Level(EnvPieces(env, assertion), d) && Written(EnvPieces(env, assertion)) == Joined(EnvItems(env, assertion), ", ")
    decreases |env|
  {
    hide Level, IsFlat, RenderKey, Written, EnvItem;
    if env == [] {
      NothingLevel(d);
    } else {
      EnvItemLevel(env[0], assertion, d);
      var item, rest := RenderKey(env[0]) + ": process.env." + env[0] + assertion, EnvItems(env[1..], assertion);
      assert EnvItems(env, assertion) == [item] + rest;
      EnvItemsLength(env, assertion);
      if |env| == 1 {
        assert EnvItems(env, assertion) == [item];
      } else {
        assert IsFlat(", ") by { CommaFlat(); }
        FlatLevel(", ", d);
        EnvLevel(env[1..], assertion, d);
        LevelJoin(EnvItem(env[0], assertion), [Flat(", ")], d);
        LevelJoin(EnvItem(env[0], assertion) + [Flat(", ")], EnvPieces(env[1..], assertion), d);
        assert EnvItems(env, assertion)[1..] == rest;
      }
    }
  }

  lemma {:induction false} CommaFlat()
    ensures IsFlat(", ")
  {
  }

  lemma {:induction false} EnvItemsLength(env: seq<string>, assertion: string)
    ensures |EnvItems(env, assertion)| == |env|
  {
    hide RenderKey;
    if env != [] { EnvItemsLength(env[1..], assertion); }
  }

  /** `, env: { … }`, when there is any. */
  function EnvPart(env: seq<string>, assertion: string): seq<Piece> {
    if env == [] then [] else [Flat(", env: ")] + Bracketed('{', [Flat(" ")] + EnvPieces(env, assertion) + [Flat(" ")], '}')
  }

  function EnvText(env: seq<string>, assertion: string): string {
    if env == [] then "" else ", env: { " + Joined(EnvItems(env, assertion), ", ") + " }"
  }

  lemma {:induction false} EnvAround(j: string)
    ensures ", env: " + (['{'] + (" " + j + " ") + ['}']) == ", env: { " + j + " }"
  {
  }

  lemma {:induction false} EnvObject(env: seq<string>, assertion: string)
    requires EnvReads(env) && (assertion == "" || assertion == "!")
    ensures var value := Bracketed('{', [Flat(" ")] + EnvPieces(env, assertion) + [Flat(" ")], '}');
            && Fine(value) && Depth(value, 1) == Some(1) && Spaced(value, true)
            && Written(value) == ['{'] + (" " + Joined(EnvItems(env, assertion), ", ") + " ") + ['}']
  {
    hide Written, EnvItems, Joined, EnvPieces, Level, Fine, Depth, Spaced, Bracketed, Labels, EnvReads;
    var a, b := [Flat(" ")], EnvPieces(env, assertion);
    FlatLevel(" ", 2);
    EnvLevel(env, assertion, 2);
    LevelJoin(a, b, 2);
    LevelJoin(a + b, a, 2);
    BracketedIs('{', a + b + a, '}', 1);
  }

  lemma {:induction false} EnvPartLevel(env: seq<string>, assertion: string)
    requires EnvReads(env) && (assertion == "" || assertion == "!")
    ensures Level(EnvPart(env, assertion), 1) && Written(EnvPart(env, assertion)) == EnvText(env, assertion)
  {
    hide Written, EnvItems, Joined, EnvPieces, Fine, Depth, Spaced, Bracketed, Labels;
    if env == [] {
      NothingLevel(1);
    } else {
      var value := Bracketed('{', [Flat(" ")] + EnvPieces(env, assertion) + [Flat(" ")], '}');
      EnvObject(env, assertion);
      FlatLevel(", env: ", 1);
      FieldLevel([Flat(", env: ")], value, 1);
      EnvAround(Joined(EnvItems(env, assertion), ", "));
    }
  }

  function FunctionValue(name: string, source: string, env: seq<string>, typescript: bool): seq<Piece> {
    Bracketed('{', [Flat(" name: ")] + [Quoted(name)] + ([Flat(", source: ")] + [Quoted(source)])
                   + (EnvPart(env, if typescript then "!" else "") + [Flat(" ")]), '}')
  }

  lemma {:induction false} QuotedField(head: string, text: string)
    requires IsFlat(head)
    ensures Level([Flat(head)] + [Quoted(text)], 1) && Written([Flat(head)] + [Quoted(text)]) == head + JsonString(text)
  {
    hide Level, Written, JsonString, IsFlat;
    FlatLevel(head, 1);
    QuotedLevel(text, 1);
    LevelJoin([Flat(head)], [Quoted(text)], 1);
  }

  lemma {:induction false} FunctionIsValue(slug: string, name: string, source: string, env: seq<string>, typescript: bool)
    requires EnvReads(env)
    ensures IsValue(FunctionValue(name, source, env, typescript))
    ensures Line(slug, FunctionValue(name, source, env, typescript)) == FunctionLine(slug, name, source, env, typescript)
  {
    hide Level, IsValue, Written, JsonString, RenderKey, Joined, EnvItems, EnvPart, Bracketed, EnvReads, Labels;
    var assertion := if typescript then "!" else "";
    var a, b := [Flat(" name: ")] + [Quoted(name)], [Flat(", source: ")] + [Quoted(source)];
    var c := EnvPart(env, assertion) + [Flat(" ")];
    QuotedField(" name: ", name);
    QuotedField(", source: ", source);
    FlatLevel(" ", 1);
    EnvPartLevel(env, assertion);
    LevelJoin(EnvPart(env, assertion), [Flat(" ")], 1);
    LevelJoin(a, b, 1);
    LevelJoin(a + b, c, 1);
    BracketedValue('{', a + b + c, '}');
    FieldText(slug, FunctionValue(name, source, env, typescript));
    FunctionText(RenderKey(slug), JsonString(name), JsonString(source), EnvText(env, assertion));
  }

  lemma {:induction false} FunctionText(k: string, n: string, s: string, e: string)
    ensures k + (": " + (['{'] + (" name: " + n + (", source: " + s) + (e + " ")) + ['}'])) + ","
         == k + ": { name: " + n + ", source: " + s + e + " },"
  {
    var l := " name: " + n + (", source: " + s) + (e + " ");
    assert l == " name: " + n + ", source: " + s + e + " ";
    assert k + (": " + (['{'] + l + ['}'])) + "," == k + ": {" + l + "},";
  }

  // ---------------------------------------------------------------------------
  // A container with one entry
  // ---------------------------------------------------------------------------

  /** `{`, one field on a line of its own, and `}`. */
  function ContainerValue(eol: string, indent: string, unit: string, name: string, value: seq<Piece>): seq<Piece> {
    Bracketed('{', [Flat(eol + indent + unit)] + Field(name, value) + [Flat("," + eol + indent)], '}')
  }

  lemma {:induction false} DepthUp(ps: seq<Piece>, d: nat)
    requires Depth(ps, d).Some?
    ensures Depth(ps, d + 1) == Some(Depth(ps, d).value + 1)
    decreases |ps|
  {
    if ps != [] {
      match ps[0]
      case Flat(_) => DepthUp(ps[1..], d);
      case Quoted(_) => DepthUp(ps[1..], d);
      case Opening(_) => DepthUp(ps[1..], d + 1);
      case Closing(_) => DepthUp(ps[1..], d - 1);
    }
  }

  lemma {:induction false} IndentIsSpace(eol: string, indent: string, unit: string)
    requires IsEol(eol) && IsIndent(indent) && IsIndent(unit)
    ensures forall k :: 0 <= k < |eol + indent + unit| ==> IsSpace((eol + indent + unit)[k])
    ensures forall k :: 0 <= k < |eol + indent| ==> IsSpace((eol + indent)[k])
  {
  }

  lemma {:induction false} ContainerIsValue(eol: string, indent: string, unit: string, name: string, value: seq<Piece>)
    requires IsValue(value) && IsEol(eol) && IsIndent(indent) && IsIndent(unit)
    ensures var v := ContainerValue(eol, indent, unit, name, value);
            && IsValue(v) && Written(v) == "{" + (eol + indent + unit) + Written(Field(name, value)) + ("," + eol + indent) + "}"
            && Labels(v) == [Code] + Fill(|eol + indent + unit|, Code) + Labels(Field(name, value)) + Fill(|"," + eol + indent|, Code) + [Code]
  {
    hide Level, IsValue, Written, Labels, Field, Depth, Spaced, IsFlat, Fine;
    var pad, rest, f := eol + indent + unit, "," + (eol + indent), Field(name, value);
    assert rest == "," + eol + indent;
    IndentIsSpace(eol, indent, unit);
    FlatSpace(pad);
    FlatSpace(eol + indent);
    FlatLevel(pad, 1);
    FlatLevel(rest, 1);
    FieldFine(name, value);
    DepthUp(f, 0);
    assert Level(f, 1) by { LevelOf(f, 1); }
    LevelJoin([Flat(pad)], f, 1);
    LevelJoin([Flat(pad)] + f, [Flat(rest)], 1);
    Between(pad, f, rest);
    BracketedValue('{', [Flat(pad)] + f + [Flat(rest)], '}');
    Regrouped("{", pad, Written(f), rest, "}");
    Regrouped([Code], Fill(|pad|, Code), Labels(f), Fill(|rest|, Code), [Code]);
  }

  lemma {:induction false} LevelOf(ps: seq<Piece>, d: nat)
    requires Fine(ps) && Depth(ps, d) == Some(d) && Spaced(ps, false)
    ensures Level(ps, d)
  {
  }

  lemma {:induction false} Regrouped<T>(a: seq<T>, b: seq<T>, c: seq<T>, d: seq<T>, e: seq<T>)
    ensures a + (b + c + d) + e == a + b + c + d + e
  {
  }

  /** Where the one entry of a container stands in it. */
  function ContainedAt(eol: string, indent: string, unit: string): nat { 1 + |eol + indent + unit| }

  /** On its own, a container is an object literal with the one entry. */
  lemma {:induction false} ContainerScans(eol: string, indent: string, unit: string, name: string, value: seq<Piece>)
    requires IsValue(value) && IsEol(eol) && IsIndent(indent) && IsIndent(unit)
    ensures var v := ContainerValue(eol, indent, unit, name, value);
            var t, kt, p := Written(v), Labels(v), ContainedAt(eol, indent, unit);
            && |t| > 0 && |kt| == |t|
            && ScanObject(t, kt, 0) == Success(ObjectScan(0, |t| - 1, [Move(FieldEntry(name, |Written(Field(name, value))|), p)]))
            && Same(Written(Field(name, value)), Labels(Field(name, value)), t, kt, p, 0, |Written(Field(name, value))|)
  {
    hide IsValue, Written, Labels, Field, ReadEntry, ScanTo, FieldEntry, Agree, ContainerValue;
    var v, f := ContainerValue(eol, indent, unit, name, value), Field(name, value);
    var t, kt, pad, rest := Written(v), Labels(v), eol + indent + unit, eol + indent;
    ContainerIsValue(eol, indent, unit, name, value);
    IndentIsSpace(eol, indent, unit);
    var w, p := Written(f), 1 + |pad|;
    var q := p + |w|;
    assert t == ("{" + pad) + w + (("," + rest) + "}") by { Parted(pad, w, rest, "," + eol + indent); }
    assert kt == ([Code] + Fill(|pad|, Code)) + Labels(f) + (Fill(|"," + eol + indent|, Code) + [Code]);
    PartsAgree("{" + pad, w, ("," + rest) + "}");
    PartsAgree([Code] + Fill(|pad|, Code), Labels(f), Fill(|"," + eol + indent|, Code) + [Code]);
    ContainerSpaces(t, kt, pad, w, rest, q);
    ContainedScan(name, value, t, kt, p, q);
  }

  lemma {:induction false} Parted(pad: string, w: string, rest: string, end: string)
    requires end == "," + rest
    ensures "{" + pad + w + end + "}" == ("{" + pad) + w + (("," + rest) + "}")
  {
  }

  lemma {:induction false} ContainerSpaces(t: string, kt: seq<Kind>, pad: string, w: string, rest: string, q: nat)
    requires t == ("{" + pad) + w + (("," + rest) + "}") && |kt| == |t| && q == 1 + |pad| + |w|
    requires forall k :: 0 <= k < |pad| ==> IsSpace(pad[k])
    requires forall k :: 0 <= k < |rest| ==> IsSpace(rest[k])
    ensures t[0] == '{' && q + 1 < |t| && t[q] == ',' && t[|t| - 1] == '}'
    ensures AllTrivia(t, kt, 1, 1 + |pad|) && AllTrivia(t, kt, q + 1, |t| - 1)
  {
    assert t[q + 1..|t| - 1] == rest;
    forall k | 1 <= k < 1 + |pad| ensures IsTrivia(t, kt, k) { assert t[k] == pad[k - 1]; }
    forall k | q + 1 <= k < |t| - 1 ensures IsTrivia(t, kt, k) { assert t[k] == t[q + 1..|t| - 1][k - q - 1]; }
  }

  lemma {:induction false} ContainedScan(name: string, value: seq<Piece>, t: string, kt: seq<Kind>, p: nat, q: nat)
    requires IsValue(value) && 1 <= p <= q < |t| - 1 && |kt| == |t| && t[0] == '{' && kt[0] == Code && t[q] == ',' && kt[q] == Code
    requires t[|t| - 1] == '}' && kt[|t| - 1] == Code && AllTrivia(t, kt, 1, p) && AllTrivia(t, kt, q + 1, |t| - 1)
    requires var f := Field(name, value); q == p + |Written(f)| && Same(Written(f), Labels(f), t, kt, p, 0, |Written(f)|)
    ensures ScanObject(t, kt, 0) == Success(ObjectScan(0, |t| - 1, [Move(FieldEntry(name, |Written(Field(name, value))|), p)]))
  {
    hide IsValue, Written, Labels, Field, ReadEntry, ScanTo, FieldEntry, Agree, AllTrivia;
    var entry := Move(FieldEntry(name, |Written(Field(name, value))|), p);
    FieldAt(name, value, t, kt, 1, p, q, []);
    SeparatorStep(t, kt, q, 1, [], entry);
    ScanOne(t, kt, q, ScanState(0, 1, []));
    assert [] + [entry] == [entry];
    ScanClose(t, kt, q + 1, |t| - 1, [entry]);
    ScanCompose(t, kt, 1, ScanState(0, 1, []), q, |t|);
    ScanCompose(t, kt, q, ScanState(0, 1, []), q + 1, |t|);
  }

  /** The three lines of a container are the line that declares it. */
  lemma {:induction false} ContainerLines(container: string, eol: string, indent: string, unit: string, name: string, value: seq<Piece>)
    requires IsIdentifier(container) && IsValue(value) && IsEol(eol) && IsIndent(indent) && IsIndent(unit)
    ensures JoinedLines([container + ": {", unit + Line(name, value), "},"], indent, eol)
         == indent + Line(container, ContainerValue(eol, indent, unit, name, value))
  {
    hide IsValue, Written, Field, IsIdentifier, ContainerValue;
    var v, w := ContainerValue(eol, indent, unit, name, value), Written(Field(name, value));
    ContainerIsValue(eol, indent, unit, name, value);
    NameIsIdent(container);
    FieldText(container, v);
    var a, b, c := container + ": {", unit + Line(name, value), "},";
    assert [a, b, c][1..] == [b, c] && [b, c][1..] == [c];
    assert JoinedLines([c], indent, eol) == indent + c;
    assert JoinedLines([b, c], indent, eol) == indent + b + eol + (indent + c);
    ThreeLines(container, indent, eol, unit, w);
  }

  lemma {:induction false} ThreeLines(container: string, indent: string, eol: string, unit: string, w: string)
    ensures indent + (container + ": {") + eol + (indent + (unit + (w + ",")) + eol + (indent + "},"))
         == indent + ((container + (": " + ("{" + (eol + indent + unit) + w + ("," + eol + indent) + "}"))) + ",")
  {
    var l, r := indent + (container + ": {") + eol + (indent + (unit + (w + ",")) + eol + (indent + "},")),
                indent + ((container + (": " + ("{" + (eol + indent + unit) + w + ("," + eol + indent) + "}"))) + ",");
    assert l == indent + container + ": {" + eol + indent + unit + w + "," + eol + indent + "},";
    assert r == indent + container + ": {" + eol + indent + unit + w + "," + eol + indent + "},";
  }

  lemma {:induction false} LineReadsAsOne(name: string, value: seq<Piece>, eol: string)
    requires IsValue(value)
    ensures ReadsAsOne([Line(name, value)], eol)
  {
    hide IsValue, EntryBlock, IsIndent, FieldEntry, FieldLine, Line;
    var lines := [Line(name, value)];
    forall indent, brk | IsIndent(indent) && IsEol(brk) ensures BlockReads(lines, indent, eol, brk) {
      var x, kx, entry := LineBlock(name, value, indent, brk);
      assert x == JoinedLines(lines, indent, eol) + brk;
      assert EntryBlock(x, kx, |indent| + |Line(name, value)|, entry);
    }
  }

  lemma {:induction false} ContainerReadsAsOne(container: string, name: string, value: seq<Piece>, unit: string, eol: string)
    requires IsIdentifier(container) && IsValue(value) && IsIndent(unit) && IsEol(eol)
    ensures ReadsAsOne([container + ": {", unit + Line(name, value), "},"], eol)
  {
    hide IsValue, EntryBlock, IsIndent, FieldEntry, FieldLine, Line, JoinedLines, ContainerValue;
    var lines := [container + ": {", unit + Line(name, value), "},"];
    forall indent, brk | IsIndent(indent) && IsEol(brk) ensures BlockReads(lines, indent, eol, brk) {
      var v := ContainerValue(eol, indent, unit, name, value);
      ContainerIsValue(eol, indent, unit, name, value);
      ContainerLines(container, eol, indent, unit, name, value);
      var x, kx, entry := LineBlock(container, v, indent, brk);
      assert x == JoinedLines(lines, indent, eol) + brk;
      assert EntryBlock(x, kx, |indent| + |Line(container, v)|, entry);
    }
  }
}

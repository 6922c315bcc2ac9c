/**
 * packages/cli/src/human_table.ts in terms of characters and blanks: which characters take two
 * cells or none, which escape sequences take none, and what stands in a truncated or padded cell.
 */
module TableCells {
  import opened Wrappers
  import opened Text
  import opened HumanTable
  import opened Trimming

  // ---------------------------------------------------------------------------
  // Characters
  // ---------------------------------------------------------------------------

  predicate WideSymbol(code: int) {
    || 0x1100 <= code <= 0x115f || 0x231a <= code <= 0x231b || 0x2329 <= code <= 0x232a || 0x23e9 <= code <= 0x23ec
    || code == 0x23f0 || code == 0x23f3 || 0x25fd <= code <= 0x25fe || 0x2614 <= code <= 0x2615
  }

  predicate WideSign(code: int) {
    || 0x2648 <= code <= 0x2653 || code == 0x267f || code == 0x2693 || code == 0x26a1
    || 0x26aa <= code <= 0x26ab || 0x26bd <= code <= 0x26be || 0x26c4 <= code <= 0x26c5 || code == 0x26ce
  }

  predicate WidePicture(code: int) {
    || code == 0x26d4 || code == 0x26ea || 0x26f2 <= code <= 0x26f3 || code == 0x26f5
    || code == 0x26fa || code == 0x26fd || code == 0x2705 || 0x270a <= code <= 0x270b
  }

  predicate WideDingbat(code: int) {
    || code == 0x2728 || code == 0x274c || code == 0x274e || 0x2753 <= code <= 0x2755
    || code == 0x2757 || 0x2795 <= code <= 0x2797 || code == 0x27b0 || code == 0x27bf
  }

  predicate WideScript(code: int) {
    || 0x2b1b <= code <= 0x2b1c || code == 0x2b50 || code == 0x2b55 || 0x2e80 <= code <= 0x303e
    || 0x3040 <= code <= 0xa4cf || 0xa960 <= code <= 0xa97f || 0xac00 <= code <= 0xd7a3 || 0xd7b0 <= code <= 0xd7ff
  }

  predicate WidePlane(code: int) {
    || 0xf900 <= code <= 0xfaff || 0xfe10 <= code <= 0xfe19 || 0xfe30 <= code <= 0xfe6f || 0xff00 <= code <= 0xff60
    || 0xffe0 <= code <= 0xffe6 || 0x1f000 <= code <= 0x1faff || 0x20000 <= code <= 0x2fffd || 0x30000 <= code <= 0x3fffd
  }

  predicate IsWide(code: int) {
    || WideSymbol(code) || WideSign(code) || WidePicture(code)
    || WideDingbat(code) || WideScript(code) || WidePlane(code)
  }

  predicate InRange(r: Range, code: int) { r.first <= code <= r.last }

  lemma {:induction false} OfEight(table: seq<Range>, code: int)
    requires |table| == 8
    ensures InTable(table, code) <==>
              || InRange(table[0], code) || InRange(table[1], code) || InRange(table[2], code) || InRange(table[3], code)
              || InRange(table[4], code) || InRange(table[5], code) || InRange(table[6], code) || InRange(table[7], code)
  {
  }

  lemma {:induction false} PartA(code: int)
    ensures InTable(WIDE_A, code) <==> WideSymbol(code)
  {
    hide InTable;
    OfEight(WIDE_A, code);
  }

  lemma {:induction false} PartB(code: int)
    ensures InTable(WIDE_B, code) <==> WideSign(code)
  {
    hide InTable;
    OfEight(WIDE_B, code);
  }

  lemma {:induction false} PartC(code: int)
    ensures InTable(WIDE_C, code) <==> WidePicture(code)
  {
    hide InTable;
    OfEight(WIDE_C, code);
  }

  lemma {:induction false} PartD(code: int)
    ensures InTable(WIDE_D, code) <==> WideDingbat(code)
  {
    hide InTable;
    OfEight(WIDE_D, code);
  }

  lemma {:induction false} PartE(code: int)
    ensures InTable(WIDE_E, code) <==> WideScript(code)
  {
    hide InTable;
    OfEight(WIDE_E, code);
  }

  lemma {:induction false} PartF(code: int)
    ensures InTable(WIDE_F, code) <==> WidePlane(code)
  {
    hide InTable;
    OfEight(WIDE_F, code);
  }

  lemma {:induction false} InJoined(a: seq<Range>, b: seq<Range>, code: int)
    ensures InTable(a + b, code) <==> InTable(a, code) || InTable(b, code)
  {
    var all := a + b;
    if InTable(a, code) {
      var i :| 0 <= i < |a| && a[i].first <= code <= a[i].last;
      assert all[i] == a[i];
    }
    if InTable(b, code) {
      var i :| 0 <= i < |b| && b[i].first <= code <= b[i].last;
      assert all[|a| + i] == b[i];
    }
  }

  lemma {:induction false} WideIs(code: int)
    ensures InTable(WIDE_RANGES, code) <==> IsWide(code)
  {
    hide InTable, WideSymbol, WideSign, WidePicture, WideDingbat, WideScript, WidePlane;
    PartA(code);
    PartB(code);
    PartC(code);
    PartD(code);
    PartE(code);
    PartF(code);
    InJoined(WIDE_A, WIDE_B, code);
    InJoined(WIDE_A + WIDE_B, WIDE_C, code);
    InJoined(WIDE_A + WIDE_B + WIDE_C, WIDE_D, code);
    InJoined(WIDE_A + WIDE_B + WIDE_C + WIDE_D, WIDE_E, code);
    InJoined(WIDE_A + WIDE_B + WIDE_C + WIDE_D + WIDE_E, WIDE_F, code);
  }

  /** A combining accent takes no cell, a wide character two, any other one. */
  function Cells(c: char): nat {
    if 0x300 <= c as int <= 0x36f then 0 else if IsWide(c as int) then 2 else 1
  }

  /** Each character adds its own cells, wherever it stands. */
  lemma {:induction false} WidthIs(before: string, c: char, after: string)
    ensures PlainWidth("") == 0
    ensures PlainWidth(before + [c] + after) == PlainWidth(before) + Cells(c) + PlainWidth(after)
  {
    hide InTable, IsWide;
    WideIs(c as int);
    PlainJoin(before + [c], after);
    PlainJoin(before, [c]);
    assert [c][..0] == "";
  }

  // ---------------------------------------------------------------------------
  // Escape sequences
  // ---------------------------------------------------------------------------

  /** `s[i..e]` sets a colour or style: ESC, a bracket, digits and semicolons, `m`. */
  predicate IsStyle(s: string, i: nat, e: nat) {
    && i + 3 <= e <= |s| && s[i] as int == 27 && s[i + 1] == '[' && s[e - 1] == 'm'
    && forall k :: i + 2 <= k < e - 1 ==> '0' <= s[k] <= '9' || s[k] == ';'
  }

  ghost predicate Styled(s: string, k: nat) { exists i: nat, e: nat :: IsStyle(s, i, e) && i <= k < e }

  /** The characters from `i` on that belong to no such sequence. */
  ghost function Plain(s: string, i: nat): string
    decreases |s| - i
  {
    if i >= |s| then "" else (if Styled(s, i) then "" else [s[i]]) + Plain(s, i + 1)
  }

  lemma {:induction false} ParamsReach(s: string, i: nat, e: nat)
    requires i <= e < |s| && !(IsDigit(s[e]) || s[e] == ';')
    requires forall k :: i <= k < e ==> IsDigit(s[k]) || s[k] == ';'
    ensures ParamsEnd(s, i) == e
    decreases e - i
  {
    if i < e { ParamsReach(s, i + 1, e); }
  }

  lemma {:induction false} ParamsAre(s: string, i: nat)
    requires i <= |s|
    ensures forall k :: i <= k < ParamsEnd(s, i) ==> IsDigit(s[k]) || s[k] == ';'
    decreases |s| - i
  {
    if i < |s| { ParamsAre(s, i + 1); }
  }

  lemma {:induction false} AnsiIs(s: string, e: nat)
    ensures AnsiEnd(s) == Some(e) <==> IsStyle(s, 0, e)
  {
    if |s| >= 2 { ParamsAre(s, 2); }
    if IsStyle(s, 0, e) { ParamsReach(s, 2, e - 1); }
  }

  lemma {:induction false} StyleMoved(s: string, i: nat, n: nat)
    requires i <= |s|
    ensures IsStyle(s[i..], 0, n) <==> IsStyle(s, i, i + n)
  {
    var t := s[i..];
    if IsStyle(t, 0, n) {
      forall k | i + 2 <= k < i + n - 1 ensures '0' <= s[k] <= '9' || s[k] == ';' { assert t[k - i] == s[k]; }
    }
  }

  /** Behind its ESC a sequence holds no other one, and its only `m` is its last character. */
  lemma {:induction false} Inside(s: string, i: nat, e: nat)
    requires IsStyle(s, i, e)
    ensures forall k :: i < k < e ==> s[k] as int != 27 && (k < e - 1 ==> s[k] != 'm')
  {
    forall k | i < k < e ensures s[k] as int != 27 && (k < e - 1 ==> s[k] != 'm') {
      assert k == i + 1 || k == e - 1 || '0' <= s[k] <= '9' || s[k] == ';';
    }
  }

  /** Sequences do not overlap. */
  lemma {:induction false} StylesApart(s: string, i: nat, e: nat, a: nat, z: nat)
    requires IsStyle(s, i, e) && IsStyle(s, a, z)
    ensures (a == i && z == e) || z <= i || e <= a
  {
    Inside(s, i, e);
    Inside(s, a, z);
  }

  lemma {:induction false} StyleSkipped(s: string, i: nat, e: nat, k: nat)
    requires IsStyle(s, i, e) && i <= k <= e
    ensures Plain(s, k) == Plain(s, e)
    decreases e - k
  {
    if k < e {
      assert Styled(s, k);
      StyleSkipped(s, i, e, k + 1);
    }
  }

  /** No sequence reaches over `i`. */
  ghost predicate Between(s: string, i: nat) { forall a: nat, z: nat :: IsStyle(s, a, z) ==> z <= i || i <= a }

  lemma {:induction false} StripFrom(s: string, i: nat)
    requires i <= |s| && Between(s, i)
    ensures StripAnsi(s[i..]) == Plain(s, i)
    decreases |s| - i
  {
    hide IsStyle, AnsiEnd;
    if i < |s| {
      match AnsiEnd(s[i..]) {
        case Some(n) =>
          AnsiIs(s[i..], n);
          StyleMoved(s, i, n);
          StyleSkipped(s, i, i + n, i);
          forall a: nat, z: nat | IsStyle(s, a, z) ensures z <= i + n || i + n <= a { StylesApart(s, i, i + n, a, z); }
          assert s[i..][n..] == s[i + n..];
          StripFrom(s, i + n);
        case None =>
          NoStyle(s, i);
          assert s[i..][1..] == s[i + 1..];
          StripFrom(s, i + 1);
      }
    }
  }

  lemma {:induction false} NoStyle(s: string, i: nat)
    requires i < |s| && Between(s, i) && AnsiEnd(s[i..]).None?
    ensures !Styled(s, i) && Between(s, i + 1)
  {
    hide IsStyle, AnsiEnd;
    forall a: nat, z: nat | IsStyle(s, a, z) ensures a != i && (z <= i + 1 || i + 1 <= a) && !(a <= i < z) {
      if a == i {
        LongEnough(s, i, z);
        AnsiIs(s[i..], z - i);
        StyleMoved(s, i, z - i);
      }
    }
  }

  lemma {:induction false} LongEnough(s: string, i: nat, e: nat)
    requires IsStyle(s, i, e)
    ensures i + 3 <= e <= |s|
  {
  }

  /** Stripping takes out exactly the characters of colour and style sequences. */
  lemma {:induction false} StripIs(s: string)
    ensures StripAnsi(s) == Plain(s, 0)
  {
    hide IsStyle;
    assert s[0..] == s;
    StripFrom(s, 0);
  }

  // ---------------------------------------------------------------------------
  // Cells of a table
  // ---------------------------------------------------------------------------

  /**
   * What is left of a text that is too wide: its longest start without styles that leaves three
   * cells, and three dots; or as many dots as there are cells.
   */
  lemma {:induction false} TruncateIs(s: string, max: int) returns (k: nat)
    ensures var plain := Plain(s, 0);
            && (max <= 0 ==> TruncateTo(s, max) == "")
            && (max > 0 && PlainWidth(plain) <= max ==> TruncateTo(s, max) == s)
            && (0 < max <= 3 && PlainWidth(plain) > max ==> TruncateTo(s, max) == ['.', '.', '.'][..max])
            && (max > 3 && PlainWidth(plain) > max ==>
                  && k < |plain| && TruncateTo(s, max) == plain[..k] + "..."
                  && PlainWidth(plain[..k]) <= max - 3 < PlainWidth(plain[..k + 1]))
  {
    hide PlainWidth, StripAnsi, Plain;
    StripIs(s);
    k := 0;
    if max > 3 && DisplayWidth(s) > max {
      var plain := StripAnsi(s);
      AsciiWidth("");
      assert plain[..0] == "" && plain[..|plain|] == plain;
      k := Fitting(plain, max - 3, 0);
    }
  }

  /** A padded text is the truncated one and blanks. */
  lemma {:induction false} PadIs(s: string, width: nat) returns (blanks: string)
    ensures PadEndWidth(s, width) == TruncateTo(s, width) + blanks
    ensures |blanks| == width - DisplayWidth(TruncateTo(s, width)) && forall k :: 0 <= k < |blanks| ==> blanks[k] == ' '
  {
    hide DisplayWidth, TruncateTo;
    TruncateFits(s, width);
    blanks := Spaces(width - DisplayWidth(TruncateTo(s, width)));
    assert TruncateTo(s, width) + "" == TruncateTo(s, width);
  }

  lemma {:induction false} WidestIs(rows: seq<seq<string>>, i: nat) returns (k: nat)
    ensures if k < |rows| then WidestCell(rows, i) == DisplayWidth(Cell(rows[k], i)) else WidestCell(rows, i) == 0
    decreases |rows|
  {
    hide DisplayWidth;
    if rows == [] {
      k := 0;
    } else {
      k := WidestIs(rows[1..], i);
      k := if DisplayWidth(Cell(rows[0], i)) >= WidestCell(rows[1..], i) then 0 else k + 1;
    }
  }

  ghost predicate Holds(headers: seq<string>, rows: seq<seq<string>>, i: nat, text: string) {
    (i < |headers| && text == headers[i]) || exists k :: 0 <= k < |rows| && text == if i < |rows[k]| then rows[k][i] else ""
  }

  /** A column is as wide as the widest of its header and cells: none is wider, and one is as wide. */
  lemma {:induction false} NaturalIs(headers: seq<string>, rows: seq<seq<string>>, i: nat) returns (widest: string)
    requires i < |headers|
    ensures Holds(headers, rows, i, widest) && NaturalWidth(headers, rows, i) == DisplayWidth(widest)
    ensures forall text :: Holds(headers, rows, i, text) ==> DisplayWidth(text) <= NaturalWidth(headers, rows, i)
  {
    hide DisplayWidth;
    var k := WidestIs(rows, i);
    widest := if DisplayWidth(headers[i]) >= WidestCell(rows, i) then headers[i] else Cell(rows[k], i);
    forall text | Holds(headers, rows, i, text) ensures DisplayWidth(text) <= NaturalWidth(headers, rows, i) {
      if text != headers[i] {
        var k :| 0 <= k < |rows| && text == if i < |rows[k]| then rows[k][i] else "";
        WidestFits(rows, i, k);
      }
    }
  }

  /** In front of a column stand the cells before it, each cut to its width, filled up, and two blanks. */
  lemma {:induction false} LeadingIs(cells: seq<string>, widths: seq<nat>, i: nat) returns (blanks: string)
    requires i < |cells|
    ensures Leading(cells, widths, 0) == "" && Offset(widths, 0) == 0
    ensures var width := if i < |widths| then widths[i] else 0;
            && Leading(cells, widths, i + 1) == Leading(cells, widths, i) + TruncateTo(cells[i], width) + blanks
            && |blanks| == width - DisplayWidth(TruncateTo(cells[i], width)) + 2
            && (forall k :: 0 <= k < |blanks| ==> blanks[k] == ' ')
            && Offset(widths, i + 1) == Offset(widths, i) + width + 2
  {
    hide DisplayWidth, TruncateTo, PadEndWidth;
    var width := WidthAt(widths, i);
    var filling := PadIs(cells[i], width);
    blanks := filling + Spaces(2);
    Regrouped(Leading(cells, widths, i), TruncateTo(cells[i], width), filling, Spaces(2));
  }

  lemma {:induction false} Regrouped(a: string, b: string, c: string, d: string)
    ensures a + (b + c) + d == a + b + (c + d)
  {
  }

  lemma {:induction false} LastCell(cells: seq<string>, widths: seq<nat>)
    requires cells != []
    ensures RowFrom(cells, widths, |cells| - 1) == cells[|cells| - 1]
  {
    hide PadEndWidth, Spaces;
  }

  /** A row is its columns and its last cell as it is, without the blanks all that ends in. */
  lemma {:induction false} RowIs(cells: seq<string>, widths: seq<nat>) returns (row: string, blanks: string)
    ensures JoinRow(cells, widths) == row && (row == "" || !IsSpace(row[|row| - 1])) && Blanks(blanks)
    ensures row + blanks == if cells == [] then "" else Leading(cells, widths, |cells| - 1) + cells[|cells| - 1]
  {
    hide PadEndWidth, Leading, Spaces, TrimEnd, IsSpace, PrintedCell;
    row := JoinRow(cells, widths);
    blanks := TrimEndParts(RowFrom(cells, widths, 0));
    if cells != [] {
      hide RowFrom;
      RowSplits(cells, widths, |cells| - 1);
      LastCell(cells, widths);
    }
  }
}

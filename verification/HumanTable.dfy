/**
 * packages/cli/src/human_table.ts: how many terminal cells a text takes, and columns that start at
 * the same cell in every row. A character is a code point.
 */
module HumanTable {
  import opened Wrappers
  import opened Text

  datatype Range = Range(first: int, last: int)

  const WIDE_A: seq<Range> := [
    Range(0x1100, 0x115f), Range(0x231a, 0x231b), Range(0x2329, 0x232a), Range(0x23e9, 0x23ec),
    Range(0x23f0, 0x23f0), Range(0x23f3, 0x23f3), Range(0x25fd, 0x25fe), Range(0x2614, 0x2615)]
  const WIDE_B: seq<Range> := [
    Range(0x2648, 0x2653), Range(0x267f, 0x267f), Range(0x2693, 0x2693), Range(0x26a1, 0x26a1),
    Range(0x26aa, 0x26ab), Range(0x26bd, 0x26be), Range(0x26c4, 0x26c5), Range(0x26ce, 0x26ce)]
  const WIDE_C: seq<Range> := [
    Range(0x26d4, 0x26d4), Range(0x26ea, 0x26ea), Range(0x26f2, 0x26f3), Range(0x26f5, 0x26f5),
    Range(0x26fa, 0x26fa), Range(0x26fd, 0x26fd), Range(0x2705, 0x2705), Range(0x270a, 0x270b)]
  const WIDE_D: seq<Range> := [
    Range(0x2728, 0x2728), Range(0x274c, 0x274c), Range(0x274e, 0x274e), Range(0x2753, 0x2755),
    Range(0x2757, 0x2757), Range(0x2795, 0x2797), Range(0x27b0, 0x27b0), Range(0x27bf, 0x27bf)]
  const WIDE_E: seq<Range> := [
    Range(0x2b1b, 0x2b1c), Range(0x2b50, 0x2b50), Range(0x2b55, 0x2b55), Range(0x2e80, 0x303e),
    Range(0x3040, 0xa4cf), Range(0xa960, 0xa97f), Range(0xac00, 0xd7a3), Range(0xd7b0, 0xd7ff)]
  const WIDE_F: seq<Range> := [
    Range(0xf900, 0xfaff), Range(0xfe10, 0xfe19), Range(0xfe30, 0xfe6f), Range(0xff00, 0xff60),
    Range(0xffe0, 0xffe6), Range(0x1f000, 0x1faff), Range(0x20000, 0x2fffd), Range(0x30000, 0x3fffd)]

  const WIDE_RANGES: seq<Range> := WIDE_A + WIDE_B + WIDE_C + WIDE_D + WIDE_E + WIDE_F

  /** Each range ends before the next one starts. */
  ghost predicate Disjoint(table: seq<Range>) {
    && (forall i :: 0 <= i < |table| ==> table[i].first <= table[i].last)
    && forall i, j :: 0 <= i < j < |table| ==> table[i].last < table[j].first
  }

  predicate InTable(table: seq<Range>, code: int) { exists i :: 0 <= i < |table| && table[i].first <= code <= table[i].last }

  lemma {:induction false} DisjointJoin(a: seq<Range>, b: seq<Range>)
    requires Disjoint(a) && Disjoint(b) && a != [] && b != [] && a[|a| - 1].last < b[0].first
    ensures Disjoint(a + b)
  {
    var all := a + b;
    forall i, j | 0 <= i < j < |all| ensures all[i].last < all[j].first {
      if i < |a| <= j {
        assert a[i].last <= a[|a| - 1].last by { if i < |a| - 1 { assert a[i].last < a[|a| - 1].first; } }
        assert b[0].first <= b[j - |a|].first by { if j > |a| { assert b[0].last < b[j - |a|].first; } }
      }
    }
  }

  /** The cells of one code point, by linear search of the table. */
  function CharWidth(table: seq<Range>, code: int): (w: nat)
    ensures w <= 2
  {
    if 0x0300 <= code <= 0x036f then 0 else if InTable(table, code) then 2 else 1
  }

  /** `charWidth`: the binary search finds just what the linear one would. */
  method SearchWidth(table: seq<Range>, code: int) returns (w: nat)
    requires Disjoint(table)
    ensures w == CharWidth(table, code)
  {
    if 0x0300 <= code <= 0x036f { return 0; }
    var lo, hi := 0, |table| - 1;
    while lo <= hi
      invariant 0 <= lo <= hi + 1 <= |table|
      invariant forall i :: 0 <= i < lo ==> table[i].last < code
      invariant forall i :: hi < i < |table| ==> code < table[i].first
      decreases hi - lo + 1
    {
      var mid := (lo + hi) / 2;
      if code < table[mid].first {
        hi := mid - 1;
      } else if code > table[mid].last {
        lo := mid + 1;
      } else {
        return 2;
      }
    }
    return 1;
  }

  // ---------------------------------------------------------------------------
  // Texts
  // ---------------------------------------------------------------------------

  function ParamsEnd(s: string, i: nat): (e: nat)
    requires i <= |s|
    ensures i <= e <= |s| && (e < |s| ==> !(IsDigit(s[e]) || s[e] == ';'))
    decreases |s| - i
  {
    if i < |s| && (IsDigit(s[i]) || s[i] == ';') then ParamsEnd(s, i + 1) else i
  }

  /** A match of `/\u001b\[[0-9;]*m/` at the start. */
  function AnsiEnd(s: string): (e: Option<nat>)
    ensures e.Some? ==> 0 < e.value <= |s|
  {
    if !(At(s, 0, '\U{1b}') && At(s, 1, '[')) then None
    else
      var e := ParamsEnd(s, 2);
      if At(s, e, 'm') then Some(e + 1) else None
  }

  function StripAnsi(s: string): (r: string)
    decreases |s|
  {
    if s == "" then ""
    else match AnsiEnd(s) case Some(e) => StripAnsi(s[e..]) case None => [s[0]] + StripAnsi(s[1..])
  }

  function PlainWidth(s: string): nat {
    if s == "" then 0 else PlainWidth(s[..|s| - 1]) + CharWidth(WIDE_RANGES, s[|s| - 1] as int)
  }

  function DisplayWidth(s: string): nat { PlainWidth(StripAnsi(s)) }

  const ELLIPSIS := "..."

  /** The longest start of a plain text that takes at most `budget` cells. */
  function Fitting(plain: string, budget: nat, n: nat): (k: nat)
    requires n <= |plain| && PlainWidth(plain[..n]) <= budget
    ensures n <= k <= |plain| && PlainWidth(plain[..k]) <= budget
    ensures k < |plain| ==> PlainWidth(plain[..k + 1]) > budget
    decreases |plain| - n
  {
    if n < |plain| && PlainWidth(plain[..n + 1]) <= budget then Fitting(plain, budget, n + 1) else n
  }

  function TruncateTo(s: string, max: int): string {
    if max <= 0 then ""
    else if DisplayWidth(s) <= max then s
    else if max <= |ELLIPSIS| then ELLIPSIS[..max]
    else
      var plain := StripAnsi(s);
      assert plain[..0] == "";
      plain[..Fitting(plain, max - |ELLIPSIS|, 0)] + ELLIPSIS
  }

  /** The loop that adds up what fits. */
  method FitLoop(plain: string, budget: nat) returns (out: string)
    ensures PlainWidth(plain[..0]) == 0 && out == plain[..Fitting(plain, budget, 0)]
  {
    hide CharWidth;
    out := "";
    var used := 0;
    assert plain[..0] == "";
    for i := 0 to |plain|
      invariant out == plain[..i] && used == PlainWidth(out) <= budget
      invariant Fitting(plain, budget, 0) == Fitting(plain, budget, i)
    {
      var w := CharWidth(WIDE_RANGES, plain[i] as int);
      assert plain[..i + 1][..i] == plain[..i];
      if used + w > budget { return; }
      out := out + [plain[i]];
      used := used + w;
      assert plain[..i + 1] == out;
    }
  }

  /** `truncateTo`. */
  method TruncateLoop(s: string, max: int) returns (r: string)
    ensures r == TruncateTo(s, max)
  {
    hide StripAnsi, PlainWidth, Fitting;
    if max <= 0 { return ""; }
    if DisplayWidth(s) <= max { return s; }
    if max <= |ELLIPSIS| { return ELLIPSIS[..max]; }
    var out := FitLoop(StripAnsi(s), max - |ELLIPSIS|);
    return out + ELLIPSIS;
  }

  function Spaces(n: nat): (r: string)
    ensures |r| == n && forall k :: 0 <= k < n ==> r[k] == ' '
  {
    seq(n, _ => ' ')
  }

  function PadEndWidth(s: string, width: int): string {
    var clipped := TruncateTo(s, width);
    var pad := width - DisplayWidth(clipped);
    if pad > 0 then clipped + Spaces(pad) else clipped
  }

  // ---------------------------------------------------------------------------
  // Widths
  // ---------------------------------------------------------------------------

  /** Disjoint code points at or behind `from`, up to `till`. */
  ghost predicate Spans(table: seq<Range>, from: int, till: int) {
    && Disjoint(table) && table != [] && table[0].first >= from && table[|table| - 1].last <= till
  }

  lemma {:induction false} SpansJoin(a: seq<Range>, b: seq<Range>, from: int, mid: int, mid2: int, till: int)
    requires Spans(a, from, mid) && Spans(b, mid2, till) && mid < mid2
    ensures Spans(a + b, from, till)
  {
    DisjointJoin(a, b);
  }

  lemma {:induction false} SpansA()
    ensures Spans(WIDE_A, 0x1100, 0x2615)
  {
  }

  lemma {:induction false} SpansB()
    ensures Spans(WIDE_B, 0x2648, 0x26ce)
  {
  }

  lemma {:induction false} SpansC()
    ensures Spans(WIDE_C, 0x26d4, 0x270b)
  {
  }

  lemma {:induction false} SpansD()
    ensures Spans(WIDE_D, 0x2728, 0x27bf)
  {
  }

  lemma {:induction false} SpansE()
    ensures Spans(WIDE_E, 0x2b1b, 0xd7ff)
  {
  }

  lemma {:induction false} SpansF()
    ensures Spans(WIDE_F, 0xf900, 0x3fffd)
  {
  }

  lemma {:induction false} WideRangesDisjoint()
    ensures Spans(WIDE_RANGES, 0x1100, 0x3fffd)
  {
    hide Spans;
    SpansA();
    SpansB();
    SpansC();
    SpansD();
    SpansE();
    SpansF();
    SpansJoin(WIDE_A, WIDE_B, 0x1100, 0x2615, 0x2648, 0x26ce);
    SpansJoin(WIDE_A + WIDE_B, WIDE_C, 0x1100, 0x26ce, 0x26d4, 0x270b);
    SpansJoin(WIDE_A + WIDE_B + WIDE_C, WIDE_D, 0x1100, 0x270b, 0x2728, 0x27bf);
    SpansJoin(WIDE_A + WIDE_B + WIDE_C + WIDE_D, WIDE_E, 0x1100, 0x27bf, 0x2b1b, 0xd7ff);
    SpansJoin(WIDE_A + WIDE_B + WIDE_C + WIDE_D + WIDE_E, WIDE_F, 0x1100, 0xd7ff, 0xf900, 0x3fffd);
  }

  /** No code point before the first range is wide. */
  lemma {:induction false} NotWide(table: seq<Range>, from: int, till: int, code: int)
    requires Spans(table, from, till) && code < from
    ensures !InTable(table, code)
  {
    forall i | 0 <= i < |table| ensures code < table[i].first {
      if i > 0 { assert table[0].last < table[i].first; }
    }
  }

  lemma {:induction false} PlainJoin(a: string, b: string)
    ensures PlainWidth(a + b) == PlainWidth(a) + PlainWidth(b)
    decreases |b|
  {
    hide CharWidth;
    if b == "" {
      assert a + b == a;
    } else {
      var n := |b| - 1;
      assert (a + b)[..|a + b| - 1] == a + b[..n];
      PlainJoin(a, b[..n]);
    }
  }

  /** Taking escape sequences out never makes a text wider. */
  lemma {:induction false} StripNarrows(s: string)
    ensures PlainWidth(StripAnsi(s)) <= PlainWidth(s)
    decreases |s|
  {
    hide PlainWidth, AnsiEnd;
    if s != "" {
      match AnsiEnd(s)
      case Some(e) =>
        StripNarrows(s[e..]);
        PlainJoin(s[..e], s[e..]);
        assert s[..e] + s[e..] == s;
      case None =>
        StripNarrows(s[1..]);
        PlainJoin([s[0]], s[1..]);
        PlainJoin([s[0]], StripAnsi(s[1..]));
        assert [s[0]] + s[1..] == s;
    }
  }

  lemma {:induction false} AsciiWidth(s: string)
    requires forall k :: 0 <= k < |s| ==> s[k] == ' ' || s[k] == '.'
    ensures PlainWidth(s) == |s|
    decreases |s|
  {
    hide InTable, Spans;
    if s != "" {
      AsciiWidth(s[..|s| - 1]);
      WideRangesDisjoint();
      NotWide(WIDE_RANGES, 0x1100, 0x3fffd, s[|s| - 1] as int);
    }
  }

  /** A space ends any escape sequence, so what comes after it is stripped on its own. */
  lemma {:induction false} StripAtSpace(a: string, b: string)
    requires b != "" ==> b[0] == ' '
    ensures StripAnsi(a + b) == StripAnsi(a) + StripAnsi(b)
    decreases |a|
  {
    if a == "" {
      assert a + b == b;
    } else {
      AnsiAtSpace(a, b);
      match AnsiEnd(a)
      case Some(e) =>
        assert (a + b)[e..] == a[e..] + b;
        StripAtSpace(a[e..], b);
      case None =>
        assert (a + b)[1..] == a[1..] + b;
        StripAtSpace(a[1..], b);
        assert [a[0]] + (StripAnsi(a[1..]) + StripAnsi(b)) == [a[0]] + StripAnsi(a[1..]) + StripAnsi(b);
    }
  }

  lemma {:induction false} ParamsAtSpace(a: string, b: string, i: nat)
    requires i <= |a| && (b != "" ==> b[0] == ' ')
    ensures ParamsEnd(a + b, i) == ParamsEnd(a, i)
    decreases |a| - i
  {
    if i < |a| { ParamsAtSpace(a, b, i + 1); }
  }

  lemma {:induction false} AnsiAtSpace(a: string, b: string)
    requires a != "" && (b != "" ==> b[0] == ' ')
    ensures AnsiEnd(a + b) == AnsiEnd(a)
  {
    if |a| >= 2 { ParamsAtSpace(a, b, 2); }
  }

  lemma {:induction false} StripSpaces(n: nat)
    ensures StripAnsi(Spaces(n)) == Spaces(n)
  {
    if n > 0 {
      StripSpaces(n - 1);
      assert Spaces(n)[1..] == Spaces(n - 1);
      assert [' '] + Spaces(n - 1) == Spaces(n);
    }
  }

  lemma {:induction false} PaddedWidth(s: string, n: nat)
    ensures DisplayWidth(s + Spaces(n)) == DisplayWidth(s) + n
  {
    hide StripAnsi, PlainWidth;
    StripAtSpace(s, Spaces(n));
    StripSpaces(n);
    PlainJoin(StripAnsi(s), Spaces(n));
    AsciiWidth(Spaces(n));
  }

  /** A truncated text is never wider than its limit. */
  lemma {:induction false} TruncateFits(s: string, max: nat)
    ensures DisplayWidth(TruncateTo(s, max)) <= max
    ensures DisplayWidth(s) <= max && max > 0 ==> TruncateTo(s, max) == s
  {
    hide StripAnsi, PlainWidth;
    StripNarrows(TruncateTo(s, max));
    if max == 0 {
      AsciiWidth("");
    } else if DisplayWidth(s) > max {
      if max <= |ELLIPSIS| {
        AsciiWidth(ELLIPSIS[..max]);
      } else {
        var plain := StripAnsi(s);
        assert plain[..0] == "";
        AsciiWidth("");
        PlainJoin(plain[..Fitting(plain, max - |ELLIPSIS|, 0)], ELLIPSIS);
        AsciiWidth(ELLIPSIS);
      }
    }
  }

  /** A padded text takes exactly its width. */
  lemma {:induction false} PadIsExact(s: string, width: nat)
    ensures DisplayWidth(PadEndWidth(s, width)) == width
  {
    hide StripAnsi, PlainWidth, TruncateTo, DisplayWidth;
    TruncateFits(s, width);
    var clipped := TruncateTo(s, width);
    PaddedWidth(clipped, width - DisplayWidth(clipped));
  }

  // ---------------------------------------------------------------------------
  // Columns
  // ---------------------------------------------------------------------------

  const GUTTER := 2

  function Max(a: nat, b: nat): nat { if a >= b then a else b }

  function Cell(row: seq<string>, i: nat): string { if i < |row| then row[i] else "" }

  function WidestCell(rows: seq<seq<string>>, i: nat): nat {
    if rows == [] then 0 else Max(DisplayWidth(Cell(rows[0], i)), WidestCell(rows[1..], i))
  }

  /** `naturalWidths`. */
  function NaturalWidth(headers: seq<string>, rows: seq<seq<string>>, i: nat): nat
    requires i < |headers|
  {
    Max(DisplayWidth(headers[i]), WidestCell(rows, i))
  }

  /** A cell without a width is printed as wide as nothing. */
  function WidthAt(widths: seq<nat>, i: nat): nat { if i < |widths| then widths[i] else 0 }

  /** The first `n` cells of a row, each padded and followed by the gutter. */
  function Leading(cells: seq<string>, widths: seq<nat>, n: nat): string
    requires n <= |cells|
  {
    if n == 0 then "" else Leading(cells, widths, n - 1) + PadEndWidth(cells[n - 1], WidthAt(widths, n - 1)) + Spaces(GUTTER)
  }

  function Offset(widths: seq<nat>, n: nat): nat {
    if n == 0 then 0 else Offset(widths, n - 1) + WidthAt(widths, n - 1) + GUTTER
  }

  /** A cell as it is printed: padded, but for the last one. */
  function PrintedCell(cells: seq<string>, widths: seq<nat>, i: nat): string
    requires i < |cells|
  {
    if i == |cells| - 1 then cells[i] else PadEndWidth(cells[i], WidthAt(widths, i))
  }

  /** The printed cells from `i` on, joined by the gutter. */
  function RowFrom(cells: seq<string>, widths: seq<nat>, i: nat): string
    requires i <= |cells|
    decreases |cells| - i
  {
    if i == |cells| then ""
    else PrintedCell(cells, widths, i) + (if i == |cells| - 1 then "" else Spaces(GUTTER) + RowFrom(cells, widths, i + 1))
  }

  /** `joinRow`. */
  function JoinRow(cells: seq<string>, widths: seq<nat>): string { TrimEnd(RowFrom(cells, widths, 0)) }

  lemma {:induction false} WidestFits(rows: seq<seq<string>>, i: nat, k: nat)
    requires k < |rows|
    ensures DisplayWidth(Cell(rows[k], i)) <= WidestCell(rows, i)
    decreases |rows|
  {
    hide DisplayWidth;
    if k > 0 { WidestFits(rows[1..], i, k - 1); }
  }

  /** With its natural widths a table cuts no cell short, but those of a column without any width. */
  lemma {:induction false} NaturalFits(headers: seq<string>, rows: seq<seq<string>>, i: nat, k: nat)
    requires i < |headers| && k < |rows|
    ensures var width := NaturalWidth(headers, rows, i);
            && (TruncateTo(Cell(rows[k], i), width) == Cell(rows[k], i) <==> width > 0 || Cell(rows[k], i) == "")
            && (TruncateTo(headers[i], width) == headers[i] <==> width > 0 || headers[i] == "")
  {
    hide DisplayWidth;
    WidestFits(rows, i, k);
    if NaturalWidth(headers, rows, i) > 0 {
      TruncateFits(Cell(rows[k], i), NaturalWidth(headers, rows, i));
      TruncateFits(headers[i], NaturalWidth(headers, rows, i));
    }
  }

  /** What ends in a space is stripped on its own. */
  lemma {:induction false} StripAfterSpace(a: string, b: string)
    requires a != "" ==> a[|a| - 1] == ' '
    ensures StripAnsi(a + b) == StripAnsi(a) + StripAnsi(b)
  {
    if a == "" {
      assert a + b == b;
    } else {
      hide StripAnsi;
      var before := a[..|a| - 1];
      assert a + b == before + (" " + b) && a == before + (" " + "");
      SpaceBetween(before, b);
      SpaceBetween(before, "");
      assert StripAnsi("") == "" by { StripSpaces(0); }
      Regroup(StripAnsi(before), StripAnsi(b));
    }
  }

  lemma {:induction false} Regroup(x: string, y: string)
    ensures x + ([' '] + y) == x + ([' '] + "") + y
  {
  }

  lemma {:induction false} SpaceBetween(before: string, b: string)
    ensures StripAnsi(before + (" " + b)) == StripAnsi(before) + ([' '] + StripAnsi(b))
  {
    hide StripAnsi;
    StripAtSpace(before, " " + b);
    SpaceStripped(b);
  }

  lemma {:induction false} SpaceStripped(b: string)
    ensures StripAnsi(" " + b) == [' '] + StripAnsi(b)
  {
    assert (" " + b)[1..] == b;
  }

  /** The cells in front of a column take the same width in every row, whatever they hold. */
  lemma {:induction false} ColumnsAlign(cells: seq<string>, widths: seq<nat>, n: nat)
    requires n <= |cells|
    ensures DisplayWidth(Leading(cells, widths, n)) == Offset(widths, n)
    ensures n > 0 ==> Leading(cells, widths, n) != "" && Leading(cells, widths, n)[|Leading(cells, widths, n)| - 1] == ' '
  {
    hide StripAnsi, PlainWidth, PadEndWidth;
    if n > 0 {
      ColumnsAlign(cells, widths, n - 1);
      var before, cell := Leading(cells, widths, n - 1), PadEndWidth(cells[n - 1], WidthAt(widths, n - 1));
      PadIsExact(cells[n - 1], WidthAt(widths, n - 1));
      PaddedWidth(cell, GUTTER);
      assert Leading(cells, widths, n) == before + (cell + Spaces(GUTTER));
      if n == 1 { assert before == ""; }
      StripAfterSpace(before, cell + Spaces(GUTTER));
      PlainJoin(StripAnsi(before), StripAnsi(cell + Spaces(GUTTER)));
    } else {
      AsciiWidth("");
      assert StripAnsi("") == "" by { StripSpaces(0); }
    }
  }

  // ---------------------------------------------------------------------------
  // The printed row
  // ---------------------------------------------------------------------------

  lemma {:induction false} TrimBehind(a: string, b: string)
    requires TrimEnd(b) != ""
    ensures TrimEnd(a + b) == a + TrimEnd(b)
    decreases |b|
  {
    if IsSpace(b[|b| - 1]) {
      assert (a + b)[..|a + b| - 1] == a + b[..|b| - 1];
      TrimBehind(a, b[..|b| - 1]);
    }
  }

  lemma {:induction false} TrimGrows(a: string, b: string)
    ensures TrimEnd(a) <= TrimEnd(a + b)
    decreases |b|
  {
    if b == "" {
      assert a + b == a;
    } else if IsSpace(b[|b| - 1]) {
      assert (a + b)[..|a + b| - 1] == a + b[..|b| - 1];
      TrimGrows(a, b[..|b| - 1]);
    }
  }

  lemma {:induction false} Four(a: string, b: string, c: string, d: string)
    ensures a + (b + (c + d)) == a + b + c + d
  {
  }

  lemma {:induction false} RowStep(cells: seq<string>, widths: seq<nat>, i: nat)
    requires 0 < i < |cells|
    ensures var cell := PadEndWidth(cells[i - 1], WidthAt(widths, i - 1));
            && RowFrom(cells, widths, i - 1) == cell + (Spaces(GUTTER) + RowFrom(cells, widths, i))
            && Leading(cells, widths, i) == Leading(cells, widths, i - 1) + cell + Spaces(GUTTER)
  {
    hide PadEndWidth, Spaces;
  }

  lemma {:induction false} RowStarts(cells: seq<string>, widths: seq<nat>)
    ensures Leading(cells, widths, 0) + RowFrom(cells, widths, 0) == RowFrom(cells, widths, 0)
  {
    hide RowFrom;
  }

  lemma {:induction false} RowSplits(cells: seq<string>, widths: seq<nat>, i: nat)
    requires i < |cells|
    ensures RowFrom(cells, widths, 0) == Leading(cells, widths, i) + RowFrom(cells, widths, i)
  {
    hide PadEndWidth, Spaces, RowFrom, Leading;
    if i == 0 {
      RowStarts(cells, widths);
    } else {
      RowSplits(cells, widths, i - 1);
      RowStep(cells, widths, i);
      Four(Leading(cells, widths, i - 1), PadEndWidth(cells[i - 1], WidthAt(widths, i - 1)), Spaces(GUTTER), RowFrom(cells, widths, i));
    }
  }

  /**
   * In a printed row every cell that is not blank starts at the offset of its column, which does
   * not depend on the row: what stands in front of it takes that many cells, and its text follows.
   */
  lemma {:induction false} CellStarts(cells: seq<string>, widths: seq<nat>, i: nat)
    requires i < |cells| && TrimEnd(PrintedCell(cells, widths, i)) != ""
    ensures var row, before := JoinRow(cells, widths), Leading(cells, widths, i);
            && before <= row && DisplayWidth(before) == Offset(widths, i)
            && TrimEnd(PrintedCell(cells, widths, i)) <= row[|before|..]
  {
    hide DisplayWidth, PrintedCell, TrimEnd;
    var printed := PrintedCell(cells, widths, i);
    ColumnsAlign(cells, widths, i);
    RowSplits(cells, widths, i);
    var rest := if i == |cells| - 1 then "" else Spaces(GUTTER) + RowFrom(cells, widths, i + 1);
    TrimGrows(printed, rest);
    TrimBehind(Leading(cells, widths, i), RowFrom(cells, widths, i));
  }

  /** The last cell is printed as it is, up to the blanks it ends in, and nothing follows it. */
  lemma {:induction false} RowEnds(cells: seq<string>, widths: seq<nat>)
    requires cells != [] && TrimEnd(cells[|cells| - 1]) != ""
    ensures JoinRow(cells, widths) == Leading(cells, widths, |cells| - 1) + TrimEnd(cells[|cells| - 1])
  {
    hide TrimEnd, PadEndWidth;
    RowSplits(cells, widths, |cells| - 1);
    assert RowFrom(cells, widths, |cells| - 1) == cells[|cells| - 1];
    TrimBehind(Leading(cells, widths, |cells| - 1), cells[|cells| - 1]);
  }
}

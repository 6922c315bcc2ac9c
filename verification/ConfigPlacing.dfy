/** Where `insertEntry` of packages/cli/src/config_edit.ts puts its lines, on the text alone, and when it refuses to. */
module ConfigPlacing {
  import opened Wrappers
  import opened Text
  import opened SourceLexer
  import opened ObjectScan
  import opened ConfigEdit
  import opened ConfigFound

  // ---------------------------------------------------------------------------
  // The comments above an entry
  // ---------------------------------------------------------------------------

  /** A line starts at `p`. */
  predicate NewLine(s: string, p: nat) { p <= |s| && (p > 0 ==> s[p - 1] == '\n') }

  /** The line that starts at `p`, inside the object of `open`, is a `//` comment, perhaps indented. */
  ghost predicate NoteAt(s: string, kinds: seq<Kind>, open: nat, p: nat, m: nat) {
    && open < p <= m && m + 2 <= |s| == |kinds| && Blank(s, p, m) && (forall k :: p <= k < m ==> s[k] != '\n')
    && s[m] == '/' && s[m + 1] == '/' && kinds[m] == Comment
  }

  ghost predicate NoteLine(s: string, kinds: seq<Kind>, open: nat, p: nat) { exists m: nat :: NoteAt(s, kinds, open, p, m) }

  /** From the line at `r` down to the one at `at` stand `//` comments only, and none above `r`. */
  ghost predicate Above(s: string, kinds: seq<Kind>, open: nat, r: nat, at: nat) {
    && r <= at <= |s| && NewLine(s, r)
    && (forall p: nat {:trigger NewLine(s, p)} :: r <= p < at && NewLine(s, p) ==> NoteLine(s, kinds, open, p))
    && (r > 0 ==> forall p: nat :: LineOf(s, r - 1, p) ==> !NoteLine(s, kinds, open, p))
  }

  /** A comment line that is read as one up to the next line. */
  lemma {:induction false} NoteLineIs(s: string, kinds: seq<Kind>, open: nat, p: nat, at: nat)
    requires at <= |s| == |kinds| && 0 < at && LineOf(s, at - 1, p) && s[at - 1] == '\n'
    ensures open < p && CommentLine(s, kinds, p, at) <==> NoteLine(s, kinds, open, p)
  {
    if NoteLine(s, kinds, open, p) {
      var m: nat :| NoteAt(s, kinds, open, p, m);
      assert m < at - 1;
      SkipSpacesTo(s, p, m, at);
    }
    if open < p && CommentLine(s, kinds, p, at) {
      assert NoteAt(s, kinds, open, p, SkipSpaces(s, p, at));
    }
  }

  lemma {:induction false} SkipSpacesTo(s: string, i: nat, e: nat, till: nat)
    requires Blank(s, i, e) && e < till <= |s| && !IsSpace(s[e])
    ensures SkipSpaces(s, i, till) == e
    decreases e - i
  {
    if i < e { SkipSpacesTo(s, i + 1, e, till); }
  }

  lemma {:induction false} AboveIs(s: string, kinds: seq<Kind>, open: nat, at: nat)
    requires at <= |s| == |kinds| && NewLine(s, at)
    ensures Above(s, kinds, open, AboveComments(s, kinds, open, at), at)
    decreases at
  {
    hide CommentLine, NoteLine, LineStart;
    if at > 0 {
      var p := LineStart(s, at - 1);
      if at == 1 {
        FirstLine(s);
        NoComment(s, kinds, 1);
        forall q: nat | LineOf(s, 0, q) ensures !NoteLine(s, kinds, open, q) { NotBefore(s, kinds, open, q); }
      } else {
        LineOfIs(s, at - 1, p);
        NoteLineIs(s, kinds, open, p, at);
        if open < p && CommentLine(s, kinds, p, at) {
          AboveIs(s, kinds, open, p);
          OneLineMore(s, kinds, open, AboveComments(s, kinds, open, p), p, at);
        } else {
          forall q: nat | LineOf(s, at - 1, q) ensures !NoteLine(s, kinds, open, q) {
            LineOfIs(s, at - 1, q);
            if open >= p { NotBefore(s, kinds, open, q); }
          }
        }
      }
    }
  }

  lemma {:induction false} FirstLine(s: string)
    requires s != "" && s[0] == '\n'
    ensures LineStart(s, 0) == 1
  {
  }

  lemma {:induction false} NoComment(s: string, kinds: seq<Kind>, i: nat)
    requires i <= |s| == |kinds|
    ensures !CommentLine(s, kinds, i, i)
  {
  }

  lemma {:induction false} NotBefore(s: string, kinds: seq<Kind>, open: nat, p: nat)
    requires p <= open
    ensures !NoteLine(s, kinds, open, p)
  {
  }

  lemma {:induction false} OneLineMore(s: string, kinds: seq<Kind>, open: nat, r: nat, p: nat, at: nat)
    requires Above(s, kinds, open, r, p) && NoteLine(s, kinds, open, p) && at <= |s| && p < at && LineOf(s, at - 1, p)
    ensures Above(s, kinds, open, r, at)
  {
    hide NoteLine;
  }

  lemma {:induction false} AboveOnce(s: string, kinds: seq<Kind>, open: nat, r: nat, r': nat, at: nat)
    requires Above(s, kinds, open, r, at) && Above(s, kinds, open, r', at)
    ensures r <= r'
  {
    hide NoteLine, LineOf;
    if r' < r {
      var p := LineStart(s, r - 1);
      if r > 1 {
        LineOfIs(s, r - 1, p);
        StartIsLine(s, r - 1, p);
        NotBelow(s, r', r, p);
      } else {
        ZeroLine(s);
      }
    }
  }

  lemma {:induction false} ZeroLine(s: string)
    ensures LineOf(s, 0, 0) && NewLine(s, 0)
  {
  }

  lemma {:induction false} StartIsLine(s: string, i: nat, p: nat)
    requires LineOf(s, i, p)
    ensures NewLine(s, p)
  {
  }

  lemma {:induction false} NotBelow(s: string, r': nat, r: nat, p: nat)
    requires r' < r <= |s| && NewLine(s, r') && LineOf(s, r - 1, p)
    ensures r' <= p < r
  {
  }

  // ---------------------------------------------------------------------------
  // The three layouts
  // ---------------------------------------------------------------------------

  /** Nothing but spaces stands before `i` on its line. */
  ghost predicate LeadsLine(s: string, i: nat) { exists p: nat :: LineOf(s, i, p) && Blank(s, p, i) }

  lemma {:induction false} LeadsLineIs(s: string, i: nat)
    requires 0 < i <= |s|
    ensures StartsLine(s, i) <==> LeadsLine(s, i)
  {
    hide LineStart, LineOf;
    var p := LineStart(s, i);
    LineOfIs(s, i, p);
    LineOfRange(s, i, p);
    forall q: nat | LineOf(s, i, q) ensures q == p { LineOfIs(s, i, q); }
    assert StartsLine(s, i) <==> Blank(s, p, i);
  }

  lemma {:induction false} LineOfRange(s: string, i: nat, p: nat)
    requires LineOf(s, i, p)
    ensures p <= i <= |s|
  {
  }

  /** A line break stands in `[lo, hi)`. */
  ghost predicate Breaks(s: string, lo: nat, hi: nat) { hi <= |s| && exists k :: lo <= k < hi && s[k] == '\n' }

  lemma {:induction false} BreaksIs(s: string, lo: nat, hi: nat)
    requires lo <= hi <= |s|
    ensures LineEnd(s, lo) < hi <==> Breaks(s, lo, hi)
  {
  }

  /** The lines, each indented, joined by line breaks: for one line and for three. */
  lemma {:induction false} JoinedOne(a: string, indent: string, eol: string)
    ensures JoinedLines([a], indent, eol) == indent + a
    ensures Lines([a], indent, eol) == indent + a + eol
  {
    assert Lines([], indent, eol) == "";
    assert [a][1..] == [];
  }

  lemma {:induction false} JoinedThree(a: string, b: string, c: string, indent: string, eol: string)
    ensures JoinedLines([a, b, c], indent, eol) == indent + a + eol + (indent + b + eol + (indent + c))
    ensures Lines([a, b, c], indent, eol) == indent + a + eol + (indent + b + eol + (indent + c + eol))
  {
    assert [a, b, c][1..] == [b, c] && [b, c][1..] == [c];
    JoinedOne(c, indent, eol);
  }

  /** An object with nothing but spaces in it is opened up around the lines. */
  ghost predicate FillsObject(parsed: Parsed, scan: ObjectScan, lines: seq<string>, t: string) {
    var s := parsed.source;
    && scan.open < scan.close < |s| && Blank(s, scan.open + 1, scan.close)
    && exists base: string :: Indents(s, scan.open, base) && FilledWith(parsed, scan, lines, base, t)
  }

  ghost predicate FilledWith(parsed: Parsed, scan: ObjectScan, lines: seq<string>, base: string, t: string) {
    var s := parsed.source;
    && scan.open < scan.close < |s|
    && t == s[..scan.open + 1] + parsed.eol + JoinedLines(lines, base + parsed.unit, parsed.eol) + parsed.eol + base + s[scan.close..]
  }

  /** The first entry leads its line, and the last one is not on the line of the closing brace. */
  ghost predicate OnePerLine(s: string, scan: ObjectScan) {
    && scan.entries != [] && 0 <= scan.entries[0].start && 0 <= scan.entries[|scan.entries| - 1].end
    && LeadsLine(s, scan.entries[0].start) && Breaks(s, scan.entries[|scan.entries| - 1].end, scan.close)
  }

  /** The lines go above `before`, and above the `//` comments that stand on the lines right above it. */
  ghost predicate PutsAbove(parsed: Parsed, scan: ObjectScan, lines: seq<string>, indent: string, before: nat, t: string) {
    exists p: nat, at: nat :: LineOf(parsed.source, before, p) && AtLine(parsed, scan, lines, indent, p, at, t)
  }

  ghost predicate AtLine(parsed: Parsed, scan: ObjectScan, lines: seq<string>, indent: string, p: nat, at: nat, t: string) {
    && Above(parsed.source, parsed.kinds, scan.open, at, p)
    && t == parsed.source[..at] + Lines(lines, indent, parsed.eol) + parsed.source[at..]
  }

  /** The first line break from `from` on is at `k`, and `e` is before its carriage return, if it has one. */
  ghost predicate LineCloses(s: string, from: nat, e: nat) {
    exists k: nat :: LineStops(s, from, k) && e == if k > 0 && s[k - 1] == '\r' then k - 1 else k
  }

  ghost predicate LineStops(s: string, from: nat, k: nat) {
    from <= k <= |s| && (k < |s| ==> s[k] == '\n') && forall i :: from <= i < k ==> s[i] != '\n'
  }

  lemma {:induction false} LineClosesIs(s: string, from: nat, e: nat)
    requires 0 < from <= |s|
    ensures LineBreak(s, from) == e <==> LineCloses(s, from, e)
  {
    var k := LineEnd(s, from);
    assert LineStops(s, from, k);
    forall k': nat | LineStops(s, from, k') ensures k' == k {
    }
  }

  /** A separating comma in `[lo, hi)`. */
  ghost predicate CommaIn(s: string, kinds: seq<Kind>, lo: nat, hi: nat) {
    hi <= |s| == |kinds| && exists k :: lo <= k < hi && kinds[k] == Code && s[k] == ','
  }

  /** The lines go below the line of the last entry, which gets a comma if none follows it. */
  ghost predicate PutsBelow(parsed: Parsed, scan: ObjectScan, lines: seq<string>, indent: string, last: nat, t: string) {
    exists e: nat :: LineCloses(parsed.source, last, e) && BelowLine(parsed, scan, lines, indent, last, e, t)
  }

  ghost predicate BelowLine(parsed: Parsed, scan: ObjectScan, lines: seq<string>, indent: string, last: nat, e: nat, t: string) {
    var s := parsed.source;
    && last <= |s| && e <= |s|
    && !(exists k :: last <= k < scan.close && e <= k && k < |s| == |parsed.kinds| && parsed.kinds[k] == Code && s[k] == ',')
    && t == s[..last] + (if CommaIn(s, parsed.kinds, last, scan.close) then "" else ",") + (if last <= e then s[last..e] else "")
            + parsed.eol + JoinedLines(lines, indent, parsed.eol) + s[e..]
  }

  /** What an object with entries is read as before lines are put in. */
  ghost predicate Entered(parsed: Parsed, scan: ObjectScan, before: Option<ObjectEntry>) {
    && |parsed.kinds| == |parsed.source| && scan.open < scan.close < |parsed.source|
    && EntriesWithin(scan.entries, scan.open + 1, scan.close) && (before.Some? ==> before.value in scan.entries)
  }

  lemma {:induction false} FirstIs(parsed: Parsed, scan: ObjectScan, lines: seq<string>, t: string)
    requires Entered(parsed, scan, None) && 0 < scan.open
    ensures InsertFirst(parsed, scan, lines) == Success(t) <==> FillsObject(parsed, scan, lines, t)
    ensures InsertFirst(parsed, scan, lines).Failure? ==>
              !Blank(parsed.source, scan.open + 1, scan.close) && InsertFirst(parsed, scan, lines).error == Unsupported(HoldsOnlyComments)
  {
    hide JoinedLines, LineIndent, Indents;
    var s := parsed.source;
    var base := LineIndent(s, scan.open);
    IndentsIs(s, scan.open, base);
    assert AllSpace(s, scan.open + 1, scan.close) <==> Blank(s, scan.open + 1, scan.close);
    forall b: string | Indents(s, scan.open, b) ensures b == base { IndentsIs(s, scan.open, b); }
  }

  lemma {:induction false} BeforeIs(parsed: Parsed, scan: ObjectScan, lines: seq<string>, indent: string, before: ObjectEntry, t: string)
    requires Entered(parsed, scan, Some(before))
    ensures InsertBefore(parsed, scan, lines, indent, before) == Success(t) <==>
            LeadsLine(parsed.source, before.start) && PutsAbove(parsed, scan, lines, indent, before.start, t)
    ensures InsertBefore(parsed, scan, lines, indent, before).Failure? ==>
              !LeadsLine(parsed.source, before.start)
              && InsertBefore(parsed, scan, lines, indent, before).error == Unsupported(SharesItsLine)
  {
    hide Lines, AboveComments, LineStart, LineOf, Above, StartsLine, LeadsLine;
    var s := parsed.source;
    var p := LineStart(s, before.start);
    LeadsLineIs(s, before.start);
    LineOfIs(s, before.start, p);
    StartIsLine(s, before.start, p);
    var at := AboveComments(s, parsed.kinds, scan.open, p);
    AboveIs(s, parsed.kinds, scan.open, p);
    forall q: nat | LineOf(s, before.start, q) ensures q == p { LineOfIs(s, before.start, q); }
    forall r: nat | Above(s, parsed.kinds, scan.open, r, p) ensures r == at {
      AboveOnce(s, parsed.kinds, scan.open, r, at, p);
      AboveOnce(s, parsed.kinds, scan.open, at, r, p);
    }
    if InsertBefore(parsed, scan, lines, indent, before) == Success(t) { assert AtLine(parsed, scan, lines, indent, p, at, t); }
  }

  lemma {:induction false} LastIs(parsed: Parsed, scan: ObjectScan, lines: seq<string>, indent: string, last: ObjectEntry, t: string)
    requires Entered(parsed, scan, Some(last))
    ensures InsertLast(parsed, scan, lines, indent, last) == Success(t) <==> PutsBelow(parsed, scan, lines, indent, last.end, t)
    ensures InsertLast(parsed, scan, lines, indent, last).Failure? ==>
              InsertLast(parsed, scan, lines, indent, last).error == Unsupported(CommaOnItsOwnLine)
  {
    hide JoinedLines, LineBreak, LineCloses;
    var s := parsed.source;
    var e := LineBreak(s, last.end);
    LineClosesIs(s, last.end, e);
    forall e': nat | LineCloses(s, last.end, e') ensures e' == e { LineClosesIs(s, last.end, e'); }
    BelowIs(parsed, scan, lines, indent, last, e, t);
  }

  lemma {:induction false} BelowIs(parsed: Parsed, scan: ObjectScan, lines: seq<string>, indent: string, last: ObjectEntry, e: nat, t: string)
    requires Entered(parsed, scan, Some(last)) && LineBreak(parsed.source, last.end) == e
    ensures InsertLast(parsed, scan, lines, indent, last) == Success(t) <==> BelowLine(parsed, scan, lines, indent, last.end, e, t)
    ensures InsertLast(parsed, scan, lines, indent, last).Failure? ==>
              InsertLast(parsed, scan, lines, indent, last).error == Unsupported(CommaOnItsOwnLine)
  {
    hide JoinedLines, LineBreak;
    var s := parsed.source;
    SeparatorIs(s, parsed.kinds, last.end, scan.close, e);
  }

  lemma {:induction false} SeparatorIs(s: string, kinds: seq<Kind>, i: nat, till: nat, e: nat)
    requires i <= till <= |s| == |kinds|
    ensures SeparatorIn(s, kinds, i, till, e).None? <==> exists k :: i <= k < till && e <= k && k < |s| && kinds[k] == Code && s[k] == ','
    ensures SeparatorIn(s, kinds, i, till, e).Some? ==> (SeparatorIn(s, kinds, i, till, e).value <==> CommaIn(s, kinds, i, till))
  {
    assert forall k :: i <= k < till ==> (IsCodeComma(s, kinds, k) <==> kinds[k] == Code && s[k] == ',');
  }

  /** The lines stand in an object that was empty, or with the given indentation above an entry or below the last one. */
  ghost predicate PlacedAt(parsed: Parsed, scan: ObjectScan, lines: seq<string>, before: Option<ObjectEntry>, indent: string, t: string) {
    if scan.entries == [] then FillsObject(parsed, scan, lines, t)
    else
      && OnePerLine(parsed.source, scan) && Indents(parsed.source, scan.entries[0].start, indent)
      && match before
         case Some(e) => 0 <= e.start && LeadsLine(parsed.source, e.start) && PutsAbove(parsed, scan, lines, indent, e.start, t)
         case None => PutsBelow(parsed, scan, lines, indent, scan.entries[|scan.entries| - 1].end, t)
  }

  ghost predicate Placed(parsed: Parsed, scan: ObjectScan, lines: seq<string>, before: Option<ObjectEntry>, t: string) {
    exists indent :: PlacedAt(parsed, scan, lines, before, indent, t)
  }

  /**
   * Lines are put into an empty object, above an entry or below the last one, in an object laid out
   * one property per line, indented like its first entry. Nothing else of the text changes.
   */
  lemma {:induction false} InsertIs(parsed: Parsed, scan: ObjectScan, lines: seq<string>, before: Option<ObjectEntry>, t: string)
    requires Entered(parsed, scan, before) && 0 < scan.open
    ensures InsertEntry(parsed, scan, lines, before) == Success(t) <==> Placed(parsed, scan, lines, before, t)
  {
    hide InsertFirst, InsertBefore, InsertLast, FillsObject, PutsAbove, PutsBelow, LineIndent, Indents, StartsLine, LeadsLine, LineEnd, Breaks;
    if scan.entries == [] {
      FirstIs(parsed, scan, lines, t);
      assert FillsObject(parsed, scan, lines, t) <==> PlacedAt(parsed, scan, lines, before, "", t);
    } else {
      var first, last := scan.entries[0], scan.entries[|scan.entries| - 1];
      var indent := LineIndent(parsed.source, first.start);
      LeadsLineIs(parsed.source, first.start);
      BreaksIs(parsed.source, last.end, scan.close);
      IndentsIs(parsed.source, first.start, indent);
      forall other | Indents(parsed.source, first.start, other) ensures other == indent { IndentsIs(parsed.source, first.start, other); }
      if before.Some? { BeforeIs(parsed, scan, lines, indent, before.value, t); } else { LastIs(parsed, scan, lines, indent, last, t); }
      assert InsertEntry(parsed, scan, lines, before) == Success(t) <==> PlacedAt(parsed, scan, lines, before, indent, t);
    }
  }

  /** Each refusal says what stands in the way. */
  lemma {:induction false} InsertRefusedFor(parsed: Parsed, scan: ObjectScan, lines: seq<string>, before: Option<ObjectEntry>)
    requires Entered(parsed, scan, before) && 0 < scan.open && InsertEntry(parsed, scan, lines, before).Failure?
    ensures InsertEntry(parsed, scan, lines, before).error == Unsupported(
              if scan.entries == [] then HoldsOnlyComments
              else if !OnePerLine(parsed.source, scan) then NotOnePropertyPerLine
              else if before.Some? then SharesItsLine else CommaOnItsOwnLine)
  {
    hide InsertFirst, InsertBefore, InsertLast, LineIndent, StartsLine, LeadsLine, LineEnd, Breaks;
    if scan.entries == [] {
      FirstIs(parsed, scan, lines, "");
    } else {
      var first, last := scan.entries[0], scan.entries[|scan.entries| - 1];
      var indent := LineIndent(parsed.source, first.start);
      LeadsLineIs(parsed.source, first.start);
      BreaksIs(parsed.source, last.end, scan.close);
      if before.Some? { BeforeIs(parsed, scan, lines, indent, before.value, ""); } else { LastIs(parsed, scan, lines, indent, last, ""); }
    }
  }

  // ---------------------------------------------------------------------------
  // The order of the keys
  // ---------------------------------------------------------------------------

  /** The keys a file declares behind `key`. */
  function DeclaredAfter(key: string): set<string> {
    if key == "auth" then {"dataApi", "aiGateway", "functions", "buckets", "triggers", "preview", "branch", "experimental"}
    else if key == "dataApi" then {"aiGateway", "functions", "buckets", "triggers", "preview", "branch", "experimental"}
    else if key == "aiGateway" then {"functions", "buckets", "triggers", "preview", "branch", "experimental"}
    else if key == "functions" then {"buckets", "triggers", "preview", "branch", "experimental"}
    else if key == "buckets" then {"triggers", "preview", "branch", "experimental"}
    else if key == "preview" then {"branch", "experimental"}
    else {}
  }

  /** The keys an edit can add to the policy. */
  predicate IsAddedKey(key: string) {
    key == "auth" || key == "dataApi" || key == "aiGateway" || key == "functions" || key == "buckets" || key == "preview"
  }

  /** `e` is the first entry whose key belongs behind `key`. */
  ghost predicate FirstAfter(entries: seq<ObjectEntry>, key: string, e: Option<ObjectEntry>) {
    match e
    case None => forall i :: 0 <= i < |entries| ==> !Later(entries[i], key)
    case Some(entry) =>
      exists i ::
        && 0 <= i < |entries| && entries[i] == entry && Later(entry, key)
        && forall j :: 0 <= j < i ==> !Later(entries[j], key)
  }

  predicate Later(e: ObjectEntry, key: string) { e.key.Some? && e.key.value in DeclaredAfter(key) }

  lemma {:induction false} RankOf(name: string)
    ensures IndexIn(KeyOrder, name, 0) ==
            if name == "auth" then 0 else if name == "dataApi" then 1 else if name == "aiGateway" then 2
            else if name == "functions" then 3 else if name == "buckets" then 4 else if name == "triggers" then 5
            else if name == "preview" then 6 else if name == "branch" then 7 else if name == "experimental" then 8 else -1
  {
    assert IndexIn(KeyOrder, name, 8) == if name == "experimental" then 8 else -1;
    assert IndexIn(KeyOrder, name, 7) == if name == "branch" then 7 else IndexIn(KeyOrder, name, 8);
    assert IndexIn(KeyOrder, name, 6) == if name == "preview" then 6 else IndexIn(KeyOrder, name, 7);
    assert IndexIn(KeyOrder, name, 5) == if name == "triggers" then 5 else IndexIn(KeyOrder, name, 6);
    assert IndexIn(KeyOrder, name, 4) == if name == "buckets" then 4 else IndexIn(KeyOrder, name, 5);
    assert IndexIn(KeyOrder, name, 3) == if name == "functions" then 3 else IndexIn(KeyOrder, name, 4);
    assert IndexIn(KeyOrder, name, 2) == if name == "aiGateway" then 2 else IndexIn(KeyOrder, name, 3);
    assert IndexIn(KeyOrder, name, 1) == if name == "dataApi" then 1 else IndexIn(KeyOrder, name, 2);
  }

  lemma {:induction false} LaterIs(e: ObjectEntry, key: string)
    requires IsAddedKey(key)
    ensures KeyRank(e.key) > KeyRank(Some(key)) <==> Later(e, key)
  {
    hide IndexIn, KeyOrder;
    RankOf(key);
    if e.key.Some? { RankOf(e.key.value); }
  }

  /** A new key goes above the first entry that is declared behind it. */
  lemma {:induction false} EntryAfterIs(entries: seq<ObjectEntry>, key: string)
    requires IsAddedKey(key)
    ensures FirstAfter(entries, key, EntryAfter(entries, key))
  {
    hide KeyRank, Later;
    if entries != [] {
      LaterIs(entries[0], key);
      if !Later(entries[0], key) {
        EntryAfterIs(entries[1..], key);
        FirstBehind(entries, key, EntryAfter(entries[1..], key));
      }
    }
  }

  lemma {:induction false} FirstBehind(entries: seq<ObjectEntry>, key: string, e: Option<ObjectEntry>)
    requires entries != [] && !Later(entries[0], key) && FirstAfter(entries[1..], key, e)
    ensures FirstAfter(entries, key, e)
  {
    hide Later;
    if e.Some? {
      var i :|
        && 0 <= i < |entries[1..]| && entries[1..][i] == e.value && Later(e.value, key)
        && forall j :: 0 <= j < i ==> !Later(entries[1..][j], key);
      forall j | 0 <= j < i + 1 ensures !Later(entries[j], key) { assert j > 0 ==> entries[1..][j - 1] == entries[j]; }
      assert entries[i + 1] == e.value;
    } else {
      forall i | 0 <= i < |entries| ensures !Later(entries[i], key) { assert i > 0 ==> entries[1..][i - 1] == entries[i]; }
    }
  }
}

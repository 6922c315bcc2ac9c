/** What a merged dotenv file reads as, and which of its lines survive. */
module EnvFileRead {
  import opened Wrappers
  import opened Text
  import opened EventStream
  import opened EnvFile
  import opened EnvFileMerge

  /** The last value a key is read with. */
  function LastRead(lines: seq<string>, key: string): Option<string> {
    if lines == [] then None
    else
      match ParseAssignment(lines[|lines| - 1])
      case Some((k, value)) => if k == key then Some(value) else LastRead(lines[..|lines| - 1], key)
      case None => LastRead(lines[..|lines| - 1], key)
  }

  lemma {:induction false} ReadIsLast(lines: seq<string>, key: string)
    ensures key in ReadLines(lines) <==> LastRead(lines, key).Some?
    ensures key in ReadLines(lines) ==> LastRead(lines, key) == Some(ReadLines(lines)[key])
    decreases |lines|
  {
    hide ParseAssignment;
    if lines != [] { ReadIsLast(lines[..|lines| - 1], key); }
  }

  lemma {:induction false} LastReadMore(lines: seq<string>, line: string, key: string)
    ensures LastRead(lines + [line], key)
            == match ParseAssignment(line)
               case Some((k, value)) => if k == key then Some(value) else LastRead(lines, key)
               case None => LastRead(lines, key)
  {
    hide ParseAssignment;
    assert (lines + [line])[..|lines|] == lines;
  }

  /** Only a line whose key is `key` sets it. */
  lemma {:induction false} OtherLine(line: string, key: string)
    requires ParseKey(line) != Some(key)
    ensures ParseAssignment(line).Some? ==> ParseAssignment(line).value.0 != key
  {
  }

  /** The lines after the first that assigns `key`. */
  function AfterFirst(lines: seq<string>, key: string): seq<string> {
    if lines == [] then [] else if ParseKey(lines[0]) == Some(key) then lines[1..] else AfterFirst(lines[1..], key)
  }

  lemma {:induction false} AfterFirstMore(lines: seq<string>, line: string, key: string)
    ensures AfterFirst(lines + [line], key) == if Mentions(lines, key) then AfterFirst(lines, key) + [line] else []
    decreases |lines|
  {
    hide ParseKey;
    if lines == [] {
      assert AfterFirst([line], key) == [] by { assert [line][1..] == []; }
    } else {
      assert (lines + [line])[1..] == lines[1..] + [line];
      AfterFirstMore(lines[1..], line, key);
      assert [lines[0]] + lines[1..] == lines;
      if Mentions(lines, key) && ParseKey(lines[0]) != Some(key) {
        var i :| 0 <= i < |lines| && ParseKey(lines[i]) == Some(key);
        assert lines[1..][i - 1] == lines[i];
      }
      if Mentions(lines[1..], key) {
        var i :| 0 <= i < |lines[1..]| && ParseKey(lines[1..][i]) == Some(key);
        assert lines[i + 1] == lines[1..][i];
      }
    }
  }

  /** The value an updated key has after a merge: the update, unless a later readable line sets it again. */
  function AfterMerge(u: Updates, lines: seq<string>, key: string): Option<string>
    requires key in u.values
  {
    match LastRead(AfterFirst(lines, key), key) case Some(again) => Some(again) case None => Some(u.values[key])
  }

  /** Values on one line each, so that every formatted line can be read. */
  ghost predicate Readable(u: Updates, stale: set<string>) {
    && ValidUpdates(u) && stale !! u.values.Keys
    && forall key :: key in u.values ==> IsKey(key) && OneLine(u.values[key])
  }

  /** What the walk has left of a key, after some of the lines. */
  ghost predicate WalkReads(u: Updates, stale: set<string>, lines: seq<string>, w: Walk, key: string) {
    && (key in w.remaining <==> key in u.values && !Mentions(lines, key))
    && LastRead(w.lines, key)
       == (if key in stale then None
           else if key !in u.values then LastRead(lines, key)
           else if Mentions(lines, key) then AfterMerge(u, lines, key)
           else None)
  }

  lemma {:induction false} WalkLineReads(u: Updates, stale: set<string>, lines: seq<string>, line: string, w: Walk, key: string)
    requires Readable(u, stale) && WalkReads(u, stale, lines, w, key)
    requires forall k :: k in w.remaining ==> k in u.values
    ensures WalkReads(u, stale, lines + [line], WalkLine(u, stale, w, line), key)
  {
    hide ParseKey, ParseAssignment, FormatLine, Mentions, LastRead, AfterFirst, IsKey, OneLine;
    var next := WalkLine(u, stale, w, line);
    MentionsMore(lines, line, key);
    AfterFirstMore(lines, line, key);
    LastReadMore(lines, line, key);
    LastReadMore(AfterFirst(lines, key), line, key);
    LastReadMore(w.lines, line, key);
    if ParseKey(line) != Some(key) { OtherLine(line, key); }
    if ParseKey(line).Some? && ParseKey(line).value in u.values {
      var k := ParseKey(line).value;
      FormatReadsBack(k, u.values[k]);
      LastReadMore(w.lines, FormatLine(k, u.values[k]), key);
    }
    assert LastRead([], key) == None by { NothingRead(key); }
  }

  lemma {:induction false} NothingRead(key: string)
    ensures LastRead([], key) == None
  {
  }

  lemma {:induction false} RemainingAreUpdates(u: Updates, stale: set<string>, lines: seq<string>)
    ensures forall k :: k in WalkLines(u, stale, lines).remaining ==> k in u.values
    decreases |lines|
  {
    hide ParseKey, FormatLine;
    if lines != [] { RemainingAreUpdates(u, stale, lines[..|lines| - 1]); }
  }

  lemma {:induction false} WalkLinesRead(u: Updates, stale: set<string>, lines: seq<string>, key: string)
    requires Readable(u, stale)
    ensures WalkReads(u, stale, lines, WalkLines(u, stale, lines), key)
    decreases |lines|
  {
    hide Readable, WalkLine, ParseKey, Mentions, AfterFirst, ParseAssignment;
    if lines == [] {
      NothingMentioned(key);
    } else {
      var before, line := lines[..|lines| - 1], lines[|lines| - 1];
      WalkLinesRead(u, stale, before, key);
      RemainingAreUpdates(u, stale, before);
      WalkLineReads(u, stale, before, line, WalkLines(u, stale, before), key);
      assert before + [line] == lines;
    }
  }

  /** Blank lines set nothing. */
  lemma {:induction false} BlanksReadNothing(lines: seq<string>, n: nat, key: string)
    requires n <= |lines| && forall k :: n <= k < |lines| ==> IsBlank(lines[k])
    ensures LastRead(lines, key) == LastRead(lines[..n], key)
    decreases |lines|
  {
    hide ParseAssignment, IsBlank;
    if n < |lines| {
      var last := |lines| - 1;
      BlankAssignsNothing(lines[last]);
      BlanksReadNothing(lines[..last], n, key);
      assert lines[..last][..n] == lines[..n];
    } else {
      assert lines[..n] == lines;
    }
  }

  lemma {:induction false} BlankAssignsNothing(line: string)
    requires IsBlank(line)
    ensures ParseKey(line) == None && ParseAssignment(line) == None
  {
    hide IsBlank;
    if ParseKey(line).Some? {
      AssignedIsNotBlank(line);
      assert false;
    }
  }

  lemma {:induction false} LastReadJoin(a: seq<string>, b: seq<string>, key: string)
    ensures LastRead(a + b, key) == if LastRead(b, key).Some? then LastRead(b, key) else LastRead(a, key)
    decreases |b|
  {
    hide ParseAssignment;
    if b == [] {
      assert a + b == a;
    } else {
      var n := |b| - 1;
      LastReadJoin(a, b[..n], key);
      assert (a + b)[..|a + b| - 1] == a + b[..n];
    }
  }

  /** The appended lines set exactly the updates that remain. */
  lemma {:induction false} AppendedRead(u: Updates, remaining: set<string>, keys: seq<string>, key: string)
    requires forall k :: k in u.values ==> IsKey(k) && OneLine(u.values[k])
    requires forall i, j :: 0 <= i < j < |keys| ==> keys[i] != keys[j]
    ensures LastRead(Appended(u, remaining, keys), key)
            == if key in keys && key in remaining && key in u.values then Some(u.values[key]) else None
    decreases |keys|
  {
    hide ParseAssignment, FormatLine, IsKey, OneLine;
    if keys != [] {
      AppendedRead(u, remaining, keys[1..], key);
      var rest := Appended(u, remaining, keys[1..]);
      if keys[0] in remaining && keys[0] in u.values {
        var line := FormatLine(keys[0], u.values[keys[0]]);
        FormatReadsBack(keys[0], u.values[keys[0]]);
        LastReadJoin([line], rest, key);
        LastReadMore([], line, key);
        assert [] + [line] == [line];
      } else {
        assert [] + rest == rest;
      }
      assert key in keys <==> key == keys[0] || key in keys[1..];
    }
  }

  /** What each key reads as in the merged lines. */
  lemma {:induction false} MergedReads(u: Updates, stale: set<string>, lines: seq<string>, key: string)
    requires Readable(u, stale)
    ensures LastRead(MergedLines(u, stale, lines), key)
            == if key in u.values then (if Mentions(lines, key) then AfterMerge(u, lines, key) else Some(u.values[key]))
               else if key in stale then None
               else LastRead(lines, key)
  {
    hide ParseAssignment, IsKey, OneLine, IsBlank, Mentions, AfterFirst, WalkLines;
    var w := WalkLines(u, stale, lines);
    WalkLinesRead(u, stale, lines, key);
    var body := TrimTrailingBlank(w.lines);
    assert body == w.lines[..|body|];
    BlanksReadNothing(w.lines, |body|, key);
    AppendedRead(u, w.remaining, u.keys, key);
    LastReadJoin(body, Appended(u, w.remaining, u.keys), key);
  }

  lemma {:induction false} OneLineHasNoBreak(u: Updates, stale: set<string>)
    requires Readable(u, stale)
    ensures Printable(u, stale)
  {
  }

  lemma {:induction false} FinishedReads(lines: seq<string>, key: string)
    requires forall i :: 0 <= i < |lines| ==> IsLine(lines[i])
    requires lines != [] ==> lines[|lines| - 1] != ""
    ensures key in Read(Finished(lines)) <==> LastRead(lines, key).Some?
    ensures key in Read(Finished(lines)) ==> LastRead(lines, key) == Some(Read(Finished(lines))[key])
  {
    hide ParseAssignment;
    FinishedLines(lines);
    ReadIsLast(Split(Finished(lines)), key);
    BlankEmpty();
    BlankAssignsNothing("");
    if lines == [] {
      assert Finished(lines) == "" && Split("") == [""];
      LastReadMore([], "", key);
      assert [] + [""] == [""];
    } else {
      LastReadMore(lines, "", key);
    }
  }

  lemma {:induction false} OriginalReads(original: string, key: string)
    ensures key in Read(original) <==> LastRead(LinesOf(original), key).Some?
    ensures key in Read(original) ==> LastRead(LinesOf(original), key) == Some(Read(original)[key])
  {
    hide ParseAssignment, Split;
    ReadIsLast(Split(original), key);
    if original == "" {
      assert Split("") == [""] by { SplitLine(""); }
      BlankEmpty();
      BlankAssignsNothing("");
      LastReadMore([], "", key);
      assert [] + [""] == [""];
    }
  }

  /**
   * Reading a merged file: every updated key has its new value, unless a line after its first one
   * set it again; no stale managed key is left; every other key reads as before.
   */
  lemma {:induction false} ReadAfterMerge(original: string, u: Updates, managed: set<string>, key: string)
    requires Readable(u, managed - u.values.Keys)
    ensures var after := Read(Merge(original, u, managed).content);
            if key in u.values then
              && key in after
              && (after[key] == u.values[key] <==>
                    LastRead(AfterFirst(LinesOf(original), key), key) in {None, Some(u.values[key])})
            else if key in managed then key !in after
            else
              && (key in after <==> key in Read(original))
              && (key in after ==> after[key] == Read(original)[key])
  {
    hide ParseAssignment, IsKey, OneLine, IsBlank, Mentions, AfterFirst, MergedLines, LastRead, Read, Finished, LinesOf, WalkLines, Split;
    var stale := managed - u.values.Keys;
    OriginalReads(original, key);
    if u.keys == [] && stale == {} {
      assert key !in u.values && (key in managed ==> key in stale);
    } else {
      OneLineHasNoBreak(u, stale);
      OriginalNoBreak(original);
      MergedIsStable(u, stale, LinesOf(original));
      var m := MergedLines(u, stale, LinesOf(original));
      BlankEmpty();
      FinishedReads(m, key);
      MergedReads(u, stale, LinesOf(original), key);
      NotMentioned(LinesOf(original), key);
    }
  }

  lemma {:induction false} NotMentioned(lines: seq<string>, key: string)
    ensures !Mentions(lines, key) ==> AfterFirst(lines, key) == [] && LastRead([], key) == None
    decreases |lines|
  {
    hide ParseKey;
    if lines != [] && !Mentions(lines, key) {
      assert forall i :: 0 <= i < |lines[1..]| ==> lines[1..][i] == lines[i + 1];
      NotMentioned(lines[1..], key);
    }
  }

  /** A key that no line assigns twice has its new value. */
  lemma {:induction false} AssignedOnce(lines: seq<string>, key: string)
    requires forall i, j :: 0 <= i < j < |lines| ==> !(ParseKey(lines[i]) == Some(key) && ParseKey(lines[j]) == Some(key))
    ensures LastRead(AfterFirst(lines, key), key) == None
    decreases |lines|
  {
    hide ParseKey, ParseAssignment;
    if lines != [] {
      if ParseKey(lines[0]) == Some(key) {
        forall j | 0 <= j < |lines[1..]| ensures ParseKey(lines[1..][j]) != Some(key) { assert lines[1..][j] == lines[j + 1]; }
        NeverRead(lines[1..], key);
      } else {
        forall i, j | 0 <= i < j < |lines[1..]|
          ensures !(ParseKey(lines[1..][i]) == Some(key) && ParseKey(lines[1..][j]) == Some(key))
        {
          assert lines[1..][i] == lines[i + 1] && lines[1..][j] == lines[j + 1];
        }
        AssignedOnce(lines[1..], key);
      }
    }
  }

  lemma {:induction false} NeverRead(lines: seq<string>, key: string)
    requires forall j :: 0 <= j < |lines| ==> ParseKey(lines[j]) != Some(key)
    ensures LastRead(lines, key) == None
    decreases |lines|
  {
    hide ParseKey, ParseAssignment;
    if lines != [] {
      OtherLine(lines[|lines| - 1], key);
      NeverRead(lines[..|lines| - 1], key);
    }
  }

  // ---------------------------------------------------------------------------
  // The other lines
  // ---------------------------------------------------------------------------

  /** The lines that assign neither an updated nor a stale key. */
  function Others(u: Updates, stale: set<string>, lines: seq<string>): seq<string> {
    if lines == [] then []
    else
      var last := lines[|lines| - 1];
      Others(u, stale, lines[..|lines| - 1])
      + (if ParseKey(last).Some? && (ParseKey(last).value in u.values || ParseKey(last).value in stale) then [] else [last])
  }

  lemma {:induction false} OthersJoin(u: Updates, stale: set<string>, a: seq<string>, b: seq<string>)
    ensures Others(u, stale, a + b) == Others(u, stale, a) + Others(u, stale, b)
    decreases |b|
  {
    hide ParseKey;
    if b == [] {
      assert a + b == a;
    } else {
      var n := |b| - 1;
      OthersJoin(u, stale, a, b[..n]);
      assert (a + b)[..|a + b| - 1] == a + b[..n];
    }
  }

  lemma {:induction false} WalkLineKeepsOthers(u: Updates, stale: set<string>, w: Walk, line: string)
    requires Printable(u, stale)
    ensures Others(u, stale, WalkLine(u, stale, w, line).lines) == Others(u, stale, w.lines) + Others(u, stale, [line])
  {
    hide ParseKey, FormatLine, IsKey, IsLine, Others;
    OthersOne(u, stale, line);
    OthersJoin(u, stale, w.lines, [line]);
    if ParseKey(line).Some? && ParseKey(line).value in u.values {
      var added := FormatLine(ParseKey(line).value, u.values[ParseKey(line).value]);
      FormatReadsBack(ParseKey(line).value, u.values[ParseKey(line).value]);
      OthersOne(u, stale, added);
      OthersJoin(u, stale, w.lines, [added]);
    }
    assert Others(u, stale, w.lines) + [] == Others(u, stale, w.lines);
  }

  lemma {:induction false} WalkKeepsOthers(u: Updates, stale: set<string>, lines: seq<string>)
    requires Printable(u, stale)
    ensures Others(u, stale, WalkLines(u, stale, lines).lines) == Others(u, stale, lines)
    decreases |lines|
  {
    hide WalkLine, Others, Printable;
    if lines == [] {
    } else {
      var before, line := lines[..|lines| - 1], lines[|lines| - 1];
      WalkKeepsOthers(u, stale, before);
      WalkLineKeepsOthers(u, stale, WalkLines(u, stale, before), line);
      OthersJoin(u, stale, before, [line]);
      assert before + [line] == lines;
    }
  }

  lemma {:induction false} OthersOne(u: Updates, stale: set<string>, line: string)
    ensures Others(u, stale, [line])
            == if ParseKey(line).Some? && (ParseKey(line).value in u.values || ParseKey(line).value in stale) then [] else [line]
  {
    hide ParseKey;
    assert [line][..0] == [];
  }

  lemma {:induction false} UpdatesAreNotOthers(u: Updates, stale: set<string>, lines: seq<string>)
    requires forall i :: 0 <= i < |lines| ==> ParseKey(lines[i]).Some? && ParseKey(lines[i]).value in u.values
    ensures Others(u, stale, lines) == []
    decreases |lines|
  {
    hide ParseKey;
    if lines != [] { UpdatesAreNotOthers(u, stale, lines[..|lines| - 1]); }
  }

  lemma {:induction false} BlanksAreOthers(u: Updates, stale: set<string>, lines: seq<string>)
    requires forall i :: 0 <= i < |lines| ==> IsBlank(lines[i])
    ensures Others(u, stale, lines) == lines
    decreases |lines|
  {
    hide ParseKey, IsBlank;
    if lines != [] {
      BlanksAreOthers(u, stale, lines[..|lines| - 1]);
      BlankAssignsNothing(lines[|lines| - 1]);
    }
  }

  /** Every line that assigns no updated and no stale key survives, in order, but for blank lines at the end. */
  lemma {:induction false} OthersSurvive(u: Updates, stale: set<string>, lines: seq<string>) returns (blanks: seq<string>)
    requires Printable(u, stale)
    ensures Others(u, stale, lines) == Others(u, stale, MergedLines(u, stale, lines)) + blanks
    ensures forall i :: 0 <= i < |blanks| ==> IsBlank(blanks[i])
  {
    hide ParseKey, IsBlank, Others, WalkLines, IsKey, IsLine;
    var w := WalkLines(u, stale, lines);
    WalkKeepsOthers(u, stale, lines);
    var body, more := TrimTrailingBlank(w.lines), Appended(u, w.remaining, u.keys);
    blanks := w.lines[|body|..];
    assert w.lines == body + blanks;
    OthersJoin(u, stale, body, blanks);
    BlanksAreOthers(u, stale, blanks);
    AppendedLines(u, w.remaining, u.keys);
    UpdatesAreNotOthers(u, stale, more);
    OthersJoin(u, stale, body, more);
    assert Others(u, stale, body) + [] == Others(u, stale, body);
  }
}

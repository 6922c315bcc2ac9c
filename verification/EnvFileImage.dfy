/** What `mergeEnvContent` makes of a file, line by line, and what `readEnvFile` reads: the last line that sets a key. */
module EnvFileImage {
  import opened Wrappers
  import opened Text
  import opened Trimming
  import opened EventStream
  import opened EnvFile
  import opened EnvFileMerge
  import opened EnvFileRead
  import opened EnvFileLines

  /** The line assigns `key`. */
  ghost predicate Keyed(line: string, key: string) { exists after: nat :: Assigns(line, key, after) }

  lemma {:induction false} KeyedIs(line: string, key: string)
    ensures ParseKey(line) == Some(key) <==> Keyed(line, key)
  {
    hide Assigned, Assigns;
    forall after: nat ensures Assigned(line) == Some((key, after)) <==> Assigns(line, key, after) { AssignedIs(line, key, after); }
  }

  /** A line before has assigned the key. */
  ghost predicate Seen(lines: seq<string>, key: string) { exists i {:trigger lines[i]} :: 0 <= i < |lines| && Keyed(lines[i], key) }

  /** What becomes of a line behind `before`: a stale one goes, the first one of an update is written anew, any other stays. */
  ghost predicate Becomes(u: Updates, stale: set<string>, before: seq<string>, line: string, image: seq<string>) {
    if exists key :: key in stale && Keyed(line, key) then image == []
    else if exists key :: Updated(u, before, line, key) then exists key :: Updated(u, before, line, key) && image == [FormatLine(key, u.values[key])]
    else image == [line]
  }

  ghost predicate Updated(u: Updates, before: seq<string>, line: string, key: string) {
    key in u.values && Keyed(line, key) && !Seen(before, key)
  }

  /** The lines of the file, each as what it has become. */
  ghost predicate Images(u: Updates, stale: set<string>, lines: seq<string>, out: seq<string>)
    decreases |lines|
  {
    if lines == [] then out == []
    else
      exists head, image ::
        out == head + image && Images(u, stale, lines[..|lines| - 1], head)
        && Becomes(u, stale, lines[..|lines| - 1], lines[|lines| - 1], image)
  }

  /** The keys of the lines that go, in order. */
  ghost predicate Drops(stale: set<string>, lines: seq<string>, keys: seq<string>)
    decreases |lines|
  {
    if lines == [] then keys == []
    else
      var before, last := lines[..|lines| - 1], lines[|lines| - 1];
      if exists key :: key in stale && Keyed(last, key)
      then keys != [] && keys[|keys| - 1] in stale && Keyed(last, keys[|keys| - 1]) && Drops(stale, before, keys[..|keys| - 1])
      else Drops(stale, before, keys)
  }

  /** The lines of the updates that no line has assigned, in their order. */
  ghost function Missing(u: Updates, lines: seq<string>, keys: seq<string>): seq<string>
    requires forall key :: key in keys ==> key in u.values
  {
    if keys == [] then []
    else (if Seen(lines, keys[0]) then [] else [FormatLine(keys[0], u.values[keys[0]])]) + Missing(u, lines, keys[1..])
  }

  lemma {:induction false} SeenMore(lines: seq<string>, key: string)
    requires lines != []
    ensures Seen(lines, key) <==> Seen(lines[..|lines| - 1], key) || Keyed(lines[|lines| - 1], key)
  {
    hide Keyed;
    var before := lines[..|lines| - 1];
    assert forall i :: 0 <= i < |before| ==> before[i] == lines[i];
  }

  /** One line of the walk, whose only key, if any, is what it is parsed as. */
  lemma {:induction false} LineBecomes(u: Updates, stale: set<string>, before: seq<string>, w: Walk, line: string) returns (image: seq<string>)
    requires stale !! u.values.Keys && forall key :: key in w.remaining <==> key in u.values && !Seen(before, key)
    ensures var next := WalkLine(u, stale, w, line);
            && next.lines == w.lines + image && Becomes(u, stale, before, line, image)
            && (forall key :: key in next.remaining <==> key in w.remaining && !Keyed(line, key))
            && (if exists key :: key in stale && Keyed(line, key)
                then exists key :: key in stale && Keyed(line, key) && next.removed == w.removed + [key]
                else next.removed == w.removed)
  {
    hide ParseKey, FormatLine, Keyed, Seen;
    var parsed := ParseKey(line);
    forall key ensures parsed == Some(key) <==> Keyed(line, key) { KeyedIs(line, key); }
    assert w.lines + [] == w.lines;
    if parsed.None? {
      image := [line];
    } else {
      var key := parsed.value;
      assert Keyed(line, key);
      if key in stale {
        image := [];
      } else if key in w.remaining {
        assert Updated(u, before, line, key);
        image := [FormatLine(key, u.values[key])];
      } else {
        image := [line];
      }
    }
  }

  lemma {:induction false} DropMore(stale: set<string>, lines: seq<string>, keys: seq<string>, more: seq<string>)
    requires lines != [] && Drops(stale, lines[..|lines| - 1], keys)
    requires var last := lines[|lines| - 1];
             if exists key :: key in stale && Keyed(last, key) then exists key :: key in stale && Keyed(last, key) && more == keys + [key]
             else more == keys
    ensures Drops(stale, lines, more)
  {
    hide Keyed;
    if more != keys { assert more[..|more| - 1] == keys; }
  }

  /** The walk, with what remains told by the lines seen. */
  lemma {:induction false} WalkIs(u: Updates, stale: set<string>, lines: seq<string>)
    requires stale !! u.values.Keys
    ensures var w := WalkLines(u, stale, lines);
            && Images(u, stale, lines, w.lines) && Drops(stale, lines, w.removed)
            && forall key :: key in w.remaining <==> key in u.values && !Seen(lines, key)
    decreases |lines|
  {
    hide WalkLine, Keyed, Seen, Becomes;
    if lines == [] {
      forall key ensures !Seen([], key) { NothingSeen(key); }
    } else {
      hide Drops;
      var before, last := lines[..|lines| - 1], lines[|lines| - 1];
      WalkIs(u, stale, before);
      var w := WalkLines(u, stale, before);
      var image := LineBecomes(u, stale, before, w, last);
      forall key ensures Seen(lines, key) <==> Seen(before, key) || Keyed(last, key) { SeenMore(lines, key); }
      DropMore(stale, lines, w.removed, WalkLines(u, stale, lines).removed);
    }
  }

  lemma {:induction false} NothingSeen(key: string)
    ensures !Seen([], key)
  {
  }

  lemma {:induction false} MissingIs(u: Updates, lines: seq<string>, remaining: set<string>, keys: seq<string>)
    requires forall key :: key in keys ==> key in u.values
    requires forall key :: key in remaining <==> key in u.values && !Seen(lines, key)
    ensures Appended(u, remaining, keys) == Missing(u, lines, keys)
    decreases |keys|
  {
    hide FormatLine, Seen;
    if keys != [] { MissingIs(u, lines, remaining, keys[1..]); }
  }

  lemma {:induction false} BlankIs(line: string)
    ensures IsBlank(line) <==> Blanks(line)
  {
    hide TrimStart, TrimEnd;
    if IsBlank(line) {
      var a := TrimStartParts(line);
      var z := TrimEndParts(TrimStart(line));
      assert TrimStart(line) == z;
    }
    if Blanks(line) {
      TrimStartIs(line, "");
      assert line + "" == line;
      NoLead("");
      TrimEndIs("", "");
    }
  }

  /** Every line, and a line break behind each. */
  function Ended(lines: seq<string>): string { if lines == [] then "" else Ended(lines[..|lines| - 1]) + (lines[|lines| - 1] + "\n") }

  lemma {:induction false} JoinMore(lines: seq<string>, line: string)
    requires lines != []
    ensures Join(lines + [line]) == Join(lines) + "\n" + line
    decreases |lines|
  {
    if |lines| == 1 {
      assert lines + [line] == [lines[0], line] && [lines[0], line][1..] == [line];
    } else {
      assert (lines + [line])[1..] == lines[1..] + [line];
      JoinMore(lines[1..], line);
      assert lines[0] + "\n" + (Join(lines[1..]) + "\n" + line) == lines[0] + "\n" + Join(lines[1..]) + "\n" + line;
    }
  }

  lemma {:induction false} EndedMore(before: seq<string>, last: string)
    ensures Ended(before + [last]) == Ended(before) + (last + "\n")
  {
    assert (before + [last])[..|before|] == before;
  }

  lemma {:induction false} EndedIs(lines: seq<string>)
    requires lines != []
    ensures Ended(lines) == Join(lines) + "\n"
    decreases |lines|
  {
    hide Join, Ended;
    var before, last := lines[..|lines| - 1], lines[|lines| - 1];
    assert lines == before + [last];
    EndedMore(before, last);
    if before != [] {
      EndedIs(before);
      JoinMore(before, last);
      Regroup(Join(before) + "\n", last, "\n");
    } else {
      EndedOne(last);
    }
  }

  lemma {:induction false} Regroup(a: string, b: string, c: string)
    ensures a + (b + c) == a + b + c
  {
  }

  lemma {:induction false} EndedOne(line: string)
    ensures Ended([]) + (line + "\n") == line + "\n" && Join([line]) == line && [] + [line] == [line]
  {
  }

  lemma {:induction false} FinishedIs(lines: seq<string>)
    requires lines != [] ==> lines[|lines| - 1] != ""
    ensures Finished(lines) == Ended(lines)
  {
    if lines != [] {
      JoinNonEmpty(lines);
      EndedIs(lines);
    }
  }

  /** The lines of a text: none of an empty one. */
  ghost predicate HasLines(text: string, lines: seq<string>) {
    if text == "" then lines == []
    else lines != [] && (forall i, k :: 0 <= i < |lines| && 0 <= k < |lines[i]| ==> lines[i][k] != '\n') && text + "\n" == Ended(lines)
  }

  lemma {:induction false} LinesAre(text: string)
    ensures HasLines(text, LinesOf(text))
  {
    if text != "" {
      JoinSplit(text);
      EndedIs(Split(text));
    }
  }

  /** `body` is `lines` without the blank lines at its end. */
  ghost predicate Shorn(lines: seq<string>, body: seq<string>) {
    && body <= lines && (forall k :: |body| <= k < |lines| ==> Blanks(lines[k])) && (body != [] ==> !Blanks(body[|body| - 1]))
  }

  lemma {:induction false} ShornIs(lines: seq<string>)
    ensures Shorn(lines, TrimTrailingBlank(lines))
  {
    hide IsBlank, Blanks;
    forall k | 0 <= k < |lines| ensures IsBlank(lines[k]) <==> Blanks(lines[k]) { BlankIs(lines[k]); }
  }

  lemma {:induction false} MissingEnds(u: Updates, lines: seq<string>, keys: seq<string>)
    requires forall key :: key in keys ==> key in u.values
    ensures forall i :: 0 <= i < |Missing(u, lines, keys)| ==> Missing(u, lines, keys)[i] != ""
    decreases |keys|
  {
    hide Seen;
    if keys != [] { MissingEnds(u, lines, keys[1..]); }
  }

  /**
   * A merge leaves every line as what it has become, without blank lines at the end, and the lines of
   * the missing updates behind them, each ended by a line break. It reports all updates as written and
   * the keys of the lines that went. With nothing to write and nothing stale the file is left alone.
   */
  lemma {:induction false} MergeIs(original: string, u: Updates, managed: set<string>)
    returns (lines: seq<string>, images: seq<string>, body: seq<string>)
    requires ValidUpdates(u)
    ensures var stale, r := managed - u.values.Keys, Merge(original, u, managed);
            if u.keys == [] && stale == {} then r == Merged(original, [], [])
            else
              && HasLines(original, lines) && Images(u, stale, lines, images) && Shorn(images, body)
              && r.content == Ended(body + Missing(u, lines, u.keys)) && r.written == u.keys && Drops(stale, lines, r.removed)
  {
    hide WalkLines, TrimTrailingBlank, Images, Drops, Missing, Finished, LinesOf, HasLines;
    var stale := managed - u.values.Keys;
    lines := LinesOf(original);
    LinesAre(original);
    WalkIs(u, stale, lines);
    var w := WalkLines(u, stale, lines);
    images := w.lines;
    body := TrimTrailingBlank(images);
    ShornIs(images);
    MissingIs(u, lines, w.remaining, u.keys);
    MissingEnds(u, lines, u.keys);
    LastIsSolid(images, body, Missing(u, lines, u.keys));
    FinishedIs(body + Missing(u, lines, u.keys));
  }

  lemma {:induction false} LastIsSolid(images: seq<string>, body: seq<string>, more: seq<string>)
    requires Shorn(images, body) && forall i :: 0 <= i < |more| ==> more[i] != ""
    ensures var all := body + more; all != [] ==> all[|all| - 1] != ""
  {
  }

  // ---------------------------------------------------------------------------
  // Reading
  // ---------------------------------------------------------------------------

  /** The last line that sets the key sets it to `value`. */
  ghost predicate LastSets(lines: seq<string>, key: string, value: string) {
    exists i {:trigger lines[i]} :: 0 <= i < |lines| && Sets(lines[i], key, value)
      && forall j {:trigger lines[j]} :: i < j < |lines| ==> SetsNot(lines[j], key)
  }

  ghost predicate SetsNot(line: string, key: string) { forall value :: !Sets(line, key, value) }

  lemma {:induction false} LastSetsMore(lines: seq<string>, key: string, value: string)
    requires lines != []
    ensures LastSets(lines, key, value) <==>
            || Sets(lines[|lines| - 1], key, value)
            || (SetsNot(lines[|lines| - 1], key) && LastSets(lines[..|lines| - 1], key, value))
  {
    hide Sets, SetsNot;
    var before := lines[..|lines| - 1];
    assert forall i :: 0 <= i < |before| ==> before[i] == lines[i];
  }

  lemma {:induction false} ReadLinesIs(lines: seq<string>, key: string, value: string)
    ensures key in ReadLines(lines) && ReadLines(lines)[key] == value <==> LastSets(lines, key, value)
    decreases |lines|
  {
    hide ParseAssignment, Sets;
    if lines != [] {
      var last := lines[|lines| - 1];
      ReadLinesIs(lines[..|lines| - 1], key, value);
      LastSetsMore(lines, key, value);
      forall v ensures ParseAssignment(last) == Some((key, v)) <==> Sets(last, key, v) { SetsIs(last, key, v); }
    }
  }

  /** A file reads a key as the value its last line that sets it gives. */
  lemma {:induction false} ReadIs(content: string, key: string, value: string) returns (lines: seq<string>)
    ensures HasLines(content, lines)
    ensures key in Read(content) && Read(content)[key] == value <==> LastSets(lines, key, value)
  {
    hide LastSets, Split, HasLines, LastRead;
    lines := LinesOf(content);
    LinesAre(content);
    ReadLinesIs(lines, key, value);
    if content == "" { EmptyReads(); }
  }

  lemma {:induction false} EmptyReads()
    ensures Read("") == ReadLines(LinesOf(""))
  {
    BlankEmpty();
    BlankAssignsNothing("");
    assert Split("") == [""];
    assert [""][..0] == [];
    assert ReadLines([""]) == ReadLines([]);
  }
}

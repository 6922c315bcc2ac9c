/** A merged dotenv file: merged again, read back, and what it keeps. */
module EnvFileMerge {
  import opened Wrappers
  import opened Text
  import opened EventStream
  import opened EnvFile

  // ---------------------------------------------------------------------------
  // Lines and text
  // ---------------------------------------------------------------------------

  lemma {:induction false} JoinEnded(lines: seq<string>)
    requires lines != []
    ensures Join(lines) + "\n" == Join(lines + [""])
    decreases |lines|
  {
    if |lines| == 1 {
      assert lines + [""] == [lines[0], ""];
      assert [lines[0], ""][1..] == [""];
    } else {
      JoinEnded(lines[1..]);
      assert (lines + [""])[1..] == lines[1..] + [""];
      assert lines[0] + "\n" + Join(lines[1..]) + "\n" == lines[0] + "\n" + (Join(lines[1..]) + "\n");
    }
  }

  lemma {:induction false} JoinNonEmpty(lines: seq<string>)
    requires lines != [] && lines[|lines| - 1] != ""
    ensures Join(lines) != ""
    decreases |lines|
  {
    if |lines| > 1 { JoinNonEmpty(lines[1..]); }
  }

  /** A finished file splits back into its lines and an empty last one. */
  lemma {:induction false} FinishedLines(lines: seq<string>)
    requires forall i :: 0 <= i < |lines| ==> IsLine(lines[i])
    requires lines != [] ==> lines[|lines| - 1] != ""
    ensures LinesOf(Finished(lines)) == if lines == [] then [] else lines + [""]
  {
    if lines != [] {
      JoinNonEmpty(lines);
      JoinEnded(lines);
      SplitJoin(lines + [""]);
    }
  }

  lemma {:induction false} EscapedNoBreak(s: string)
    ensures IsLine(s) ==> IsLine(EscapeQuotes(s)) && IsLine(DoubleBackslashes(s))
  {
    if s != "" { EscapedNoBreak(s[1..]); }
  }

  lemma {:induction false} FormattedNoBreak(key: string, value: string)
    requires IsKey(key) && IsLine(value)
    ensures IsLine(FormatLine(key, value))
  {
    EscapedNoBreak(value);
    EscapedNoBreak(DoubleBackslashes(value));
  }

  /** A line that assigns is not blank. */
  lemma {:induction false} AssignedIsNotBlank(line: string)
    requires ParseKey(line).Some?
    ensures !IsBlank(line)
  {
    var after := Assigned(line).value.1;
    if IsBlank(line) {
      BlankIsSpace(line, after - 1);
      EqualsBefore(line);
      assert false;
    }
  }

  lemma {:induction false} EqualsBefore(line: string)
    requires Assigned(line).Some?
    ensures line[Assigned(line).value.1 - 1] == '='
  {
  }

  lemma {:induction false} TrimEndSpace(s: string, k: nat)
    requires k < |s| && TrimEnd(s) == ""
    ensures IsSpace(s[k])
  {
    if k < |s| - 1 { TrimEndSpace(s[..|s| - 1], k); }
  }

  lemma {:induction false} BlankIsSpace(s: string, k: nat)
    requires k < |s| && IsBlank(s)
    ensures IsSpace(s[k])
  {
    if IsSpace(s[0]) {
      if k > 0 { BlankIsSpace(s[1..], k - 1); }
    } else {
      TrimEndSpace(s, k);
    }
  }

  // ---------------------------------------------------------------------------
  // Merging again
  // ---------------------------------------------------------------------------

  predicate Mentions(lines: seq<string>, key: string) { exists i :: 0 <= i < |lines| && ParseKey(lines[i]) == Some(key) }

  /** Every line is one the walk leaves alone, and the first line of each update is its formatted one. */
  ghost predicate Stable(u: Updates, stale: set<string>, lines: seq<string>) {
    forall i :: 0 <= i < |lines| && ParseKey(lines[i]).Some? ==>
      var key := ParseKey(lines[i]).value;
      key !in stale && (key in u.values ==> lines[i] == FormatLine(key, u.values[key]) || Mentions(lines[..i], key))
  }

  /** Identifier keys with values on one line each, none of them stale. */
  ghost predicate Printable(u: Updates, stale: set<string>) {
    && ValidUpdates(u) && stale !! u.values.Keys
    && forall key :: key in u.values ==> IsKey(key) && IsLine(u.values[key])
  }

  lemma {:induction false} MentionsMore(lines: seq<string>, line: string, key: string)
    ensures Mentions(lines + [line], key) <==> Mentions(lines, key) || ParseKey(line) == Some(key)
  {
    hide ParseKey;
    if Mentions(lines, key) {
      var i :| 0 <= i < |lines| && ParseKey(lines[i]) == Some(key);
      assert (lines + [line])[i] == lines[i];
    }
    if ParseKey(line) == Some(key) { assert (lines + [line])[|lines|] == line; }
  }

  lemma {:induction false} StableMore(u: Updates, stale: set<string>, lines: seq<string>, line: string)
    requires Stable(u, stale, lines)
    requires ParseKey(line).Some? ==>
               var key := ParseKey(line).value;
               key !in stale && (key in u.values ==> line == FormatLine(key, u.values[key]) || Mentions(lines, key))
    ensures Stable(u, stale, lines + [line])
  {
    hide ParseKey, FormatLine, Mentions;
    var all := lines + [line];
    forall i | 0 <= i < |all| && ParseKey(all[i]).Some?
      ensures var key := ParseKey(all[i]).value;
              key !in stale && (key in u.values ==> all[i] == FormatLine(key, u.values[key]) || Mentions(all[..i], key))
    {
      assert i < |lines| ==> all[..i] == lines[..i];
      assert i == |lines| ==> all[..i] == lines;
    }
  }

  lemma {:induction false} StablePrefix(u: Updates, stale: set<string>, lines: seq<string>, n: nat)
    requires Stable(u, stale, lines) && n <= |lines|
    ensures Stable(u, stale, lines[..n])
  {
    hide ParseKey, FormatLine, Mentions;
    forall i | 0 <= i < n ensures lines[..n][..i] == lines[..i] {
      assert lines[..n][..i] == lines[..i];
    }
  }

  /** Walking any lines gives stable ones, with each update either mentioned or remaining. */
  lemma {:induction false} WalkIsStable(u: Updates, stale: set<string>, lines: seq<string>)
    requires Printable(u, stale) && forall i :: 0 <= i < |lines| ==> IsLine(lines[i])
    ensures var w := WalkLines(u, stale, lines);
            && Stable(u, stale, w.lines) && (forall i :: 0 <= i < |w.lines| ==> IsLine(w.lines[i]))
            && (forall key :: key in w.remaining <==> key in u.values && !Mentions(w.lines, key))
    decreases |lines|
  {
    hide ParseKey, FormatLine, Mentions, Stable, IsKey, IsLine;
    if lines == [] {
      assert Stable(u, stale, []) by { NothingIsStable(u, stale); }
      forall key ensures !Mentions([], key) { NothingMentioned(key); }
    } else {
      var before, line := lines[..|lines| - 1], lines[|lines| - 1];
      WalkIsStable(u, stale, before);
      var w := WalkLines(u, stale, before);
      var next := WalkLine(u, stale, w, line);
      var key := ParseKey(line);
      var added := if key.Some? && key.value in w.remaining && key.value in u.values && key.value !in stale
                   then FormatLine(key.value, u.values[key.value]) else line;
      if key.Some? && key.value in u.values {
        FormatReadsBack(key.value, u.values[key.value]);
        FormattedNoBreak(key.value, u.values[key.value]);
      }
      if next.lines != w.lines {
        assert next.lines == w.lines + [added];
        StableMore(u, stale, w.lines, added);
        forall k ensures Mentions(next.lines, k) <==> Mentions(w.lines, k) || ParseKey(added) == Some(k) {
          MentionsMore(w.lines, added, k);
        }
      }
    }
  }

  lemma {:induction false} NothingIsStable(u: Updates, stale: set<string>)
    ensures Stable(u, stale, [])
  {
  }

  lemma {:induction false} NothingMentioned(key: string)
    ensures !Mentions([], key)
  {
  }

  /** Walking stable lines leaves them as they are. */
  lemma {:induction false} WalkOfStable(u: Updates, stale: set<string>, lines: seq<string>)
    requires Stable(u, stale, lines)
    ensures var w := WalkLines(u, stale, lines);
            && w.lines == lines && w.removed == []
            && (forall key :: key in w.remaining <==> key in u.values && !Mentions(lines, key))
    decreases |lines|
  {
    hide ParseKey, FormatLine, Mentions;
    if lines == [] {
      forall key ensures !Mentions([], key) { NothingMentioned(key); }
    } else {
      var n := |lines| - 1;
      StablePrefix(u, stale, lines, n);
      WalkOfStable(u, stale, lines[..n]);
      assert lines == lines[..n] + [lines[n]];
      forall k ensures Mentions(lines, k) <==> Mentions(lines[..n], k) || ParseKey(lines[n]) == Some(k) {
        MentionsMore(lines[..n], lines[n], k);
      }
    }
  }

  /** The appended lines are the formatted ones of what remains. */
  lemma {:induction false} AppendedLines(u: Updates, remaining: set<string>, keys: seq<string>)
    requires forall key :: key in u.values ==> IsKey(key) && IsLine(u.values[key])
    ensures forall i :: 0 <= i < |Appended(u, remaining, keys)| ==>
              var line := Appended(u, remaining, keys)[i];
              ParseKey(line).Some? && ParseKey(line).value in remaining && ParseKey(line).value in u.values
              && line == FormatLine(ParseKey(line).value, u.values[ParseKey(line).value]) && IsLine(line)
    ensures forall key :: key in keys && key in remaining && key in u.values ==> Mentions(Appended(u, remaining, keys), key)
    decreases |keys|
  {
    hide ParseKey, FormatLine, IsKey, IsLine;
    if keys != [] {
      AppendedLines(u, remaining, keys[1..]);
      var rest := Appended(u, remaining, keys[1..]);
      if keys[0] in remaining && keys[0] in u.values {
        FormatReadsBack(keys[0], u.values[keys[0]]);
        FormattedNoBreak(keys[0], u.values[keys[0]]);
        var all := Appended(u, remaining, keys);
        assert all[0] == FormatLine(keys[0], u.values[keys[0]]);
        assert all[1..] == rest;
        forall key | key in keys && key in remaining && key in u.values ensures Mentions(all, key) {
          if key != keys[0] {
            assert Mentions(rest, key);
            var i :| 0 <= i < |rest| && ParseKey(rest[i]) == Some(key);
            assert all[i + 1] == rest[i];
          }
        }
      } else {
        assert [] + rest == rest;
      }
    }
  }

  lemma {:induction false} StableJoin(u: Updates, stale: set<string>, a: seq<string>, b: seq<string>)
    requires Stable(u, stale, a)
    requires forall i :: 0 <= i < |b| && ParseKey(b[i]).Some? ==>
               ParseKey(b[i]).value !in stale && ParseKey(b[i]).value in u.values && b[i] == FormatLine(ParseKey(b[i]).value, u.values[ParseKey(b[i]).value])
    ensures Stable(u, stale, a + b)
    decreases |b|
  {
    hide ParseKey, FormatLine, Stable, Mentions;
    if b == [] {
      assert a + b == a;
    } else {
      var n := |b| - 1;
      StableJoin(u, stale, a, b[..n]);
      StableMore(u, stale, a + b[..n], b[n]);
      assert a + b[..n] + [b[n]] == a + b;
    }
  }

  lemma {:induction false} MentionsPart(lines: seq<string>, n: nat, key: string)
    requires n <= |lines| && Mentions(lines, key) && forall k :: n <= k < |lines| ==> IsBlank(lines[k])
    ensures Mentions(lines[..n], key)
  {
    hide ParseKey, IsBlank;
    var i :| 0 <= i < |lines| && ParseKey(lines[i]) == Some(key);
    AssignedIsNotBlank(lines[i]);
    assert lines[..n][i] == lines[i];
  }

  lemma {:induction false} MentionsJoin(a: seq<string>, b: seq<string>, key: string)
    requires Mentions(a, key) || Mentions(b, key)
    ensures Mentions(a + b, key)
  {
    hide ParseKey;
    if Mentions(a, key) {
      var i :| 0 <= i < |a| && ParseKey(a[i]) == Some(key);
      assert (a + b)[i] == a[i];
    } else {
      var i :| 0 <= i < |b| && ParseKey(b[i]) == Some(key);
      assert (a + b)[|a| + i] == b[i];
    }
  }

  /** The merged lines: stable, with every update mentioned, and no blank line last. */
  lemma {:induction false} MergedIsStable(u: Updates, stale: set<string>, lines: seq<string>)
    requires Printable(u, stale) && forall i :: 0 <= i < |lines| ==> IsLine(lines[i])
    ensures var m := MergedLines(u, stale, lines);
            && Stable(u, stale, m) && (forall i :: 0 <= i < |m| ==> IsLine(m[i]))
            && (forall key :: key in u.values ==> Mentions(m, key))
            && (m != [] ==> !IsBlank(m[|m| - 1]))
  {
    hide ParseKey, FormatLine, Mentions, Stable, IsKey, IsLine, IsBlank;
    var w := WalkLines(u, stale, lines);
    WalkIsStable(u, stale, lines);
    var body, more := TrimTrailingBlank(w.lines), Appended(u, w.remaining, u.keys);
    assert body == w.lines[..|body|];
    StablePrefix(u, stale, w.lines, |body|);
    AppendedLines(u, w.remaining, u.keys);
    StableJoin(u, stale, body, more);
    forall key | key in u.values ensures Mentions(body + more, key) {
      if key !in w.remaining { MentionsPart(w.lines, |body|, key); }
      MentionsJoin(body, more, key);
    }
    if more != [] { AssignedIsNotBlank(more[|more| - 1]); }
  }

  /** Merging a merged file again changes nothing, even with keys assigned more than once. */
  lemma {:induction false} MergeIsIdempotent(original: string, u: Updates, managed: set<string>)
    requires Printable(u, managed - u.values.Keys)
    ensures var content := Merge(original, u, managed).content;
            Merge(content, u, managed).content == content
            && Merge(content, u, managed).removed == []
  {
    hide ParseKey, FormatLine, Mentions, Stable, IsKey, IsLine, IsBlank, WalkLines, LinesOf, Finished;
    var stale := managed - u.values.Keys;
    if !(u.keys == [] && stale == {}) {
      OriginalNoBreak(original);
      MergedIsStable(u, stale, LinesOf(original));
      var m := MergedLines(u, stale, LinesOf(original));
      BlankEmpty();
      FinishedLines(m);
      MergedAgain(u, stale, m);
    }
  }

  lemma {:induction false} OriginalNoBreak(original: string)
    ensures forall i :: 0 <= i < |LinesOf(original)| ==> IsLine(LinesOf(original)[i])
  {
  }

  lemma {:induction false} BlankEmpty()
    ensures IsBlank("") && ParseKey("") == None
  {
  }

  lemma {:induction false} MergedAgain(u: Updates, stale: set<string>, m: seq<string>)
    requires ValidUpdates(u) && Stable(u, stale, m) && (forall key :: key in u.values ==> Mentions(m, key))
    requires m != [] ==> !IsBlank(m[|m| - 1])
    ensures MergedLines(u, stale, if m == [] then [] else m + [""]) == m
    ensures WalkLines(u, stale, if m == [] then [] else m + [""]).removed == []
  {
    hide ParseKey, FormatLine, Mentions, Stable, IsBlank, WalkLines;
    var lines := if m == [] then [] else m + [""];
    BlankEmpty();
    if m != [] { StableMore(u, stale, m, ""); }
    WalkOfStable(u, stale, lines);
    forall key | key in u.values ensures Mentions(lines, key) {
      if m != [] { MentionsMore(m, "", key); } else { NothingMentioned(key); }
    }
    assert WalkLines(u, stale, lines).remaining == {};
    NothingAppended(u, u.keys);
    if m != [] {
      assert lines[..|lines| - 1] == m;
      assert TrimTrailingBlank(lines) == m;
    }
  }

  lemma {:induction false} NothingAppended(u: Updates, keys: seq<string>)
    ensures Appended(u, {}, keys) == []
    decreases |keys|
  {
    if keys != [] { NothingAppended(u, keys[1..]); }
  }
}

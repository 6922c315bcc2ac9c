/**
 * What a line of a dotenv file says, on its characters: which lines assign, quoted and `export`ed
 * ones among them, what they read as, how values are written, and what a merge does line by line.
 */
module EnvFileLines {
  import opened Wrappers
  import opened Text
  import opened Trimming
  import opened EnvFile

  // ---------------------------------------------------------------------------
  // Assignments
  // ---------------------------------------------------------------------------

  /** Letters, digits and underscores, and no digit first. */
  predicate IsName(s: string) {
    && s != "" && !('0' <= s[0] <= '9')
    && forall k :: 0 <= k < |s| ==> 'a' <= s[k] <= 'z' || 'A' <= s[k] <= 'Z' || '0' <= s[k] <= '9' || s[k] == '_'
  }

  /** A name at `i`, blanks, and the equals sign just before `after`. */
  ghost predicate Names(line: string, i: nat, key: string, after: nat) {
    && IsName(key) && i + |key| < after <= |line| && line[i..i + |key|] == key
    && Blanks(line[i + |key|..after - 1]) && line[after - 1] == '='
  }

  /** The name starts at `i`: behind blanks, or behind blanks, the word `export` and more blanks. */
  ghost predicate Begins(line: string, i: nat) {
    || (i <= |line| && Blanks(line[..i]))
    || exists p: nat :: Exported(line, p, i)
  }

  ghost predicate Exported(line: string, p: nat, i: nat) {
    && p + 6 < i <= |line| && Blanks(line[..p]) && line[p..p + 6] == "export" && Blanks(line[p + 6..i])
  }

  /** The line assigns `key`, and its equals sign stands just before `after`. */
  ghost predicate Assigns(line: string, key: string, after: nat) { exists i: nat :: Begins(line, i) && Names(line, i, key, after) }

  lemma {:induction false} NameIs(s: string)
    ensures IsKey(s) <==> IsName(s)
  {
  }

  lemma {:induction false} SpaceEndIs(s: string, i: nat, e: nat)
    requires i <= e <= |s| && (forall k :: i <= k < e ==> IsSpace(s[k])) && (e < |s| ==> !IsSpace(s[e]))
    ensures SpaceEnd(s, i) == e
    decreases e - i
  {
    if i < e { SpaceEndIs(s, i + 1, e); }
  }

  lemma {:induction false} BlankStretch(s: string, i: nat, e: nat)
    requires i <= e <= |s|
    ensures Blanks(s[i..e]) <==> forall k :: i <= k < e ==> IsSpace(s[k])
  {
    assert forall k :: i <= k < e ==> s[i..e][k - i] == s[k];
  }

  lemma {:induction false} NamesIs(line: string, i: nat, key: string, after: nat)
    requires i <= |line|
    ensures KeyAt(line, i) == Some((key, after)) <==> Names(line, i, key, after)
  {
    if Names(line, i, key, after) { NamesRead(line, i, key, after); }
    if KeyAt(line, i) == Some((key, after)) {
      var e := WordEnd(line, i);
      NameIs(key);
      assert forall k :: 0 <= k < |key| ==> key[k] == line[i + k];
      assert IsWord(line[i]);
      BlankStretch(line, e, after - 1);
    }
  }

  lemma {:induction false} NamesRead(line: string, i: nat, key: string, after: nat)
    requires Names(line, i, key, after)
    ensures KeyAt(line, i) == Some((key, after))
  {
    var e := i + |key|;
    NameIs(key);
    forall k | i <= k < e ensures IsWord(line[k]) && line[k] == key[k - i] { assert line[i..e][k - i] == line[k]; }
    BlankStretch(line, e, after - 1);
    assert e < after - 1 ==> IsSpace(line[e]);
    SpaceIsNoWord(line[e]);
    WordEndAt(line, i, e);
    SpaceEndIs(line, e, after - 1);
  }

  lemma {:induction false} SpaceIsNoWord(c: char)
    ensures IsSpace(c) || c == '=' ==> !IsWord(c)
  {
  }

  /** From where the name may start. */
  lemma {:induction false} AssignedIs(line: string, key: string, after: nat)
    ensures Assigned(line) == Some((key, after)) <==> Assigns(line, key, after)
  {
    hide KeyAt, Names;
    var p := SpaceEnd(line, 0);
    BlankStretch(line, 0, p);
    assert line[0..p] == line[..p];
    forall i: nat | i <= |line| ensures KeyAt(line, i) == Some((key, after)) <==> Names(line, i, key, after) { NamesIs(line, i, key, after); }
    if Assigned(line) == Some((key, after)) { AssignedAssigns(line, key, after); }
    if Assigns(line, key, after) {
      var i: nat :| Begins(line, i) && Names(line, i, key, after);
      AssignsIsAssigned(line, i, key, after);
    }
  }

  lemma {:induction false} AssignedAssigns(line: string, key: string, after: nat)
    requires Assigned(line) == Some((key, after))
    ensures Assigns(line, key, after)
  {
    hide KeyAt, Names;
    var p := SpaceEnd(line, 0);
    BlankStretch(line, 0, p);
    assert line[0..p] == line[..p];
    if EXPORT <= line[p..] && p + 6 < |line| && IsSpace(line[p + 6]) && KeyAt(line, SpaceEnd(line, p + 6)).Some? {
      var i := SpaceEnd(line, p + 6);
      BlankStretch(line, p + 6, i);
      NamesIs(line, i, key, after);
      assert line[p..p + 6] == line[p..][..6] == "export";
      assert Exported(line, p, i);
    } else {
      NamesIs(line, p, key, after);
    }
  }

  lemma {:induction false} NameStart(line: string, i: nat, key: string, after: nat)
    requires Names(line, i, key, after)
    ensures i < |line| && line[i] == key[0] && !IsSpace(line[i])
  {
    assert line[i..i + |key|][0] == line[i];
  }

  lemma {:induction false} AssignsIsAssigned(line: string, i: nat, key: string, after: nat)
    requires Begins(line, i) && Names(line, i, key, after)
    ensures Assigned(line) == Some((key, after))
  {
    hide KeyAt, Names;
    NameStart(line, i, key, after);
    NamesIs(line, i, key, after);
    if p: nat :| Exported(line, p, i) {
      assert line[..p] == line[0..p];
      BlankStretch(line, 0, p);
      assert line[p..p + 6][0] == line[p] == 'e';
      SpaceEndIs(line, 0, p);
      assert line[p..][..6] == line[p..p + 6];
      BlankStretch(line, p + 6, i);
      SpaceEndIs(line, p + 6, i);
    } else {
      assert line[..i] == line[0..i];
      BlankStretch(line, 0, i);
      SpaceEndIs(line, 0, i);
      if EXPORT <= line[i..] && i + 6 < |line| && IsSpace(line[i + 6]) && KeyAt(line, SpaceEnd(line, i + 6)).Some? {
        NotTwice(line, i, key, after);
      }
    }
  }

  /** The word `export` with a name behind it is not a name with an equals sign behind it. */
  lemma {:induction false} NotTwice(line: string, i: nat, key: string, after: nat)
    requires Names(line, i, key, after) && EXPORT <= line[i..] && i + 6 < |line| && IsSpace(line[i + 6])
    ensures KeyAt(line, SpaceEnd(line, i + 6)).None?
  {
    var e := i + |key|;
    forall k | i <= k < e ensures IsWord(line[k]) { NameIs(key); assert line[i..e][k - i] == line[k] == key[k - i]; }
    SpaceIsNoWord(line[i + 6]);
    assert e <= i + 6;
    BlankStretch(line, e, after - 1);
    assert IsSpace(line[e]) || line[e] == '=';
    SpaceIsNoWord(line[e]);
    if e < i + 6 {
      ExportIsWord(e - i);
    }
    SpaceEndIs(line, i + 6, after - 1);
  }

  lemma {:induction false} ExportIsWord(k: nat)
    requires k < 6
    ensures IsWord(EXPORT[k])
  {
  }

  // ---------------------------------------------------------------------------
  // Values
  // ---------------------------------------------------------------------------

  /** Every occurrence of `from`, left to right, replaced. */
  function ReplaceAll(s: string, from: string, put: string): string
    requires from != ""
    decreases |s|
  {
    if s == "" then ""
    else if from <= s then put + ReplaceAll(s[|from|..], from, put)
    else [s[0]] + ReplaceAll(s[1..], from, put)
  }

  lemma {:induction false} StartsWithTwo(s: string, a: char, b: char)
    ensures [a, b] <= s <==> |s| >= 2 && s[0] == a && s[1] == b
  {
  }

  lemma {:induction false} UnescapeIs(s: string)
    ensures UnescapeQuotes(s) == ReplaceAll(s, "\\\"", "\"") && HalveBackslashes(s) == ReplaceAll(s, "\\\\", "\\")
    decreases |s|
  {
    StartsWithTwo(s, '\\', '"');
    StartsWithTwo(s, '\\', '\\');
    if |s| == 1 {
      assert s == [s[0]] + s[1..];
    } else if |s| > 1 {
      UnescapeIs(s[1..]);
      UnescapeIs(s[2..]);
    }
  }

  lemma {:induction false} EscapeIs(s: string)
    ensures EscapeQuotes(s) == ReplaceAll(s, "\"", "\\\"") && DoubleBackslashes(s) == ReplaceAll(s, "\\", "\\\\")
    decreases |s|
  {
    if s != "" {
      assert "\"" <= s <==> s[0] == '"';
      assert "\\" <= s <==> s[0] == '\\';
      EscapeIs(s[1..]);
    }
  }

  /** A text without blanks at its ends. */
  predicate Tight(s: string) { s != "" ==> !IsSpace(s[0]) && !IsSpace(s[|s| - 1]) }

  /** What a value reads as: between double quotes unescaped, between single quotes as it stands, and else itself. */
  ghost predicate Means(text: string, value: string) {
    if |text| >= 2 && text[0] == '"' && text[|text| - 1] == '"' then
      value == ReplaceAll(ReplaceAll(text[1..|text| - 1], "\\\"", "\""), "\\\\", "\\")
    else if |text| >= 2 && text[0] == '\'' && text[|text| - 1] == '\'' then value == text[1..|text| - 1]
    else value == text
  }

  lemma {:induction false} MeansIs(text: string, value: string)
    ensures Unquote(text) == value <==> Means(text, value)
  {
    hide HalveBackslashes, UnescapeQuotes, ReplaceAll;
    if |text| >= 2 {
      var inner := text[1..|text| - 1];
      UnescapeIs(inner);
      UnescapeIs(UnescapeQuotes(inner));
    }
  }

  /** The line sets `key` to `value`: behind the equals sign stands, blanks aside, a text on one line that means `value`. */
  ghost predicate Sets(line: string, key: string, value: string) {
    exists after: nat, a: string, text: string, z: string ::
      Assigns(line, key, after) && Behind(line, after, a, text, z) && Means(text, value)
  }

  ghost predicate Behind(line: string, after: nat, a: string, text: string, z: string) {
    && after <= |line| && line[after..] == a + text + z && Blanks(a) && Blanks(z) && Tight(text)
    && (text == "" ==> z == "")
    && forall k :: 0 <= k < |text + z| ==>
                     (text + z)[k] != '\n' && (text + z)[k] != '\r' && (text + z)[k] != '\U{2028}' && (text + z)[k] != '\U{2029}'
  }

  lemma {:induction false} SetsIs(line: string, key: string, value: string)
    ensures ParseAssignment(line) == Some((key, value)) <==> Sets(line, key, value)
  {
    hide Assigned, Assigns, Unquote, Means, Behind, Trim, OneLine;
    forall after: nat ensures Assigned(line) == Some((key, after)) <==> Assigns(line, key, after) { AssignedIs(line, key, after); }
    if ParseAssignment(line) == Some((key, value)) {
      var after := Assigned(line).value.1;
      var a, text, z := BehindParts(line, after);
      MeansIs(text, value);
    }
    if Sets(line, key, value) {
      var after: nat, a: string, text: string, z: string :|
        Assigns(line, key, after) && Behind(line, after, a, text, z) && Means(text, value);
      BehindReads(line, after, a, text, z);
      MeansIs(text, value);
    }
  }

  lemma {:induction false} BehindParts(line: string, after: nat) returns (a: string, text: string, z: string)
    requires after <= |line| && OneLine(line[SpaceEnd(line, after)..])
    ensures Behind(line, after, a, text, z) && text == Trim(line[SpaceEnd(line, after)..])
  {
    hide TrimEnd;
    var start := SpaceEnd(line, after);
    var rest := line[start..];
    a := line[after..start];
    BlankStretch(line, after, start);
    NoLead(rest);
    text := TrimEnd(rest);
    z := TrimEndParts(rest);
    assert line[after..] == a + rest;
    assert a + (text + z) == a + text + z;
    if text == "" { assert z == rest; }
  }

  /** What starts with no blank is not trimmed at its start. */
  lemma {:induction false} NoLead(s: string)
    requires s != "" ==> !IsSpace(s[0])
    ensures TrimStart(s) == s
  {
  }

  lemma {:induction false} BehindReads(line: string, after: nat, a: string, text: string, z: string)
    requires Behind(line, after, a, text, z)
    ensures var start := SpaceEnd(line, after); OneLine(line[start..]) && Trim(line[start..]) == text
  {
    var start := after + |a|;
    assert line[after..] == a + (text + z);
    assert line[start..] == line[after..][|a|..] == text + z;
    assert forall k :: after <= k < start ==> line[k] == line[after..][k - after] == a[k - after];
    assert text != "" ==> line[start] == (text + z)[0] == text[0];
    SpaceEndIs(line, after, start);
    if text == "" {
      assert text + z == "";
    } else {
      NoLead(text + z);
      TrimEndIs(text, z);
    }
  }

  // ---------------------------------------------------------------------------
  // Printing
  // ---------------------------------------------------------------------------

  /** A value that has to be quoted: it holds a blank, a hash sign, a quote or an equals sign. */
  predicate HasSpecial(value: string) {
    exists k :: 0 <= k < |value| && (IsSpace(value[k]) || value[k] == '#' || value[k] == '"' || value[k] == '\'' || value[k] == '=')
  }

  /** How a value is written. */
  lemma {:induction false} PrintedIs(key: string, value: string)
    ensures FormatLine(key, value)
         == key + "=" + if HasSpecial(value) then "\"" + ReplaceAll(ReplaceAll(value, "\\", "\\\\"), "\"", "\\\"") + "\"" else value
  {
    hide DoubleBackslashes, EscapeQuotes, ReplaceAll;
    EscapeIs(value);
    EscapeIs(DoubleBackslashes(value));
    assert NeedsQuotes(value) <==> HasSpecial(value);
  }
}

/** packages/cli/src/env_file.ts: a dotenv file merged in place, printed, and read back. */
module EnvFile {
  import opened Wrappers
  import opened Text
  import opened EventStream

  // ---------------------------------------------------------------------------
  // Lines
  // ---------------------------------------------------------------------------

  function SpaceEnd(s: string, i: nat): (e: nat)
    requires i <= |s|
    ensures i <= e <= |s| && (e < |s| ==> !IsSpace(s[e]))
    ensures forall k :: i <= k < e ==> IsSpace(s[k])
    decreases |s| - i
  {
    if i < |s| && IsSpace(s[i]) then SpaceEnd(s, i + 1) else i
  }

  function WordEnd(s: string, i: nat): (e: nat)
    requires i <= |s|
    ensures i <= e <= |s| && (e < |s| ==> !IsWord(s[e]))
    ensures forall k :: i <= k < e ==> IsWord(s[k])
    decreases |s| - i
  {
    if i < |s| && IsWord(s[i]) then WordEnd(s, i + 1) else i
  }

  /** `([A-Za-z_][A-Za-z0-9_]*)\s*=` at `i`: the name, and one past the sign. */
  function KeyAt(s: string, i: nat): (r: Option<(string, nat)>)
    requires i <= |s|
    ensures r.Some? ==> i < r.value.1 <= |s|
  {
    if i == |s| || !IsWord(s[i]) || IsDigit(s[i]) then None
    else
      var e := WordEnd(s, i);
      var p := SpaceEnd(s, e);
      if At(s, p, '=') then Some((s[i..e], p + 1)) else None
  }

  const EXPORT := "export"

  /** `^\s*(?:export\s+)?KEY\s*=`: the optional word is skipped only when a name follows it. */
  function Assigned(line: string): (r: Option<(string, nat)>)
    ensures r.Some? ==> 0 < r.value.1 <= |line|
  {
    var p := SpaceEnd(line, 0);
    if EXPORT <= line[p..] && p + |EXPORT| < |line| && IsSpace(line[p + |EXPORT|])
       && KeyAt(line, SpaceEnd(line, p + |EXPORT|)).Some?
    then KeyAt(line, SpaceEnd(line, p + |EXPORT|))
    else KeyAt(line, p)
  }

  function ParseKey(line: string): Option<string> {
    match Assigned(line) case None => None case Some((key, _)) => Some(key)
  }

  predicate OneLine(s: string) { forall k :: 0 <= k < |s| ==> !IsLineTerminator(s[k]) }

  /** `replace(/\\"/g, '"')`. */
  function UnescapeQuotes(s: string): string {
    if |s| < 2 then s
    else if s[0] == '\\' && s[1] == '"' then "\"" + UnescapeQuotes(s[2..])
    else [s[0]] + UnescapeQuotes(s[1..])
  }

  /** `replace(/\\\\/g, "\\")`. */
  function HalveBackslashes(s: string): string {
    if |s| < 2 then s
    else if s[0] == '\\' && s[1] == '\\' then "\\" + HalveBackslashes(s[2..])
    else [s[0]] + HalveBackslashes(s[1..])
  }

  predicate Enclosed(value: string, quote: char) { |value| >= 2 && value[0] == quote && value[|value| - 1] == quote }

  function Unquote(value: string): string {
    if Enclosed(value, '"') then HalveBackslashes(UnescapeQuotes(value[1..|value| - 1]))
    else if Enclosed(value, '\'') then value[1..|value| - 1]
    else value
  }

  /** `KEY\s*=\s*(.*)$`: none too when a line terminator is left in the value. */
  function ParseAssignment(line: string): Option<(string, string)> {
    match Assigned(line)
    case None => None
    case Some((key, after)) =>
      var start := SpaceEnd(line, after);
      if OneLine(line[start..]) then Some((key, Unquote(Trim(line[start..])))) else None
  }

  function DoubleBackslashes(s: string): string {
    if s == "" then "" else (if s[0] == '\\' then "\\\\" else [s[0]]) + DoubleBackslashes(s[1..])
  }

  function EscapeQuotes(s: string): string {
    if s == "" then "" else (if s[0] == '"' then "\\\"" else [s[0]]) + EscapeQuotes(s[1..])
  }

  predicate NeedsQuotes(value: string) {
    exists k :: 0 <= k < |value| && (IsSpace(value[k]) || value[k] in "#\"'=")
  }

  function Printed(value: string): string {
    if NeedsQuotes(value) then "\"" + EscapeQuotes(DoubleBackslashes(value)) + "\"" else value
  }

  function FormatLine(key: string, value: string): string { key + "=" + Printed(value) }

  /** What the line of an identifier key reads as. */
  predicate IsKey(key: string) { key != "" && !IsDigit(key[0]) && forall k :: 0 <= k < |key| ==> IsWord(key[k]) }

  // ---------------------------------------------------------------------------
  // Merging
  // ---------------------------------------------------------------------------

  /** The updates in order, and their values. */
  datatype Updates = Updates(keys: seq<string>, values: map<string, string>)

  ghost predicate ValidUpdates(u: Updates) {
    && (forall key :: key in u.keys <==> key in u.values)
    && (forall i, j :: 0 <= i < j < |u.keys| ==> u.keys[i] != u.keys[j])
  }

  datatype Walk = Walk(lines: seq<string>, remaining: set<string>, removed: seq<string>)

  /** The walk over the file: stale lines dropped, the first line of each update replaced. */
  function WalkLine(u: Updates, stale: set<string>, w: Walk, line: string): Walk {
    match ParseKey(line)
    case None => w.(lines := w.lines + [line])
    case Some(key) =>
      if key in stale then w.(removed := w.removed + [key])
      else if key in w.remaining && key in u.values then
        w.(lines := w.lines + [FormatLine(key, u.values[key])], remaining := w.remaining - {key})
      else w.(lines := w.lines + [line])
  }

  function WalkLines(u: Updates, stale: set<string>, lines: seq<string>): Walk {
    if lines == [] then Walk([], u.values.Keys, [])
    else WalkLine(u, stale, WalkLines(u, stale, lines[..|lines| - 1]), lines[|lines| - 1])
  }

  /** The lines of the updates that were not in the file, in their order. */
  function Appended(u: Updates, remaining: set<string>, keys: seq<string>): seq<string> {
    if keys == [] then []
    else (if keys[0] in remaining && keys[0] in u.values then [FormatLine(keys[0], u.values[keys[0]])] else [])
         + Appended(u, remaining, keys[1..])
  }

  predicate IsBlank(line: string) { Trim(line) == "" }

  function TrimTrailingBlank(lines: seq<string>): (r: seq<string>)
    ensures r <= lines && (r != [] ==> !IsBlank(r[|r| - 1]))
    ensures forall k :: |r| <= k < |lines| ==> IsBlank(lines[k])
  {
    if lines != [] && IsBlank(lines[|lines| - 1]) then TrimTrailingBlank(lines[..|lines| - 1]) else lines
  }

  datatype Merged = Merged(content: string, written: seq<string>, removed: seq<string>)

  function LinesOf(content: string): seq<string> { if content == "" then [] else Split(content) }

  /** The lines of the merged file. */
  function MergedLines(u: Updates, stale: set<string>, lines: seq<string>): seq<string> {
    var w := WalkLines(u, stale, lines);
    TrimTrailingBlank(w.lines) + Appended(u, w.remaining, u.keys)
  }

  function Finished(lines: seq<string>): string { if Join(lines) == "" then "" else Join(lines) + "\n" }

  /** `mergeEnvContent`. */
  function Merge(original: string, u: Updates, managed: set<string>): Merged {
    var stale := managed - u.values.Keys;
    if u.keys == [] && stale == {} then Merged(original, [], [])
    else
      Merged(Finished(MergedLines(u, stale, LinesOf(original))), u.keys, WalkLines(u, stale, LinesOf(original)).removed)
  }

  /** `readEnvFile`: later lines win. */
  function ReadLines(lines: seq<string>): map<string, string> {
    if lines == [] then map[]
    else
      var before := ReadLines(lines[..|lines| - 1]);
      match ParseAssignment(lines[|lines| - 1])
      case None => before
      case Some((key, value)) => before[key := value]
  }

  function Read(content: string): map<string, string> { ReadLines(Split(content)) }

  // ---------------------------------------------------------------------------
  // A printed line is read back
  // ---------------------------------------------------------------------------

  lemma {:induction false} UnescapeInverts(s: string)
    ensures UnescapeQuotes(EscapeQuotes(s)) == s
  {
    if s != "" {
      UnescapeInverts(s[1..]);
      var rest := EscapeQuotes(s[1..]);
      if s[0] == '"' {
        assert ("\\\"" + rest)[2..] == rest;
      } else {
        assert ([s[0]] + rest)[1..] == rest;
        assert |s| > 1 ==> rest[0] == if s[1] == '"' then '\\' else s[1];
        assert [s[0]] + s[1..] == s;
      }
    }
  }

  lemma {:induction false} HalveInverts(s: string)
    ensures HalveBackslashes(DoubleBackslashes(s)) == s
  {
    if s != "" {
      HalveInverts(s[1..]);
      var rest := DoubleBackslashes(s[1..]);
      if s[0] == '\\' {
        assert ("\\\\" + rest)[2..] == rest;
      } else {
        assert ([s[0]] + rest)[1..] == rest;
        assert [s[0]] + s[1..] == s;
      }
    }
  }

  /** The two replacing passes undo the two escaping ones, in that order. */
  lemma {:induction false} UnquoteInverts(value: string)
    ensures Unquote(Printed(value)) == value
  {
    var escaped := EscapeQuotes(DoubleBackslashes(value));
    if NeedsQuotes(value) {
      assert Printed(value)[1..|Printed(value)| - 1] == escaped;
      UnescapeInverts(DoubleBackslashes(value));
      HalveInverts(value);
    }
  }

  lemma {:induction false} WordEndAt(s: string, i: nat, e: nat)
    requires i <= e <= |s| && (forall k :: i <= k < e ==> IsWord(s[k])) && (e < |s| ==> !IsWord(s[e]))
    ensures WordEnd(s, i) == e
    decreases e - i
  {
    if i < e { WordEndAt(s, i + 1, e); }
  }

  lemma {:induction false} FormattedKey(key: string, text: string)
    requires IsKey(key)
    ensures Assigned(key + "=" + text) == Some((key, |key| + 1))
  {
    var line := key + "=" + text;
    assert forall k :: 0 <= k < |key| ==> line[k] == key[k];
    assert line[|key|] == '=' && line[0] == key[0];
    WordEndAt(line, 0, |key|);
    assert line[0..|key|] == key;
    assert SpaceEnd(line, 0) == 0;
    assert line[0..] == line;
    assert '=' !in EXPORT && (|key| < |EXPORT| <= |line| ==> '=' in line[..|EXPORT|]) by {
      assert |key| < |EXPORT| <= |line| ==> line[..|EXPORT|][|key|] == '=';
    }
  }

  lemma {:induction false} EscapedTerminators(s: string)
    ensures OneLine(EscapeQuotes(s)) <==> OneLine(s)
    ensures OneLine(DoubleBackslashes(s)) <==> OneLine(s)
  {
    if s != "" {
      EscapedTerminators(s[1..]);
      OneLineParts([s[0]], s[1..]);
      assert [s[0]] + s[1..] == s;
      OneLineParts(if s[0] == '"' then "\\\"" else [s[0]], EscapeQuotes(s[1..]));
      OneLineParts(if s[0] == '\\' then "\\\\" else [s[0]], DoubleBackslashes(s[1..]));
      assert s[0] == '"' || s[0] == '\\' ==> !IsLineTerminator(s[0]);
    }
  }

  lemma {:induction false} OneLineParts(a: string, b: string)
    ensures OneLine(a + b) <==> OneLine(a) && OneLine(b)
  {
    assert forall k :: 0 <= k < |a| ==> (a + b)[k] == a[k];
    assert forall k :: 0 <= k < |b| ==> (a + b)[|a| + k] == b[k];
  }

  lemma {:induction false} TrimNothing(s: string)
    requires s != "" ==> !IsSpace(s[0]) && !IsSpace(s[|s| - 1])
    ensures Trim(s) == s
  {
  }

  /** A printed value starts and ends in no space, and is on one line when the value is. */
  lemma {:induction false} PrintedShape(value: string)
    ensures Printed(value) != "" ==> !IsSpace(Printed(value)[0]) && !IsSpace(Printed(value)[|Printed(value)| - 1])
    ensures OneLine(Printed(value)) <==> OneLine(value)
  {
    if NeedsQuotes(value) {
      EscapedTerminators(DoubleBackslashes(value));
      EscapedTerminators(value);
      OneLineParts("\"" + EscapeQuotes(DoubleBackslashes(value)), "\"");
      OneLineParts("\"", EscapeQuotes(DoubleBackslashes(value)));
    } else if value != "" {
      assert !IsSpace(value[0]) && !IsSpace(value[|value| - 1]);
    }
  }

  lemma {:induction false} SpaceEndHere(s: string, i: nat)
    requires i <= |s| && (i < |s| ==> !IsSpace(s[i]))
    ensures SpaceEnd(s, i) == i
  {
  }

  /** A formatted line reads back as its key and value exactly when the value holds no line terminator. */
  lemma {:induction false} FormatReadsBack(key: string, value: string)
    requires IsKey(key)
    ensures ParseKey(FormatLine(key, value)) == Some(key)
    ensures ParseAssignment(FormatLine(key, value)) == if OneLine(value) then Some((key, value)) else None
  {
    hide Printed, Unquote, NeedsQuotes, Trim;
    var line, text := FormatLine(key, value), Printed(value);
    FormattedKey(key, text);
    PrintedShape(value);
    assert line[|key| + 1..] == text;
    if text != "" { assert line[|key| + 1] == text[0]; }
    SpaceEndHere(line, |key| + 1);
    UnquoteInverts(value);
    TrimNothing(text);
  }
}

/** The loops of packages/cli/src/env_file.ts over lists, sets and records they update. */
module EnvFileLoops {
  import opened EventStream
  import opened EnvFile

  method TrimTrailingBlankLoop(lines: seq<string>) returns (out: seq<string>)
    ensures out == TrimTrailingBlank(lines)
  {
    hide IsBlank;
    out := lines;
    while |out| > 0 && IsBlank(out[|out| - 1])
      invariant TrimTrailingBlank(lines) == TrimTrailingBlank(out)
    {
      out := out[..|out| - 1];
    }
  }

  /** The walk over the file: what is kept, what remains to be written, what was removed. */
  method WalkFile(u: Updates, stale: set<string>, lines: seq<string>)
    returns (updated: seq<string>, remaining: set<string>, removed: seq<string>)
    ensures Walk(updated, remaining, removed) == WalkLines(u, stale, lines)
  {
    hide ParseKey, FormatLine;
    updated, remaining, removed := [], u.values.Keys, [];
    assert lines[..0] == [];
    for i := 0 to |lines|
      invariant Walk(updated, remaining, removed) == WalkLines(u, stale, lines[..i])
    {
      assert lines[..i + 1][..i] == lines[..i];
      var key := ParseKey(lines[i]);
      if key.Some? && key.value in stale {
        removed := removed + [key.value];
        continue;
      }
      if key.Some? && key.value in remaining && key.value in u.values {
        remaining := remaining - {key.value};
        updated := updated + [FormatLine(key.value, u.values[key.value])];
        continue;
      }
      updated := updated + [lines[i]];
    }
    assert lines[..|lines|] == lines;
  }

  /** `mergeEnvContent`. */
  method MergeEnvContent(original: string, u: Updates, managed: set<string>) returns (r: Merged)
    ensures r == Merge(original, u, managed)
  {
    hide WalkLines, TrimTrailingBlank, Split, Join;
    var stale := managed - u.values.Keys;
    if u.keys == [] && stale == {} { return Merged(original, [], []); }
    var lines := if original == "" then [] else Split(original);
    var updated, remaining, removed := WalkFile(u, stale, lines);
    var appended := Appended(u, remaining, u.keys);
    var body := TrimTrailingBlankLoop(updated);
    var content := Join(body + appended);
    return Merged(if content == "" then "" else content + "\n", u.keys, removed);
  }

  /** `readEnvFile`: the record is overwritten line by line. */
  method ReadEnvFile(content: string) returns (out: map<string, string>)
    ensures out == Read(content)
  {
    hide ParseAssignment, Split;
    out := map[];
    var lines := Split(content);
    assert lines[..0] == [];
    for i := 0 to |lines|
      invariant out == ReadLines(lines[..i])
    {
      assert lines[..i + 1][..i] == lines[..i];
      var parsed := ParseAssignment(lines[i]);
      if parsed.Some? { out := out[parsed.value.0 := parsed.value.1]; }
    }
    assert lines[..|lines|] == lines;
  }
}

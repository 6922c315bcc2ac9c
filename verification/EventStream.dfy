/**
 * `normalizeEventStream` of packages/ai-sdk-provider/src/lib/neon-harmony-normalize.ts: lines are
 * rewritten as they complete, however the stream is cut into chunks.
 */
module EventStream {
  import opened Text

  /** `split("\n")`: at least one line, the last one unfinished. */
  function Split(s: string): (lines: seq<string>)
    ensures |lines| > 0 && forall i :: 0 <= i < |lines| ==> IsLine(lines[i])
  {
    if s == "" then [""]
    else
      var rest := Split(s[1..]);
      if s[0] == '\n' then [""] + rest else [[s[0]] + rest[0]] + rest[1..]
  }

  function Join(lines: seq<string>): string {
    if lines == [] then "" else if |lines| == 1 then lines[0] else lines[0] + "\n" + Join(lines[1..])
  }

  function Mapped(rewrite: string -> string, lines: seq<string>): (r: seq<string>)
    ensures |r| == |lines| && forall i :: 0 <= i < |r| ==> r[i] == rewrite(lines[i])
  {
    seq(|lines|, i requires 0 <= i < |lines| => rewrite(lines[i]))
  }

  /** Finished lines, rewritten. */
  function Emit(rewrite: string -> string, lines: seq<string>): string {
    if lines == [] then "" else Emit(rewrite, lines[..|lines| - 1]) + (rewrite(lines[|lines| - 1]) + "\n")
  }

  /** The whole input split, each line rewritten, and rejoined; an empty last line is left alone. */
  function Whole(rewrite: string -> string, input: string): string {
    var lines := Split(input);
    var last := lines[|lines| - 1];
    Emit(rewrite, lines[..|lines| - 1]) + (if last == "" then "" else rewrite(last))
  }

  function Concat(chunks: seq<string>): string {
    if chunks == [] then "" else Concat(chunks[..|chunks| - 1]) + chunks[|chunks| - 1]
  }

  class LineRewriter {
    const rewrite: string -> string
    var buffer: string
    var output: string
    /** Every character received so far. */
    ghost var input: string

    /** What was put out is the finished lines of what came in, and the buffer is the unfinished one. */
    ghost predicate Valid()
      reads this
    {
      var lines := Split(input);
      output == Emit(rewrite, lines[..|lines| - 1]) && buffer == lines[|lines| - 1]
    }

    constructor (rewrite: string -> string)
      ensures Valid() && input == "" && output == "" && this.rewrite == rewrite
    {
      this.rewrite := rewrite;
      buffer, output, input := "", "", "";
    }

    /** `transform`: one more chunk. */
    method Transform(chunk: string)
      requires Valid()
      modifies this
      ensures Valid() && input == old(input) + chunk
    {
      hide Split, Emit;
      var lines := Split(buffer + chunk);
      SplitBuffered(input, chunk);
      ghost var before := Split(input);
      var count := |lines| - 1;
      EmitConcat(rewrite, before[..|before| - 1], lines[..count]);
      Put(lines[..count]);
      buffer := lines[count];
      input := input + chunk;
    }

    /** The loop over the finished lines. */
    method Put(lines: seq<string>)
      modifies this`output
      ensures output == old(output) + Emit(rewrite, lines)
    {
      for i := 0 to |lines|
        invariant output == old(output) + Emit(rewrite, lines[..i])
      {
        assert lines[..i + 1][..i] == lines[..i];
        output := output + (rewrite(lines[i]) + "\n");
      }
      assert lines[..|lines|] == lines;
    }

    /** `flush`: the unfinished line. */
    method Flush()
      requires Valid()
      modifies this`output
      ensures output == Whole(rewrite, input)
    {
      if |buffer| > 0 { output := output + rewrite(buffer); }
    }
  }

  // ---------------------------------------------------------------------------
  // Splitting
  // ---------------------------------------------------------------------------

  /** Two splits joined in the line the cut falls in. */
  function Glue(x: seq<string>, y: seq<string>): seq<string>
    requires x != [] && y != []
  {
    x[..|x| - 1] + [x[|x| - 1] + y[0]] + y[1..]
  }

  /** A character put in front of the first line. */
  function Lead(c: char, lines: seq<string>): seq<string>
    requires lines != []
  {
    if c == '\n' then [""] + lines else [[c] + lines[0]] + lines[1..]
  }

  lemma {:induction false} GlueLead(c: char, x: seq<string>, y: seq<string>)
    requires x != [] && y != []
    ensures Glue(Lead(c, x), y) == Lead(c, Glue(x, y))
  {
    if c == '\n' {
      assert ([""] + x)[..|x|] == [""] + x[..|x| - 1];
    } else if |x| == 1 {
      assert [c] + x[0] + y[0] == [c] + (x[0] + y[0]);
    } else {
      GlueLonger([c] + x[0], x, y);
    }
  }

  /** Another first line, before a cut in a later one. */
  lemma {:induction false} GlueLonger(first: string, x: seq<string>, y: seq<string>)
    requires |x| > 1 && y != []
    ensures Glue([first] + x[1..], y) == [first] + Glue(x, y)[1..] && Glue(x, y)[0] == x[0]
  {
    assert ([first] + x[1..])[..|x| - 1] == [first] + x[1..|x| - 1];
    assert Glue(x, y)[1..] == x[1..|x| - 1] + [x[|x| - 1] + y[0]] + y[1..];
  }

  /** Splitting a concatenation joins the line the cut falls in. */
  lemma {:induction false} SplitConcat(a: string, b: string)
    ensures Split(a + b) == Glue(Split(a), Split(b))
  {
    hide Glue;
    if a == "" {
      assert a + b == b;
      assert Glue([""], Split(b)) == Split(b) by { GlueNothing(Split(b)); }
    } else {
      SplitConcat(a[1..], b);
      assert (a + b)[1..] == a[1..] + b;
      GlueLead(a[0], Split(a[1..]), Split(b));
    }
  }

  lemma {:induction false} GlueNothing(y: seq<string>)
    requires y != []
    ensures Glue([""], y) == y
  {
    assert "" + y[0] == y[0];
  }

  lemma {:induction false} SplitLine(line: string)
    requires IsLine(line)
    ensures Split(line) == [line]
  {
    if line != "" {
      SplitLine(line[1..]);
      assert [line[0]] + line[1..] == line;
    }
  }

  /** A chunk split with the unfinished line before it gives the next lines of the whole input. */
  lemma {:induction false} SplitBuffered(input: string, chunk: string)
    ensures var before := Split(input);
            var last := before[|before| - 1];
            var lines := Split(last + chunk);
            Split(input + chunk) == before[..|before| - 1] + lines
            && Split(input + chunk)[..|Split(input + chunk)| - 1] == before[..|before| - 1] + lines[..|lines| - 1]
  {
    hide Split, IsLine;
    var before := Split(input);
    var last := before[|before| - 1];
    SplitConcat(input, chunk);
    SplitLine(last);
    SplitConcat(last, chunk);
    GlueLast(before, Split(chunk));
  }

  lemma {:induction false} GlueLast(x: seq<string>, y: seq<string>)
    requires x != [] && y != []
    ensures var lines := Glue([x[|x| - 1]], y);
            Glue(x, y) == x[..|x| - 1] + lines && Glue(x, y)[..|Glue(x, y)| - 1] == x[..|x| - 1] + lines[..|lines| - 1]
  {
    var n := |x| - 1;
    assert [x[n]][..0] == [] && Glue([x[n]], y) == [x[n] + y[0]] + y[1..];
  }

  /** The lines rejoined are the text. */
  lemma {:induction false} JoinSplit(s: string)
    ensures Join(Split(s)) == s
  {
    if s != "" {
      JoinSplit(s[1..]);
      var rest := Split(s[1..]);
      if s[0] != '\n' && |rest| > 1 {
        assert Split(s)[1..] == rest[1..];
        assert [s[0]] + rest[0] + "\n" + Join(rest[1..]) == [s[0]] + (rest[0] + "\n" + Join(rest[1..]));
      }
    }
  }

  /** Lines without breaks are what their join splits into. */
  lemma {:induction false} SplitJoin(lines: seq<string>)
    requires lines != [] && forall i :: 0 <= i < |lines| ==> IsLine(lines[i])
    ensures Split(Join(lines)) == lines
    decreases |lines|
  {
    SplitLine(lines[0]);
    if |lines| > 1 {
      hide Split, Glue, IsLine;
      SplitJoin(lines[1..]);
      var rest := "\n" + Join(lines[1..]);
      assert lines[0] + "\n" + Join(lines[1..]) == lines[0] + rest;
      SplitBreak(Join(lines[1..]));
      SplitConcat(lines[0], rest);
      GlueBreak(lines[0], lines[1..]);
    }
  }

  lemma {:induction false} SplitBreak(s: string)
    ensures Split("\n" + s) == [""] + Split(s)
  {
    assert ("\n" + s)[1..] == s;
  }

  lemma {:induction false} GlueBreak(line: string, rest: seq<string>)
    ensures Glue([line], [""] + rest) == [line] + rest
  {
    assert line + "" == line;
  }

  lemma {:induction false} EmitJoin(rewrite: string -> string, lines: seq<string>, last: string)
    ensures Emit(rewrite, lines) + last == Join(Mapped(rewrite, lines) + [last])
    decreases |lines|
  {
    if lines == [] {
      assert Mapped(rewrite, lines) + [last] == [last];
    } else {
      var n := |lines| - 1;
      var finished := rewrite(lines[n]);
      EmitJoin(rewrite, lines[..n], finished + "\n" + last);
      JoinLast(Mapped(rewrite, lines[..n]), finished, last);
      assert Mapped(rewrite, lines) == Mapped(rewrite, lines[..n]) + [finished];
      assert Emit(rewrite, lines[..n]) + (finished + "\n") + last == Emit(rewrite, lines[..n]) + (finished + "\n" + last);
    }
  }

  lemma {:induction false} JoinLast(lines: seq<string>, a: string, b: string)
    ensures Join(lines + [a + "\n" + b]) == Join(lines + [a] + [b])
    decreases |lines|
  {
    if lines == [] {
      assert lines + [a + "\n" + b] == [a + "\n" + b];
      assert lines + [a] + [b] == [a, b];
      assert [a, b][1..] == [b];
    } else {
      assert (lines + [a + "\n" + b])[1..] == lines[1..] + [a + "\n" + b];
      assert (lines + [a] + [b])[1..] == lines[1..] + [a] + [b];
      JoinLast(lines[1..], a, b);
    }
  }

  /** The whole-input form: split, rewrite each line, rejoin. */
  lemma {:induction false} WholeIsMapJoin(rewrite: string -> string, input: string)
    requires rewrite("") == ""
    ensures Whole(rewrite, input) == Join(Mapped(rewrite, Split(input)))
  {
    var lines := Split(input);
    var n := |lines| - 1;
    EmitJoin(rewrite, lines[..n], rewrite(lines[n]));
    assert Mapped(rewrite, lines) == Mapped(rewrite, lines[..n]) + [rewrite(lines[n])];
  }

  /** When every line passes through unchanged, so does the stream. */
  lemma {:induction false} CompliantPassesThrough(rewrite: string -> string, input: string)
    requires rewrite("") == "" && forall line :: line in Split(input) ==> rewrite(line) == line
    ensures Whole(rewrite, input) == input
  {
    WholeIsMapJoin(rewrite, input);
    assert Mapped(rewrite, Split(input)) == Split(input);
    JoinSplit(input);
  }

  // ---------------------------------------------------------------------------
  // Any cut
  // ---------------------------------------------------------------------------

  /** The stream as a pure fold over its chunks: what is out, and what is buffered. */
  function Feed(rewrite: string -> string, chunks: seq<string>): (string, string) {
    if chunks == [] then ("", "")
    else
      var (output, buffer) := Feed(rewrite, chunks[..|chunks| - 1]);
      var lines := Split(buffer + chunks[|chunks| - 1]);
      (output + Emit(rewrite, lines[..|lines| - 1]), lines[|lines| - 1])
  }

  lemma {:induction false} EmitConcat(rewrite: string -> string, a: seq<string>, b: seq<string>)
    ensures Emit(rewrite, a + b) == Emit(rewrite, a) + Emit(rewrite, b)
    decreases |b|
  {
    if b == [] {
      assert a + b == a;
    } else {
      var n := |b| - 1;
      EmitConcat(rewrite, a, b[..n]);
      assert (a + b)[..|a + b| - 1] == a + b[..n] && (a + b)[|a + b| - 1] == b[n];
      var x, y, z := Emit(rewrite, a), Emit(rewrite, b[..n]), rewrite(b[n]) + "\n";
      assert x + (y + z) == x + y + z;
    }
  }

  lemma {:induction false} FeedIsSplit(rewrite: string -> string, chunks: seq<string>)
    ensures var lines := Split(Concat(chunks));
            Feed(rewrite, chunks) == (Emit(rewrite, lines[..|lines| - 1]), lines[|lines| - 1])
    decreases |chunks|
  {
    if chunks != [] {
      var before, last := chunks[..|chunks| - 1], chunks[|chunks| - 1];
      FeedIsSplit(rewrite, before);
      var seen := Split(Concat(before));
      SplitBuffered(Concat(before), last);
      var lines := Split(seen[|seen| - 1] + last);
      EmitConcat(rewrite, seen[..|seen| - 1], lines[..|lines| - 1]);
    }
  }

  /** What is put out does not depend on where the stream is cut. */
  lemma {:induction false} ChunkInvariance(rewrite: string -> string, chunks: seq<string>, others: seq<string>)
    requires Concat(chunks) == Concat(others)
    ensures var (output, buffer) := Feed(rewrite, chunks);
            && output + (if buffer == "" then "" else rewrite(buffer)) == Whole(rewrite, Concat(chunks))
            && Feed(rewrite, others) == (output, buffer)
  {
    FeedIsSplit(rewrite, chunks);
    FeedIsSplit(rewrite, others);
  }
}

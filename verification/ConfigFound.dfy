/** What `parse` of packages/cli/src/config_edit.ts reads from a file, on its text. */
module ConfigFound {
  import opened Wrappers
  import opened Text
  import opened SourceLexer
  import opened ObjectScan
  import opened ObjectShift
  import opened ConfigEdit
  import opened ConfigFind

  /** Only spaces between `lo` and `hi`. */
  ghost predicate Blank(s: string, lo: nat, hi: nat) {
    lo <= hi <= |s| && forall k :: lo <= k < hi ==> IsSpace(s[k])
  }

  /** `word` stands at `i`, and no letter, digit or underscore before it. */
  ghost predicate WordAt(s: string, i: nat, word: string) {
    i + |word| <= |s| && s[i..i + |word|] == word && (i > 0 ==> !IsWord(s[i - 1]))
  }

  /** The call of `defineConfig` at `i` has its parenthesis just before `p`. */
  ghost predicate CallOpens(s: string, i: nat, p: nat) {
    && WordAt(s, i, "defineConfig") && i + 12 < p <= |s|
    && Blank(s, i + 12, p - 1) && s[p - 1] == '('
  }

  /** The `export default` at `i` is followed by the brace at `b`. */
  ghost predicate ExportOpens(s: string, i: nat, b: nat) {
    WordAt(s, i, "export") && exists p: nat :: DefaultBetween(s, i, p, b)
  }

  ghost predicate DefaultBetween(s: string, i: nat, p: nat, b: nat) {
    && i + 6 < p && p + 7 < b < |s| && Blank(s, i + 6, p) && s[p..p + 7] == "default"
    && Blank(s, p + 7, b) && s[b] == '{'
  }

  lemma {:induction false} SkipSpacesIs(s: string, i: nat, e: nat)
    requires Blank(s, i, e) && (e < |s| ==> !IsSpace(s[e]))
    ensures SkipSpaces(s, i, |s|) == e
    decreases e - i
  {
    if i < e { SkipSpacesIs(s, i + 1, e); }
  }

  lemma {:induction false} CallIs(s: string, i: nat, p: nat)
    ensures MatchDefine(s, i) == Some(p) <==> CallOpens(s, i, p)
  {
    if CallOpens(s, i, p) { SkipSpacesIs(s, i + 12, p - 1); }
  }

  lemma {:induction false} DefaultIs(s: string, i: nat, p: nat, b: nat)
    requires DefaultBetween(s, i, p, b)
    ensures i + 6 < p && SkipSpaces(s, i + 6, |s|) == p && HasPrefixAt(s, p, "default") && SkipSpaces(s, p + 7, |s|) == b
  {
    assert s[p] == s[p..p + 7][0];
    SkipSpacesIs(s, i + 6, p);
    SkipSpacesIs(s, p + 7, b);
  }

  lemma {:induction false} ExportIs(s: string, i: nat, b: nat)
    ensures MatchExport(s, i) == Some(b) <==> ExportOpens(s, i, b)
  {
    if ExportOpens(s, i, b) {
      var p: nat :| DefaultBetween(s, i, p, b);
      DefaultIs(s, i, p, b);
    }
    if MatchExport(s, i) == Some(b) { assert DefaultBetween(s, i, SkipSpaces(s, i + 6, |s|), b); }
  }

  /** The first character from `p` on that is neither space nor comment, if any, is at `o`. */
  ghost predicate NextSolid(s: string, kinds: seq<Kind>, p: nat, o: nat) {
    p <= o <= |s| == |kinds| && AllTrivia(s, kinds, p, o) && (o < |s| ==> !IsSpace(s[o]) && kinds[o] != Comment)
  }

  /** A policy starts at `o`: the argument of a `defineConfig(` at `i`, or the object `export default` at `i` exports. */
  ghost predicate Policy(s: string, kinds: seq<Kind>, i: nat, o: nat) {
    && i < |s| == |kinds| && kinds[i] == Code
    && (ExportOpens(s, i, o) || exists p: nat :: CallOpens(s, i, p) && NextSolid(s, kinds, p, o))
  }

  lemma {:induction false} NextSolidIs(s: string, kinds: seq<Kind>, p: nat, o: nat)
    requires p <= |s| == |kinds|
    ensures SkipTrivia(s, kinds, p, |s|) == o <==> NextSolid(s, kinds, p, o)
  {
    if NextSolid(s, kinds, p, o) { SkipTriviaStop(s, kinds, p, o, |s|); }
    var at := SkipTrivia(s, kinds, p, |s|);
    assert at < |s| ==> !IsTrivia(s, kinds, at);
  }

  lemma {:induction false} PolicyIs(s: string, kinds: seq<Kind>, i: nat, o: nat)
    requires |s| == |kinds|
    ensures Policy(s, kinds, i, o) <==>
            || (IsCall(s, kinds, i) && SkipTrivia(s, kinds, MatchDefine(s, i).value, |s|) == o)
            || (IsExport(s, kinds, i) && MatchExport(s, i) == Some(o))
  {
    hide MatchDefine, MatchExport, ExportOpens, CallOpens, NextSolid;
    ExportIs(s, i, o);
    forall p: nat ensures MatchDefine(s, i) == Some(p) <==> CallOpens(s, i, p) { CallIs(s, i, p); }
    forall p: nat | p <= |s| ensures SkipTrivia(s, kinds, p, |s|) == o <==> NextSolid(s, kinds, p, o) { NextSolidIs(s, kinds, p, o); }
    if IsCall(s, kinds, i) && SkipTrivia(s, kinds, MatchDefine(s, i).value, |s|) == o {
      var p := MatchDefine(s, i).value;
      assert CallOpens(s, i, p) && NextSolid(s, kinds, p, o);
    }
  }

  /** A match always has something it names. */
  lemma {:induction false} MatchNames(s: string, kinds: seq<Kind>, i: nat) returns (o: nat)
    requires |s| == |kinds| && CodeMatch(s, kinds, i)
    ensures Policy(s, kinds, i, o)
  {
    hide MatchDefine, MatchExport, Policy;
    o := if IsCall(s, kinds, i) then SkipTrivia(s, kinds, MatchDefine(s, i).value, |s|) else MatchExport(s, i).value;
    PolicyIs(s, kinds, i, o);
  }

  /** The config object is found exactly when the file holds one policy, and it is an object literal. */
  lemma {:induction false} FoundIff(s: string, kinds: seq<Kind>, open: nat)
    requires |s| == |kinds|
    ensures FindConfigObject(s, kinds) == Success(open) <==>
            && open < |s| && s[open] == '{'
            && exists c: nat :: Policy(s, kinds, c, open) && forall i: nat, o: nat :: Policy(s, kinds, i, o) ==> i == c && o == open
  {
    hide MatchDefine, MatchExport, Policy, FindConfigObject;
    forall i: nat, o: nat ensures Policy(s, kinds, i, o) <==>
            || (IsCall(s, kinds, i) && SkipTrivia(s, kinds, MatchDefine(s, i).value, |s|) == o)
            || (IsExport(s, kinds, i) && MatchExport(s, i) == Some(o)) { PolicyIs(s, kinds, i, o); }
    if FindConfigObject(s, kinds) == Success(open) {
      var c := FoundOne(s, kinds);
      forall i: nat, o: nat | Policy(s, kinds, i, o) ensures i == c && o == open { assert CodeMatch(s, kinds, i); }
      assert Policy(s, kinds, c, open);
    }
    if open < |s| && s[open] == '{' &&
       exists c: nat :: Policy(s, kinds, c, open) && forall i: nat, o: nat :: Policy(s, kinds, i, o) ==> i == c && o == open {
      var c: nat :| Policy(s, kinds, c, open) && forall i: nat, o: nat :: Policy(s, kinds, i, o) ==> i == c && o == open;
      forall k | CodeMatch(s, kinds, k) ensures k == c {
        var o := MatchNames(s, kinds, k);
      }
      NamesOnly(s, kinds, c, open);
      FindsOne(s, kinds, c, open);
    }
  }

  lemma {:induction false} NamesOnly(s: string, kinds: seq<Kind>, c: nat, open: nat)
    requires |s| == |kinds| && Policy(s, kinds, c, open) && open < |s| && s[open] == '{'
    ensures Names(s, kinds, c, open)
  {
    hide MatchDefine, MatchExport, Policy;
    PolicyIs(s, kinds, c, open);
    OneKind(s, c);
  }

  // ---------------------------------------------------------------------------
  // Lines
  // ---------------------------------------------------------------------------

  /** The line that holds `i > 0` starts at `p`. */
  ghost predicate LineOf(s: string, i: nat, p: nat) {
    p <= i <= |s| && (p > 0 ==> s[p - 1] == '\n') && forall k :: p <= k < i ==> s[k] != '\n'
  }

  lemma {:induction false} LineOfIs(s: string, i: nat, p: nat)
    requires 0 < i <= |s|
    ensures LineStart(s, i) == p <==> LineOf(s, i, p)
  {
    assert LineOf(s, i, LineStart(s, i));
  }

  /** The spaces and tabs the line that holds `i` starts with. */
  ghost predicate Indents(s: string, i: nat, indent: string) {
    exists p: nat :: LineOf(s, i, p) && IndentAt(s, p, indent)
  }

  ghost predicate IndentAt(s: string, p: nat, indent: string) {
    && p + |indent| <= |s| && s[p..p + |indent|] == indent
    && (forall k :: 0 <= k < |indent| ==> indent[k] == ' ' || indent[k] == '\t')
    && (p + |indent| < |s| ==> s[p + |indent|] != ' ' && s[p + |indent|] != '\t')
  }

  lemma {:induction false} IndentEndIs(s: string, i: nat, e: nat)
    requires i <= e <= |s| && (forall k :: i <= k < e ==> s[k] == ' ' || s[k] == '\t') && (e < |s| ==> s[e] != ' ' && s[e] != '\t')
    ensures IndentEnd(s, i) == e
    decreases e - i
  {
    if i < e { IndentEndIs(s, i + 1, e); }
  }

  lemma {:induction false} IndentStops(s: string, i: nat)
    requires i <= |s|
    ensures var e := IndentEnd(s, i); e < |s| ==> s[e] != ' ' && s[e] != '\t'
    decreases |s| - i
  {
    if i < |s| && (s[i] == ' ' || s[i] == '\t') { IndentStops(s, i + 1); }
  }

  lemma {:induction false} IndentsIs(s: string, i: nat, indent: string)
    requires 0 < i <= |s|
    ensures LineIndent(s, i) == indent <==> Indents(s, i, indent)
  {
    var p := LineStart(s, i);
    LineOfIs(s, i, p);
    if Indents(s, i, indent) {
      var q: nat :| LineOf(s, i, q) && IndentAt(s, q, indent);
      LineOfIs(s, i, q);
      forall k | p <= k < p + |indent| ensures s[k] == ' ' || s[k] == '\t' { assert s[p..p + |indent|][k - p] == indent[k - p]; }
      IndentEndIs(s, p, p + |indent|);
    }
    if LineIndent(s, i) == indent {
      IndentStops(s, p);
      assert IndentAt(s, p, indent);
    }
  }

  // ---------------------------------------------------------------------------
  // A whole file
  // ---------------------------------------------------------------------------

  /** The file holds one policy, an object literal whose entries are scanned as `scan`. */
  ghost predicate Holds(s: string, kinds: seq<Kind>, scan: ObjectScan) {
    && Lex(s) == Success(kinds) && |kinds| == |s| && FindConfigObject(s, kinds) == Success(scan.open)
    && ScanObject(s, kinds, scan.open) == Success(scan)
  }

  /** Some entry has no name, or two have the same. */
  ghost predicate HasOverride(entries: seq<ObjectEntry>) {
    || (exists i :: 0 <= i < |entries| && entries[i].key == None)
    || exists i, j :: 0 <= i < j < |entries| && entries[i].key == entries[j].key
  }

  lemma {:induction false} PlainIs(entries: seq<ObjectEntry>)
    ensures Plain(entries) <==> !HasOverride(entries)
  {
  }

  ghost predicate HasWindowsBreak(s: string) { exists k: nat :: k + 1 < |s| && s[k] == '\r' && s[k + 1] == '\n' }

  lemma {:induction false} CrLfIs(s: string)
    ensures HasCrLf(s) <==> HasWindowsBreak(s)
  {
    if HasCrLf(s) {
      var i :| 0 <= i < |s| && HasPrefixAt(s, i, "\r\n");
      assert s[i] == s[i..i + 2][0] && s[i + 1] == s[i..i + 2][1];
    }
    if HasWindowsBreak(s) {
      var k: nat :| k + 1 < |s| && s[k] == '\r' && s[k + 1] == '\n';
      assert s[k..k + 2] == "\r\n";
      assert HasPrefixAt(s, k, "\r\n");
    }
  }

  lemma {:induction false} ArgsFail(s: string, kinds: seq<Kind>, i: nat)
    requires i <= |s| == |kinds| && DefineArgs(s, kinds, i).Failure?
    ensures DefineArgs(s, kinds, i).error == Unscannable
    decreases |s| - i
  {
    hide MatchDefine;
    if DefineArgs(s, kinds, i + 1).Failure? { ArgsFail(s, kinds, i + 1); }
  }

  lemma {:induction false} FindFails(s: string, kinds: seq<Kind>)
    requires |s| == |kinds| && FindConfigObject(s, kinds).Failure?
    ensures FindConfigObject(s, kinds).error == Unscannable
  {
    hide DefineArgs, ExportObjects;
    if DefineArgs(s, kinds, 0).Failure? { ArgsFail(s, kinds, 0); }
  }

  /** What is read from a file, or why nothing is. */
  lemma {:induction false} ParseIs(s: string)
    ensures match Parse(s)
            case Success(parsed) =>
              && parsed.source == s && Holds(s, parsed.kinds, parsed.root) && !HasOverride(parsed.root.entries)
              && parsed.eol == if HasWindowsBreak(s) then "\r\n" else "\n"
            case Failure(NotPlain) => exists kinds, scan :: Holds(s, kinds, scan) && HasOverride(scan.entries)
            case Failure(Unscannable) => forall kinds, scan :: !Holds(s, kinds, scan)
            case Failure(_) => false
  {
    hide Lex, FindConfigObject, ScanTo, Plain, HasCrLf, LineIndent, HasOverride, HasWindowsBreak;
    CrLfIs(s);
    if Lex(s).Success? {
      var kinds := Lex(s).value;
      if FindConfigObject(s, kinds).Failure? { FindFails(s, kinds); }
      if FindConfigObject(s, kinds).Success? && ScanObject(s, kinds, FindConfigObject(s, kinds).value).Success? {
        var scan := ScanObject(s, kinds, FindConfigObject(s, kinds).value).value;
        PlainIs(scan.entries);
        assert Holds(s, kinds, scan);
      }
    }
  }

  /** One level of indentation: what the first entry's line has more than the brace's, or two spaces. */
  lemma {:induction false} UnitIs(s: string, parsed: Parsed, base: string, first: string)
    requires Parse(s) == Success(parsed) && Indents(s, parsed.root.open, base)
    requires parsed.root.entries != [] ==> 0 <= parsed.root.entries[0].start && Indents(s, parsed.root.entries[0].start, first)
    ensures parsed.unit == if parsed.root.entries != [] && |first| > |base| && first[..|base|] == base then first[|base|..] else "  "
  {
    hide Lex, FindConfigObject, ScanObject, Plain, HasCrLf, LineIndent, Indents;
    var entries := parsed.root.entries;
    OpenIsBehind(s, parsed.kinds, parsed.root.open);
    IndentsIs(s, parsed.root.open, base);
    if entries != [] {
      assert entries[0].start > 0;
      IndentsIs(s, entries[0].start, first);
    }
  }

  lemma {:induction false} OpenIsBehind(s: string, kinds: seq<Kind>, open: nat)
    requires |s| == |kinds| && FindConfigObject(s, kinds) == Success(open)
    ensures open > 0
  {
    hide FindConfigObject;
    FoundIff(s, kinds, open);
  }
}

/**
 * The loops of packages/cli/src/config_source.ts over one shared array of labels, each proved to
 * compute what SourceLexer and ObjectScan define.
 */
module SourceClassifier {
  import opened Wrappers
  import opened Text
  import opened SourceLexer
  import opened LexerShift
  import opened ObjectScan

  /** The backward scan from a `/`. */
  method ReadsAsRegex(s: string, kinds: array<Kind>, i: nat) returns (regex: bool)
    requires i <= |s| == kinds.Length
    ensures regex == OpensRegex(s, kinds[..], i)
  {
    var prev: int := i - 1;
    while prev >= 0 && (IsSpace(s[prev]) || kinds[prev] == Comment)
      invariant -1 <= prev < i
      invariant SignificantEnd(s, kinds[..], i) == SignificantEnd(s, kinds[..], prev + 1)
    {
      prev := prev - 1;
    }
    if prev < 0 { return true; }
    if kinds[prev] == Literal { return false; }
    if IsIdent(s[prev]) {
      var start := prev;
      while start > 0 && IsIdent(s[start - 1])
        invariant 0 <= start <= prev
        invariant WordStart(s, prev + 1) == WordStart(s, start)
      {
        start := start - 1;
      }
      return s[start..prev + 1] in RegexKeywords;
    }
    return s[prev] in RegexMayFollow;
  }

  /** A string whose opening quote is at `i`: one past its closing quote. */
  method StringLoop(s: string, i: nat) returns (e: Option<nat>)
    requires i < |s|
    ensures e == StringEnd(s, i + 1, s[i])
  {
    var j := i + 1;
    while j < |s| && s[j] != s[i]
      invariant i < j && StringEnd(s, i + 1, s[i]) == StringEnd(s, j, s[i])
    {
      if s[j] == '\n' { return None; }
      j := j + if s[j] == '\\' then 2 else 1;
    }
    return if j >= |s| then None else Some(j + 1);
  }

  /** A regular expression whose `/` is at `i`: one past its closing `/` and flags. */
  method RegexLoop(s: string, i: nat) returns (e: Option<nat>)
    requires i < |s|
    ensures e == match RegexEnd(s, i + 1, false) case None => None case Some(j) => Some(FlagsEnd(s, j))
  {
    var j, inClass := i + 1, false;
    while j < |s|
      invariant i < j && RegexEnd(s, i + 1, false) == RegexEnd(s, j, inClass)
    {
      if s[j] == '\n' { return None; }
      if s[j] == '\\' {
        j := j + 2;
        continue;
      }
      if s[j] == '[' {
        inClass := true;
      } else if s[j] == ']' {
        inClass := false;
      } else if s[j] == '/' && !inClass {
        break;
      }
      j := j + 1;
    }
    if j >= |s| { return None; }
    j := j + 1;
    ghost var close := j;
    while j < |s| && IsLetter(s[j])
      invariant close <= j <= |s| && FlagsEnd(s, close) == FlagsEnd(s, j)
    {
      j := j + 1;
    }
    return Some(j);
  }

  /** The labels behind `i` are still the initial ones. */
  ghost predicate Unread(kinds: array<Kind>, i: nat)
    reads kinds
  {
    i <= kinds.Length && forall k :: i <= k < kinds.Length ==> kinds[k] == Code
  }

  /** Filling a stretch that reaches up to what was read gives the labels `Mark` gives. */
  lemma {:induction false} MarkedPrefix(before: seq<Kind>, after: seq<Kind>, i: nat, from: nat, till: nat, kind: Kind)
    requires from <= i <= till <= |before| && after == before[..from] + Fill(till - from, kind) + before[till..]
    ensures after[..till] == Mark(before[..i], from, till, kind)
    ensures |after| == |before| && forall k :: till <= k < |after| ==> after[k] == before[k]
  {
  }

  /** `kinds.fill(kind, from, to)`, where the text was read up to `i`. */
  method MarkRange(kinds: array<Kind>, from: nat, till: nat, kind: Kind, ghost i: nat)
    requires from <= i <= till <= kinds.Length && Unread(kinds, i)
    modifies kinds
    ensures kinds[..till] == Mark(old(kinds[..i]), from, till, kind) && Unread(kinds, till)
  {
    for k := from to till
      invariant kinds[..] == old(kinds[..from]) + Fill(k - from, kind) + old(kinds[k..])
    {
      kinds[k] := kind;
    }
    MarkedPrefix(old(kinds[..]), kinds[..], i, from, till, kind);
  }

  /** `scanTemplateText`: template text after the backtick, or the `}`, at `i`. */
  method ScanTemplateText(s: string, kinds: array<Kind>, stack: seq<Frame>, i: nat)
    returns (r: Result<(nat, seq<Frame>), ScanError>)
    requires i < |s| == kinds.Length && Valid(s, LexState(kinds[..i], stack)) && Unread(kinds, i)
    modifies kinds
    ensures match TemplateText(s, old(LexState(kinds[..i], stack)), i)
            case Success(next) => r == Success((|next.kinds|, next.stack)) && kinds[..|next.kinds|] == next.kinds && Unread(kinds, |next.kinds|)
            case Failure(error) => r == Failure(error)
  {
    var j := i + 1;
    while j < |s|
      invariant i < j && TemplateEnd(s, i + 1) == TemplateEnd(s, j)
      invariant kinds[..] == old(kinds[..])
    {
      if s[j] == '\\' {
        j := j + 2;
      } else if s[j] == '`' {
        MarkRange(kinds, i, j + 1, Literal, i);
        return Success((j + 1, stack));
      } else if s[j] == '$' && At(s, j + 1, '{') {
        MarkRange(kinds, i, j + 2, Literal, i);
        return Success((j + 2, stack + [Frame(j, 0)]));
      } else {
        j := j + 1;
      }
    }
    return Failure(Unterminated(TemplateLiteral, i));
  }

  /** One turn of the main loop, at a `/`. */
  method ClassifySlash(s: string, kinds: array<Kind>, stack: seq<Frame>, i: nat) returns (r: Result<nat, ScanError>)
    requires i < |s| == kinds.Length && s[i] == '/' && Valid(s, LexState(kinds[..i], stack)) && Unread(kinds, i)
    modifies kinds
    ensures match Step(s, old(LexState(kinds[..i], stack)))
            case Success(next) =>
              r == Success(|next.kinds|) && next.stack == stack && kinds[..|next.kinds|] == next.kinds && Unread(kinds, |next.kinds|)
            case Failure(error) => r == Failure(error)
  {
    hide OpensRegex, BlockEnd, LineEnd, RegexEnd, FlagsEnd, Mark;
    if At(s, i + 1, '/') {
      var end := LineEnd(s, i);
      MarkRange(kinds, i, end, Comment, i);
      return Success(end);
    } else if At(s, i + 1, '*') {
      var close := BlockEnd(s, i + 2);
      if close.None? { return Failure(Unterminated(BlockComment, i)); }
      MarkRange(kinds, i, close.value, Comment, i);
      return Success(close.value);
    }
    var regex := ReadsAsRegex(s, kinds, i);
    OpensRegexPrefix(s, kinds[..], kinds[..i], i);
    if !regex {
      assert kinds[..i + 1] == kinds[..i] + [Code];
      return Success(i + 1);
    }
    var end := RegexLoop(s, i);
    if end.None? { return Failure(Unterminated(RegularExpression, i)); }
    MarkRange(kinds, i, end.value, Literal, i);
    return Success(end.value);
  }

  /** One turn of the main loop, at a `}` inside an interpolation. */
  method ClassifyClose(s: string, kinds: array<Kind>, stack: seq<Frame>, i: nat) returns (r: Result<(nat, seq<Frame>), ScanError>)
    requires i < |s| == kinds.Length && s[i] == '}' && stack != []
    requires Valid(s, LexState(kinds[..i], stack)) && Unread(kinds, i)
    modifies kinds
    ensures match Step(s, old(LexState(kinds[..i], stack)))
            case Success(next) =>
              r == Success((|next.kinds|, next.stack)) && kinds[..|next.kinds|] == next.kinds && Unread(kinds, |next.kinds|)
            case Failure(error) => r == Failure(error)
  {
    var top := stack[|stack| - 1];
    if top.depth == 0 {
      MarkRange(kinds, top.start, i, Literal, i);
      r := ScanTemplateText(s, kinds, stack[..|stack| - 1], i);
    } else {
      assert kinds[..i + 1] == kinds[..i] + [Code];
      return Success((i + 1, stack[|stack| - 1 := top.(depth := top.depth - 1)]));
    }
  }

  /** One turn of the main loop. */
  method ClassifyNext(s: string, kinds: array<Kind>, stack: seq<Frame>, i: nat) returns (r: Result<(nat, seq<Frame>), ScanError>)
    requires i < |s| == kinds.Length && Valid(s, LexState(kinds[..i], stack)) && Unread(kinds, i)
    modifies kinds
    ensures match Step(s, old(LexState(kinds[..i], stack)))
            case Success(next) =>
              r == Success((|next.kinds|, next.stack)) && kinds[..|next.kinds|] == next.kinds && Unread(kinds, |next.kinds|)
            case Failure(error) => r == Failure(error)
  {
    hide OpensRegex, BlockEnd, LineEnd, RegexEnd, FlagsEnd, StringEnd, Mark;
    if s[i] == '/' {
      var slash := ClassifySlash(s, kinds, stack, i);
      return if slash.Success? then Success((slash.value, stack)) else Failure(slash.error);
    } else if s[i] == '"' || s[i] == '\'' {
      var close := StringLoop(s, i);
      if close.None? { return Failure(Unterminated(StringLiteral, i)); }
      MarkRange(kinds, i, close.value, Literal, i);
      return Success((close.value, stack));
    } else if s[i] == '`' {
      r := ScanTemplateText(s, kinds, stack, i);
    } else if s[i] == '}' && stack != [] {
      r := ClassifyClose(s, kinds, stack, i);
    } else {
      var n := |stack|;
      assert kinds[..i + 1] == kinds[..i] + [Code];
      var next := if s[i] == '{' && n > 0 then stack[n - 1 := stack[n - 1].(depth := stack[n - 1].depth + 1)] else stack;
      return Success((i + 1, next));
    }
  }

  /** `classify`: the labels of a source text, in one array. */
  method Classify(s: string) returns (r: Result<array<Kind>, ScanError>)
    ensures match Lex(s)
            case Success(labels) => r.Success? && fresh(r.value) && r.value[..] == labels
            case Failure(error) => r == Failure(error)
  {
    hide Step;
    var kinds := new Kind[|s|](_ => Code);
    var i, stack := 0, [];
    while i < |s|
      invariant i <= |s| && Valid(s, LexState(kinds[..i], stack)) && Unread(kinds, i)
      invariant Lex(s) == Finish(s, LexState(kinds[..i], stack))
      decreases |s| - i
    {
      ghost var st := LexState(kinds[..i], stack);
      var next := ClassifyNext(s, kinds, stack, i);
      if next.Failure? { return Failure(next.error); }
      assert Step(s, st) == Success(LexState(kinds[..next.value.0], next.value.1));
      i, stack := next.value.0, next.value.1;
    }
    if stack != [] { return Failure(Unterminated(TemplateExpression, |s|)); }
    assert kinds[..i] == kinds[..];
    return Success(kinds);
  }

  // ---------------------------------------------------------------------------
  // Entries
  // ---------------------------------------------------------------------------

  method SkipTriviaLoop(s: string, kinds: array<Kind>, from: nat, till: nat) returns (i: nat)
    requires from <= till <= |s| == kinds.Length
    ensures i == SkipTrivia(s, kinds[..], from, till)
  {
    i := from;
    while i < till && (IsSpace(s[i]) || kinds[i] == Comment)
      invariant from <= i <= till && SkipTrivia(s, kinds[..], from, till) == SkipTrivia(s, kinds[..], i, till)
    {
      i := i + 1;
    }
  }

  method TrimTriviaEndLoop(s: string, kinds: array<Kind>, from: nat, till: nat) returns (i: nat)
    requires from <= till <= |s| == kinds.Length
    ensures i == TrimTriviaEnd(s, kinds[..], from, till)
  {
    i := till;
    while i > from && (IsSpace(s[i - 1]) || kinds[i - 1] == Comment)
      invariant from <= i <= till && TrimTriviaEnd(s, kinds[..], from, till) == TrimTriviaEnd(s, kinds[..], from, i)
    {
      i := i - 1;
    }
  }

  /** The property name at `start`: the name, and where it ends. */
  method ReadKeyLoop(s: string, kinds: array<Kind>, start: nat, end: nat) returns (r: Option<(string, nat)>)
    requires start < end <= |s| == kinds.Length
    ensures r == ReadKey(s, kinds[..], start, end)
  {
    if kinds[start] == Literal && (s[start] == '"' || s[start] == '\'') {
      var close := start;
      while close < end && kinds[close] == Literal
        invariant start <= close <= end && LiteralEnd(kinds[..], start, end) == LiteralEnd(kinds[..], close, end)
      {
        close := close + 1;
      }
      var inner := if close < start + 2 then "" else s[start + 1..close - 1];
      return if '\\' in inner then None else Some((inner, close));
    } else if kinds[start] == Code && IsIdent(s[start]) && !IsDigit(s[start]) {
      var close := IdentEnd(s, start, end);
      return Some((s[start..close], close));
    }
    return None;
  }

  method ReadEntryLoop(s: string, kinds: array<Kind>, from: nat, till: nat) returns (r: Option<ObjectEntry>)
    requires from <= till <= |s| == kinds.Length
    ensures r == ReadEntry(s, kinds[..], from, till)
  {
    hide SkipTrivia, TrimTriviaEnd, ReadKey;
    var start := SkipTriviaLoop(s, kinds, from, till);
    if start >= till { return None; }
    var end := TrimTriviaEndLoop(s, kinds, start, till);
    var key := ReadKeyLoop(s, kinds, start, end);
    if key.None? { return Some(Unkeyed(None, start, end)); }
    var colon := SkipTriviaLoop(s, kinds, key.value.1, end);
    if colon >= end || s[colon] != ':' || kinds[colon] != Code { return Some(Unkeyed(Some(key.value.0), start, end)); }
    var valueStart := SkipTriviaLoop(s, kinds, colon + 1, end);
    return Some(ObjectEntry(Some(key.value.0), true, start, end, valueStart, end));
  }

  /** `scanObject`, for the object literal that `open` is the brace of. */
  method ScanObjectLoop(s: string, kinds: array<Kind>, open: nat) returns (r: Result<ObjectScan, ScanObjectError>)
    requires |s| == kinds.Length
    ensures r == ScanObject(s, kinds[..], open)
  {
    hide ReadEntry;
    if !At(s, open, '{') || kinds[open] != Code { return Failure(NotAnObject(open)); }
    var entries, depth: nat, entryStart: nat := [], 0, open + 1;
    var i := open + 1;
    while i < |s|
      invariant entryStart <= i <= |s|
      invariant ScanTo(s, kinds[..], open + 1, ScanState(0, open + 1, []), |s|)
                == ScanTo(s, kinds[..], i, ScanState(depth, entryStart, entries), |s|)
    {
      if kinds[i] == Code {
        if OpensBracket(s[i]) {
          depth := depth + 1;
        } else if ClosesBracket(s[i]) {
          if depth > 0 {
            depth := depth - 1;
          } else if s[i] != '}' {
            return Failure(Unbalanced(i));
          } else {
            var last := ReadEntryLoop(s, kinds, entryStart, i);
            return Success(ObjectScan(open, i, entries + OptionSeq(last)));
          }
        } else if s[i] == ',' && depth == 0 {
          var entry := ReadEntryLoop(s, kinds, entryStart, i);
          entries, entryStart := entries + OptionSeq(entry), i + 1;
        }
      }
      i := i + 1;
    }
    return Failure(NeverClosed(open));
  }
}

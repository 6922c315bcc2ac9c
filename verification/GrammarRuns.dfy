/** A text whose tokens are given is labelled by the machine as they say. */
module GrammarRuns {
  import opened Wrappers
  import opened SourceLexer
  import opened LexerTokens
  import opened SourceGrammar

  /** Reading from `st` passes `last`. */
  ghost predicate Passes(s: string, st: LexState, last: LexState) {
    && Valid(s, st) && |last.kinds| <= |s|
    && RunTo(s, st, |last.kinds|) == Success(last)
  }

  lemma {:induction false} PassesStep(s: string, st: LexState, next: LexState)
    requires Valid(s, st) && |st.kinds| < |s| && Step(s, st) == Success(next)
    ensures Passes(s, st, next)
  {
    hide Step;
    assert RunTo(s, next, |next.kinds|) == Success(next);
  }

  lemma {:induction false} PassesOn(s: string, st: LexState, mid: LexState, last: LexState)
    requires Passes(s, st, mid) && Passes(s, mid, last) && |mid.kinds| <= |last.kinds|
    ensures Passes(s, st, last)
  {
    RunCompose(s, st, |mid.kinds|, |last.kinds|);
  }

  lemma {:induction false} MarkIsLabelled(kinds: seq<Kind>, to: nat, kind: Kind)
    requires |kinds| <= to
    ensures Mark(kinds, |kinds|, to, kind) == Labelled(kinds, to, kind)
  {
  }

  /** Marking again what is already marked so. */
  lemma {:induction false} MarkOver(kinds: seq<Kind>, from: nat, to: nat, kind: Kind)
    requires |kinds| <= from <= to
    ensures Mark(Labelled(kinds, from, kind), from, to, kind) == Labelled(kinds, to, kind)
  {
  }

  /** A flat token is read in one step. */
  lemma {:induction false} FlatStep(s: string, st: LexState, t: Token)
    requires Valid(s, st) && IsToken(s, st.kinds, t) && !t.shape.Template?
    requires t.shape == Char && st.stack != [] ==> s[|st.kinds|] != '{' && s[|st.kinds|] != '}'
    ensures Step(s, st) == Success(LexState(Labelled(st.kinds, t.to, LabelOf(t.shape)), st.stack))
  {
    hide OperandExpected, OpensRegex, RegexEnd, FlagsEnd, TemplateEnd, StringEnd, BlockEnd, LineEnd, RegexCloses,
      FlagsStop, QuoteCloses, NoteCloses, LineStops, Mark, Labelled, TemplateText;
    var i := |st.kinds|;
    MarkIsLabelled(st.kinds, t.to, LabelOf(t.shape));
    match t.shape
    case Char =>
      OpensRegexIs(s, st.kinds, i);
      assert Labelled(st.kinds, i + 1, Code) == st.kinds + [Code] by { LabelledOne(st.kinds); }
    case LineNote => LineEndIs(s, i, t.to);
    case BlockNote => BlockEndIs(s, i + 2, t.to);
    case Quoted => StringEndIs(s, i + 1, i + 1, t.to - 1, s[i]);
    case Regex(slash) =>
      OpensRegexIs(s, st.kinds, i);
      NotInClassYet(s, i + 1);
      RegexEndIs(s, i + 1, i + 1, slash, false);
      FlagsEndIs(s, slash + 1, t.to);
  }

  lemma {:induction false} LabelledOne(kinds: seq<Kind>)
    ensures Labelled(kinds, |kinds| + 1, Code) == kinds + [Code]
  {
  }

  lemma {:induction false} NotInClassYet(s: string, i: nat)
    requires i <= |s|
    ensures !InClass(s, i, i) && !Escaped(s, i, i)
  {
  }

  /** A brace inside an interpolation is counted. */
  lemma {:induction false} BraceStep(s: string, st: LexState, rest: seq<Frame>, top: Frame)
    requires Valid(s, st) && st.stack == rest + [top] && |st.kinds| < |s|
    ensures s[|st.kinds|] == '{' ==>
              Step(s, st) == Success(LexState(st.kinds + [Code], rest + [Frame(top.start, top.depth + 1)]))
    ensures s[|st.kinds|] == '}' && top.depth > 0 ==>
              Step(s, st) == Success(LexState(st.kinds + [Code], rest + [Frame(top.start, top.depth - 1)]))
  {
    hide TemplateText;
    assert st.stack[|st.stack| - 1] == top;
    assert forall f: Frame :: st.stack[|st.stack| - 1 := f] == rest + [f];
  }

  /** The `}` that ends an interpolation makes it literal and goes on with the template text. */
  lemma {:induction false} CloseStep(s: string, st: LexState, rest: seq<Frame>, start: nat)
    requires Valid(s, st) && st.stack == rest + [Frame(start, 0)] && |st.kinds| < |s| && s[|st.kinds|] == '}'
    ensures start <= |st.kinds| && Valid(s, LexState(Mark(st.kinds, start, |st.kinds|, Literal), rest))
    ensures Step(s, st) == TemplateText(s, LexState(Mark(st.kinds, start, |st.kinds|, Literal), rest), |st.kinds|)
  {
    hide TemplateText;
    assert st.stack[|st.stack| - 1] == Frame(start, 0);
    assert st.stack[..|st.stack| - 1] == rest;
    assert forall i :: 0 <= i < |rest| ==> rest[i] == st.stack[i];
  }

  /** The state behind `kinds` and literal text up to `i`. */
  function InText(kinds: seq<Kind>, i: nat, stack: seq<Frame>): LexState
    requires |kinds| <= i
  {
    LexState(Labelled(kinds, i, Literal), stack)
  }

  /** The frames of `stack` were opened within the first `n` characters. */
  lemma {:induction false} ValidText(s: string, kinds: seq<Kind>, i: nat, stack: seq<Frame>)
    requires |kinds| <= i <= |s| && Valid(s, LexState(kinds, stack))
    ensures Valid(s, InText(kinds, i, stack))
  {
  }

  lemma {:induction false} ValidHole(s: string, kinds: seq<Kind>, dollar: nat, stack: seq<Frame>)
    requires |kinds| <= dollar && dollar + 2 <= |s| && Valid(s, LexState(kinds, stack))
    ensures Valid(s, InText(kinds, dollar + 2, stack + [Frame(dollar, 0)]))
  {
  }

  /** How template text is read when it ends with its backtick. */
  lemma {:induction false} TextCloses(s: string, kinds: seq<Kind>, i: nat, stack: seq<Frame>, to: nat)
    requires |kinds| <= i < |s| && Valid(s, LexState(kinds, stack)) && Valid(s, InText(kinds, i, stack))
    requires to > 0 && TextEnds(s, i + 1, i + 1, to - 1) && s[to - 1] == '`'
    ensures TemplateText(s, InText(kinds, i, stack), i) == Success(InText(kinds, to, stack))
  {
    hide TextEnds, TemplateEnd, Mark, Labelled;
    TemplateEndIs(s, i + 1, i + 1, to - 1);
    MarkOver(kinds, i, to, Literal);
  }

  /** How template text is read when it ends with an interpolation. */
  lemma {:induction false} TextOpens(s: string, kinds: seq<Kind>, i: nat, stack: seq<Frame>, dollar: nat)
    requires |kinds| <= i < |s| && Valid(s, InText(kinds, i, stack))
    requires TextEnds(s, i + 1, i + 1, dollar) && s[dollar] == '$'
    ensures TemplateText(s, InText(kinds, i, stack), i) == Success(InText(kinds, dollar + 2, stack + [Frame(dollar, 0)]))
  {
    hide TemplateEnd, Mark, Labelled;
    TemplateEndIs(s, i + 1, i + 1, dollar);
    MarkOver(kinds, i, dollar + 2, Literal);
  }

  lemma {:induction false} LongEnough(s: string, kinds: seq<Kind>, t: Token)
    requires IsToken(s, kinds, t)
    ensures |kinds| < t.to <= |s|
  {
  }

  /** A token is read from any state behind its labels, and leaves the stack as it was. */
  lemma {:induction false} TokenPasses(s: string, st: LexState, t: Token)
    requires Valid(s, st) && IsToken(s, st.kinds, t)
    requires t.shape == Char && st.stack != [] ==> s[|st.kinds|] != '{' && s[|st.kinds|] != '}'
    ensures Passes(s, st, LexState(Labelled(st.kinds, t.to, LabelOf(t.shape)), st.stack))
    decreases t
  {
    hide Step, Passes, Labelled, TemplateText;
    var i := |st.kinds|;
    var last := LexState(Labelled(st.kinds, t.to, LabelOf(t.shape)), st.stack);
    LongEnough(s, st.kinds, t);
    LabelledExtends(st.kinds, t.to, LabelOf(t.shape));
    if t.shape.Template? {
      LabelledNothing(st.kinds);
      assert InText(st.kinds, i, st.stack) == st;
      TemplatePasses(s, st.kinds, i, st.stack, t.shape.holes, t.to);
      var next := TemplateText(s, st, i).value;
      assert Step(s, st) == Success(next) by { TemplateStep(s, st); }
      PassesStep(s, st, next);
      PassesOn(s, st, next, last);
    } else {
      FlatStep(s, st, t);
      PassesStep(s, st, last);
    }
  }

  lemma {:induction false} LabelledNothing(kinds: seq<Kind>)
    ensures Labelled(kinds, |kinds|, Literal) == kinds
  {
  }

  lemma {:induction false} TemplateStep(s: string, st: LexState)
    requires Valid(s, st) && |st.kinds| < |s| && s[|st.kinds|] == '`'
    ensures Step(s, st) == TemplateText(s, st, |st.kinds|)
  {
    hide TemplateText;
  }

  /** Template text and its interpolations are read up to the closing backtick. */
  lemma {:induction false} TemplatePasses(s: string, kinds: seq<Kind>, i: nat, stack: seq<Frame>, holes: seq<Hole>, to: nat)
    requires Valid(s, LexState(kinds, stack)) && IsTemplate(s, kinds, i, holes, to)
    ensures |kinds| <= i < to <= |s| && Valid(s, InText(kinds, i, stack))
    ensures TemplateText(s, InText(kinds, i, stack), i).Success?
    ensures var next := TemplateText(s, InText(kinds, i, stack), i).value;
            |next.kinds| <= to && Passes(s, next, InText(kinds, to, stack))
    decreases holes, 1
  {
    hide Step, Valid, Passes, Labelled, TemplateText, TextEnds;
    ValidText(s, kinds, i, stack);
    if holes == [] {
      TextWithin(s, i + 1, to - 1);
      LabelledExtends(kinds, to, Literal);
      TextCloses(s, kinds, i, stack, to);
      ValidText(s, kinds, to, stack);
      PassesSelf(s, InText(kinds, to, stack));
    } else {
      var hole := holes[0];
      TextWithin(s, i + 1, hole.dollar);
      TextOpens(s, kinds, i, stack, hole.dollar);
      ValidHole(s, kinds, hole.dollar, stack);
      LabelledExtends(kinds, hole.dollar + 2, Literal);
      HolePasses(s, kinds, stack, holes, to);
    }
  }

  lemma {:induction false} PassesSelf(s: string, st: LexState)
    requires Valid(s, st)
    ensures Passes(s, st, st)
  {
  }

  lemma {:induction false} TextWithin(s: string, i: nat, c: nat)
    requires TextEnds(s, i, i, c)
    ensures i <= c < |s| && (s[c] == '$' ==> c + 2 <= |s|)
  {
  }

  /** From behind an open `${` up to the end of its template. */
  lemma {:induction false} HolePasses(s: string, kinds: seq<Kind>, stack: seq<Frame>, holes: seq<Hole>, to: nat)
    requires holes != []
    requires var hole := holes[0]; |kinds| <= hole.dollar && hole.dollar + 2 <= |s| && Valid(s, LexState(kinds, stack))
    requires var hole := holes[0];
             && Valid(s, InText(kinds, hole.dollar + 2, stack + [Frame(hole.dollar, 0)]))
             && IsCode(s, Labelled(kinds, hole.dollar + 2, Literal), hole.code, 0, hole.close)
             && IsTemplate(s, kinds, hole.close, holes[1..], to)
    ensures holes[0].dollar + 2 <= to <= |s|
    ensures var hole := holes[0];
            Passes(s, InText(kinds, hole.dollar + 2, stack + [Frame(hole.dollar, 0)]), InText(kinds, to, stack))
    decreases holes, 0
  {
    hide Step, Valid, Passes, Labelled, TemplateText, IsCode, IsTemplate;
    var hole := holes[0];
    var open := InText(kinds, hole.dollar + 2, stack + [Frame(hole.dollar, 0)]);
    LabelledExtends(kinds, hole.dollar + 2, Literal);
    var k := CodePasses(s, open, stack, hole.dollar, hole.code, 0, hole.close);
    var shut := LexState(k, stack + [Frame(hole.dollar, 0)]);
    PassesValid(s, open, shut);
    CloseStep(s, shut, stack, hole.dollar);
    TemplatePasses(s, kinds, hole.close, stack, holes[1..], to);
    assert Mark(k, hole.dollar, hole.close, Literal) == Labelled(kinds, hole.close, Literal) by {
      MarkBack(kinds, hole.dollar, k);
    }
    var next := TemplateText(s, InText(kinds, hole.close, stack), hole.close).value;
    assert Step(s, shut) == Success(next);
    LabelledExtends(kinds, to, Literal);
    PassesStep(s, shut, next);
    PassesOn(s, shut, next, InText(kinds, to, stack));
    PassesOn(s, open, shut, InText(kinds, to, stack));
  }

  lemma {:induction false} PassesValid(s: string, st: LexState, last: LexState)
    requires Passes(s, st, last)
    ensures Valid(s, last)
  {
  }

  /** Marking everything behind `kinds` literal forgets what stood there. */
  lemma {:induction false} MarkBack(kinds: seq<Kind>, dollar: nat, k: seq<Kind>)
    requires |kinds| <= dollar && dollar + 2 <= |k| && Labelled(kinds, dollar + 2, Literal) <= k
    ensures Mark(k, dollar, |k|, Literal) == Labelled(kinds, |k|, Literal)
  {
    assert forall j :: 0 <= j < dollar + 2 ==> k[j] == Labelled(kinds, dollar + 2, Literal)[j];
    assert forall j :: 0 <= j < dollar ==> Mark(k, dollar, |k|, Literal)[..dollar][j] == k[j];
  }

  /** The tokens of an interpolation are read up to its `}`. */
  lemma {:induction false} CodePasses(s: string, st: LexState, rest: seq<Frame>, start: nat, code: seq<Token>, depth: nat, close: nat)
      returns (k: seq<Kind>)
    requires Valid(s, st) && st.stack == rest + [Frame(start, depth)] && IsCode(s, st.kinds, code, depth, close)
    ensures st.kinds <= k && |k| == close < |s| && s[close] == '}'
    ensures Passes(s, st, LexState(k, rest + [Frame(start, 0)]))
    decreases code
  {
    hide Step, Valid, Passes, Labelled, IsToken;
    if code == [] {
      k := st.kinds;
      PassesSelf(s, st);
    } else {
      var t := code[0];
      LongEnough(s, st.kinds, t);
      var d := if t.shape == Char && s[|st.kinds|] == '{' then depth + 1
               else if t.shape == Char && s[|st.kinds|] == '}' then depth - 1 else depth;
      var next := LexState(Labelled(st.kinds, t.to, LabelOf(t.shape)), rest + [Frame(start, d)]);
      assert Passes(s, st, next) by {
        if d == depth { TokenPasses(s, st, t); } else { BracePasses(s, st, rest, Frame(start, depth), t); }
      }
      PassesValid(s, st, next);
      k := CodePasses(s, next, rest, start, code[1..], d, close);
      PassesOn(s, st, next, LexState(k, rest + [Frame(start, 0)]));
      LabelledExtends(st.kinds, t.to, LabelOf(t.shape));
    }
  }

  lemma {:induction false} LabelledExtends(kinds: seq<Kind>, to: nat, kind: Kind)
    requires |kinds| <= to
    ensures kinds <= Labelled(kinds, to, kind) && |Labelled(kinds, to, kind)| == to
  {
  }

  lemma {:induction false} BracePasses(s: string, st: LexState, rest: seq<Frame>, top: Frame, t: Token)
    requires Valid(s, st) && st.stack == rest + [top] && IsToken(s, st.kinds, t) && t.shape == Char
    requires s[|st.kinds|] == '{' || (s[|st.kinds|] == '}' && top.depth > 0)
    ensures var d := if s[|st.kinds|] == '{' then top.depth + 1 else top.depth - 1;
            Passes(s, st, LexState(Labelled(st.kinds, t.to, Code), rest + [Frame(top.start, d)]))
  {
    hide Step, Passes, Valid, Labelled;
    BraceStep(s, st, rest, top);
    LabelledOne(st.kinds);
    PassesStep(s, st, Step(s, st).value);
  }

  /** A row of tokens is read to the end of the text. */
  lemma {:induction false} TokensReach(s: string, kinds: seq<Kind>, ts: seq<Token>, all: seq<Kind>)
    requires |kinds| <= |s| && AreTokens(s, kinds, ts, all)
    ensures Finish(s, LexState(kinds, [])) == Success(all)
    decreases ts
  {
    hide Step, IsToken, Labelled;
    var st := LexState(kinds, []);
    if ts != [] {
      var t := ts[0];
      LongEnough(s, kinds, t);
      TokenPasses(s, st, t);
      var next := LexState(Labelled(kinds, t.to, LabelOf(t.shape)), []);
      LabelledExtends(kinds, t.to, LabelOf(t.shape));
      TokensReach(s, next.kinds, ts[1..], all);
      RunCompose(s, st, t.to, |s|);
    }
  }
}

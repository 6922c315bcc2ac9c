/** The machine reads nothing but tokens of the grammar: `classify` accepts exactly the texts they make. */
module GrammarReads {
  import opened Wrappers
  import opened Text
  import opened SourceLexer
  import opened LexerTokens
  import opened SourceGrammar
  import opened GrammarRuns
  import opened LexerSplice

  lemma {:induction false} ReachOn(s: string, st: LexState, last: LexState, all: seq<Kind>)
    requires Reaches(s, st, all) && Passes(s, st, last)
    ensures Reaches(s, last, all)
  {
    RunCompose(s, st, |last.kinds|, |s|);
  }

  /** What a step reads that is neither a template nor a brace of an interpolation. */
  lemma {:induction false} FlatRead(s: string, st: LexState) returns (t: Token)
    requires Valid(s, st) && |st.kinds| < |s| && Step(s, st).Success?
    requires s[|st.kinds|] != '`' && (st.stack != [] ==> s[|st.kinds|] != '{' && s[|st.kinds|] != '}')
    ensures IsToken(s, st.kinds, t) && !t.shape.Template?
    ensures t.shape == Char && st.stack != [] ==> s[|st.kinds|] != '{' && s[|st.kinds|] != '}'
  {
    hide OperandExpected, OpensRegex, RegexEnd, FlagsEnd, TemplateEnd, StringEnd, BlockEnd, LineEnd, RegexCloses,
      FlagsStop, QuoteCloses, NoteCloses, LineStops, Mark, TemplateText, Valid;
    var i := |st.kinds|;
    if s[i] == '/' && At(s, i + 1, '/') {
      t := Token(LineNote, LineEnd(s, i));
      LineEndIs(s, i, t.to);
      LineGoesOn(s, i, t.to);
    } else if s[i] == '/' && At(s, i + 1, '*') {
      t := Token(BlockNote, BlockEnd(s, i + 2).value);
      BlockEndIs(s, i + 2, t.to);
    } else if s[i] == '"' || s[i] == '\'' {
      t := Token(Quoted, StringEnd(s, i + 1, s[i]).value);
      StringEndIs(s, i + 1, i + 1, t.to - 1, s[i]);
    } else {
      OpensRegexIs(s, st.kinds, i);
      if s[i] == '/' && OpensRegex(s, st.kinds, i) {
        var e := RegexEnd(s, i + 1, false).value;
        t := Token(Regex(e - 1), FlagsEnd(s, e));
        NotInClassYet(s, i + 1);
        RegexEndIs(s, i + 1, i + 1, e - 1, false);
        FlagsEndIs(s, e, t.to);
      } else {
        t := Token(Char, i + 1);
      }
    }
  }

  lemma {:induction false} LineGoesOn(s: string, i: nat, e: nat)
    requires i < |s| && s[i] == '/' && LineStops(s, i, e)
    ensures i < e
  {
  }

  /** Template text that is read has the form of the grammar. */
  lemma {:induction false} TemplateRead(s: string, kinds: seq<Kind>, i: nat, stack: seq<Frame>, all: seq<Kind>)
      returns (holes: seq<Hole>, to: nat)
    requires |kinds| <= i < |s| && Valid(s, LexState(kinds, stack)) && Valid(s, InText(kinds, i, stack))
    requires TemplateText(s, InText(kinds, i, stack), i).Success?
    requires Reaches(s, TemplateText(s, InText(kinds, i, stack), i).value, all)
    ensures IsTemplate(s, kinds, i, holes, to) && to > i
    decreases |s| - i, 1
  {
    hide Step, Valid, Reaches, Labelled, TextEnds, IsCode, Mark;
    NotInClassYet(s, i + 1);
    match TemplateEnd(s, i + 1)
    case Closed(next) =>
      TemplateEndIs(s, i + 1, i + 1, next - 1);
      holes, to := [], next;
    case Interpolation(dollar) =>
      TemplateEndIs(s, i + 1, i + 1, dollar);
      TextOpens(s, kinds, i, stack, dollar);
      ValidHole(s, kinds, dollar, stack);
      var open := InText(kinds, dollar + 2, stack + [Frame(dollar, 0)]);
      LabelledExtends(kinds, dollar + 2, Literal);
      var code, close := CodeRead(s, open, stack, dollar, 0, all);
      var k := CodePasses(s, open, stack, dollar, code, 0, close);
      var shut := LexState(k, stack + [Frame(dollar, 0)]);
      ReachOn(s, open, shut, all);
      PassesValid(s, open, shut);
      var more: seq<Hole>;
      more, to := ClosedRead(s, kinds, shut, stack, dollar, all);
      holes := [Hole(dollar, code, close)] + more;
      assert holes[1..] == more;
  }

  /** From the `}` of an interpolation on. */
  lemma {:induction false} ClosedRead(s: string, kinds: seq<Kind>, shut: LexState, stack: seq<Frame>, dollar: nat, all: seq<Kind>)
      returns (holes: seq<Hole>, to: nat)
    requires Valid(s, LexState(kinds, stack)) && |kinds| <= dollar && dollar + 2 <= |shut.kinds| < |s|
    requires Labelled(kinds, dollar + 2, Literal) <= shut.kinds && shut.stack == stack + [Frame(dollar, 0)]
    requires Reaches(s, shut, all) && s[|shut.kinds|] == '}'
    ensures IsTemplate(s, kinds, |shut.kinds|, holes, to) && to > |shut.kinds|
    decreases |s| - |shut.kinds|, 2
  {
    hide Step, Labelled, TemplateText, IsTemplate, Mark;
    var i := |shut.kinds|;
    CloseStep(s, shut, stack, dollar);
    MarkBack(kinds, dollar, shut.kinds);
    ValidText(s, kinds, i, stack);
    var next := Step(s, shut).value;
    PassesStep(s, shut, next);
    ReachOn(s, shut, next, all);
    holes, to := TemplateRead(s, kinds, i, stack, all);
  }

  /** One token that is read outside the braces that count. */
  lemma {:induction false} TokenRead(s: string, st: LexState, all: seq<Kind>) returns (t: Token)
    requires Reaches(s, st, all) && |st.kinds| < |s|
    requires st.stack != [] ==> s[|st.kinds|] != '{' && s[|st.kinds|] != '}'
    ensures IsToken(s, st.kinds, t)
    ensures t.shape == Char && st.stack != [] ==> s[|st.kinds|] != '{' && s[|st.kinds|] != '}'
    decreases |s| - |st.kinds|, 2
  {
    hide Step, Labelled, TemplateText, IsTemplate;
    var i := |st.kinds|;
    var next := Step(s, st).value;
    if s[i] == '`' {
      TemplateStep(s, st);
      LabelledNothing(st.kinds);
      assert InText(st.kinds, i, st.stack) == st;
      PassesStep(s, st, next);
      ReachOn(s, st, next, all);
      var holes, to := TemplateRead(s, st.kinds, i, st.stack, all);
      TemplatePasses(s, st.kinds, i, st.stack, holes, to);
      t := Token(Template(holes), to);
    } else {
      t := FlatRead(s, st);
    }
  }

  /** The tokens of an interpolation that is open. */
  lemma {:induction false} CodeRead(s: string, st: LexState, rest: seq<Frame>, start: nat, depth: nat, all: seq<Kind>)
      returns (code: seq<Token>, close: nat)
    requires Reaches(s, st, all) && st.stack == rest + [Frame(start, depth)]
    ensures IsCode(s, st.kinds, code, depth, close)
    decreases |s| - |st.kinds|, 3
  {
    hide Step, Labelled, IsToken;
    var i := |st.kinds|;
    NotFinished(s, st, all);
    if s[i] == '}' && depth == 0 {
      code, close := [], i;
    } else {
      var t: Token;
      var d := if s[i] == '{' then depth + 1 else if s[i] == '}' then depth - 1 else depth;
      if d == depth {
        t := TokenRead(s, st, all);
        TokenPasses(s, st, t);
      } else {
        t := Token(Char, i + 1);
        CharBrace(s, st.kinds);
        BracePasses(s, st, rest, Frame(start, depth), t);
      }
      LongEnough(s, st.kinds, t);
      LabelledExtends(st.kinds, t.to, LabelOf(t.shape));
      var next := LexState(Labelled(st.kinds, t.to, LabelOf(t.shape)), rest + [Frame(start, d)]);
      ReachOn(s, st, next, all);
      var more: seq<Token>;
      more, close := CodeRead(s, next, rest, start, d, all);
      code := [t] + more;
      assert code[1..] == more;
    }
  }

  lemma {:induction false} CharBrace(s: string, kinds: seq<Kind>)
    requires |kinds| < |s| && (s[|kinds|] == '{' || s[|kinds|] == '}')
    ensures IsToken(s, kinds, Token(Char, |kinds| + 1))
  {
  }

  /** An open interpolation is not the end. */
  lemma {:induction false} NotFinished(s: string, st: LexState, all: seq<Kind>)
    requires Reaches(s, st, all) && st.stack != []
    ensures |st.kinds| < |s|
  {
  }

  /** A text that is read to its end is a row of tokens. */
  lemma {:induction false} TokensRead(s: string, st: LexState, all: seq<Kind>) returns (ts: seq<Token>)
    requires Reaches(s, st, all) && st.stack == []
    ensures AreTokens(s, st.kinds, ts, all)
    decreases |s| - |st.kinds|
  {
    hide Step, Labelled, IsToken;
    if |st.kinds| == |s| {
      ts := [];
    } else {
      var t := TokenRead(s, st, all);
      LongEnough(s, st.kinds, t);
      TokenPasses(s, st, t);
      LabelledExtends(st.kinds, t.to, LabelOf(t.shape));
      var next := LexState(Labelled(st.kinds, t.to, LabelOf(t.shape)), []);
      ReachOn(s, st, next, all);
      var more := TokensRead(s, next, all);
      ts := [t] + more;
      assert ts[1..] == more;
    }
  }

  /** `classify` succeeds with `all` exactly when the text is a row of tokens labelled so. */
  lemma {:induction false} ClassifyIsGrammar(s: string, all: seq<Kind>)
    ensures Lex(s) == Success(all) <==> exists ts :: AreTokens(s, [], ts, all)
  {
    hide Finish, AreTokens;
    if Lex(s) == Success(all) {
      var ts := TokensRead(s, Start, all);
      assert AreTokens(s, [], ts, all);
    }
    if ts :| AreTokens(s, [], ts, all) {
      TokensReach(s, [], ts, all);
    }
  }

  // ---------------------------------------------------------------------------
  // On the labels
  // ---------------------------------------------------------------------------

  /** The token of the grammar that stands at a boundary of a labelled text. */
  lemma {:induction false} TokenAt(s: string, kinds: seq<Kind>, p: nat) returns (t: Token)
    requires Lex(s) == Success(kinds) && Boundary(s, kinds, p) && p < |s|
    ensures |kinds| == |s| && IsToken(s, kinds[..p], t) && p < t.to <= |s|
    ensures forall k :: p <= k < t.to ==> kinds[k] == LabelOf(t.shape)
  {
    hide Step, IsToken, Labelled;
    BoundaryGoesOn(s, kinds, p);
    var st := TopLevel(kinds, p);
    t := TokenRead(s, st, kinds);
    LongEnough(s, st.kinds, t);
    TokenPasses(s, st, t);
    var next := LexState(Labelled(st.kinds, t.to, LabelOf(t.shape)), []);
    ReachOn(s, st, next, kinds);
    RunSettles(s, next, |s|);
    LabelledAt(st.kinds, t.to, LabelOf(t.shape));
    assert forall k :: p <= k < t.to ==> kinds[k] == kinds[..t.to][k];
  }

  lemma {:induction false} LabelledAt(kinds: seq<Kind>, to: nat, kind: Kind)
    requires |kinds| <= to
    ensures |Labelled(kinds, to, kind)| == to
    ensures forall k :: |kinds| <= k < to ==> Labelled(kinds, to, kind)[k] == kind
  {
  }

  lemma {:induction false} OperandByPrefix(s: string, kinds: seq<Kind>, p: nat)
    requires p <= |s| && p <= |kinds|
    ensures OperandExpected(s, kinds[..p], p) <==> OperandExpected(s, kinds, p)
  {
    hide WordEnds, IsOperator, ExpectsOperand;
    forall q: nat ensures LastSolid(s, kinds[..p], p, q) <==> LastSolid(s, kinds, p, q) {
    }
  }

  // What the opening character at `i` is closed by, if anything.
  ghost predicate QuoteClosed(s: string, i: nat, c: nat) { i < |s| && QuoteCloses(s, i + 1, i + 1, c, s[i]) }
  ghost predicate RegexClosed(s: string, i: nat, c: nat) { RegexCloses(s, i + 1, i + 1, c) }
  ghost predicate NoteClosed(s: string, i: nat, e: nat) { NoteCloses(s, i + 2, e) }
  ghost predicate TextEnded(s: string, i: nat, c: nat) { TextEnds(s, i + 1, i + 1, c) }

  /** A regular expression from `i` on: its body is closed at `c`, and its flags end before `e`. */
  ghost predicate RegexSpans(s: string, i: nat, c: nat, e: nat) { RegexClosed(s, i, c) && FlagsStop(s, c + 1, e) }

  /**
   * Between tokens, a `/` that starts no comment is literal where an operand is expected and
   * code elsewhere. Where it is literal, so is the whole expression with its flags.
   */
  lemma {:induction false} SlashReadsAs(s: string, kinds: seq<Kind>, p: nat)
    requires Lex(s) == Success(kinds) && Boundary(s, kinds, p) && p < |s|
    requires s[p] == '/' && !At(s, p + 1, '/') && !At(s, p + 1, '*')
    ensures |kinds| == |s|
    ensures kinds[p] == if OperandExpected(s, kinds, p) then Literal else Code
    ensures OperandExpected(s, kinds, p) ==>
              exists c: nat, e: nat ::
                RegexSpans(s, p, c, e) && forall k :: p <= k < e ==> kinds[k] == Literal
  {
    hide OperandExpected, RegexCloses, FlagsStop, QuoteCloses, NoteCloses, LineStops, IsTemplate, Boundary;
    var t := TokenAt(s, kinds, p);
    OperandByPrefix(s, kinds, p);
    if t.shape.Regex? {
      assert RegexSpans(s, p, t.shape.slash, t.to);
    }
  }

  // ---------------------------------------------------------------------------
  // Failures
  // ---------------------------------------------------------------------------

  /** Behind the characters of `st`, a `what` opens that the text never closes. */
  ghost predicate Stuck(s: string, st: LexState, what: Construct) {
    var i := |st.kinds|;
    match what
    case TemplateExpression => i == |s| && st.stack != []
    case StringLiteral => i < |s| && (s[i] == '"' || s[i] == '\'') && forall c: nat :: !QuoteClosed(s, i, c)
    case BlockComment => i < |s| && s[i] == '/' && At(s, i + 1, '*') && forall e: nat :: !NoteClosed(s, i, e)
    case RegularExpression =>
      && i < |s| && s[i] == '/' && !At(s, i + 1, '/') && !At(s, i + 1, '*') && OperandExpected(s, st.kinds, i)
      && forall c: nat :: !RegexClosed(s, i, c)
    case TemplateLiteral =>
      && i < |s| && (s[i] == '`' || (s[i] == '}' && st.stack != [] && st.stack[|st.stack| - 1].depth == 0))
      && forall c: nat :: !TextEnded(s, i, c)
  }

  lemma {:induction false} NoQuote(s: string, i: nat)
    requires i < |s| && s[i] != '\\'
    ensures StringEnd(s, i + 1, s[i]) == None <==> forall c: nat :: !QuoteClosed(s, i, c)
  {
    hide StringEnd;
    NotInClassYet(s, i + 1);
    forall c: nat ensures StringEnd(s, i + 1, s[i]) == Some(c + 1) <==> QuoteClosed(s, i, c) {
      StringEndIs(s, i + 1, i + 1, c, s[i]);
    }
    if e :| StringEnd(s, i + 1, s[i]) == Some(e) { assert QuoteClosed(s, i, e - 1); }
  }

  lemma {:induction false} NoRegex(s: string, i: nat)
    requires i < |s|
    ensures RegexEnd(s, i + 1, false) == None <==> forall c: nat :: !RegexClosed(s, i, c)
  {
    hide RegexEnd;
    NotInClassYet(s, i + 1);
    forall c: nat ensures RegexEnd(s, i + 1, false) == Some(c + 1) <==> RegexClosed(s, i, c) {
      RegexEndIs(s, i + 1, i + 1, c, false);
    }
    if e :| RegexEnd(s, i + 1, false) == Some(e) { assert RegexClosed(s, i, e - 1); }
  }

  lemma {:induction false} NoNote(s: string, i: nat)
    ensures BlockEnd(s, i + 2) == None <==> forall e: nat :: !NoteClosed(s, i, e)
  {
    hide BlockEnd;
    forall e: nat ensures BlockEnd(s, i + 2) == Some(e) <==> NoteClosed(s, i, e) { BlockEndIs(s, i + 2, e); }
    if e :| BlockEnd(s, i + 2) == Some(e) { assert NoteClosed(s, i, e); }
  }

  lemma {:induction false} NoText(s: string, i: nat)
    requires i < |s|
    ensures TemplateEnd(s, i + 1) == Missing <==> forall c: nat :: !TextEnded(s, i, c)
  {
    hide TemplateEnd;
    NotInClassYet(s, i + 1);
    forall c: nat ensures TemplateEnd(s, i + 1) == Closed(c + 1) || TemplateEnd(s, i + 1) == Interpolation(c) <==> TextEnded(s, i, c) {
      TemplateEndIs(s, i + 1, i + 1, c);
    }
    match TemplateEnd(s, i + 1)
    case Closed(next) => assert TextEnded(s, i, next - 1);
    case Interpolation(dollar) => assert TextEnded(s, i, dollar);
    case Missing =>
  }

  /** A step fails exactly where something opens that is never closed, and names it. */
  lemma {:induction false} StepFails(s: string, st: LexState, what: Construct, at: nat)
    requires Valid(s, st) && |st.kinds| < |s|
    ensures Step(s, st) == Failure(Unterminated(what, at)) <==> at == |st.kinds| && Stuck(s, st, what)
  {
    hide OperandExpected, OpensRegex, RegexEnd, TemplateEnd, StringEnd, BlockEnd, QuoteClosed, RegexClosed, NoteClosed, TextEnded;
    var i := |st.kinds|;
    NoNote(s, i);
    NoText(s, i);
    OpensRegexIs(s, st.kinds, i);
    if s[i] == '"' || s[i] == '\'' { NoQuote(s, i); }
    if s[i] == '/' { NoRegex(s, i); }
  }

  lemma {:induction false} RunFails(s: string, st: LexState, what: Construct, at: nat)
    requires Valid(s, st) && Finish(s, st) == Failure(Unterminated(what, at))
    ensures exists last :: Passes(s, st, last) && |last.kinds| == at && Stuck(s, last, what)
    decreases |s| - |st.kinds|
  {
    hide Step, Stuck;
    if |st.kinds| == |s| {
      PassesSelf(s, st);
      assert Stuck(s, st, what) by { StuckAtEnd(s, st); }
    } else if Step(s, st).Failure? {
      StepFails(s, st, what, at);
      PassesSelf(s, st);
    } else {
      var next := Step(s, st).value;
      RunFails(s, next, what, at);
      var last :| Passes(s, next, last) && |last.kinds| == at && Stuck(s, last, what);
      PassesStep(s, st, next);
      PassesGrows(s, next, last);
      PassesOn(s, st, next, last);
    }
  }

  lemma {:induction false} StuckAtEnd(s: string, st: LexState)
    requires |st.kinds| == |s| && st.stack != []
    ensures Stuck(s, st, TemplateExpression)
  {
  }

  lemma {:induction false} PassesGrows(s: string, st: LexState, last: LexState)
    requires Passes(s, st, last)
    ensures |st.kinds| <= |last.kinds|
  {
    hide Step;
    RunSettles(s, st, |last.kinds|);
  }

  /**
   * `classify` fails exactly where its reading comes to something that opens and is never
   * closed, or to the end inside an interpolation; the error names both.
   */
  lemma {:induction false} ClassifyFailsIff(s: string, what: Construct, at: nat)
    ensures Lex(s) == Failure(Unterminated(what, at)) <==>
              exists st :: Passes(s, Start, st) && |st.kinds| == at && Stuck(s, st, what)
  {
    hide Step, Stuck;
    if Lex(s) == Failure(Unterminated(what, at)) { RunFails(s, Start, what, at); }
    if st :| Passes(s, Start, st) && |st.kinds| == at && Stuck(s, st, what) {
      RunCompose(s, Start, at, |s|);
      PassesValid(s, Start, st);
      StuckFails(s, st, what);
    }
  }

  lemma {:induction false} StuckFails(s: string, st: LexState, what: Construct)
    requires Valid(s, st) && Stuck(s, st, what)
    ensures Finish(s, st) == Failure(Unterminated(what, |st.kinds|))
  {
    hide Step;
    if what == TemplateExpression {
      assert |st.kinds| == |s| && st.stack != [] by { hide Finish; }
    } else {
      StepFails(s, st, what, |st.kinds|);
    }
  }
}

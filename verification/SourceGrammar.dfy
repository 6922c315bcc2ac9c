/**
 * The grammar behind `classify`, said without the machine: a text is a row of tokens, and a
 * template literal nests further rows of tokens in its interpolations. Everything is written on
 * the text itself, with the characters and words that decide spelled out here.
 */
module SourceGrammar {
  import opened Wrappers
  import opened Text
  import opened SourceLexer

  // ---------------------------------------------------------------------------
  // Escapes
  // ---------------------------------------------------------------------------

  /** How many backslashes stand directly before `k`, not counting any before `lo`. */
  function Backslashes(s: string, lo: nat, k: nat): nat
    requires lo <= k <= |s|
  {
    if k > lo && s[k - 1] == '\\' then Backslashes(s, lo, k - 1) + 1 else 0
  }

  /** In a body that starts at `lo`, an odd run of backslashes escapes the character at `k`. */
  predicate Escaped(s: string, lo: nat, k: nat)
    requires lo <= k <= |s|
  {
    Backslashes(s, lo, k) % 2 == 1
  }

  lemma {:induction false} EscapeStep(s: string, lo: nat, i: nat)
    requires lo <= i < |s| && !Escaped(s, lo, i)
    ensures s[i] != '\\' ==> !Escaped(s, lo, i + 1)
    ensures s[i] == '\\' ==> Escaped(s, lo, i + 1) && (i + 2 <= |s| ==> !Escaped(s, lo, i + 2))
  {
  }

  // ---------------------------------------------------------------------------
  // Quoted text
  // ---------------------------------------------------------------------------

  /** A string body from `i` on is closed at `c`: no bare quote or line break comes before. */
  ghost predicate QuoteCloses(s: string, lo: nat, i: nat, c: nat, quote: char) {
    && lo <= i <= c < |s| && s[c] == quote && !Escaped(s, lo, c)
    && forall k {:trigger Escaped(s, lo, k)} :: i <= k < c && !Escaped(s, lo, k) ==> s[k] != quote && s[k] != '\n'
  }

  lemma {:induction false} StringEndIs(s: string, lo: nat, i: nat, c: nat, quote: char)
    requires lo <= i && (i <= |s| ==> !Escaped(s, lo, i)) && quote != '\\'
    ensures StringEnd(s, i, quote) == Some(c + 1) <==> QuoteCloses(s, lo, i, c, quote)
    decreases |s| - i
  {
    hide Escaped;
    if i < |s| && s[i] != quote && s[i] != '\n' {
      EscapeStep(s, lo, i);
      StringEndIs(s, lo, if s[i] == '\\' then i + 2 else i + 1, c, quote);
    }
  }

  // ---------------------------------------------------------------------------
  // Regular expressions
  // ---------------------------------------------------------------------------

  /** A bare `[` before `k` has opened a class, and no bare `]` has closed it since. */
  ghost predicate InClass(s: string, lo: nat, k: nat)
    requires lo <= k <= |s|
  {
    exists j {:trigger Escaped(s, lo, j)} :: lo <= j < k && s[j] == '[' && !Escaped(s, lo, j) && Unclosed(s, lo, j, k)
  }

  /** No bare `]` between `j` and `k`. */
  ghost predicate Unclosed(s: string, lo: nat, j: nat, k: nat)
    requires lo <= j < k <= |s|
  {
    forall m {:trigger Escaped(s, lo, m)} :: j < m < k && s[m] == ']' ==> Escaped(s, lo, m)
  }

  lemma {:induction false} ClassStep(s: string, lo: nat, k: nat)
    requires lo <= k < |s|
    ensures InClass(s, lo, k + 1) <==> if Escaped(s, lo, k) || (s[k] != '[' && s[k] != ']') then InClass(s, lo, k) else s[k] == '['
  {
    hide Escaped;
    if InClass(s, lo, k + 1) {
      var j :| lo <= j < k + 1 && s[j] == '[' && !Escaped(s, lo, j) && Unclosed(s, lo, j, k + 1);
      assert Escaped(s, lo, k) || s[k] != ']';
      assert j < k ==> Unclosed(s, lo, j, k);
    }
    if InClass(s, lo, k) {
      var j :| lo <= j < k && s[j] == '[' && !Escaped(s, lo, j) && Unclosed(s, lo, j, k);
      assert Escaped(s, lo, k) || s[k] != ']' ==> Unclosed(s, lo, j, k + 1);
    }
    assert s[k] == '[' ==> Unclosed(s, lo, k, k + 1);
  }

  /** A regular expression body from `i` on is closed at `c`, by the first bare slash outside a class. */
  ghost predicate RegexCloses(s: string, lo: nat, i: nat, c: nat) {
    && lo <= i <= c < |s| && s[c] == '/' && !Escaped(s, lo, c) && !InClass(s, lo, c)
    && forall k {:trigger Escaped(s, lo, k)} :: i <= k < c && !Escaped(s, lo, k) ==>
         s[k] != '\n' && (s[k] == '/' ==> InClass(s, lo, k))
  }

  lemma {:induction false} RegexEndIs(s: string, lo: nat, i: nat, c: nat, inClass: bool)
    requires lo <= i && (i <= |s| ==> !Escaped(s, lo, i) && (inClass <==> InClass(s, lo, i)))
    ensures RegexEnd(s, i, inClass) == Some(c + 1) <==> RegexCloses(s, lo, i, c)
    decreases |s| - i
  {
    hide Escaped, InClass;
    if i < |s| && s[i] != '\n' && (s[i] != '/' || inClass) {
      EscapeStep(s, lo, i);
      ClassStep(s, lo, i);
      if s[i] == '\\' {
        if i + 1 < |s| { ClassStep(s, lo, i + 1); }
        RegexEndIs(s, lo, i + 2, c, inClass);
      } else {
        RegexEndIs(s, lo, i + 1, c, if s[i] == '[' then true else if s[i] == ']' then false else inClass);
      }
    }
  }

  /** The flags behind a closing slash are the letters up to the first other character. */
  ghost predicate FlagsStop(s: string, i: nat, e: nat) {
    i <= e <= |s| && (forall k :: i <= k < e ==> IsLetter(s[k])) && (e < |s| ==> !IsLetter(s[e]))
  }

  lemma {:induction false} FlagsEndIs(s: string, i: nat, e: nat)
    requires i <= |s|
    ensures FlagsEnd(s, i) == e <==> FlagsStop(s, i, e)
    decreases |s| - i
  {
    if i < |s| && IsLetter(s[i]) { FlagsEndIs(s, i + 1, e); }
  }

  // ---------------------------------------------------------------------------
  // When a slash opens a regular expression
  // ---------------------------------------------------------------------------

  /** The punctuation after which an operand is expected. */
  predicate ExpectsOperand(c: char) {
    || c == '(' || c == '[' || c == '{' || c == '}' || c == ',' || c == ';' || c == ':' || c == '?'
    || c == '=' || c == '!' || c == '<' || c == '>' || c == '&' || c == '|' || c == '^' || c == '~'
    || c == '+' || c == '-' || c == '*' || c == '%'
  }

  /** The words after which an operand is expected. */
  predicate IsOperator(word: string) {
    || word == "return" || word == "typeof" || word == "case" || word == "in" || word == "of"
    || word == "delete" || word == "void" || word == "throw" || word == "new" || word == "else"
    || word == "do" || word == "yield" || word == "await"
  }

  /** `word` ends just before `e`, with no identifier character before it. */
  ghost predicate WordEnds(s: string, e: nat, word: string) {
    && 0 < |word| <= e && e <= |s| && word == s[e - |word|..e]
    && (forall k :: 0 <= k < |word| ==> IsIdent(word[k]))
    && (|word| < e ==> !IsIdent(s[e - |word| - 1]))
  }

  /** The last character before `i` that is neither space nor comment is at `p`. */
  ghost predicate LastSolid(s: string, kinds: seq<Kind>, i: nat, p: nat) {
    && p < i <= |s| && i <= |kinds| && !IsSpace(s[p]) && kinds[p] != Comment
    && forall k :: p < k < i ==> IsSpace(s[k]) || kinds[k] == Comment
  }

  /**
   * Where an operand is expected: with nothing but spaces and comments before, or behind one of
   * the punctuators or words above; never behind a literal.
   */
  ghost predicate OperandExpected(s: string, kinds: seq<Kind>, i: nat)
    requires i <= |s| && i <= |kinds|
  {
    forall p: nat :: LastSolid(s, kinds, i, p) ==>
      && kinds[p] != Literal
      && (ExpectsOperand(s[p]) || exists word :: IsOperator(word) && WordEnds(s, p + 1, word))
  }

  lemma {:induction false} WordStartAt(s: string, e: nat, p: nat)
    requires p <= e <= |s| && (p == 0 || !IsIdent(s[p - 1])) && forall k :: p <= k < e ==> IsIdent(s[k])
    ensures WordStart(s, e) == p
    decreases e
  {
    if p < e { WordStartAt(s, e - 1, p); }
  }

  lemma {:induction false} WordStartIs(s: string, e: nat, word: string)
    requires e <= |s| && WordEnds(s, e, word)
    ensures WordStart(s, e) == e - |word|
  {
    var p := e - |word|;
    forall k | p <= k < e ensures IsIdent(s[k]) { assert s[p..e][k - p] == s[k]; }
    WordStartAt(s, e, p);
  }

  lemma {:induction false} WordStartIsIdent(s: string, e: nat)
    requires e <= |s|
    ensures var b := WordStart(s, e);
            (forall k :: b <= k < e ==> IsIdent(s[k])) && (b > 0 ==> !IsIdent(s[b - 1]))
  {
    if e > 0 && IsIdent(s[e - 1]) { WordStartIsIdent(s, e - 1); }
  }

  lemma {:induction false} OperatorWords(word: string)
    ensures word in RegexKeywords <==> IsOperator(word)
    ensures IsOperator(word) ==> 0 < |word|
  {
  }

  lemma {:induction false} KeywordBefore(s: string, e: nat)
    requires 0 < e <= |s| && IsIdent(s[e - 1])
    ensures s[WordStart(s, e)..e] in RegexKeywords <==> exists word :: IsOperator(word) && WordEnds(s, e, word)
  {
    hide IsOperator;
    hide RegexKeywords;
    WordStartIsIdent(s, e);
    var word := s[WordStart(s, e)..e];
    assert WordEnds(s, e, word) by {
      assert WordStart(s, e) < e;
      assert forall k :: 0 <= k < |word| ==> word[k] == s[WordStart(s, e) + k];
    }
    OperatorWords(word);
    if other :| IsOperator(other) && WordEnds(s, e, other) {
      WordStartIs(s, e, other);
      assert other == word;
    }
  }

  lemma {:induction false} LastSolidIsOne(s: string, kinds: seq<Kind>, i: nat, p: nat, q: nat)
    requires LastSolid(s, kinds, i, p) && LastSolid(s, kinds, i, q)
    ensures p == q
  {
  }

  lemma {:induction false} SolidIs(s: string, kinds: seq<Kind>, i: nat, p: nat)
    requires i <= |s| && i <= |kinds|
    ensures LastSolid(s, kinds, i, p) <==> SignificantEnd(s, kinds, i) == p + 1
  {
    var e := SignificantEnd(s, kinds, i);
    forall k | e <= k < i ensures IsSpace(s[k]) || kinds[k] == Comment { assert IsTrivia(s, kinds, k); }
    if e > 0 {
      assert !IsTrivia(s, kinds, e - 1) && LastSolid(s, kinds, i, e - 1);
      if LastSolid(s, kinds, i, p) { LastSolidIsOne(s, kinds, i, p, e - 1); }
    }
  }

  lemma {:induction false} OpensRegexIs(s: string, kinds: seq<Kind>, i: nat)
    requires i <= |s| && i <= |kinds|
    ensures OpensRegex(s, kinds, i) <==> OperandExpected(s, kinds, i)
  {
    hide IsOperator, RegexKeywords, WordEnds, ExpectsOperand, LastSolid, SignificantEnd, RegexMayFollow;
    forall p: nat ensures LastSolid(s, kinds, i, p) <==> SignificantEnd(s, kinds, i) == p + 1 { SolidIs(s, kinds, i, p); }
    var e := SignificantEnd(s, kinds, i);
    if e > 0 {
      NoWordAtPunctuation(s, e - 1);
      if IsIdent(s[e - 1]) { KeywordBefore(s, e); }
      assert LastSolid(s, kinds, i, e - 1);
    }
  }

  lemma {:induction false} NoWordAtPunctuation(s: string, p: nat)
    requires p < |s|
    ensures ExpectsOperand(s[p]) <==> s[p] in RegexMayFollow
    ensures ExpectsOperand(s[p]) ==> !IsIdent(s[p])
    ensures !IsIdent(s[p]) ==> forall word {:trigger WordEnds(s, p + 1, word)} :: !WordEnds(s, p + 1, word)
  {
    hide RegexKeywords;
    forall word {:trigger WordEnds(s, p + 1, word)} | WordEnds(s, p + 1, word) ensures IsIdent(s[p]) {
      assert IsIdent(word[|word| - 1]) && word[|word| - 1] == s[p];
    }
  }

  // ---------------------------------------------------------------------------
  // Template text
  // ---------------------------------------------------------------------------

  /** What ends template text: a backtick, or the `$` of a `${`. */
  predicate EndsText(s: string, k: nat)
    requires k < |s|
  {
    s[k] == '`' || (s[k] == '$' && At(s, k + 1, '{'))
  }

  /** Template text from `i` on first ends at `c`. */
  ghost predicate TextEnds(s: string, lo: nat, i: nat, c: nat) {
    && lo <= i <= c < |s| && EndsText(s, c) && !Escaped(s, lo, c)
    && forall k {:trigger Escaped(s, lo, k)} :: i <= k < c && !Escaped(s, lo, k) ==> !EndsText(s, k)
  }

  lemma {:induction false} TemplateEndIs(s: string, lo: nat, i: nat, c: nat)
    requires lo <= i && (i <= |s| ==> !Escaped(s, lo, i))
    ensures TemplateEnd(s, i) == Closed(c + 1) <==> TextEnds(s, lo, i, c) && s[c] == '`'
    ensures TemplateEnd(s, i) == Interpolation(c) <==> TextEnds(s, lo, i, c) && s[c] == '$'
    decreases |s| - i
  {
    hide Escaped;
    if i < |s| && (s[i] == '\\' || !EndsText(s, i)) {
      EscapeStep(s, lo, i);
      TemplateEndIs(s, lo, if s[i] == '\\' then i + 2 else i + 1, c);
    }
  }

  // ---------------------------------------------------------------------------
  // Comments
  // ---------------------------------------------------------------------------

  /** A line comment runs up to the line break, or to the end of the text. */
  ghost predicate LineStops(s: string, i: nat, e: nat) {
    i <= e <= |s| && (forall k :: i <= k < e ==> s[k] != '\n') && (e < |s| ==> s[e] == '\n')
  }

  lemma {:induction false} LineEndIs(s: string, i: nat, e: nat)
    requires i <= |s|
    ensures LineEnd(s, i) == e <==> LineStops(s, i, e)
  {
  }

  /** The first star and slash from `i` on stand just before `e`. */
  ghost predicate NoteCloses(s: string, i: nat, e: nat) {
    && i + 2 <= e <= |s| && s[e - 2] == '*' && s[e - 1] == '/'
    && forall k {:trigger s[k]} :: i <= k < e - 2 ==> !(s[k] == '*' && s[k + 1] == '/')
  }

  lemma {:induction false} BlockEndIs(s: string, i: nat, e: nat)
    ensures BlockEnd(s, i) == Some(e) <==> NoteCloses(s, i, e)
    decreases |s| - i
  {
    if i < |s| && !(s[i] == '*' && At(s, i + 1, '/')) { BlockEndIs(s, i + 1, e); }
  }

  // ---------------------------------------------------------------------------
  // Tokens
  // ---------------------------------------------------------------------------

  /** A token that ends just before `to`; a template nests the tokens of its interpolations. */
  datatype Token = Token(shape: Shape, to: nat)
  datatype Shape = Char | LineNote | BlockNote | Quoted | Regex(slash: nat) | Template(holes: seq<Hole>)

  /** `${` at `dollar`, the tokens between, and the `}` at `close`. */
  datatype Hole = Hole(dollar: nat, code: seq<Token>, close: nat)

  /** The one label of a token. */
  function LabelOf(shape: Shape): Kind {
    match shape
    case Char => Code
    case LineNote | BlockNote => Comment
    case _ => Literal
  }

  /** The labels of a text, with a further stretch up to `to` labelled `kind`. */
  function Labelled(kinds: seq<Kind>, to: nat, kind: Kind): seq<Kind>
    requires |kinds| <= to
  {
    kinds + Fill(to - |kinds|, kind)
  }

  /** A token stands behind the labelled text `kinds`. */
  ghost predicate IsToken(s: string, kinds: seq<Kind>, t: Token)
    decreases t
  {
    var i := |kinds|;
    && i < t.to <= |s|
    && match t.shape
       case Char =>
         && t.to == i + 1 && s[i] != '"' && s[i] != '\'' && s[i] != '`'
         && (s[i] == '/' ==> !At(s, i + 1, '/') && !At(s, i + 1, '*') && !OperandExpected(s, kinds, i))
       case LineNote => s[i] == '/' && At(s, i + 1, '/') && LineStops(s, i, t.to)
       case BlockNote => s[i] == '/' && At(s, i + 1, '*') && NoteCloses(s, i + 2, t.to)
       case Quoted => (s[i] == '"' || s[i] == '\'') && QuoteCloses(s, i + 1, i + 1, t.to - 1, s[i])
       case Regex(slash) =>
         && s[i] == '/' && !At(s, i + 1, '/') && !At(s, i + 1, '*') && OperandExpected(s, kinds, i)
         && RegexCloses(s, i + 1, i + 1, slash) && FlagsStop(s, slash + 1, t.to)
       case Template(holes) => s[i] == '`' && IsTemplate(s, kinds, i, holes, t.to)
  }

  /**
   * Template text behind the backtick or `}` at `i`, with its interpolations, closed by the
   * backtick before `to`. Up to and including an open `${` it counts as literal.
   */
  ghost predicate IsTemplate(s: string, kinds: seq<Kind>, i: nat, holes: seq<Hole>, to: nat)
    decreases holes
  {
    |kinds| <= i < |s| &&
    if holes == [] then to > 0 && TextEnds(s, i + 1, i + 1, to - 1) && s[to - 1] == '`'
    else
      var hole := holes[0];
      && TextEnds(s, i + 1, i + 1, hole.dollar) && s[hole.dollar] == '$'
      && IsCode(s, Labelled(kinds, hole.dollar + 2, Literal), hole.code, 0, hole.close)
      && IsTemplate(s, kinds, hole.close, holes[1..], to)
  }

  /** Tokens inside an interpolation, `depth` braces deep, up to the `}` at `close` that ends it. */
  ghost predicate IsCode(s: string, kinds: seq<Kind>, code: seq<Token>, depth: nat, close: nat)
    decreases code
  {
    if code == [] then |kinds| == close < |s| && s[close] == '}' && depth == 0
    else
      var t := code[0];
      && IsToken(s, kinds, t)
      && var i := |kinds|;
         var rest := Labelled(kinds, t.to, LabelOf(t.shape));
         if t.shape == Char && s[i] == '{' then IsCode(s, rest, code[1..], depth + 1, close)
         else if t.shape == Char && s[i] == '}' then depth > 0 && IsCode(s, rest, code[1..], depth - 1, close)
         else IsCode(s, rest, code[1..], depth, close)
  }

  /** The tokens `ts` label the text behind `kinds`, to its end, and make the labels `all`. */
  ghost predicate AreTokens(s: string, kinds: seq<Kind>, ts: seq<Token>, all: seq<Kind>)
    decreases ts
  {
    if ts == [] then |kinds| == |s| && all == kinds
    else IsToken(s, kinds, ts[0]) && AreTokens(s, Labelled(kinds, ts[0].to, LabelOf(ts[0].shape)), ts[1..], all)
  }
}

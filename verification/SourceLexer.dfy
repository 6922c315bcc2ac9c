/**
 * `classify` of packages/cli/src/config_source.ts: every character of a `neon.ts` file is
 * labelled code, comment or literal.
 *
 * The specification is a small-step machine. Its state is the labels of the characters read so
 * far (so their number is the position) and the stack of open template interpolations.
 */
module SourceLexer {
  import opened Wrappers
  import opened Text

  datatype Kind = Code | Comment | Literal

  /** An open `${`: where it starts, and how many `{` are open inside it. */
  datatype Frame = Frame(start: nat, depth: nat)

  datatype Construct = TemplateLiteral | BlockComment | StringLiteral | RegularExpression | TemplateExpression

  datatype ScanError = Unterminated(what: Construct, at: nat)

  datatype LexState = LexState(kinds: seq<Kind>, stack: seq<Frame>)

  const Start: LexState := LexState([], [])

  const RegexMayFollow: set<char> :=
    {'(', ',', '=', ':', '[', '!', '&', '|', '?', '{', '}', ';', '+', '-', '*', '%', '<', '>', '~', '^'}

  const RegexKeywords: set<string> :=
    {"return", "typeof", "case", "in", "of", "delete", "void", "throw", "new", "else", "do", "yield", "await"}

  // ---------------------------------------------------------------------------
  // Telling a regular expression from a division
  // ---------------------------------------------------------------------------

  predicate IsTrivia(s: string, kinds: seq<Kind>, i: nat)
    requires i < |s| && i < |kinds|
  {
    IsSpace(s[i]) || kinds[i] == Comment
  }

  /** One past the last character before `i` that is neither space nor comment; 0 for none. */
  function SignificantEnd(s: string, kinds: seq<Kind>, i: nat): (p: nat)
    requires i <= |s| && i <= |kinds|
    ensures p <= i
    ensures forall k :: p <= k < i ==> IsTrivia(s, kinds, k)
    ensures p > 0 ==> !IsTrivia(s, kinds, p - 1)
  {
    if i > 0 && IsTrivia(s, kinds, i - 1) then SignificantEnd(s, kinds, i - 1) else i
  }

  /** Start of the identifier characters ending at `i`. */
  function WordStart(s: string, i: nat): (p: nat)
    requires i <= |s|
    ensures p <= i
  {
    if i > 0 && IsIdent(s[i - 1]) then WordStart(s, i - 1) else i
  }

  /** Whether a `/` at `i` opens a regular expression rather than dividing. */
  predicate OpensRegex(s: string, kinds: seq<Kind>, i: nat)
    requires i <= |s| && i <= |kinds|
  {
    var p := SignificantEnd(s, kinds, i);
    if p == 0 then true
    else if kinds[p - 1] == Literal then false
    else if IsIdent(s[p - 1]) then s[WordStart(s, p)..p] in RegexKeywords
    else s[p - 1] in RegexMayFollow
  }

  // ---------------------------------------------------------------------------
  // Where each token ends
  // ---------------------------------------------------------------------------

  /** The first newline from `i` on, or the end of the text. */
  function LineEnd(s: string, i: nat): (e: nat)
    requires i <= |s|
    ensures i <= e <= |s|
    ensures e < |s| ==> s[e] == '\n'
    ensures forall k :: i <= k < e ==> s[k] != '\n'
    decreases |s| - i
  {
    if i == |s| || s[i] == '\n' then i else LineEnd(s, i + 1)
  }

  /** One past the first block comment terminator from `i` on. */
  function BlockEnd(s: string, i: nat): (e: Option<nat>)
    ensures e.Some? ==> i + 2 <= e.value <= |s| && s[e.value - 2] == '*' && s[e.value - 1] == '/'
    decreases |s| - i
  {
    if i >= |s| then None
    else if s[i] == '*' && At(s, i + 1, '/') then Some(i + 2)
    else BlockEnd(s, i + 1)
  }

  /** One past the quote that closes a string whose body is read from `i` on. */
  function StringEnd(s: string, i: nat, quote: char): (e: Option<nat>)
    ensures e.Some? ==> i < e.value <= |s| && s[e.value - 1] == quote
    decreases |s| - i
  {
    if i >= |s| then None
    else if s[i] == quote then Some(i + 1)
    else if s[i] == '\n' then None
    else StringEnd(s, if s[i] == '\\' then i + 2 else i + 1, quote)
  }

  /** One past the `/` that closes a regular expression whose body is read from `i` on. */
  function RegexEnd(s: string, i: nat, inClass: bool): (e: Option<nat>)
    ensures e.Some? ==> i < e.value <= |s| && s[e.value - 1] == '/'
    decreases |s| - i
  {
    if i >= |s| || s[i] == '\n' then None
    else if s[i] == '\\' then RegexEnd(s, i + 2, inClass)
    else if s[i] == '[' then RegexEnd(s, i + 1, true)
    else if s[i] == ']' then RegexEnd(s, i + 1, false)
    else if s[i] == '/' && !inClass then Some(i + 1)
    else RegexEnd(s, i + 1, inClass)
  }

  function FlagsEnd(s: string, i: nat): (e: nat)
    requires i <= |s|
    ensures i <= e <= |s|
    ensures forall k :: i <= k < e ==> IsLetter(s[k])
    decreases |s| - i
  {
    if i < |s| && IsLetter(s[i]) then FlagsEnd(s, i + 1) else i
  }

  datatype TemplateStop = Closed(next: nat) | Interpolation(dollar: nat) | Missing

  /** Where template text read from `i` on stops: after its backtick, or at the next `${`. */
  function TemplateEnd(s: string, i: nat): (e: TemplateStop)
    ensures e.Closed? ==> i < e.next <= |s| && s[e.next - 1] == '`'
    ensures e.Interpolation? ==> i <= e.dollar && e.dollar + 2 <= |s| && s[e.dollar] == '$' && s[e.dollar + 1] == '{'
    decreases |s| - i
  {
    if i >= |s| then Missing
    else if s[i] == '\\' then TemplateEnd(s, i + 2)
    else if s[i] == '`' then Closed(i + 1)
    else if s[i] == '$' && At(s, i + 1, '{') then Interpolation(i)
    else TemplateEnd(s, i + 1)
  }

  // ---------------------------------------------------------------------------
  // The machine
  // ---------------------------------------------------------------------------

  /** Open interpolations are nested, and their `${` is already read. */
  ghost predicate Valid(s: string, st: LexState) {
    && |st.kinds| <= |s|
    && (forall i :: 0 <= i < |st.stack| ==> st.stack[i].start + 2 <= |st.kinds|)
    && (forall i, j :: 0 <= i < j < |st.stack| ==> st.stack[i].start + 2 <= st.stack[j].start)
  }

  function Fill(n: nat, kind: Kind): (r: seq<Kind>)
    ensures |r| == n && forall k :: 0 <= k < n ==> r[k] == kind
  {
    seq(n, _ => kind)
  }

  /** `kinds` with everything from `from` on labelled `kind`, up to `to`. */
  function Mark(kinds: seq<Kind>, from: nat, to: nat, kind: Kind): (r: seq<Kind>)
    requires from <= |kinds| <= to
    ensures |r| == to && r[..from] == kinds[..from]
    ensures forall k :: from <= k < to ==> r[k] == kind
  {
    kinds[..from] + Fill(to - from, kind)
  }

  /** Template text after the backtick, or the `}` of an interpolation, at `from`. */
  function TemplateText(s: string, st: LexState, from: nat): (r: Result<LexState, ScanError>)
    requires Valid(s, st) && |st.kinds| == from < |s|
    ensures r.Success? ==> Valid(s, r.value) && from < |r.value.kinds|
  {
    match TemplateEnd(s, from + 1)
    case Closed(next) => Success(LexState(Mark(st.kinds, from, next, Literal), st.stack))
    case Interpolation(dollar) =>
      Success(LexState(Mark(st.kinds, from, dollar + 2, Literal), st.stack + [Frame(dollar, 0)]))
    case Missing => Failure(Unterminated(TemplateLiteral, from))
  }

  /** One turn of the main loop. */
  function Step(s: string, st: LexState): (r: Result<LexState, ScanError>)
    requires Valid(s, st) && |st.kinds| < |s|
    ensures r.Success? ==> Valid(s, r.value) && |st.kinds| < |r.value.kinds|
  {
    var i := |st.kinds|;
    var n := |st.stack|;
    if s[i] == '/' && At(s, i + 1, '/') then
      Success(st.(kinds := Mark(st.kinds, i, LineEnd(s, i), Comment)))
    else if s[i] == '/' && At(s, i + 1, '*') then
      match BlockEnd(s, i + 2)
      case Some(e) => Success(st.(kinds := Mark(st.kinds, i, e, Comment)))
      case None => Failure(Unterminated(BlockComment, i))
    else if s[i] == '"' || s[i] == '\'' then
      match StringEnd(s, i + 1, s[i])
      case Some(e) => Success(st.(kinds := Mark(st.kinds, i, e, Literal)))
      case None => Failure(Unterminated(StringLiteral, i))
    else if s[i] == '`' then TemplateText(s, st, i)
    else if s[i] == '/' && OpensRegex(s, st.kinds, i) then
      match RegexEnd(s, i + 1, false)
      case Some(e) => Success(st.(kinds := Mark(st.kinds, i, FlagsEnd(s, e), Literal)))
      case None => Failure(Unterminated(RegularExpression, i))
    else if s[i] == '{' && n > 0 then
      Success(LexState(st.kinds + [Code], st.stack[n - 1 := st.stack[n - 1].(depth := st.stack[n - 1].depth + 1)]))
    else if s[i] == '}' && n > 0 then
      var top := st.stack[n - 1];
      if top.depth == 0 then
        TemplateText(s, LexState(Mark(st.kinds, top.start, i, Literal), st.stack[..n - 1]), i)
      else
        Success(LexState(st.kinds + [Code], st.stack[n - 1 := top.(depth := top.depth - 1)]))
    else Success(st.(kinds := st.kinds + [Code]))
  }

  /** Reads on from `st` until at least `p` characters are labelled. */
  function RunTo(s: string, st: LexState, p: nat): (r: Result<LexState, ScanError>)
    requires Valid(s, st) && p <= |s|
    ensures r.Success? ==> Valid(s, r.value) && p <= |r.value.kinds|
    decreases |s| - |st.kinds|
  {
    if |st.kinds| >= p then Success(st)
    else
      var next :- Step(s, st);
      RunTo(s, next, p)
  }

  /** Reads to the end of the text, where no interpolation may be open. */
  function Finish(s: string, st: LexState): (r: Result<seq<Kind>, ScanError>)
    requires Valid(s, st)
    ensures r.Success? ==> |r.value| == |s|
  {
    var last :- RunTo(s, st, |s|);
    if last.stack != [] then Failure(Unterminated(TemplateExpression, |s|)) else Success(last.kinds)
  }

  /** The labels of a source text. */
  function Lex(s: string): (r: Result<seq<Kind>, ScanError>)
    ensures r.Success? ==> |r.value| == |s|
  {
    Finish(s, Start)
  }
}

/**
 * Labels depend only on the text of their own token, one character after it, and, for a `/`,
 * on what came before: moving a run of text, or changing what surrounds it, moves its labels.
 */
module LexerShift {
  import opened Wrappers
  import opened Text
  import opened SourceLexer
  import opened LexerTokens

  // ---------------------------------------------------------------------------
  // The token scanners
  // ---------------------------------------------------------------------------

  lemma {:induction false} LineEndShift(s1: string, s2: string, d: int, i: nat)
    requires i <= |s1| && Agree(s1, s2, d, i, LineEnd(s1, i))
    requires var e := LineEnd(s1, i); (e == |s1| && e + d == |s2|) || (e < |s1| && e + d < |s2| && s1[e] == s2[e + d])
    ensures LineEnd(s2, i + d) == LineEnd(s1, i) + d
    decreases |s1| - i
  {
    if i < |s1| && s1[i] != '\n' { LineEndShift(s1, s2, d, i + 1); }
  }

  lemma {:induction false} BlockEndShift(s1: string, s2: string, d: int, i: nat)
    requires BlockEnd(s1, i).Some? && Agree(s1, s2, d, i, BlockEnd(s1, i).value)
    ensures BlockEnd(s2, i + d) == Some(BlockEnd(s1, i).value + d)
    decreases |s1| - i
  {
    assert s1[i] == s2[i + d] && s1[i + 1] == s2[i + 1 + d];
    if !(s1[i] == '*' && s1[i + 1] == '/') { BlockEndShift(s1, s2, d, i + 1); }
  }

  lemma {:induction false} StringEndShift(s1: string, s2: string, d: int, i: nat, quote: char)
    requires StringEnd(s1, i, quote).Some? && Agree(s1, s2, d, i, StringEnd(s1, i, quote).value)
    ensures StringEnd(s2, i + d, quote) == Some(StringEnd(s1, i, quote).value + d)
    decreases |s1| - i
  {
    assert s1[i] == s2[i + d];
    if s1[i] != quote { StringEndShift(s1, s2, d, if s1[i] == '\\' then i + 2 else i + 1, quote); }
  }

  lemma {:induction false} RegexEndShift(s1: string, s2: string, d: int, i: nat, inClass: bool)
    requires RegexEnd(s1, i, inClass).Some? && Agree(s1, s2, d, i, RegexEnd(s1, i, inClass).value)
    ensures RegexEnd(s2, i + d, inClass) == Some(RegexEnd(s1, i, inClass).value + d)
    decreases |s1| - i
  {
    assert s1[i] == s2[i + d];
    if s1[i] == '\\' {
      RegexEndShift(s1, s2, d, i + 2, inClass);
    } else if s1[i] != '/' || inClass {
      RegexEndShift(s1, s2, d, i + 1, if s1[i] == '[' then true else if s1[i] == ']' then false else inClass);
    }
  }

  lemma {:induction false} FlagsEndShift(s1: string, s2: string, d: int, i: nat)
    requires i <= |s1| && Agree(s1, s2, d, i, FlagsEnd(s1, i))
    requires var e := FlagsEnd(s1, i);
             e + d == |s2| || (e < |s1| && s1[e] == s2[e + d]) || !IsLetter(s2[e + d])
    ensures FlagsEnd(s2, i + d) == FlagsEnd(s1, i) + d
    decreases |s1| - i
  {
    if i < |s1| && IsLetter(s1[i]) {
      assert s1[i] == s2[i + d];
      FlagsEndShift(s1, s2, d, i + 1);
    }
  }

  function TemplateStopEnd(stop: TemplateStop): nat {
    match stop case Closed(next) => next case Interpolation(dollar) => dollar + 2 case Missing => 0
  }

  function MoveStop(stop: TemplateStop, d: int): TemplateStop
    requires !stop.Missing? && (stop.Closed? ==> stop.next + d >= 0) && (stop.Interpolation? ==> stop.dollar + d >= 0)
  {
    match stop case Closed(next) => Closed(next + d) case Interpolation(dollar) => Interpolation(dollar + d)
  }

  lemma {:induction false} TemplateEndShift(s1: string, s2: string, d: int, i: nat)
    requires var stop := TemplateEnd(s1, i); !stop.Missing? && Agree(s1, s2, d, i, TemplateStopEnd(stop))
    ensures TemplateEnd(s2, i + d) == MoveStop(TemplateEnd(s1, i), d)
    decreases |s1| - i
  {
    assert s1[i] == s2[i + d];
    if s1[i] == '\\' {
      TemplateEndShift(s1, s2, d, i + 2);
    } else if s1[i] != '`' && !(s1[i] == '$' && At(s1, i + 1, '{')) {
      TemplateEndShift(s1, s2, d, i + 1);
      if s1[i] == '$' && i + 1 < TemplateStopEnd(TemplateEnd(s1, i)) { assert s1[i + 1] == s2[i + 1 + d]; }
    }
  }

  // ---------------------------------------------------------------------------
  // What a `/` looks back at
  // ---------------------------------------------------------------------------

  /** No identifier runs on across `b`. */
  predicate WordBreak(s: string, b: nat) {
    b == 0 || b >= |s| || !IsIdent(s[b - 1]) || !IsIdent(s[b])
  }

  /** At `b` and `b + d`, a `/` would be read the same way and no identifier runs on. */
  ghost predicate SameLeft(s1: string, k1: seq<Kind>, s2: string, k2: seq<Kind>, b: nat, d: int) {
    && b <= |s1| && b <= |k1| && 0 <= b + d <= |s2| && b + d <= |k2|
    && OpensRegex(s1, k1, b) == OpensRegex(s2, k2, b + d)
    && WordBreak(s1, b) && WordBreak(s2, b + d)
  }

  lemma {:induction false} SignificantEndShift(s1: string, k1: seq<Kind>, s2: string, k2: seq<Kind>, b: nat, d: int, i: nat)
    requires b <= i && Agree(s1, s2, d, b, i) && Agree(k1, k2, d, b, i)
    ensures var p := SignificantEnd(s1, k1, i);
            if p > b then SignificantEnd(s2, k2, i + d) == p + d
            else p == SignificantEnd(s1, k1, b) && SignificantEnd(s2, k2, i + d) == SignificantEnd(s2, k2, b + d)
    decreases i
  {
    if i > b {
      assert s1[i - 1] == s2[i - 1 + d] && k1[i - 1] == k2[i - 1 + d];
      SignificantEndShift(s1, k1, s2, k2, b, d, i - 1);
    }
  }

  lemma {:induction false} WordStartShift(s1: string, s2: string, b: nat, d: int, i: nat)
    requires b < i && Agree(s1, s2, d, b, i)
    requires WordBreak(s1, b) && WordBreak(s2, b + d)
    ensures WordStart(s1, i) >= b && WordStart(s2, i + d) == WordStart(s1, i) + d
    decreases i
  {
    assert s1[i - 1] == s2[i - 1 + d];
    if IsIdent(s1[i - 1]) && i - 1 > b { WordStartShift(s1, s2, b, d, i - 1); }
  }

  lemma {:induction false} OpensRegexShift(s1: string, k1: seq<Kind>, s2: string, k2: seq<Kind>, b: nat, d: int, i: nat)
    requires SameLeft(s1, k1, s2, k2, b, d)
    requires b <= i && Agree(s1, s2, d, b, i) && Agree(k1, k2, d, b, i)
    ensures OpensRegex(s1, k1, i) == OpensRegex(s2, k2, i + d)
  {
    hide SignificantEnd, WordStart, Agree, OpensRegex;
    AgreeBounds(s1, s2, d, b, i);
    AgreeBounds(k1, k2, d, b, i);
    SignificantEndShift(s1, k1, s2, k2, b, d, i);
    var p := SignificantEnd(s1, k1, i);
    if p > b {
      AgreeAt(s1, s2, d, b, i, p - 1);
      AgreeAt(k1, k2, d, b, i, p - 1);
      AgreePart(s1, s2, d, b, i, b, p);
      WordStartShift(s1, s2, b, d, p);
      SliceShift(s1, s2, d, b, i, WordStart(s1, p), p);
      OpensAlike(s1, k1, i, s2, k2, i + d, p, p + d, d);
    } else {
      SameEndSameSlash(s1, k1, b, i);
      SameEndSameSlash(s2, k2, b + d, i + d);
    }
  }

  /** What decides a slash is the last significant character, and the word it ends. */
  lemma {:induction false} OpensAlike(s1: string, k1: seq<Kind>, i1: nat, s2: string, k2: seq<Kind>, i2: nat, p: nat, q: nat, d: int)
    requires i1 <= |s1| && i1 <= |k1| && i2 <= |s2| && i2 <= |k2|
    requires p == SignificantEnd(s1, k1, i1) && q == SignificantEnd(s2, k2, i2) && 0 < p <= |s1| && 0 < q <= |s2| && q == p + d
    requires s1[p - 1] == s2[q - 1] && k1[p - 1] == k2[q - 1]
    requires WordStart(s2, q) == WordStart(s1, p) + d && s1[WordStart(s1, p)..p] == s2[WordStart(s2, q)..q]
    ensures OpensRegex(s1, k1, i1) == OpensRegex(s2, k2, i2)
  {
    hide SignificantEnd, WordStart;
  }

  lemma {:induction false} SameEndSameSlash(s: string, kinds: seq<Kind>, b: nat, i: nat)
    requires b <= i <= |s| && i <= |kinds| && SignificantEnd(s, kinds, i) == SignificantEnd(s, kinds, b)
    ensures OpensRegex(s, kinds, i) == OpensRegex(s, kinds, b)
  {
    hide SignificantEnd, WordStart;
  }

  // ---------------------------------------------------------------------------
  // Steps and runs
  // ---------------------------------------------------------------------------

  /** `st2` is `st1` moved by `d`, as far as everything read from `b` on goes. */
  ghost predicate Moved(st1: LexState, st2: LexState, b: nat, d: int) {
    && b <= |st1.kinds| && |st2.kinds| == |st1.kinds| + d
    && Agree(st1.kinds, st2.kinds, d, b, |st1.kinds|)
    && |st2.stack| == |st1.stack|
    && forall j :: 0 <= j < |st1.stack| ==>
         && b <= st1.stack[j].start
         && st2.stack[j] == st1.stack[j].(start := st1.stack[j].start + d)
  }

  predicate PlainSlash(s: string, i: nat) { At(s, i, '/') && !At(s, i + 1, '/') && !At(s, i + 1, '*') }

  predicate OpensLineComment(s: string, i: nat) { At(s, i, '/') && At(s, i + 1, '/') }

  /** Characters that no token can be continued by. */
  predicate Neutral(c: char) { c != '/' && c != '*' && !IsLetter(c) }

  /** What follows `p` in `s1` and `p + d` in `s2` ends the token before it in the same way. */
  ghost predicate SameStop(s1: string, s2: string, p: nat, d: int, lineComment: bool) {
    && p <= |s1| && 0 <= p + d <= |s2|
    && (|| (p == |s1| && p + d == |s2|)
        || (p < |s1| && p + d < |s2| && s1[p] == s2[p + d])
        || (!lineComment && (p + d == |s2| || Neutral(s2[p + d]))))
  }

  lemma {:induction false} MarkMoved(k1: seq<Kind>, k2: seq<Kind>, b: nat, d: int, from: nat, to: nat, kind: Kind)
    requires b <= from <= |k1| <= to && |k2| == |k1| + d && Agree(k1, k2, d, b, |k1|)
    ensures Agree(Mark(k1, from, to, kind), Mark(k2, from + d, to + d, kind), d, b, to)
  {
    var r1, r2 := Mark(k1, from, to, kind), Mark(k2, from + d, to + d, kind);
    forall k {:trigger r1[k]} | b <= k < to ensures r1[k] == r2[k + d] {
      if k < from { assert r1[..from][k] == k1[k] && r2[..from + d][k + d] == k2[k + d]; }
    }
  }

  lemma {:induction false} TemplateTextShift(s1: string, st1: LexState, s2: string, st2: LexState, b: nat, d: int)
    requires Valid(s1, st1) && Valid(s2, st2) && Moved(st1, st2, b, d)
    requires |st1.kinds| < |s1| && TemplateText(s1, st1, |st1.kinds|).Success?
    requires Agree(s1, s2, d, b, |TemplateText(s1, st1, |st1.kinds|).value.kinds|)
    ensures TemplateText(s2, st2, |st2.kinds|).Success?
    ensures Moved(TemplateText(s1, st1, |st1.kinds|).value, TemplateText(s2, st2, |st2.kinds|).value, b, d)
  {
    hide TemplateEnd, Mark, Agree;
    var i := |st1.kinds|;
    var to := TemplateStopEnd(TemplateEnd(s1, i + 1));
    AgreePart(s1, s2, d, b, to, i + 1, to);
    AgreeBounds(s1, s2, d, b, to);
    TemplateEndShift(s1, s2, d, i + 1);
    MarkMoved(st1.kinds, st2.kinds, b, d, i, to, Literal);
  }

  /** The step that closes an interpolation. */
  lemma {:induction false} CloseShift(s1: string, st1: LexState, s2: string, st2: LexState, b: nat, d: int)
    requires Valid(s1, st1) && Valid(s2, st2) && Moved(st1, st2, b, d)
    requires |st1.kinds| < |s1| && s1[|st1.kinds|] == '}' && |st1.stack| > 0 && st1.stack[|st1.stack| - 1].depth == 0
    requires Step(s1, st1).Success? && Agree(s1, s2, d, b, |Step(s1, st1).value.kinds|)
    ensures Step(s2, st2).Success? && Moved(Step(s1, st1).value, Step(s2, st2).value, b, d)
  {
    hide TemplateText;
    var i, n := |st1.kinds|, |st1.stack|;
    var top := st1.stack[n - 1].start;
    assert s1[i] == s2[i + d];
    var t1 := LexState(Mark(st1.kinds, top, i, Literal), st1.stack[..n - 1]);
    var t2 := LexState(Mark(st2.kinds, top + d, i + d, Literal), st2.stack[..n - 1]);
    MarkMoved(st1.kinds, st2.kinds, b, d, top, i, Literal);
    TemplateTextShift(s1, t1, s2, t2, b, d);
  }

  /** The steps that read one code character. */
  lemma {:induction false} CodeShift(s1: string, st1: LexState, s2: string, st2: LexState, b: nat, d: int)
    requires Valid(s1, st1) && Valid(s2, st2) && Moved(st1, st2, b, d)
    requires var i := |st1.kinds|;
             && i < |s1| && i + d < |s2| && s1[i] == s2[i + d]
             && s1[i] != '"' && s1[i] != '\'' && s1[i] != '`'
             && (s1[i] == '/' ==> && PlainSlash(s1, i) && PlainSlash(s2, i + d)
                                  && !OpensRegex(s1, st1.kinds, i) && !OpensRegex(s2, st2.kinds, i + d))
             && (s1[i] == '}' && |st1.stack| > 0 ==> st1.stack[|st1.stack| - 1].depth > 0)
    ensures Step(s1, st1).Success? && Step(s2, st2).Success?
    ensures Moved(Step(s1, st1).value, Step(s2, st2).value, b, d)
  {
    hide OpensRegex, TemplateText;
  }

  /** The step that reads a string. */
  lemma {:induction false} StringShift(s1: string, st1: LexState, s2: string, st2: LexState, b: nat, d: int)
    requires Valid(s1, st1) && Valid(s2, st2) && Moved(st1, st2, b, d)
    requires |st1.kinds| < |s1| && s1[|st1.kinds|] in {'"', '\''}
    requires Step(s1, st1).Success? && Agree(s1, s2, d, b, |Step(s1, st1).value.kinds|)
    ensures Step(s2, st2).Success? && Moved(Step(s1, st1).value, Step(s2, st2).value, b, d)
  {
    hide StringEnd;
    var i, p := |st1.kinds|, |Step(s1, st1).value.kinds|;
    assert s1[i] == s2[i + d];
    StringEndShift(s1, s2, d, i + 1, s1[i]);
    MarkMoved(st1.kinds, st2.kinds, b, d, i, p, Literal);
  }

  /** The step that reads a comment. */
  lemma {:induction false} CommentShift(s1: string, st1: LexState, s2: string, st2: LexState, b: nat, d: int)
    requires Valid(s1, st1) && Valid(s2, st2) && Moved(st1, st2, b, d)
    requires |st1.kinds| < |s1| && s1[|st1.kinds|] == '/' && !PlainSlash(s1, |st1.kinds|)
    requires Step(s1, st1).Success?
    requires var i, p := |st1.kinds|, |Step(s1, st1).value.kinds|;
             Agree(s1, s2, d, b, p) && (OpensLineComment(s1, i) ==> SameStop(s1, s2, p, d, true))
    ensures Step(s2, st2).Success? && Moved(Step(s1, st1).value, Step(s2, st2).value, b, d)
  {
    hide LineEnd, BlockEnd, OpensRegex;
    var i, p := |st1.kinds|, |Step(s1, st1).value.kinds|;
    var c := s1[i + 1];
    assert c == '/' ==> LineEnd(s1, i) == p && s1[i + 1] != '\n' && i + 1 < p;
    assert s1[i] == s2[i + d] && s1[i + 1] == s2[i + 1 + d];
    if c == '/' {
      LineEndShift(s1, s2, d, i);
    } else {
      BlockEndShift(s1, s2, d, i + 2);
    }
    MarkMoved(st1.kinds, st2.kinds, b, d, i, p, Comment);
  }

  /** The step that reads a regular expression. */
  lemma {:induction false} RegexShift(s1: string, st1: LexState, s2: string, st2: LexState, b: nat, d: int)
    requires Valid(s1, st1) && Valid(s2, st2) && Moved(st1, st2, b, d)
    requires |st1.kinds| < |s1| && PlainSlash(s1, |st1.kinds|)
    requires OpensRegex(s1, st1.kinds, |st1.kinds|)
    requires |st2.kinds| <= |s2| && OpensRegex(s2, st2.kinds, |st2.kinds|)
    requires Step(s1, st1).Success?
    requires var i, p := |st1.kinds|, |Step(s1, st1).value.kinds|;
             Agree(s1, s2, d, b, p) && SameStop(s1, s2, p, d, false)
    ensures Step(s2, st2).Success? && Moved(Step(s1, st1).value, Step(s2, st2).value, b, d)
  {
    hide OpensRegex, RegexEnd, FlagsEnd;
    var i, p := |st1.kinds|, |Step(s1, st1).value.kinds|;
    var e := RegexEnd(s1, i + 1, false).value;
    RegexEndShift(s1, s2, d, i + 1, false);
    FlagsEndShift(s1, s2, d, e);
    assert s1[i] == s2[i + d] && s1[i + 1] == s2[i + 1 + d];
    MarkMoved(st1.kinds, st2.kinds, b, d, i, p, Literal);
  }

  lemma {:induction false} StepShift(s1: string, st1: LexState, s2: string, st2: LexState, b: nat, d: int)
    requires Valid(s1, st1) && Valid(s2, st2) && Moved(st1, st2, b, d)
    requires |st1.kinds| < |s1| && Step(s1, st1).Success?
    requires var i, p := |st1.kinds|, |Step(s1, st1).value.kinds|;
             && Agree(s1, s2, d, b, p)
             && (s1[i] == '/' && !At(s1, i + 1, '*') ==> SameStop(s1, s2, p, d, OpensLineComment(s1, i)))
             && (PlainSlash(s1, i) ==> OpensRegex(s1, st1.kinds, i) == OpensRegex(s2, st2.kinds, i + d))
    ensures |st2.kinds| < |s2| && Step(s2, st2).Success?
    ensures Moved(Step(s1, st1).value, Step(s2, st2).value, b, d)
  {
    hide OpensRegex, TemplateText, LineEnd, BlockEnd, StringEnd, RegexEnd, FlagsEnd;
    var i, n := |st1.kinds|, |st1.stack|;
    assert s1[i] == s2[i + d];
    if s1[i] == '`' {
      TemplateTextShift(s1, st1, s2, st2, b, d);
    } else if s1[i] == '}' && n > 0 && st1.stack[n - 1].depth == 0 {
      CloseShift(s1, st1, s2, st2, b, d);
    } else if s1[i] in {'"', '\''} {
      StringShift(s1, st1, s2, st2, b, d);
    } else if s1[i] == '/' && !PlainSlash(s1, i) {
      CommentShift(s1, st1, s2, st2, b, d);
    } else if s1[i] == '/' && OpensRegex(s1, st1.kinds, i) {
      RegexShift(s1, st1, s2, st2, b, d);
    } else {
      CodeShift(s1, st1, s2, st2, b, d);
    }
  }

  // ---------------------------------------------------------------------------
  // Whole runs
  // ---------------------------------------------------------------------------

  /** What a `/` at `b` looks back at is the labels before `b` only. */
  lemma {:induction false} OpensRegexPrefix(s: string, k: seq<Kind>, k': seq<Kind>, b: nat)
    requires b <= |s| && Agree(k, k', 0, 0, b)
    ensures OpensRegex(s, k, b) == OpensRegex(s, k', b)
  {
    OpensRegexShift(s, k, s, k', 0, 0, b);
  }

  /** The labels before `b` are settled while everything open started at `b` or later. */
  lemma {:induction false} StepKeepsBefore(s: string, st: LexState, b: nat)
    requires Valid(s, st) && |st.kinds| < |s| && Step(s, st).Success? && b <= Settled(st)
    ensures var next := Step(s, st).value;
            b <= Settled(next) && Agree(st.kinds, next.kinds, 0, 0, b)
  {
    hide Step;
    StepSettles(s, st);
    AgreePrefix(st.kinds, Step(s, st).value.kinds, Settled(st));
  }

  lemma {:induction false} SameLeftPrefix(s1: string, k1: seq<Kind>, k1': seq<Kind>, s2: string, k2: seq<Kind>,
                                          k2': seq<Kind>, b: nat, d: int)
    requires SameLeft(s1, k1, s2, k2, b, d)
    requires Agree(k1, k1', 0, 0, b) && Agree(k2, k2', 0, 0, b + d)
    ensures SameLeft(s1, k1', s2, k2', b, d)
  {
    hide OpensRegex;
    OpensRegexPrefix(s1, k1, k1', b);
    OpensRegexPrefix(s2, k2, k2', b + d);
  }

  /**
   * The token that ends at `p`, labelled in `kinds`, ends at `p + d` in `s2` too: a code
   * character other than a slash and a block comment do so whatever follows.
   */
  ghost predicate StopsAt(s1: string, s2: string, p: nat, d: int, kinds: seq<Kind>) {
    && p <= |s1| && p <= |kinds|
    && (|| (p > 0 && s1[p - 1] != '/' && kinds[p - 1] == Code)
        || (0 < p < |s1| && s1[p] != '\n' && kinds[p - 1] == Comment)
        || SameStop(s1, s2, p, d, p > 0 && kinds[p - 1] == Comment))
  }

  /** How a token that starts with a slash, and is not a block comment, ends. */
  lemma {:induction false} SlashStop(s: string, st: LexState)
    requires Valid(s, st) && |st.kinds| < |s| && s[|st.kinds|] == '/' && !At(s, |st.kinds| + 1, '*') && Step(s, st).Success?
    ensures var next := Step(s, st).value;
            var e := |next.kinds|;
            && (s[e - 1] != '/' ==> next.kinds[e - 1] != Code)
            && (OpensLineComment(s, |st.kinds|) ==> next.kinds[e - 1] == Comment && (e == |s| || s[e] == '\n'))
            && (!OpensLineComment(s, |st.kinds|) ==> next.kinds[e - 1] != Comment)
  {
    hide LineEnd, OpensRegex, RegexEnd;
  }

  /** Reading `[b, p)` after `b` succeeds in the same way wherever that text stands. */
  lemma {:induction false} RunShift(s1: string, st1: LexState, s2: string, st2: LexState, b: nat, d: int, p: nat)
    requires Valid(s1, st1) && Valid(s2, st2) && Moved(st1, st2, b, d) && b <= Settled(st1) && b + d <= Settled(st2)
    requires p <= |s1| && RunTo(s1, st1, p).Success? && |RunTo(s1, st1, p).value.kinds| == p
    requires Agree(s1, s2, d, b, p) && StopsAt(s1, s2, p, d, RunTo(s1, st1, p).value.kinds)
    requires SameLeft(s1, st1.kinds, s2, st2.kinds, b, d)
    ensures RunTo(s2, st2, p + d).Success?
    ensures Moved(RunTo(s1, st1, p).value, RunTo(s2, st2, p + d).value, b, d)
    ensures Agree(st2.kinds, RunTo(s2, st2, p + d).value.kinds, 0, 0, b + d)
    decreases |s1| - |st1.kinds|
  {
    hide Step, OpensRegex;
    var i := |st1.kinds|;
    if i < p {
      var n1 := Step(s1, st1).value;
      var q := |n1.kinds|;
      RunGrows(s1, n1, p);
      if s1[i] == '/' && !At(s1, i + 1, '*') { SlashStop(s1, st1); }
      assert q == p ==> n1 == RunTo(s1, st1, p).value;
      assert q < p ==> s1[q] == s2[q + d];
      OpensRegexShift(s1, st1.kinds, s2, st2.kinds, b, d, i);
      StepShift(s1, st1, s2, st2, b, d);
      var n2 := Step(s2, st2).value;
      StepKeepsBefore(s1, st1, b);
      StepKeepsBefore(s2, st2, b + d);
      SameLeftPrefix(s1, st1.kinds, n1.kinds, s2, st2.kinds, n2.kinds, b, d);
      RunShift(s1, n1, s2, n2, b, d, p);
    }
  }

  lemma {:induction false} RunGrows(s: string, st: LexState, p: nat)
    requires Valid(s, st) && p <= |s| && RunTo(s, st, p).Success?
    ensures |st.kinds| <= |RunTo(s, st, p).value.kinds|
    decreases |s| - |st.kinds|
  {
    if |st.kinds| < p { RunGrows(s, Step(s, st).value, p); }
  }

  /** The characters of `[lo, hi)` are comments, or code other than a `/`. */
  ghost predicate NoSlash(s: string, kinds: seq<Kind>, lo: nat, hi: nat) {
    && hi <= |s| && hi <= |kinds|
    && forall k {:trigger kinds[k]} :: lo <= k < hi ==> kinds[k] == Comment || (kinds[k] == Code && s[k] != '/')
  }

  /** Where no `/` but a comment's is read, what came before does not matter either. */
  lemma {:induction false} PlainRunShift(s1: string, st1: LexState, s2: string, st2: LexState, b: nat, d: int, p: nat)
    requires Valid(s1, st1) && Valid(s2, st2) && Moved(st1, st2, b, d) && st1.stack == [] && b + d <= |st2.kinds|
    requires p <= |s1| && RunTo(s1, st1, p).Success? && |RunTo(s1, st1, p).value.kinds| == p
    requires RunTo(s1, st1, p).value.stack == [] && NoSlash(s1, RunTo(s1, st1, p).value.kinds, |st1.kinds|, p)
    requires Agree(s1, s2, d, b, p) && StopsAt(s1, s2, p, d, RunTo(s1, st1, p).value.kinds)
    ensures RunTo(s2, st2, p + d).Success?
    ensures Moved(RunTo(s1, st1, p).value, RunTo(s2, st2, p + d).value, b, d)
    ensures Agree(st2.kinds, RunTo(s2, st2, p + d).value.kinds, 0, 0, b + d)
    decreases |s1| - |st1.kinds|
  {
    hide Step, OpensRegex;
    var i := |st1.kinds|;
    if i < p {
      var n1 := Step(s1, st1).value;
      var q := |n1.kinds|;
      RunGrows(s1, n1, p);
      RunSettles(s1, n1, p);
      PlainStep(s1, st1, RunTo(s1, n1, p).value.kinds);
      if s1[i] == '/' && !At(s1, i + 1, '*') { SlashStop(s1, st1); }
      assert q == p ==> n1 == RunTo(s1, st1, p).value;
      assert q < p ==> s1[q] == s2[q + d];
      StepShift(s1, st1, s2, st2, b, d);
      StepKeepsBefore(s2, st2, b + d);
      PlainRunShift(s1, n1, s2, Step(s2, st2).value, b, d, p);
    }
  }

  lemma {:induction false} PlainStep(s: string, st: LexState, kinds: seq<Kind>)
    requires Valid(s, st) && |st.kinds| < |s| && st.stack == [] && Step(s, st).Success?
    requires var next := Step(s, st).value;
             && |next.kinds| <= |kinds| && kinds[..Settled(next)] == next.kinds[..Settled(next)]
             && NoSlash(s, kinds, |st.kinds|, |next.kinds|)
    ensures Step(s, st).value.stack == [] && !PlainSlash(s, |st.kinds|)
  {
    hide LineEnd, BlockEnd, StringEnd, RegexEnd, FlagsEnd, TemplateEnd, OpensRegex;
    var i := |st.kinds|;
    var next := Step(s, st).value;
    StepOutside(s, st);
    assert next.stack != [] ==> i < Settled(next);
    assert kinds[i] == next.kinds[i] by { assert kinds[..Settled(next)][i] == next.kinds[..Settled(next)][i]; }
  }
}

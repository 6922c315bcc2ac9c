/**
 * What the labels of `classify` mean: a labelled text is a sequence of top-level tokens, each
 * with one label and each read with no interpolation open.
 */
module LexerTokens {
  import opened Wrappers
  import opened Text
  import opened SourceLexer

  /** The characters whose labels no later step can change. */
  function Settled(st: LexState): nat {
    if st.stack == [] then |st.kinds| else st.stack[0].start
  }

  lemma {:induction false} StepSettles(s: string, st: LexState)
    requires Valid(s, st) && |st.kinds| < |s| && Step(s, st).Success?
    ensures var next := Step(s, st).value;
            Settled(st) <= Settled(next) && next.kinds[..Settled(st)] == st.kinds[..Settled(st)]
  {
  }

  /** A step inside an interpolation keeps the outermost template literal, or closes it. */
  lemma {:induction false} StepInside(s: string, st: LexState)
    requires Valid(s, st) && |st.kinds| < |s| && Step(s, st).Success? && st.stack != []
    ensures var next := Step(s, st).value;
            && (forall k :: st.stack[0].start <= k < Settled(next) ==> next.kinds[k] == Literal)
            && (next.stack == [] ==> s[|next.kinds| - 1] == '`')
  {
  }

  /** A step outside interpolations reads one token, or a template up to its first `${`. */
  lemma {:induction false} StepOutside(s: string, st: LexState)
    requires Valid(s, st) && |st.kinds| < |s| && Step(s, st).Success? && st.stack == []
    ensures var next := Step(s, st).value;
            var i := |st.kinds|;
            && (forall k :: i <= k < |next.kinds| ==> next.kinds[k] == next.kinds[i])
            && (next.stack == [] ==> TokenShape(s, next.kinds[i], i, |next.kinds|))
            && (next.stack != [] ==> next.kinds[i] == Literal && s[i] == '`')
  {
    hide OpensRegex, RegexEnd, FlagsEnd, TemplateEnd, StringEnd, BlockEnd, LineEnd;
    var i := |st.kinds|;
    if s[i] == '/' && !At(s, i + 1, '/') && !At(s, i + 1, '*') && OpensRegex(s, st.kinds, i) {
      var e := RegexEnd(s, i + 1, false).value;
      assert e < FlagsEnd(s, e) ==> IsLetter(s[FlagsEnd(s, e) - 1]);
    }
  }

  predicate OpensLiteral(c: char) { c == '"' || c == '\'' || c == '`' || c == '/' }

  /** What a top-level token labelled `kind` on `[i, e)` can be. */
  predicate TokenShape(s: string, kind: Kind, i: nat, e: nat)
    requires i < e <= |s|
  {
    && (kind == Code ==> e == i + 1)
    && (kind == Literal ==> OpensLiteral(s[i]) && !IsSpace(s[e - 1]))
    && (kind == Comment ==> s[i] == '/')
  }

  lemma {:induction false} RunSettles(s: string, st: LexState, p: nat)
    requires Valid(s, st) && p <= |s| && RunTo(s, st, p).Success?
    ensures var last := RunTo(s, st, p).value;
            Settled(st) <= Settled(last) && last.kinds[..Settled(st)] == st.kinds[..Settled(st)]
    decreases |s| - |st.kinds|
  {
    if |st.kinds| < p {
      StepSettles(s, st);
      var next := Step(s, st).value;
      RunSettles(s, next, p);
      assert RunTo(s, st, p).value.kinds[..Settled(st)] == next.kinds[..Settled(next)][..Settled(st)];
    }
  }

  /** Reading to `p` and then to `q` is reading to `q`. */
  lemma {:induction false} RunCompose(s: string, st: LexState, p: nat, q: nat)
    requires Valid(s, st) && p <= q <= |s| && RunTo(s, st, p).Success?
    ensures RunTo(s, st, q) == RunTo(s, RunTo(s, st, p).value, q)
    decreases |s| - |st.kinds|
  {
    if |st.kinds| < p { RunCompose(s, Step(s, st).value, p, q); }
  }

  /** The state after `p` characters, when no interpolation is open. */
  function TopLevel(kinds: seq<Kind>, p: nat): (st: LexState)
    requires p <= |kinds|
    ensures |st.kinds| == p && st.stack == []
  {
    LexState(kinds[..p], [])
  }

  /** `st` is passed on the way to the labels `kinds`, with no interpolation open. */
  ghost predicate Boundary(s: string, kinds: seq<Kind>, p: nat) {
    && p <= |kinds| == |s|
    && RunTo(s, Start, p) == Success(TopLevel(kinds, p))
  }

  ghost predicate Reaches(s: string, st: LexState, kinds: seq<Kind>) {
    Valid(s, st) && Finish(s, st) == Success(kinds)
  }

  /**
   * Inside an interpolation, however nested, reading goes on to the backtick that closes the
   * outermost template, and all of it becomes literal.
   */
  lemma {:induction false} TemplateIsSolid(s: string, st: LexState, kinds: seq<Kind>) returns (e: nat)
    requires Reaches(s, st, kinds) && st.stack != []
    ensures |st.kinds| < e <= |s| && s[e - 1] == '`'
    ensures RunTo(s, st, e) == Success(TopLevel(kinds, e))
    ensures Reaches(s, TopLevel(kinds, e), kinds)
    ensures forall k :: st.stack[0].start <= k < e ==> kinds[k] == Literal
    decreases |s| - |st.kinds|
  {
    hide Step;
    StepSettles(s, st);
    StepInside(s, st);
    var next := Step(s, st).value;
    RunSettles(s, next, |s|);
    if next.stack == [] {
      e := |next.kinds|;
      assert next == TopLevel(kinds, e);
      assert RunTo(s, next, e) == Success(next);
    } else {
      e := TemplateIsSolid(s, next, kinds);
      assert kinds[..next.stack[0].start] == next.kinds[..next.stack[0].start];
    }
  }

  /**
   * From a top-level state the text continues with one token: a code character, a comment, or
   * a literal that neither starts nor ends with a space. Its labels are final.
   */
  lemma {:induction false} NextToken(s: string, st: LexState, kinds: seq<Kind>) returns (e: nat)
    requires Reaches(s, st, kinds) && st.stack == [] && |st.kinds| < |s|
    ensures |st.kinds| < e <= |s|
    ensures kinds[..|st.kinds|] == st.kinds
    ensures RunTo(s, st, e) == Success(TopLevel(kinds, e))
    ensures Reaches(s, TopLevel(kinds, e), kinds)
    ensures forall k :: |st.kinds| <= k < e ==> kinds[k] == kinds[|st.kinds|]
    ensures TokenShape(s, kinds[|st.kinds|], |st.kinds|, e)
  {
    hide Step;
    StepOutside(s, st);
    var next := Step(s, st).value;
    RunSettles(s, st, |s|);
    RunSettles(s, next, |s|);
    var i := |st.kinds|;
    if next.stack == [] {
      e := |next.kinds|;
      assert next == TopLevel(kinds, e);
      assert RunTo(s, next, e) == Success(next);
    } else {
      e := TemplateIsSolid(s, next, kinds);
      var m := next.stack[0].start;
      assert kinds[..m] == next.kinds[..m];
      assert forall k :: i <= k < m ==> kinds[k] == next.kinds[k];
      assert kinds[i] == Literal;
    }
  }

  /**
   * Where one label ends and another begins, and at every code character, reading has no
   * interpolation open and the labels so far are final.
   */
  lemma {:induction false} TokenBoundary(s: string, st: LexState, kinds: seq<Kind>, q: nat)
    requires Reaches(s, st, kinds) && st.stack == [] && |st.kinds| <= q <= |s|
    requires || q == |st.kinds| || q == |s| || kinds[q] == Code || kinds[q - 1] == Code || kinds[q - 1] != kinds[q]
    ensures kinds[..|st.kinds|] == st.kinds
    ensures RunTo(s, st, q) == Success(TopLevel(kinds, q))
    ensures Reaches(s, TopLevel(kinds, q), kinds)
    decreases |s| - |st.kinds|
  {
    hide Step;
    RunSettles(s, st, |s|);
    if |st.kinds| < q {
      var e := NextToken(s, st, kinds);
      TokenBoundary(s, TopLevel(kinds, e), kinds, q);
      RunCompose(s, st, e, q);
    } else {
      assert st == TopLevel(kinds, q);
    }
  }

  /** A literal space has literal characters on both sides: tokens neither start nor end with one. */
  lemma {:induction false} LiteralSpace(s: string, st: LexState, kinds: seq<Kind>, q: nat)
    requires Reaches(s, st, kinds) && st.stack == [] && |st.kinds| <= q < |s|
    requires kinds[q] == Literal && IsSpace(s[q])
    ensures |st.kinds| < q && q + 1 < |s| && kinds[q - 1] == Literal && kinds[q + 1] == Literal
    decreases |s| - |st.kinds|
  {
    hide Step;
    var e := NextToken(s, st, kinds);
    if e <= q { LiteralSpace(s, TopLevel(kinds, e), kinds, q); }
  }

  /** Every offset labelled code was reached with an empty template stack, and so was the next one. */
  lemma {:induction false} CodeIsTopLevel(s: string, kinds: seq<Kind>, p: nat)
    requires Lex(s) == Success(kinds) && p < |s| && kinds[p] == Code
    ensures Boundary(s, kinds, p) && Boundary(s, kinds, p + 1)
  {
    TokenBoundary(s, Start, kinds, p);
    TokenBoundary(s, Start, kinds, p + 1);
  }
}

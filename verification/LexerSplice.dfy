/** What replacing a stretch of a labelled text does to the labels. */
module LexerSplice {
  import opened Wrappers
  import opened Text
  import opened SourceLexer
  import opened LexerTokens
  import opened LexerShift

  /** Nothing has been read after the start of either text. */
  lemma {:induction false} MovedEmpty(k1: seq<Kind>, k2: seq<Kind>)
    ensures Moved(LexState(k1, []), LexState(k2, []), |k1|, |k2| - |k1|)
  {
  }

  lemma {:induction false} MovedInPlace(st1: LexState, st2: LexState)
    requires Moved(st1, st2, 0, 0)
    ensures st1 == st2
  {
    assert st1.kinds == st2.kinds;
    assert st1.stack == st2.stack;
  }

  /** At the start of a text a `/` opens a regular expression. */
  lemma {:induction false} OpensAtStart(s: string, k: seq<Kind>)
    ensures OpensRegex(s, k, 0)
  {
  }

  /**
   * Locality: what is read up to `p` is the same for every text that starts with the same `p`
   * characters and does not continue the token ending there.
   */
  lemma {:induction false} Locality(s1: string, s2: string, p: nat)
    requires p <= |s1| && p <= |s2| && Agree(s1, s2, 0, 0, p)
    requires RunTo(s1, Start, p).Success? && |RunTo(s1, Start, p).value.kinds| == p
    requires StopsAt(s1, s2, p, 0, RunTo(s1, Start, p).value.kinds)
    ensures RunTo(s2, Start, p) == RunTo(s1, Start, p)
  {
    hide Step, Agree, Moved, OpensRegex, RunTo, StopsAt;
    MovedEmpty([], []);
    OpensAtStart(s1, []);
    OpensAtStart(s2, []);
    RunShift(s1, Start, s2, Start, 0, 0, p);
    MovedInPlace(RunTo(s1, Start, p).value, RunTo(s2, Start, p).value);
  }

  lemma {:induction false} BoundaryGoesOn(s: string, kinds: seq<Kind>, p: nat)
    requires Lex(s) == Success(kinds) && Boundary(s, kinds, p)
    ensures RunTo(s, TopLevel(kinds, p), |s|) == Success(LexState(kinds, []))
    ensures Reaches(s, TopLevel(kinds, p), kinds)
  {
    hide Step, TopLevel;
    RunCompose(s, Start, p, |s|);
  }

  /** The text from a boundary on is labelled the same way after something else. */
  lemma {:induction false} SuffixLabels(s1: string, k1: seq<Kind>, b: nat, s2: string, pre: seq<Kind>) returns (k2: seq<Kind>)
    requires Lex(s1) == Success(k1) && Boundary(s1, k1, b)
    requires |pre| <= |s2| == |s1| + |pre| - b && Agree(s1, s2, |pre| - b, b, |s1|)
    requires SameLeft(s1, k1, s2, pre, b, |pre| - b)
    ensures RunTo(s2, LexState(pre, []), |s2|) == Success(LexState(k2, []))
    ensures |k2| == |s2| && Agree(k1, k2, |pre| - b, b, |s1|) && Agree(pre, k2, 0, 0, |pre|)
  {
    hide Step, OpensRegex, RunTo, Agree, SameLeft;
    var d := |pre| - b;
    var st1, st2 := TopLevel(k1, b), LexState(pre, []);
    BoundaryGoesOn(s1, k1, b);
    AgreePrefix(k1, st1.kinds, b);
    AgreePrefix(pre, pre, |pre|);
    SameLeftPrefix(s1, k1, st1.kinds, s2, pre, pre, b, d);
    MovedEmpty(st1.kinds, pre);
    RunShift(s1, st1, s2, st2, b, d, |s1|);
    k2 := RunTo(s2, st2, |s2|).value.kinds;
  }

  /**
   * Replacing `[a, b)` keeps the labels on both sides, when what replaces it is read from one
   * top-level state to another and the text from `b` on looks back at the same thing.
   */
  lemma {:induction false} SpliceLabels(s1: string, k1: seq<Kind>, a: nat, b: nat, s2: string, mid: seq<Kind>) returns (k2: seq<Kind>)
    requires Lex(s1) == Success(k1) && a <= b && Boundary(s1, k1, a) && Boundary(s1, k1, b)
    requires a <= |mid| <= |s2| == |s1| + |mid| - b
    requires Agree(s1, s2, 0, 0, a) && Agree(s1, s2, |mid| - b, b, |s1|)
    requires StopsAt(s1, s2, a, 0, k1)
    requires RunTo(s2, TopLevel(k1, a), |mid|) == Success(LexState(mid, []))
    requires SameLeft(s1, k1, s2, mid, b, |mid| - b)
    ensures Lex(s2) == Success(k2) && |k2| == |s2|
    ensures Agree(mid, k2, 0, 0, |mid|) && Agree(k1, k2, |mid| - b, b, |s1|)
  {
    hide Step, OpensRegex, RunTo, SameLeft, Agree;
    assert StopsAt(s1, s2, a, 0, TopLevel(k1, a).kinds);
    hide TopLevel, StopsAt;
    Locality(s1, s2, a);
    RunCompose(s2, Start, a, |s2|);
    RunCompose(s2, TopLevel(k1, a), |mid|, |s2|);
    k2 := SuffixLabels(s1, k1, b, s2, mid);
  }
}

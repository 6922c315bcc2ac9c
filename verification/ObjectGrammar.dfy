/**
 * `scanObject` without its loop: an object literal ends at the first closing bracket that has no
 * opening one behind its brace, and its entries stand between the commas outside all brackets.
 */
module ObjectGrammar {
  import opened Wrappers
  import opened Text
  import opened SourceLexer
  import opened ObjectScan
  import opened ObjectShift

  /** The brackets opened in `[lo, i)` less the ones closed, over the characters that are code. */
  function Nesting(s: string, kinds: seq<Kind>, lo: nat, i: nat): int
    requires lo <= i <= |s| == |kinds|
  {
    if i == lo then 0
    else
      var c := s[i - 1];
      Nesting(s, kinds, lo, i - 1)
      + (if kinds[i - 1] != Code then 0
         else if c == '(' || c == '[' || c == '{' then 1
         else if c == ')' || c == ']' || c == '}' then -1
         else 0)
  }

  /** A closing bracket at `k`. */
  predicate Closing(s: string, kinds: seq<Kind>, k: nat)
    requires k < |s| == |kinds|
  {
    kinds[k] == Code && (s[k] == ')' || s[k] == ']' || s[k] == '}')
  }

  /** `c` closes what was opened before `lo`: every closing bracket in between has its own partner. */
  ghost predicate Ends(s: string, kinds: seq<Kind>, lo: nat, c: nat)
    requires |s| == |kinds|
  {
    && lo <= c < |s| && Closing(s, kinds, c) && Nesting(s, kinds, lo, c) == 0
    && forall k {:trigger Closing(s, kinds, k)} :: lo <= k < c && Closing(s, kinds, k) ==> Nesting(s, kinds, lo, k) > 0
  }

  /** A comma outside all brackets opened from `lo` on. */
  predicate Separates(s: string, kinds: seq<Kind>, lo: nat, k: nat)
    requires lo <= k < |s| == |kinds|
  {
    kinds[k] == Code && s[k] == ',' && Nesting(s, kinds, lo, k) == 0
  }

  /** Offsets of a text of length `n`, in order. */
  ghost predicate Ascending(cuts: seq<nat>, n: nat) {
    (forall m :: 0 <= m < |cuts| ==> cuts[m] < n) && forall l, m :: 0 <= l < m < |cuts| ==> cuts[l] < cuts[m]
  }

  /** The entries in the stretches between successive cuts; a stretch of spaces and comments holds none. */
  ghost function Between(s: string, kinds: seq<Kind>, cuts: seq<nat>): seq<ObjectEntry>
    requires |s| == |kinds| && Ascending(cuts, |s|)
  {
    if |cuts| < 2 then []
    else
      var entry := ReadEntry(s, kinds, cuts[0] + 1, cuts[1]);
      (if entry.None? then [] else [entry.value]) + Between(s, kinds, cuts[1..])
  }

  /** `cuts` are the first offset, the separating commas behind it in order, and the last offset. */
  ghost predicate CutsOf(s: string, kinds: seq<Kind>, lo: nat, first: nat, last: nat, cuts: seq<nat>)
    requires |s| == |kinds|
  {
    && 2 <= |cuts| && cuts[0] == first && cuts[|cuts| - 1] == last && Ascending(cuts, |s|)
    && (forall k: nat :: k in cuts <==> k == first || k == last || (lo <= k && first < k < last && Separates(s, kinds, lo, k)))
  }

  /** What the loop finds from `i` on, behind the cut at `first`. */
  ghost predicate Found(s: string, kinds: seq<Kind>, lo: nat, i: nat, entries: seq<ObjectEntry>, first: nat, r: ScanOutcome, cuts: seq<nat>)
    requires lo <= i <= |s| == |kinds|
  {
    match r
    case Running(_) => forall k {:trigger Closing(s, kinds, k)} :: i <= k < |s| && Closing(s, kinds, k) ==> Nesting(s, kinds, lo, k) > 0
    case Stray(at) => EndsFrom(s, kinds, lo, i, at) && s[at] != '}'
    case Complete(close, es) =>
      && EndsFrom(s, kinds, lo, i, close) && s[close] == '}' && first < close && CutsOf(s, kinds, lo, first, close, cuts)
      && es == entries + Between(s, kinds, cuts)
  }

  /** No separator stands behind `first` and before `i`. */
  ghost predicate NoneSince(s: string, kinds: seq<Kind>, lo: nat, first: nat, i: nat)
    requires lo <= i <= |s| == |kinds|
  {
    forall k {:trigger Separates(s, kinds, lo, k)} :: lo <= k < i && first < k ==> !Separates(s, kinds, lo, k)
  }

  lemma {:induction false} FoundLater(s: string, kinds: seq<Kind>, lo: nat, i: nat, entries: seq<ObjectEntry>, first: nat, r: ScanOutcome,
                                      cuts: seq<nat>)
    requires lo <= i < |s| == |kinds| && Found(s, kinds, lo, i + 1, entries, first, r, cuts)
    requires Closing(s, kinds, i) ==> Nesting(s, kinds, lo, i) > 0
    ensures Found(s, kinds, lo, i, entries, first, r, cuts)
  {
    hide Closing, Nesting, CutsOf, Between;
  }

  lemma {:induction false} FoundBehind(s: string, kinds: seq<Kind>, lo: nat, i: nat, entries: seq<ObjectEntry>, first: nat, r: ScanOutcome,
                                       rest: seq<nat>) returns (cuts: seq<nat>)
    requires lo <= i < |s| == |kinds| && first < i && Separates(s, kinds, lo, i) && NoneSince(s, kinds, lo, first, i)
    requires Found(s, kinds, lo, i, entries + OptionSeq(ReadEntry(s, kinds, first + 1, i)), i, r, rest)
    ensures Found(s, kinds, lo, i, entries, first, r, cuts)
  {
    hide Closing, Nesting, Between, Separates, ReadEntry, EndsFrom, Ascending;
    cuts := [first] + rest;
    if r.Complete? {
      CutsGrow(s, kinds, lo, first, i, r.close, rest);
      EntriesGrow(s, kinds, entries, first, i, rest);
    }
  }

  /** The rest of the loop, from a state whose depth is the nesting so far. */
  lemma {:induction false} ScanCuts(s: string, kinds: seq<Kind>, lo: nat, i: nat, st: ScanState, first: nat) returns (cuts: seq<nat>)
    requires lo <= i <= |s| == |kinds| && st.entryStart == first + 1 <= i && Nesting(s, kinds, lo, i) == st.depth
    requires NoneSince(s, kinds, lo, first, i)
    ensures Found(s, kinds, lo, i, st.entries, first, ScanTo(s, kinds, i, st, |s|), cuts)
    decreases |s| - i
  {
    hide ReadEntry, Closing, Nesting, Separates, Found, ScanStep;
    cuts := [];
    if i == |s| {
      NothingFound(s, kinds, lo, st, first);
    } else {
      var next := ScanStep(s, kinds, i, st);
      if next.Running? {
        StepNests(s, kinds, lo, i, st, first);
        var r := ScanTo(s, kinds, i + 1, next.state, |s|);
        if Separates(s, kinds, lo, i) {
          var rest := ScanCuts(s, kinds, lo, i + 1, next.state, i);
          FoundLater(s, kinds, lo, i, next.state.entries, i, r, rest);
          cuts := FoundBehind(s, kinds, lo, i, st.entries, first, r, rest);
        } else {
          cuts := ScanCuts(s, kinds, lo, i + 1, next.state, first);
          FoundLater(s, kinds, lo, i, st.entries, first, r, cuts);
        }
      } else {
        cuts := FoundHere(s, kinds, lo, i, st, first);
      }
    }
  }

  lemma {:induction false} NothingFound(s: string, kinds: seq<Kind>, lo: nat, st: ScanState, first: nat)
    requires lo <= |s| == |kinds|
    ensures Found(s, kinds, lo, |s|, st.entries, first, Running(st), [])
  {
  }

  lemma {:induction false} FoundHere(s: string, kinds: seq<Kind>, lo: nat, i: nat, st: ScanState, first: nat) returns (cuts: seq<nat>)
    requires lo <= i < |s| == |kinds| && st.entryStart == first + 1 <= i && Nesting(s, kinds, lo, i) == st.depth
    requires NoneSince(s, kinds, lo, first, i) && !ScanStep(s, kinds, i, st).Running?
    ensures Found(s, kinds, lo, i, st.entries, first, ScanStep(s, kinds, i, st), cuts)
  {
    hide ReadEntry, Nesting, Separates, Between, CutsOf;
    cuts := [first, i];
    LastCuts(s, kinds, lo, first, i);
    LastEntries(s, kinds, st, first, i);
  }

  /** `c` ends what was opened before `lo`, as far as the text from `i` on tells. */
  ghost predicate EndsFrom(s: string, kinds: seq<Kind>, lo: nat, i: nat, c: nat)
    requires |s| == |kinds|
  {
    && lo <= i <= c < |s| && Closing(s, kinds, c) && Nesting(s, kinds, lo, c) == 0
    && forall k {:trigger Closing(s, kinds, k)} :: i <= k < c && Closing(s, kinds, k) ==> Nesting(s, kinds, lo, k) > 0
  }

  lemma {:induction false} StepNests(s: string, kinds: seq<Kind>, lo: nat, i: nat, st: ScanState, first: nat)
    requires |s| == |kinds| && lo <= i < |s| && st.entryStart == first + 1 <= i && Nesting(s, kinds, lo, i) == st.depth
    requires ScanStep(s, kinds, i, st).Running?
    ensures var next := ScanStep(s, kinds, i, st).state;
            && Nesting(s, kinds, lo, i + 1) == next.depth
            && (Closing(s, kinds, i) ==> st.depth > 0)
            && next.entryStart == (if Separates(s, kinds, lo, i) then i else first) + 1
            && next.entries == if Separates(s, kinds, lo, i) then st.entries + OptionSeq(ReadEntry(s, kinds, first + 1, i)) else st.entries
  {
    hide ReadEntry;
  }

  lemma {:induction false} CutsGrow(s: string, kinds: seq<Kind>, lo: nat, first: nat, mid: nat, last: nat, rest: seq<nat>)
    requires |s| == |kinds| && first < mid && lo <= mid < last && CutsOf(s, kinds, lo, mid, last, rest) && Separates(s, kinds, lo, mid)
    requires mid < |s| && NoneSince(s, kinds, lo, first, mid)
    ensures CutsOf(s, kinds, lo, first, last, [first] + rest) && |rest| >= 2 && rest[0] == mid && Ascending([first] + rest, |s|)
    ensures Ascending(rest, |s|)
  {
    hide Separates;
    var cuts := [first] + rest;
    assert forall n :: 0 < n < |cuts| ==> cuts[n] == rest[n - 1];
    forall k: nat ensures k in cuts <==> k == first || k == last || (lo <= k && first < k < last && Separates(s, kinds, lo, k)) {
      assert k in cuts <==> k == first || k in rest;
    }
    assert forall l, m :: 0 <= l < m < |cuts| ==> cuts[l] < cuts[m];
  }

  lemma {:induction false} BetweenStep(s: string, kinds: seq<Kind>, first: nat, rest: seq<nat>)
    requires |s| == |kinds| && first < |s| && |rest| >= 1 && first < rest[0]
    requires Ascending(rest, |s|) && Ascending([first] + rest, |s|)
    ensures Between(s, kinds, [first] + rest) == OptionSeq(ReadEntry(s, kinds, first + 1, rest[0])) + Between(s, kinds, rest)
  {
    hide ReadEntry, Ascending;
    assert ([first] + rest)[1..] == rest;
  }

  lemma {:induction false} EntriesGrow(s: string, kinds: seq<Kind>, entries: seq<ObjectEntry>, first: nat, mid: nat, rest: seq<nat>)
    requires |s| == |kinds| && first < mid < |s| && |rest| >= 2 && rest[0] == mid
    requires Ascending(rest, |s|) && Ascending([first] + rest, |s|)
    ensures entries + OptionSeq(ReadEntry(s, kinds, first + 1, mid)) + Between(s, kinds, rest)
         == entries + Between(s, kinds, [first] + rest)
  {
    hide ReadEntry, Ascending, Between;
    BetweenStep(s, kinds, first, rest);
    Regroup(entries, OptionSeq(ReadEntry(s, kinds, first + 1, mid)), Between(s, kinds, rest));
  }

  lemma {:induction false} Regroup(a: seq<ObjectEntry>, b: seq<ObjectEntry>, c: seq<ObjectEntry>)
    ensures a + b + c == a + (b + c)
  {
  }

  lemma {:induction false} LastCuts(s: string, kinds: seq<Kind>, lo: nat, first: nat, last: nat)
    requires first < last && lo <= last < |s| == |kinds| && NoneSince(s, kinds, lo, first, last)
    ensures CutsOf(s, kinds, lo, first, last, [first, last]) && Ascending([first, last], |s|)
  {
  }

  lemma {:induction false} LastEntries(s: string, kinds: seq<Kind>, st: ScanState, first: nat, last: nat)
    requires |s| == |kinds| && first < last < |s| && Ascending([first, last], |s|)
    ensures st.entries + OptionSeq(ReadEntry(s, kinds, first + 1, last)) == st.entries + Between(s, kinds, [first, last])
  {
    hide ReadEntry;
    assert [first, last][1..] == [last];
    assert Between(s, kinds, [last]) == [];
  }

  /** The closing bracket at `c` ends what the brace at `open` began. */
  ghost predicate Closes(s: string, kinds: seq<Kind>, open: nat, c: nat)
    requires |s| == |kinds|
  {
    Ends(s, kinds, open + 1, c)
  }

  /**
   * An object literal is scanned from its brace to the `}` that ends it, and holds the entries
   * between its separating commas. It fails at another closing bracket, or when nothing ends it.
   */
  lemma {:induction false} ScanObjectIs(s: string, kinds: seq<Kind>, open: nat) returns (cuts: seq<nat>)
    requires |s| == |kinds|
    ensures var opens := open < |s| && s[open] == '{' && kinds[open] == Code;
            match ScanObject(s, kinds, open)
            case Failure(NotAnObject(at)) => !opens && at == open
            case Failure(NeverClosed(at)) => opens && at == open && forall c: nat :: !Closes(s, kinds, open, c)
            case Failure(Unbalanced(at)) => opens && Closes(s, kinds, open, at) && s[at] != '}'
            case Success(scan) =>
              && opens && scan.open == open && Closes(s, kinds, open, scan.close) && s[scan.close] == '}'
              && CutsOf(s, kinds, open + 1, open, scan.close, cuts)
              && scan.entries == Between(s, kinds, cuts)
  {
    hide ScanTo, Nesting, Closing, Separates, CutsOf, Between;
    cuts := [];
    if open < |s| && s[open] == '{' && kinds[open] == Code {
      assert Nesting(s, kinds, open + 1, open + 1) == 0 by { NothingNested(s, kinds, open + 1); }
      cuts := ScanCuts(s, kinds, open + 1, open + 1, ScanState(0, open + 1, []), open);
    }
  }

  lemma {:induction false} NothingNested(s: string, kinds: seq<Kind>, lo: nat)
    requires lo <= |s| == |kinds|
    ensures Nesting(s, kinds, lo, lo) == 0
  {
  }

  // ---------------------------------------------------------------------------
  // One entry
  // ---------------------------------------------------------------------------

  /** The name at `start` goes up to `close`: a quoted one to the end of its literal, a bare one over its word. */
  ghost predicate NameSpans(s: string, kinds: seq<Kind>, start: nat, end: nat, close: nat) {
    && start < close <= end <= |s| && end <= |kinds|
    && if kinds[start] == Literal then
         && (s[start] == '"' || s[start] == '\'')
         && (forall k :: start <= k < close ==> kinds[k] == Literal) && (close < end ==> kinds[close] != Literal)
       else
         && kinds[start] == Code && !('0' <= s[start] <= '9')
         && (forall k :: start <= k < close ==> IsIdent(s[k])) && (close < end ==> !IsIdent(s[close]))
  }

  /** What the name that spans `[start, close)` says; a quoted one has no name when it holds an escape. */
  ghost function NameSaid(s: string, kinds: seq<Kind>, start: nat, close: nat): Option<string>
    requires start < close <= |s| && close <= |kinds|
  {
    if kinds[start] != Literal then Some(s[start..close])
    else if close == start + 1 then Some("")
    else if exists k :: start < k < close - 1 && s[k] == '\\' then None
    else Some(s[start + 1..close - 1])
  }

  /** Between the name and `e.valueStart` stands a colon, with nothing but spaces and comments around it. */
  ghost predicate ColonAt(s: string, kinds: seq<Kind>, close: nat, colon: nat, end: nat) {
    && close <= colon < end <= |s| && end <= |kinds| && AllTrivia(s, kinds, close, colon)
    && s[colon] == ':' && kinds[colon] == Code
  }

  lemma {:induction false} NameIs(s: string, kinds: seq<Kind>, start: nat, end: nat, close: nat)
    requires start < end <= |s| && end <= |kinds| && NameSpans(s, kinds, start, end, close)
    ensures match NameSaid(s, kinds, start, close)
            case None => ReadKey(s, kinds, start, end) == None
            case Some(name) => ReadKey(s, kinds, start, end) == Some((name, close))
  {
    if kinds[start] == Literal {
      assert LiteralEnd(kinds, start, end) == close by { LiteralEndIs(kinds, start, end, close); }
      if close >= start + 2 {
        var inner := s[start + 1..close - 1];
        assert forall k :: start < k < close - 1 ==> s[k] == inner[k - start - 1];
        assert '\\' in inner <==> exists k :: start < k < close - 1 && s[k] == '\\' by {
          if '\\' in inner { var m :| 0 <= m < |inner| && inner[m] == '\\'; assert s[start + 1 + m] == '\\'; }
        }
      }
    } else {
      assert IdentEnd(s, start, end) == close by { IdentEndIs(s, start, end, close); }
    }
  }

  lemma {:induction false} LiteralEndIs(kinds: seq<Kind>, i: nat, till: nat, e: nat)
    requires i <= e <= till <= |kinds| && (forall k :: i <= k < e ==> kinds[k] == Literal) && (e < till ==> kinds[e] != Literal)
    ensures LiteralEnd(kinds, i, till) == e
  {
  }

  lemma {:induction false} IdentEndIs(s: string, i: nat, till: nat, e: nat)
    requires i <= e <= till <= |s| && (forall k :: i <= k < e ==> IsIdent(s[k])) && (e < till ==> !IsIdent(s[e]))
    ensures IdentEnd(s, i, till) == e
  {
  }

  lemma {:induction false} NoName(s: string, kinds: seq<Kind>, start: nat, end: nat)
    requires start < end <= |s| && end <= |kinds| && forall close: nat :: !NameSpans(s, kinds, start, end, close)
    ensures ReadKey(s, kinds, start, end) == None
  {
    if kinds[start] == Literal {
      assert !NameSpans(s, kinds, start, end, LiteralEnd(kinds, start, end));
    } else {
      assert !NameSpans(s, kinds, start, end, IdentEnd(s, start, end));
    }
  }

  /**
   * The key of an entry is the name it starts with. It is keyed exactly when a colon follows the
   * name, and its value is then everything behind the colon, leading spaces and comments aside.
   */
  lemma {:induction false} EntryIs(s: string, kinds: seq<Kind>, start: nat, end: nat, close: nat)
    requires start < end <= |s| && end <= |kinds|
    ensures var e := EntryAt(s, kinds, start, end);
            && e.start == start && e.end == end
            && ((forall c: nat :: !NameSpans(s, kinds, start, end, c)) ==> e.key == None && !e.keyed)
            && (NameSpans(s, kinds, start, end, close) ==>
                  && e.key == NameSaid(s, kinds, start, close)
                  && (e.keyed <==> e.key.Some? && exists colon: nat :: ColonAt(s, kinds, close, colon, end)))
            && (e.keyed ==>
                  && e.valueEnd == end
                  && forall colon: nat :: NameSpans(s, kinds, start, end, close) && ColonAt(s, kinds, close, colon, end) ==>
                       (&& colon < e.valueStart <= end && AllTrivia(s, kinds, colon + 1, e.valueStart)
                        && (e.valueStart < end ==> !IsTrivia(s, kinds, e.valueStart))))
  {
    hide ReadKey, NameSaid, NameSpans;
    if forall c: nat :: !NameSpans(s, kinds, start, end, c) { NoName(s, kinds, start, end); }
    if NameSpans(s, kinds, start, end, close) {
      NameIs(s, kinds, start, end, close);
      NameBounds(s, kinds, start, end, close);
      var at := SkipTrivia(s, kinds, close, end);
      forall colon: nat | ColonAt(s, kinds, close, colon, end) ensures colon == at { ColonIsOne(s, kinds, close, colon, end); }
      if at < end && s[at] == ':' && kinds[at] == Code { assert ColonAt(s, kinds, close, at, end); }
    }
  }

  lemma {:induction false} NameBounds(s: string, kinds: seq<Kind>, start: nat, end: nat, close: nat)
    requires NameSpans(s, kinds, start, end, close)
    ensures start < close <= end <= |s| && end <= |kinds|
  {
  }

  lemma {:induction false} ColonIsOne(s: string, kinds: seq<Kind>, close: nat, colon: nat, end: nat)
    requires close <= end <= |s| && end <= |kinds| && ColonAt(s, kinds, close, colon, end)
    ensures SkipTrivia(s, kinds, close, end) == colon
  {
    SkipTriviaStop(s, kinds, close, colon, end);
  }
}

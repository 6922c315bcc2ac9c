/** `findConfigObject` finds the same object after an entry has been inserted in it. */
module ConfigFind {
  import opened Wrappers
  import opened Text
  import opened SourceLexer
  import opened ObjectScan
  import opened ObjectShift
  import opened ConfigEdit

  ghost predicate IsCall(s: string, kinds: seq<Kind>, i: int) {
    0 <= i < |s| == |kinds| && kinds[i] == Code && MatchDefine(s, i).Some?
  }

  ghost predicate IsExport(s: string, kinds: seq<Kind>, i: int) {
    0 <= i < |s| == |kinds| && kinds[i] == Code && MatchExport(s, i).Some?
  }

  /** A call or an export that counts as a config object. */
  ghost predicate CodeMatch(s: string, kinds: seq<Kind>, i: int) {
    IsCall(s, kinds, i) || IsExport(s, kinds, i)
  }

  /** The match at `i` names the object at `open`. */
  ghost predicate Names(s: string, kinds: seq<Kind>, i: nat, open: nat) {
    && CodeMatch(s, kinds, i) && i < open && At(s, open, '{')
    && (MatchDefine(s, i).Some? ==> SkipTrivia(s, kinds, MatchDefine(s, i).value, |s|) == open)
    && (MatchExport(s, i).Some? ==> MatchExport(s, i).value == open)
  }

  lemma {:induction false} OneKind(s: string, i: nat)
    ensures MatchDefine(s, i).None? || MatchExport(s, i).None?
  {
    FirstChar(s, i, "defineConfig");
    FirstChar(s, i, "export");
  }

  lemma {:induction false} FirstChar(s: string, i: nat, word: string)
    requires word != ""
    ensures HasPrefixAt(s, i, word) ==> s[i] == word[0]
  {
    if HasPrefixAt(s, i, word) { assert s[i..i + |word|][0] == s[i]; }
  }

  // ---------------------------------------------------------------------------
  // The two lists of candidates
  // ---------------------------------------------------------------------------

  lemma {:induction false} NoCalls(s: string, kinds: seq<Kind>, i: nat)
    requires i <= |s| == |kinds| && forall k :: i <= k < |s| ==> !IsCall(s, kinds, k)
    ensures DefineArgs(s, kinds, i) == Success([])
    decreases |s| - i
  {
    hide MatchDefine;
    if i < |s| {
      assert !IsCall(s, kinds, i);
      NoCalls(s, kinds, i + 1);
    }
  }

  lemma {:induction false} NoExports(s: string, kinds: seq<Kind>, i: nat)
    requires i <= |s| == |kinds| && forall k :: i <= k < |s| ==> !IsExport(s, kinds, k)
    ensures ExportObjects(s, kinds, i) == []
    decreases |s| - i
  {
    hide MatchExport;
    if i < |s| {
      assert !IsExport(s, kinds, i);
      NoExports(s, kinds, i + 1);
    }
  }

  lemma {:induction false} OneCall(s: string, kinds: seq<Kind>, i: nat, c: nat, open: nat)
    requires i <= c < |s| == |kinds| && IsCall(s, kinds, c)
    requires SkipTrivia(s, kinds, MatchDefine(s, c).value, |s|) == open && At(s, open, '{')
    requires forall k :: i <= k < |s| && k != c ==> !IsCall(s, kinds, k)
    ensures DefineArgs(s, kinds, i) == Success([open])
    decreases |s| - i
  {
    hide MatchDefine;
    assert IsCall(s, kinds, i) <==> i == c;
    if i < c { OneCall(s, kinds, i + 1, c, open); } else { NoCalls(s, kinds, i + 1); }
    assert [open] + [] == [open];
  }

  lemma {:induction false} OneExport(s: string, kinds: seq<Kind>, i: nat, c: nat)
    requires i <= c < |s| == |kinds| && IsExport(s, kinds, c)
    requires forall k :: i <= k < |s| && k != c ==> !IsExport(s, kinds, k)
    ensures ExportObjects(s, kinds, i) == [MatchExport(s, c).value]
    decreases |s| - i
  {
    hide MatchExport, ExportObjects;
    ExportStep(s, kinds, i);
    assert IsExport(s, kinds, i) <==> i == c;
    if i < c { OneExport(s, kinds, i + 1, c); } else { NoExports(s, kinds, i + 1); }
  }

  lemma {:induction false} ExportStep(s: string, kinds: seq<Kind>, i: nat)
    requires i < |s| == |kinds|
    ensures ExportObjects(s, kinds, i)
         == (if IsExport(s, kinds, i) then [MatchExport(s, i).value] else []) + ExportObjects(s, kinds, i + 1)
  {
    hide MatchExport;
  }

  /** One match, and what it names, is what is found. */
  lemma {:induction false} FindsOne(s: string, kinds: seq<Kind>, c: nat, open: nat)
    requires |s| == |kinds| && Names(s, kinds, c, open)
    requires forall k :: CodeMatch(s, kinds, k) ==> k == c
    ensures FindConfigObject(s, kinds) == Success(open)
  {
    hide MatchDefine, MatchExport;
    OneKind(s, c);
    forall k | 0 <= k < |s| && k != c ensures !IsCall(s, kinds, k) && !IsExport(s, kinds, k) { assert !CodeMatch(s, kinds, k); }
    if MatchDefine(s, c).Some? {
      OneCall(s, kinds, 0, c, open);
      NoExports(s, kinds, 0);
    } else {
      OneExport(s, kinds, 0, c);
      NoCalls(s, kinds, 0);
    }
  }

  /** A call is in the list from `i` on: the list is not empty, and holds one element for it alone. */
  lemma {:induction false} CallsOf(s: string, kinds: seq<Kind>, i: nat) returns (c: nat)
    requires i <= |s| == |kinds| && DefineArgs(s, kinds, i).Success? && |DefineArgs(s, kinds, i).value| <= 1
    ensures var args := DefineArgs(s, kinds, i).value;
            if args == [] then forall k :: i <= k < |s| ==> !IsCall(s, kinds, k)
            else && i <= c < |s| && IsCall(s, kinds, c)
                 && SkipTrivia(s, kinds, MatchDefine(s, c).value, |s|) == args[0] && At(s, args[0], '{')
                 && forall k :: i <= k < |s| && k != c ==> !IsCall(s, kinds, k)
    decreases |s| - i
  {
    hide MatchDefine;
    c := i;
    if i < |s| {
      var rest := CallsOf(s, kinds, i + 1);
      if !IsCall(s, kinds, i) { c := rest; }
    }
  }

  lemma {:induction false} ExportsOf(s: string, kinds: seq<Kind>, i: nat) returns (c: nat)
    requires i <= |s| == |kinds| && |ExportObjects(s, kinds, i)| <= 1
    ensures var args := ExportObjects(s, kinds, i);
            if args == [] then forall k :: i <= k < |s| ==> !IsExport(s, kinds, k)
            else && i <= c < |s| && IsExport(s, kinds, c) && MatchExport(s, c) == Some(args[0])
                 && forall k :: i <= k < |s| && k != c ==> !IsExport(s, kinds, k)
    decreases |s| - i
  {
    hide MatchExport;
    c := i;
    if i < |s| {
      var rest := ExportsOf(s, kinds, i + 1);
      if !IsExport(s, kinds, i) { c := rest; }
    }
  }

  lemma {:induction false} ExportBrace(s: string, i: nat)
    requires MatchExport(s, i).Some?
    ensures At(s, MatchExport(s, i).value, '{')
  {
  }

  /** What was found was named by the only match. */
  lemma {:induction false} FoundOne(s: string, kinds: seq<Kind>) returns (c: nat)
    requires |s| == |kinds| && FindConfigObject(s, kinds).Success?
    ensures Names(s, kinds, c, FindConfigObject(s, kinds).value)
    ensures forall k :: CodeMatch(s, kinds, k) ==> k == c
  {
    hide MatchDefine, MatchExport;
    var calls, exported := DefineArgs(s, kinds, 0).value, ExportObjects(s, kinds, 0);
    assert |calls| + |exported| == 1;
    var c1 := CallsOf(s, kinds, 0);
    var c2 := ExportsOf(s, kinds, 0);
    c := if calls == [] then c2 else c1;
    OneKind(s, c);
    if calls == [] { ExportBrace(s, c); }
  }

  // ---------------------------------------------------------------------------
  // Matches in a spliced text
  // ---------------------------------------------------------------------------

  /** One past the characters a match reads, its brace or argument apart. */
  function MatchEnd(s: string, i: nat): nat
    requires MatchDefine(s, i).Some? || MatchExport(s, i).Some?
  {
    if MatchDefine(s, i).Some? then MatchDefine(s, i).value else MatchExport(s, i).value
  }

  /** A match reads letters, spaces and one parenthesis. */
  lemma {:induction false} MatchReads(s: string, i: nat, k: nat)
    requires MatchDefine(s, i).Some? || MatchExport(s, i).Some?
    requires i <= k < MatchEnd(s, i)
    ensures IsLetter(s[k]) || IsSpace(s[k]) || s[k] == '('
    ensures k == i ==> IsLetter(s[k])
  {
    OneKind(s, i);
    if MatchDefine(s, i).Some? {
      WordReads(s, i, "defineConfig", k);
      var p := SkipSpaces(s, i + 12, |s|);
      assert i + 12 <= k < p ==> IsSpace(s[k]);
    } else {
      var p := SkipSpaces(s, i + 6, |s|);
      var q := SkipSpaces(s, p + 7, |s|);
      WordReads(s, i, "export", k);
      WordReads(s, p, "default", k);
      assert i + 6 <= k < p || p + 7 <= k < q ==> IsSpace(s[k]);
    }
  }

  lemma {:induction false} WordReads(s: string, i: nat, word: string, k: nat)
    requires HasPrefixAt(s, i, word) && forall j :: 0 <= j < |word| ==> IsLetter(word[j])
    ensures i <= k < i + |word| ==> IsLetter(s[k])
  {
    if i <= k < i + |word| { assert s[i..i + |word|][k - i] == s[k]; }
  }

  lemma {:induction false} HasPrefixMoved(s: string, s': string, d: int, i: nat, word: string)
    requires HasPrefixAt(s, i, word) && i + d >= 0 && Agree(s, s', d, i, i + |word|)
    ensures HasPrefixAt(s', i + d, word)
  {
    forall j | 0 <= j < |word| ensures s'[i + d..i + d + |word|][j] == word[j] {
      assert s[i..i + |word|][j] == s[i + j];
      assert s[i + j] == s'[i + j + d];
    }
  }

  lemma {:induction false} SkipSpacesMoved(s: string, s': string, d: int, i: nat, e: nat)
    requires i <= e < |s| && i + d >= 0 && Agree(s, s', d, i, e + 1) && SkipSpaces(s, i, |s|) == e
    ensures SkipSpaces(s', i + d, |s'|) == e + d
    decreases e - i
  {
    assert s[i] == s'[i + d];
    if i < e { SkipSpacesMoved(s, s', d, i + 1, e); }
  }

  /** A match is a match wherever its text stands, after no word character. */
  lemma {:induction false} DefineMoved(s: string, s': string, d: int, i: nat)
    requires MatchDefine(s, i).Some? && i + d >= 0 && Agree(s, s', d, i, MatchDefine(s, i).value)
    requires i + d > 0 ==> i + d <= |s'| && !IsWord(s'[i + d - 1])
    ensures MatchDefine(s', i + d) == Some(MatchDefine(s, i).value + d)
  {
    var p := SkipSpaces(s, i + 12, |s|);
    AgreePart(s, s', d, i, p + 1, i, i + 12);
    HasPrefixMoved(s, s', d, i, "defineConfig");
    AgreePart(s, s', d, i, p + 1, i + 12, p + 1);
    SkipSpacesMoved(s, s', d, i + 12, p);
    assert s[p] == s'[p + d];
  }

  lemma {:induction false} ExportMoved(s: string, s': string, d: int, i: nat)
    requires MatchExport(s, i).Some? && i + d >= 0 && Agree(s, s', d, i, MatchExport(s, i).value + 1)
    requires i + d > 0 ==> i + d <= |s'| && !IsWord(s'[i + d - 1])
    ensures MatchExport(s', i + d) == Some(MatchExport(s, i).value + d)
  {
    hide SkipSpaces, Agree;
    var p := SkipSpaces(s, i + 6, |s|);
    var q := SkipSpaces(s, p + 7, |s|);
    AgreePart(s, s', d, i, q + 1, i, i + 6);
    HasPrefixMoved(s, s', d, i, "export");
    AgreePart(s, s', d, i, q + 1, i + 6, p + 1);
    SkipSpacesMoved(s, s', d, i + 6, p);
    AgreePart(s, s', d, i, q + 1, p, p + 7);
    HasPrefixMoved(s, s', d, p, "default");
    AgreePart(s, s', d, i, q + 1, p + 7, q + 1);
    SkipSpacesMoved(s, s', d, p + 7, q);
    AgreeAt(s, s', d, i, q + 1, q);
  }

  /** One past everything a match looks at. */
  function MatchStop(s: string, i: nat): nat
    requires MatchDefine(s, i).Some? || MatchExport(s, i).Some?
  {
    if MatchDefine(s, i).Some? then MatchDefine(s, i).value else MatchExport(s, i).value + 1
  }

  lemma {:induction false} MatchMoved(s: string, kinds: seq<Kind>, s': string, kinds': seq<Kind>, d: int, i: nat)
    requires CodeMatch(s, kinds, i) && i + d >= 0 && |s'| == |kinds'|
    requires Agree(s, s', d, i, MatchStop(s, i)) && Agree(kinds, kinds', d, i, i + 1)
    requires i + d > 0 ==> i + d <= |s'| && !IsWord(s'[i + d - 1])
    ensures CodeMatch(s', kinds', i + d)
  {
    hide MatchDefine, MatchExport;
    assert kinds[i] == kinds'[i + d];
    if MatchDefine(s, i).Some? { DefineMoved(s, s', d, i); } else { ExportMoved(s, s', d, i); }
    StopsAfter(s, i);
  }

  lemma {:induction false} StopsAfter(s: string, i: nat)
    requires MatchDefine(s, i).Some? || MatchExport(s, i).Some?
    ensures i < MatchStop(s, i) <= |s|
    ensures i > 0 ==> !IsWord(s[i - 1])
  {
  }

  /** A match ends before a character it cannot read. */
  lemma {:induction false} MatchBefore(s: string, kinds: seq<Kind>, i: nat, w: nat)
    requires CodeMatch(s, kinds, i) && i <= w < |s|
    requires s[w] == ',' || s[w] == '{' || s[w] == '}' || s[w] == '/' || s[w] == ':'
    ensures i < w && MatchStop(s, i) <= w + 1 && (s[w] != '{' ==> MatchStop(s, i) <= w)
  {
    hide MatchDefine, MatchExport;
    if MatchEnd(s, i) > w { MatchReads(s, i, w); }
    if MatchDefine(s, i).None? { ExportBrace(s, i); }
    StopsAfter(s, i);
  }

  lemma {:induction false} NoMatchAtTrivia(s: string, kinds: seq<Kind>, i: nat)
    requires i < |s| == |kinds| && (IsTrivia(s, kinds, i) || s[i] == ',')
    ensures !CodeMatch(s, kinds, i)
  {
    hide MatchDefine, MatchExport;
    if CodeMatch(s, kinds, i) {
      StopsAfter(s, i);
      StartsBeforeEnd(s, i);
      MatchReads(s, i, i);
      assert false;
    }
  }

  lemma {:induction false} NoMatchAtOther(s: string, kinds: seq<Kind>, i: nat)
    requires i < |s| && (!IsLetter(s[i]) || (i > 0 && IsWord(s[i - 1])))
    ensures !CodeMatch(s, kinds, i)
  {
    hide MatchDefine, MatchExport;
    if CodeMatch(s, kinds, i) {
      StopsAfter(s, i);
      StartsBeforeEnd(s, i);
      MatchReads(s, i, i);
      assert false;
    }
  }

  lemma {:induction false} StartsBeforeEnd(s: string, i: nat)
    requires MatchDefine(s, i).Some? || MatchExport(s, i).Some?
    ensures i < MatchEnd(s, i)
  {
  }

  /** Inserted text holds no config object of its own. */
  ghost predicate NoConfig(x: string, kx: seq<Kind>) {
    forall i :: !CodeMatch(x, kx, i)
  }

  lemma {:induction false} BlockHasNoMatch(x: string, kx: seq<Kind>, es: nat, s2: string, k2: seq<Kind>, p: nat, i: nat)
    requires |x| == |kx| && NoConfig(x, kx) && 0 < es <= |x| && IsCodeComma(x, kx, es - 1)
    requires forall k :: es <= k < |x| ==> IsTrivia(x, kx, k)
    requires |s2| == |k2| && Agree(x, s2, p, 0, |x|) && Agree(kx, k2, p, 0, |x|) && p <= i < p + |x|
    ensures !CodeMatch(s2, k2, i)
  {
    hide MatchDefine, MatchExport, MatchStop;
    var j := i - p;
    assert s2[i] == x[j] && k2[i] == kx[j] by { assert x[j] == s2[j + p] && kx[j] == k2[j + p]; }
    if j >= es - 1 {
      assert j >= es ==> IsTrivia(x, kx, j);
      NoMatchAtTrivia(s2, k2, i);
    } else if CodeMatch(s2, k2, i) {
      assert x[es - 1] == s2[es - 1 + p];
      MatchBefore(s2, k2, i, p + es - 1);
      StopsAfter(s2, i);
      AgreeBack(x, s2, p, j, MatchStop(s2, i) - p);
      AgreeBack(kx, k2, p, j, j + 1);
      if j > 0 { assert x[j - 1] == s2[j - 1 + p]; }
      var back: int := 0 - p;
      MatchMoved(s2, k2, x, kx, back, i);
    }
  }

  lemma {:induction false} AgreeBack<T(!new)>(s1: seq<T>, s2: seq<T>, d: int, lo: int, hi: int)
    requires Agree(s1, s2, d, 0, |s1|) && 0 <= lo <= hi <= |s1|
    ensures Agree(s2, s1, -d, lo + d, hi + d)
  {
    forall k {:trigger s2[k]} | lo + d <= k < hi + d ensures s2[k] == s1[k - d] { assert s1[k - d] == s2[k - d + d]; }
  }

  lemma {:induction false} AgreeFlip<T(!new)>(s1: seq<T>, s2: seq<T>, d: int, lo: int, hi: int)
    requires Agree(s1, s2, d, lo, hi)
    ensures Agree(s2, s1, -d, lo + d, hi + d)
  {
    forall k {:trigger s2[k]} | lo + d <= k < hi + d ensures s2[k] == s1[k - d] { assert s1[k - d] == s2[k - d + d]; }
  }

  /**
   * A splice behind the config object's opening brace that adds no match and cuts none in two
   * leaves the same object to be found.
   */
  lemma {:induction false} SpliceKeepsConfig(s1: string, k1: seq<Kind>, open: nat, a: nat, b1: nat, s2: string, k2: seq<Kind>, b2: nat)
    requires |s1| == |k1| && |s2| == |k2| && FindConfigObject(s1, k1) == Success(open) && open < a <= b1 <= |s1| && a <= b2 <= |s2|
    requires k1[open] == Code
    requires |s2| - b2 == |s1| - b1
    requires Agree(s1, s2, 0, 0, a) && Agree(k1, k2, 0, 0, a)
    requires Agree(s1, s2, b2 - b1, b1, |s1|) && Agree(k1, k2, b2 - b1, b1, |s1|)
    requires !IsWord(s1[b1 - 1])
    requires forall i :: 0 <= i < a && CodeMatch(s2, k2, i) ==> MatchStop(s2, i) <= a
    requires forall i :: a <= i < b2 ==> !CodeMatch(s2, k2, i)
    ensures FindConfigObject(s2, k2) == Success(open)
  {
    hide MatchDefine, MatchExport, MatchStop, FindConfigObject, Agree, Names, CodeMatch;
    var c := FoundOne(s1, k1);
    NamesMoved(s1, k1, s2, k2, c, open, a);
    forall i | CodeMatch(s2, k2, i) ensures i == c {
      MatchInRange(s2, k2, i);
      if i < a {
        MatchFrom(s2, k2, i, s1, k1, a);
      } else {
        MatchFromRest(s2, k2, i, s1, k1, b1, b2);
        MatchInRange(s1, k1, c);
        NamesBefore(s1, k1, c, open);
      }
    }
    FindsOne(s2, k2, c, open);
  }

  lemma {:induction false} MatchInRange(s: string, kinds: seq<Kind>, i: int)
    requires CodeMatch(s, kinds, i)
    ensures 0 <= i < |s| == |kinds|
  {
  }

  lemma {:induction false} NamesBefore(s: string, kinds: seq<Kind>, c: nat, open: nat)
    requires Names(s, kinds, c, open)
    ensures c < open && CodeMatch(s, kinds, c)
  {
  }

  lemma {:induction false} MatchFrom(s2: string, k2: seq<Kind>, i: nat, s1: string, k1: seq<Kind>, a: nat)
    requires |s1| == |k1| && Agree(s1, s2, 0, 0, a) && Agree(k1, k2, 0, 0, a)
    requires CodeMatch(s2, k2, i) && MatchStop(s2, i) <= a
    ensures CodeMatch(s1, k1, i)
  {
    hide MatchDefine, MatchExport, MatchStop, Agree;
    StopsAfter(s2, i);
    AgreeFlip(s1, s2, 0, 0, a);
    AgreeFlip(k1, k2, 0, 0, a);
    AgreePart(s2, s1, 0, 0, a, i, MatchStop(s2, i));
    AgreePart(k2, k1, 0, 0, a, i, i + 1);
    if i > 0 { AgreeAt(s2, s1, 0, 0, a, i - 1); }
    assert |s1| >= a by { AgreeWithin(s1, s2, 0, 0, a); }
    MatchMoved(s2, k2, s1, k1, 0, i);
  }

  lemma {:induction false} AgreeWithin<T(!new)>(s1: seq<T>, s2: seq<T>, d: int, lo: int, hi: int)
    requires Agree(s1, s2, d, lo, hi)
    ensures 0 <= lo <= hi <= |s1| && 0 <= lo + d && hi + d <= |s2|
  {
  }

  lemma {:induction false} MatchFromRest(s2: string, k2: seq<Kind>, i: nat, s1: string, k1: seq<Kind>, b1: nat, b2: nat)
    requires |s1| == |k1| && |s2| == |k2| && 0 < b1 <= |s1| && b2 <= i < |s2| && |s2| - b2 == |s1| - b1
    requires Agree(s1, s2, b2 - b1, b1, |s1|) && Agree(k1, k2, b2 - b1, b1, |s1|)
    requires !IsWord(s1[b1 - 1]) && CodeMatch(s2, k2, i)
    ensures CodeMatch(s1, k1, i + b1 - b2)
  {
    hide MatchDefine, MatchExport, MatchStop, Agree;
    var d := b2 - b1;
    StopsAfter(s2, i);
    AgreeFlip(s1, s2, d, b1, |s1|);
    AgreeFlip(k1, k2, d, b1, |s1|);
    AgreePart(s2, s1, -d, b2, |s2|, i, MatchStop(s2, i));
    AgreePart(k2, k1, -d, b2, |s2|, i, i + 1);
    if i > b2 { AgreeAt(s2, s1, -d, b2, |s2|, i - 1); }
    MatchMoved(s2, k2, s1, k1, -d, i);
  }

  /** What named the object still names it. */
  lemma {:induction false} NamesMoved(s1: string, k1: seq<Kind>, s2: string, k2: seq<Kind>, c: nat, open: nat, a: nat)
    requires |s1| == |k1| && |s2| == |k2| && Names(s1, k1, c, open) && open < a && k1[open] == Code
    requires Agree(s1, s2, 0, 0, a) && Agree(k1, k2, 0, 0, a)
    ensures Names(s2, k2, c, open)
  {
    hide MatchDefine, MatchExport;
    OneKind(s1, c);
    OneKind(s2, c);
    StopsAfter(s1, c);
    AgreeAt(s1, s2, 0, 0, a, open);
    AgreeAt(k1, k2, 0, 0, a, open);
    AgreeAt(k1, k2, 0, 0, a, c);
    if c > 0 { AgreeAt(s1, s2, 0, 0, a, c - 1); }
    if MatchDefine(s1, c).Some? {
      var e := MatchDefine(s1, c).value;
      AgreePart(s1, s2, 0, 0, a, c, e);
      DefineMoved(s1, s2, 0, c);
      AgreePart(s1, s2, 0, 0, a, e, open);
      AgreePart(k1, k2, 0, 0, a, e, open);
      TriviaKept(s1, k1, s2, k2, e, open);
      SkipTriviaStop(s2, k2, e, open, |s2|);
    } else {
      AgreePart(s1, s2, 0, 0, a, c, open + 1);
      ExportMoved(s1, s2, 0, c);
    }
  }

  lemma {:induction false} TriviaKept(s1: string, k1: seq<Kind>, s2: string, k2: seq<Kind>, lo: nat, hi: nat)
    requires AllTrivia(s1, k1, lo, hi) && Agree(s1, s2, 0, lo, hi) && Agree(k1, k2, 0, lo, hi)
    ensures AllTrivia(s2, k2, lo, hi)
  {
    forall k | lo <= k < hi ensures IsTrivia(s2, k2, k) {
      assert IsTrivia(s1, k1, k);
      assert s1[k] == s2[k] && k1[k] == k2[k];
    }
  }
}

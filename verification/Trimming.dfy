/** What `trim` takes away: exactly the blanks at both ends of a text. */
module Trimming {
  import opened Text

  ghost predicate Blanks(s: string) { forall k :: 0 <= k < |s| ==> IsSpace(s[k]) }

  lemma {:induction false} TrimStartIs(a: string, s: string)
    requires Blanks(a) && (s == "" || !IsSpace(s[0]))
    ensures TrimStart(a + s) == s
    decreases |a|
  {
    if a == "" {
      assert a + s == s;
    } else {
      assert (a + s)[1..] == a[1..] + s;
      TrimStartIs(a[1..], s);
    }
  }

  lemma {:induction false} TrimEndIs(s: string, z: string)
    requires Blanks(z) && (s == "" || !IsSpace(s[|s| - 1]))
    ensures TrimEnd(s + z) == s
    decreases |z|
  {
    if z == "" {
      assert s + z == s;
    } else {
      assert (s + z)[..|s + z| - 1] == s + z[..|z| - 1];
      TrimEndIs(s, z[..|z| - 1]);
    }
  }

  lemma {:induction false} TrimStartParts(s: string) returns (a: string)
    ensures Blanks(a) && s == a + TrimStart(s)
    decreases |s|
  {
    a := "";
    if s != "" && IsSpace(s[0]) {
      var more := TrimStartParts(s[1..]);
      a := [s[0]] + more;
      assert s == [s[0]] + s[1..];
      assert [s[0]] + (more + TrimStart(s[1..])) == a + TrimStart(s[1..]);
    }
  }

  lemma {:induction false} TrimEndParts(s: string) returns (z: string)
    ensures Blanks(z) && s == TrimEnd(s) + z
    decreases |s|
  {
    z := "";
    if s != "" && IsSpace(s[|s| - 1]) {
      var n := |s| - 1;
      var more := TrimEndParts(s[..n]);
      z := more + [s[n]];
      assert s == s[..n] + [s[n]];
      assert TrimEnd(s[..n]) + more + [s[n]] == TrimEnd(s[..n]) + z;
    }
  }
}

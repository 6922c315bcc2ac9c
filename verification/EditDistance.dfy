/** The suggestion of packages/cli/src/env_services.ts: the two-row edit distance, and the closest key. */
module EditDistance {
  import opened Wrappers

  function Min(a: nat, b: nat): nat { if a <= b then a else b }

  /** The recursive Levenshtein distance. */
  function Distance(a: string, b: string): nat
    decreases |a| + |b|
  {
    if a == "" then |b|
    else if b == "" then |a|
    else
      var m, n := |a| - 1, |b| - 1;
      Min(Min(Distance(a[..m], b) + 1, Distance(a, b[..n]) + 1),
          Distance(a[..m], b[..n]) + (if a[m] == b[n] then 0 else 1))
  }

  // ---------------------------------------------------------------------------
  // Edit scripts
  // ---------------------------------------------------------------------------

  datatype Edit = Keep | Insert(c: char) | Delete | Substitute(c: char)

  /** A script run over a text, the last edit at its end; none when it does not fit. */
  function Run(script: seq<Edit>, a: string): Option<string>
    decreases |script|
  {
    if script == [] then (if a == "" then Some("") else None)
    else
      var n := |script| - 1;
      var used := if script[n].Insert? then 0 else 1;
      if used > |a| then None
      else
        match Run(script[..n], a[..|a| - used])
        case None => None
        case Some(b) =>
          match script[n]
          case Keep => Some(b + [a[|a| - 1]])
          case Insert(c) => Some(b + [c])
          case Delete => Some(b)
          case Substitute(c) => Some(b + [c])
  }

  function Cost(script: seq<Edit>): nat {
    if script == [] then 0
    else Cost(script[..|script| - 1]) + (if script[|script| - 1] == Keep then 0 else 1)
  }

  /** How one more character on either side changes the distance. */
  lemma {:induction false} DistanceMore(a: string, b: string, x: char, c: char)
    ensures Distance(a, b + [c]) <= Distance(a, b) + 1 && Distance(a + [x], b) <= Distance(a, b) + 1
    ensures Distance(a + [x], b + [c]) <= Distance(a, b) + (if x == c then 0 else 1)
  {
    assert (a + [x])[..|a|] == a && (b + [c])[..|b|] == b;
  }

  /** No script that turns `a` into `b` is shorter than their distance. */
  lemma {:induction false} NoShorterScript(script: seq<Edit>, a: string, b: string)
    requires Run(script, a) == Some(b)
    ensures Cost(script) >= Distance(a, b)
    decreases |script|
  {
    hide Distance;
    if script == [] {
      assert Distance("", "") == 0 by { NothingToDo(); }
    } else {
      var n := |script| - 1;
      var used := if script[n].Insert? then 0 else 1;
      var before := a[..|a| - used];
      var so := Run(script[..n], before).value;
      NoShorterScript(script[..n], before, so);
      if used == 0 {
        assert before == a;
        DistanceMore(a, so, 'x', script[n].c);
      } else {
        var x := a[|a| - 1];
        assert before + [x] == a;
        DistanceMore(before, so, x, if script[n].Substitute? then script[n].c else x);
      }
    }
  }

  lemma {:induction false} NothingToDo()
    ensures Distance("", "") == 0
  {
  }

  /** What the last edit leaves of the last character, or adds. */
  function Left(last: Edit, a: string): string
    requires last == Keep ==> a != ""
  {
    match last
    case Keep => [a[|a| - 1]]
    case Insert(c) => [c]
    case Delete => []
    case Substitute(c) => [c]
  }

  /** What a script does with one more edit. */
  lemma {:induction false} RunLast(before: seq<Edit>, last: Edit, a: string)
    requires last.Insert? || a != ""
    ensures var script, rest := before + [last], if last.Insert? then a else a[..|a| - 1];
            && Cost(script) == Cost(before) + (if last == Keep then 0 else 1)
            && (Run(before, rest).Some? ==> Run(script, a) == Some(Run(before, rest).value + Left(last, a)))
  {
    var script := before + [last];
    assert script[..|script| - 1] == before && script[|script| - 1] == last;
    assert a[..|a|] == a;
    if last.Delete? && Run(before, a[..|a| - 1]).Some? { assert Run(before, a[..|a| - 1]).value + [] == Run(before, a[..|a| - 1]).value; }
  }

  /** The distance comes from one of the three shorter pairs. */
  lemma {:induction false} Choices(a: string, b: string)
    requires a != "" || b != ""
    ensures var m, n := |a| - 1, |b| - 1;
            || (b != "" && Distance(a, b) == Distance(a, b[..n]) + 1)
            || (a != "" && Distance(a, b) == Distance(a[..m], b) + 1)
            || (a != "" && b != "" && Distance(a, b) == Distance(a[..m], b[..n]) + (if a[m] == b[n] then 0 else 1))
  {
  }

  /** A script for the texts without their last characters, and the edit for those. */
  lemma {:induction false} OneMore(before: seq<Edit>, last: Edit, a: string, rest: string, shorter: string, b: string)
    returns (script: seq<Edit>)
    requires Run(before, rest) == Some(shorter) && (last.Insert? || a != "") && rest == if last.Insert? then a else a[..|a| - 1]
    requires if last.Delete? then shorter == b else b != "" && shorter == b[..|b| - 1] && Left(last, a) == [b[|b| - 1]]
    ensures Run(script, a) == Some(b) && Cost(script) == Cost(before) + (if last == Keep then 0 else 1)
  {
    hide Run, Cost;
    script := before + [last];
    RunLast(before, last, a);
    assert b + [] == b && (b != "" ==> b[..|b| - 1] + [b[|b| - 1]] == b);
  }

  /** Some script of that length does it. */
  lemma {:induction false} ShortestScript(a: string, b: string) returns (script: seq<Edit>)
    ensures Run(script, a) == Some(b) && Cost(script) == Distance(a, b)
    decreases |a| + |b|
  {
    if a == "" && b == "" {
      script := [];
    } else {
      hide Run, Cost, Distance;
      Choices(a, b);
      var m, n := |a| - 1, |b| - 1;
      if b != "" && Distance(a, b) == Distance(a, b[..n]) + 1 {
        var before := ShortestScript(a, b[..n]);
        script := OneMore(before, Insert(b[n]), a, a, b[..n], b);
      } else if a != "" && Distance(a, b) == Distance(a[..m], b) + 1 {
        var before := ShortestScript(a[..m], b);
        script := OneMore(before, Delete, a, a[..m], b, b);
      } else {
        var before := ShortestScript(a[..m], b[..n]);
        script := OneMore(before, if a[m] == b[n] then Keep else Substitute(b[n]), a, a[..m], b[..n], b);
      }
    }
  }

  // ---------------------------------------------------------------------------
  // Two rows
  // ---------------------------------------------------------------------------

  /** `row` holds the distances of `a` to the first characters of `b`. */
  ghost predicate IsRow(row: seq<nat>, a: string, b: string, n: nat) {
    n <= |row| && n <= |b| + 1 && forall j :: 0 <= j < n ==> row[j] == Distance(a, b[..j])
  }

  /** `editDistance`: only the previous row of the table is kept. */
  method TwoRowDistance(left: string, right: string) returns (d: nat)
    ensures d == Distance(left, right)
  {
    var previous := new nat[|right| + 1](j => j);
    assert left[..0] == "";
    assert forall j :: 0 <= j <= |right| ==> |right[..j]| == j;
    for i := 1 to |left| + 1
      invariant previous.Length == |right| + 1 && IsRow(previous[..], left[..i - 1], right, |right| + 1)
    {
      previous := NextRow(left, right, i, previous);
    }
    assert left[..|left|] == left && right[..|right|] == right;
    d := previous[|right|];
  }

  /** An inner cell of the table, from its three neighbours. */
  lemma {:induction false} CellIs(left: string, right: string, i: nat, j: nat)
    requires 0 < i <= |left| && 0 < j <= |right|
    ensures Distance(left[..i], right[..j])
         == Min(Min(Distance(left[..i - 1], right[..j]) + 1, Distance(left[..i], right[..j - 1]) + 1),
                Distance(left[..i - 1], right[..j - 1]) + (if left[i - 1] == right[j - 1] then 0 else 1))
  {
    assert left[..i][..i - 1] == left[..i - 1] && right[..j][..j - 1] == right[..j - 1];
  }

  lemma {:induction false} FirstCell(left: string, right: string, i: nat)
    requires i <= |left|
    ensures Distance(left[..i], right[..0]) == i
  {
    assert right[..0] == "";
  }

  method NextRow(left: string, right: string, i: nat, previous: array<nat>) returns (current: array<nat>)
    requires 0 < i <= |left| && previous.Length == |right| + 1 && IsRow(previous[..], left[..i - 1], right, |right| + 1)
    ensures fresh(current) && current.Length == |right| + 1 && IsRow(current[..], left[..i], right, |right| + 1)
  {
    hide Distance;
    current := new nat[|right| + 1](_ => 0);
    current[0] := i;
    FirstCell(left, right, i);
    for j := 1 to |right| + 1
      invariant forall k :: 0 <= k < j ==> current[k] == Distance(left[..i], right[..k])
    {
      CellIs(left, right, i, j);
      assert previous[..][j] == Distance(left[..i - 1], right[..j]) && previous[..][j - 1] == Distance(left[..i - 1], right[..j - 1]);
      current[j] := Min(Min(previous[j] + 1, current[j - 1] + 1),
                        previous[j - 1] + (if left[i - 1] == right[j - 1] then 0 else 1));
    }
  }

  // ---------------------------------------------------------------------------
  // The closest key
  // ---------------------------------------------------------------------------

  datatype Candidate = Candidate(key: string, distance: nat)

  function Candidates(value: string, keys: seq<string>): (r: seq<Candidate>)
    ensures |r| == |keys| && forall i :: 0 <= i < |r| ==> r[i] == Candidate(keys[i], Distance(value, keys[i]))
  {
    seq(|keys|, i requires 0 <= i < |keys| => Candidate(keys[i], Distance(value, keys[i])))
  }

  /** A stable insertion: behind everything that is no farther. */
  function Inserted(c: Candidate, sorted: seq<Candidate>): seq<Candidate> {
    if sorted == [] || c.distance < sorted[0].distance then [c] + sorted else [sorted[0]] + Inserted(c, sorted[1..])
  }

  /** The stable sort by distance. */
  function Sorted(candidates: seq<Candidate>): seq<Candidate> {
    if candidates == [] then [] else Inserted(candidates[|candidates| - 1], Sorted(candidates[..|candidates| - 1]))
  }

  function HasEquals(value: string): bool { '=' in value }

  /** `suggestEnvPullKey`. */
  function Suggest(value: string, keys: seq<string>): Option<string> {
    var sorted := Sorted(Candidates(value, keys));
    if HasEquals(value) || sorted == [] || sorted[0].distance > 2 then None else Some(sorted[0].key)
  }

  /** The first of a stable sort is the first candidate at the least distance. */
  lemma {:induction false} InsertedHead(c: Candidate, sorted: seq<Candidate>)
    ensures Inserted(c, sorted) != []
    ensures Inserted(c, sorted)[0] == if sorted == [] || c.distance < sorted[0].distance then c else sorted[0]
  {
  }

  lemma {:induction false} SortedFirst(candidates: seq<Candidate>) returns (i: nat)
    requires candidates != []
    ensures i < |candidates| && Sorted(candidates) != [] && Sorted(candidates)[0] == candidates[i]
    ensures forall j :: 0 <= j < |candidates| ==> candidates[j].distance >= candidates[i].distance
    ensures forall j :: 0 <= j < i ==> candidates[j].distance > candidates[i].distance
    decreases |candidates|
  {
    hide Inserted;
    var n := |candidates| - 1;
    if n == 0 {
      i := 0;
      InsertedHead(candidates[0], Sorted(candidates[..0]));
      assert Sorted(candidates[..0]) == [];
    } else {
      i := SortedFirst(candidates[..n]);
      InsertedHead(candidates[n], Sorted(candidates[..n]));
      if candidates[n].distance < candidates[i].distance { i := n; }
    }
  }

  /** The first key at the least distance, which is at most 2. */
  ghost predicate IsClosest(value: string, keys: seq<string>, i: nat)
    requires i < |keys|
  {
    && Distance(value, keys[i]) <= 2
    && (forall j :: 0 <= j < |keys| ==> Distance(value, keys[j]) >= Distance(value, keys[i]))
    && (forall j :: 0 <= j < i ==> Distance(value, keys[j]) > Distance(value, keys[i]))
  }

  /** The first key in canonical order at the least distance, exactly when that is at most 2. */
  lemma {:induction false} SuggestsClosest(value: string, keys: seq<string>, key: string)
    ensures Suggest(value, keys) == Some(key) <==>
              '=' !in value && exists i :: 0 <= i < |keys| && keys[i] == key && IsClosest(value, keys, i)
  {
    hide Distance, Sorted;
    var candidates := Candidates(value, keys);
    if keys == [] {
      assert Sorted(candidates) == [] by { NothingSorted(); }
    } else {
      var i := SortedFirst(candidates);
      assert forall j :: 0 <= j < |keys| ==> candidates[j].distance == Distance(value, keys[j]);
      assert keys[i] == Sorted(candidates)[0].key;
    }
  }

  lemma {:induction false} NothingSorted()
    ensures Sorted([]) == []
  {
  }
}

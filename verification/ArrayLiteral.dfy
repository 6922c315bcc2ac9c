/**
 * packages/realtime-kysely/src/parameter.ts: nested arrays on a heap printed as PostgreSQL array
 * literals, and read back as section 8.15.6 of the PostgreSQL documentation says.
 */
module ArrayLiteral {
  import opened Wrappers
  import opened EnvFile

  type Ref = nat

  /** An element: nothing, a leaf already printed as text, the hex of bytes, or an array object. */
  datatype Value = Absent | Leaf(text: string) | Bytes(hex: string) | Array(ref: Ref)

  /** The array objects there are; every array an element refers to is one of them. */
  type Heap = map<Ref, seq<Value>>

  ghost predicate Closed(h: Heap) {
    forall r :: r in h ==> forall i :: 0 <= i < |h[r]| && h[r][i].Array? ==> h[r][i].ref in h
  }

  datatype Failure = Circular

  // ---------------------------------------------------------------------------
  // Printing
  // ---------------------------------------------------------------------------

  function Elements(items: seq<string>): string {
    if items == [] then "" else if |items| == 1 then items[0] else items[0] + "," + Elements(items[1..])
  }

  function Quoted(text: string): string { "\"" + EscapeQuotes(DoubleBackslashes(text)) + "\"" }

  /** How many array objects are not on the path: what each nesting uses up. */
  ghost function Left(h: Heap, seen: seq<Ref>): nat { |h.Keys - (set r | r in seen)| }

  lemma {:induction false} LeftShrinks(h: Heap, seen: seq<Ref>, r: Ref)
    requires r in h && r !in seen
    ensures Left(h, seen + [r]) < Left(h, seen)
  {
    var a, b := h.Keys - (set x | x in seen), h.Keys - (set x | x in seen + [r]);
    assert b == a - {r};
    assert r in a;
  }

  /** `encodeArrayElement`. */
  function EncodeElement(h: Heap, value: Value, seen: seq<Ref>): Result<string, Failure>
    requires Closed(h) && (value.Array? ==> value.ref in h)
    decreases Left(h, seen), 2, 0
  {
    match value
    case Absent => Success("NULL")
    case Array(ref) => EncodeArray(h, ref, seen)
    case Bytes(hex) => Success("\\\\x" + hex)
    case Leaf(text) => Success(Quoted(text))
  }

  /** `encodeArray`: `seen` is the path of arrays being printed. */
  function EncodeArray(h: Heap, ref: Ref, seen: seq<Ref>): Result<string, Failure>
    requires Closed(h) && ref in h
    decreases Left(h, seen), 1, 0
  {
    if ref in seen then Failure(Circular)
    else
      LeftShrinks(h, seen, ref);
      match EncodeItems(h, h[ref], seen + [ref], |h[ref]|)
      case Failure(error) => Failure(error)
      case Success(items) => Success("{" + Elements(items) + "}")
  }

  /** The first `n` elements, printed one after another. */
  function EncodeItems(h: Heap, values: seq<Value>, seen: seq<Ref>, n: nat): (r: Result<seq<string>, Failure>)
    requires Closed(h) && n <= |values| && forall i :: 0 <= i < |values| && values[i].Array? ==> values[i].ref in h
    ensures r.Success? ==> |r.value| == n
    decreases Left(h, seen), 3, n
  {
    if n == 0 then Success([])
    else
      var before :- EncodeItems(h, values, seen, n - 1);
      var last :- EncodeElement(h, values[n - 1], seen);
      Success(before + [last])
  }

  /** The loop that pushes the printed elements. */
  method EncodeValues(h: Heap, ref: Ref, seen: seq<Ref>) returns (r: Result<string, Failure>)
    requires Closed(h) && ref in h
    ensures r == EncodeArray(h, ref, seen)
  {
    hide Elements;
    if ref in seen { return Failure(Circular); }
    var values, elements := h[ref], [];
    for i := 0 to |values|
      invariant EncodeItems(h, values, seen + [ref], i) == Success(elements)
    {
      var element := EncodeElement(h, values[i], seen + [ref]);
      if element.Failure? {
        LaterFails(h, values, seen + [ref], i + 1);
        return Failure(element.error);
      }
      elements := elements + [element.value];
    }
    return Success("{" + Elements(elements) + "}");
  }

  lemma {:induction false} LaterFails(h: Heap, values: seq<Value>, seen: seq<Ref>, n: nat)
    requires Closed(h) && n <= |values| && forall i :: 0 <= i < |values| && values[i].Array? ==> values[i].ref in h
    requires EncodeItems(h, values, seen, n).Failure?
    ensures EncodeItems(h, values, seen, |values|) == EncodeItems(h, values, seen, n)
    decreases |values| - n
  {
    hide EncodeElement;
    if n < |values| { LaterFails(h, values, seen, n + 1); }
  }

  // ---------------------------------------------------------------------------
  // Circular references
  // ---------------------------------------------------------------------------

  predicate Links(h: Heap, r: Ref, target: Ref) { r in h && Array(target) in h[r] }

  /** A way down from `path[0]`, each array an element of the one before. */
  ghost predicate IsPath(h: Heap, path: seq<Ref>)
    decreases |path|
  {
    path != [] && path[0] in h && (|path| == 1 || (Links(h, path[0], path[1]) && IsPath(h, path[1..])))
  }

  /** The path from `ref` ends in an array that is already on it, or among those `seen` above it. */
  ghost predicate Returns(h: Heap, ref: Ref, seen: seq<Ref>, path: seq<Ref>) {
    IsPath(h, path) && path[0] == ref && (path[|path| - 1] in seen || path[|path| - 1] in path[..|path| - 1])
  }

  lemma {:induction false} ItemsFail(h: Heap, values: seq<Value>, seen: seq<Ref>, n: nat, i: nat)
    requires Closed(h) && i < n <= |values| && forall k :: 0 <= k < |values| && values[k].Array? ==> values[k].ref in h
    requires EncodeElement(h, values[i], seen).Failure?
    ensures EncodeItems(h, values, seen, n).Failure?
    decreases n
  {
    hide EncodeElement;
    if i < n - 1 { ItemsFail(h, values, seen, n - 1, i); }
  }

  lemma {:induction false} PathTail(h: Heap, ref: Ref, seen: seq<Ref>, path: seq<Ref>)
    requires Returns(h, ref, seen, path) && ref !in seen
    ensures |path| > 1 && ref in h && Links(h, ref, path[1]) && Returns(h, path[1], seen + [ref], path[1..])
  {
    hide Links;
    var n := |path| - 1;
    assert n > 0;
    if path[n] in path[..n] {
      var k :| 0 <= k < n && path[..n][k] == path[n];
      if k > 0 { assert path[1..][..n - 1][k - 1] == path[n]; }
    }
  }

  /** Going back to an array on the way there makes the printing fail. */
  lemma {:induction false} ReturningFails(h: Heap, ref: Ref, seen: seq<Ref>, path: seq<Ref>)
    requires Closed(h) && ref in h && Returns(h, ref, seen, path)
    ensures EncodeArray(h, ref, seen).Failure?
    decreases |path|
  {
    hide Returns, Elements, EncodeItems;
    if ref !in seen {
      PathTail(h, ref, seen, path);
      var i :| 0 <= i < |h[ref]| && h[ref][i] == Array(path[1]);
      ReturningFails(h, path[1], seen + [ref], path[1..]);
      ItemsFail(h, h[ref], seen + [ref], |h[ref]|, i);
    }
  }

  lemma {:induction false} PathCons(h: Heap, r: Ref, seen: seq<Ref>, next: Ref, path: seq<Ref>)
    requires r in h && Links(h, r, next) && Returns(h, next, seen + [r], path)
    ensures Returns(h, r, seen, [r] + path)
  {
    hide Links;
    var all := [r] + path;
    assert all[1..] == path;
    var last := path[|path| - 1];
    assert all[..|all| - 1] == [r] + path[..|path| - 1];
    if last in path[..|path| - 1] {
      var k :| 0 <= k < |path| - 1 && path[..|path| - 1][k] == last;
      assert all[..|all| - 1][k + 1] == last;
    } else if last == r {
      assert all[..|all| - 1][0] == r;
    }
  }

  /** When the printing fails, some way down comes back to an array on the way there. */
  lemma {:induction false} FailureReturns(h: Heap, ref: Ref, seen: seq<Ref>) returns (path: seq<Ref>)
    requires Closed(h) && ref in h && EncodeArray(h, ref, seen).Failure?
    ensures Returns(h, ref, seen, path)
    decreases Left(h, seen), 1, 0
  {
    hide Elements, Links;
    if ref in seen {
      path := [ref];
    } else {
      LeftShrinks(h, seen, ref);
      var i := FailingItem(h, h[ref], seen + [ref], |h[ref]|);
      var inner := FailureReturns(h, h[ref][i].ref, seen + [ref]);
      LinksItem(h, ref, i);
      PathCons(h, ref, seen, h[ref][i].ref, inner);
      path := [ref] + inner;
    }
  }

  lemma {:induction false} LinksItem(h: Heap, r: Ref, i: nat)
    requires r in h && i < |h[r]| && h[r][i].Array?
    ensures Links(h, r, h[r][i].ref)
  {
    assert h[r][i] == Array(h[r][i].ref);
  }

  lemma {:induction false} FailingItem(h: Heap, values: seq<Value>, seen: seq<Ref>, n: nat) returns (i: nat)
    requires Closed(h) && n <= |values| && forall k :: 0 <= k < |values| && values[k].Array? ==> values[k].ref in h
    requires EncodeItems(h, values, seen, n).Failure?
    ensures i < n && values[i].Array? && EncodeArray(h, values[i].ref, seen).Failure?
    decreases n
  {
    hide EncodeArray;
    if EncodeItems(h, values, seen, n - 1).Failure? {
      i := FailingItem(h, values, seen, n - 1);
    } else {
      i := n - 1;
    }
  }

  /** Printing fails exactly when nesting reaches an array already on its own path. */
  lemma {:induction false} CircularIff(h: Heap, ref: Ref)
    requires Closed(h) && ref in h
    ensures EncodeArray(h, ref, []).Failure? <==> exists path :: Returns(h, ref, [], path)
  {
    hide EncodeArray, Returns;
    if EncodeArray(h, ref, []).Failure? {
      var path := FailureReturns(h, ref, []);
    }
    forall path | Returns(h, ref, [], path) ensures EncodeArray(h, ref, []).Failure? {
      ReturningFails(h, ref, [], path);
    }
  }
}

/**
 * packages/realtime-kysely/src/parameter.ts, `encodeArray`, by the text it prints: braces around
 * the elements, commas between them, and each element quoted, escaped, nested or NULL.
 */
module ArrayText {
  import opened Wrappers
  import opened EnvFile
  import opened EnvFileLines
  import opened ArrayLiteral

  /** `text` is the items with a comma before each one but the first. */
  ghost predicate Listing(text: string, items: seq<string>)
    decreases |items|
  {
    if items == [] then text == ""
    else
      var n := |items| - 1;
      if n == 0 then text == items[0]
      else exists before :: Listing(before, items[..n]) && text == before + "," + items[n]
  }

  lemma {:induction false} ElementsMore(items: seq<string>, last: string)
    requires items != []
    ensures Elements(items + [last]) == Elements(items) + "," + last
    decreases |items|
  {
    var more := items + [last];
    assert more[1..] == items[1..] + [last];
    if |items| > 1 {
      ElementsMore(items[1..], last);
      Regrouped(items[0] + ",", Elements(items[1..]), "," + last);
    }
  }

  lemma {:induction false} Regrouped(a: string, b: string, c: string)
    ensures a + (b + c) == a + b + c
  {
  }

  lemma {:induction false} ElementsAre(text: string, items: seq<string>)
    ensures Listing(text, items) <==> text == Elements(items)
    decreases |items|
  {
    if |items| > 1 {
      hide Elements;
      var n := |items| - 1;
      ElementsMore(items[..n], items[n]);
      assert items[..n] + [items[n]] == items;
      forall before ensures Listing(before, items[..n]) <==> before == Elements(items[..n]) { ElementsAre(before, items[..n]); }
    }
  }

  /** The text of one element: no value, a leaf with its backslashes and quotes escaped, bytes in hex, or a list. */
  ghost predicate Prints(h: Heap, value: Value, seen: seq<Ref>, text: string)
    requires Closed(h) && (value.Array? ==> value.ref in h)
  {
    match value
    case Absent => text == "NULL"
    case Leaf(leaf) => text == "\"" + ReplaceAll(ReplaceAll(leaf, "\\", "\\\\"), "\"", "\\\"") + "\""
    case Bytes(hex) => text == ['\\', '\\', 'x'] + hex
    case Array(ref) => EncodeArray(h, ref, seen) == Success(text)
  }

  lemma {:induction false} ElementIs(h: Heap, value: Value, seen: seq<Ref>, text: string)
    requires Closed(h) && (value.Array? ==> value.ref in h)
    ensures EncodeElement(h, value, seen) == Success(text) <==> Prints(h, value, seen, text)
  {
    hide EncodeArray, EscapeQuotes, DoubleBackslashes, ReplaceAll;
    if value.Leaf? {
      EscapeIs(value.text);
      EscapeIs(DoubleBackslashes(value.text));
    }
    assert "\\\\x" == ['\\', '\\', 'x'];
  }

  /** Printed elements, each in its place. */
  ghost predicate AllPrint(h: Heap, values: seq<Value>, seen: seq<Ref>, items: seq<string>)
    requires Closed(h) && forall i :: 0 <= i < |values| && values[i].Array? ==> values[i].ref in h
  {
    |items| == |values| && forall i :: 0 <= i < |items| ==> Prints(h, values[i], seen, items[i])
  }

  lemma {:induction false} ItemsAre(h: Heap, values: seq<Value>, seen: seq<Ref>, n: nat, items: seq<string>)
    requires Closed(h) && n <= |values| && forall i :: 0 <= i < |values| && values[i].Array? ==> values[i].ref in h
    ensures EncodeItems(h, values, seen, n) == Success(items) <==> AllPrint(h, values[..n], seen, items)
    decreases n
  {
    hide EncodeElement, Prints;
    if n > 0 && items != [] {
      var m := |items| - 1;
      ItemsAre(h, values, seen, n - 1, items[..m]);
      ElementIs(h, values[n - 1], seen, items[m]);
      assert items[..m] + [items[m]] == items && values[..n][..n - 1] == values[..n - 1];
      LastPrints(h, values[..n], seen, items);
    }
  }

  lemma {:induction false} LastPrints(h: Heap, values: seq<Value>, seen: seq<Ref>, items: seq<string>)
    requires Closed(h) && values != [] && items != [] && forall i :: 0 <= i < |values| && values[i].Array? ==> values[i].ref in h
    ensures AllPrint(h, values, seen, items) <==>
              && AllPrint(h, values[..|values| - 1], seen, items[..|items| - 1])
              && Prints(h, values[|values| - 1], seen, items[|items| - 1])
  {
    hide Prints;
    if AllPrint(h, values[..|values| - 1], seen, items[..|items| - 1]) && Prints(h, values[|values| - 1], seen, items[|items| - 1]) {
      forall i | 0 <= i < |items| ensures Prints(h, values[i], seen, items[i]) {
        if i < |items| - 1 { assert Prints(h, values[..|values| - 1][i], seen, items[..|items| - 1][i]); }
      }
    }
  }

  /**
   * An array prints as a text exactly when it is not on its own path and the text is, in braces,
   * the texts of its elements in order, separated by commas.
   */
  lemma {:induction false} ArrayIs(h: Heap, ref: Ref, seen: seq<Ref>, text: string)
    requires Closed(h) && ref in h
    ensures EncodeArray(h, ref, seen) == Success(text) <==>
              && ref !in seen
              && exists items, inside :: AllPrint(h, h[ref], seen + [ref], items) && Listing(inside, items) && text == "{" + inside + "}"
  {
    hide Elements, AllPrint, EncodeItems, Listing;
    assert h[ref][..|h[ref]|] == h[ref];
    forall items ensures EncodeItems(h, h[ref], seen + [ref], |h[ref]|) == Success(items) <==> AllPrint(h, h[ref], seen + [ref], items) {
      ItemsAre(h, h[ref], seen + [ref], |h[ref]|, items);
    }
    forall items, inside ensures Listing(inside, items) <==> inside == Elements(items) { ElementsAre(inside, items); }
  }
}

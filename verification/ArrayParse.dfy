/**
 * A reader for array literals, after section 8.15.6 of the PostgreSQL documentation, and the
 * round trip through the printer.
 */
module ArrayParse {
  import opened Wrappers
  import opened Text
  import opened EnvFile
  import opened ArrayLiteral

  /** A nested list of optional texts. */
  datatype Tree = NullItem | Item(text: string) | List(items: seq<Tree>)

  function SkipSpace(s: string): (r: string)
    ensures |r| <= |s| && (r != "" ==> !IsSpace(r[0]))
  {
    if s != "" && IsSpace(s[0]) then SkipSpace(s[1..]) else s
  }

  /** A quoted element after its opening quote: a backslash takes the next character as it is. */
  function ParseQuoted(s: string): (r: Option<(string, string)>)
    ensures r.Some? ==> |r.value.1| < |s|
  {
    if s == "" then None
    else if s[0] == '"' then Some(("", s[1..]))
    else if s[0] == '\\' then
      if |s| < 2 then None
      else match ParseQuoted(s[2..]) case None => None case Some((text, rest)) => Some(([s[1]] + text, rest))
    else match ParseQuoted(s[1..]) case None => None case Some((text, rest)) => Some(([s[0]] + text, rest))
  }

  /** An unquoted element up to a comma or brace: its characters, and which were escaped. */
  function ParseBare(s: string): (r: Option<(string, seq<bool>, string)>)
    ensures r.Some? ==> |r.value.0| == |r.value.1| && |r.value.2| <= |s| && (r.value.0 != "" ==> |r.value.2| < |s|)
  {
    if s == "" then None
    else if s[0] == ',' || s[0] == '}' then Some(("", [], s))
    else if s[0] == '{' || s[0] == '"' then None
    else if s[0] == '\\' then
      if |s| < 2 then None
      else
        match ParseBare(s[2..])
        case None => None
        case Some((text, escaped, rest)) => Some(([s[1]] + text, [true] + escaped, rest))
    else
      match ParseBare(s[1..])
      case None => None
      case Some((text, escaped, rest)) => Some(([s[0]] + text, [false] + escaped, rest))
  }

  /** How much of an unquoted element is left without its unescaped trailing spaces. */
  function BareEnd(text: string, escaped: seq<bool>): (n: nat)
    requires |text| == |escaped|
    ensures n <= |text|
  {
    if text != "" && IsSpace(text[|text| - 1]) && !escaped[|text| - 1] then BareEnd(text[..|text| - 1], escaped[..|text| - 1])
    else |text|
  }

  function Upper(c: char): char { if 'a' <= c <= 'z' then c - 'a' + 'A' else c }

  predicate IsNull(text: string, escaped: seq<bool>)
    requires |text| == |escaped|
  {
    && |text| == 4 && (forall k :: 0 <= k < 4 ==> !escaped[k])
    && Upper(text[0]) == 'N' && Upper(text[1]) == 'U' && Upper(text[2]) == 'L' && Upper(text[3]) == 'L'
  }

  function BareItem(text: string, escaped: seq<bool>): Option<Tree>
    requires |text| == |escaped|
  {
    var n := BareEnd(text, escaped);
    if n == 0 then None
    else if IsNull(text[..n], escaped[..n]) then Some(NullItem)
    else Some(Item(text[..n]))
  }

  /** One element: an array, a quoted text, or a bare one, where NULL stands for no value. */
  function ParseElement(s: string): (r: Option<(Tree, string)>)
    ensures r.Some? ==> |r.value.1| < |s|
    decreases |s|, 1
  {
    if s == "" then None
    else if s[0] == '{' then ParseList(s)
    else if s[0] == '"' then
      match ParseQuoted(s[1..]) case None => None case Some((text, rest)) => Some((Item(text), rest))
    else
      match ParseBare(s)
      case None => None
      case Some((text, escaped, rest)) =>
        match BareItem(text, escaped) case None => None case Some(item) => Some((item, rest))
  }

  function ParseList(s: string): (r: Option<(Tree, string)>)
    requires s != "" && s[0] == '{'
    ensures r.Some? ==> |r.value.1| < |s|
    decreases |s|, 0
  {
    var inside := SkipSpace(s[1..]);
    if inside != "" && inside[0] == '}' then Some((List([]), inside[1..]))
    else match ParseItems(inside) case None => None case Some((items, rest)) => Some((List(items), rest))
  }

  function ParseItems(s: string): (r: Option<(seq<Tree>, string)>)
    ensures r.Some? ==> |r.value.1| < |s|
    decreases |s|, 2
  {
    match ParseElement(SkipSpace(s))
    case None => None
    case Some((first, rest)) =>
      var next := SkipSpace(rest);
      if next == "" then None
      else if next[0] == '}' then Some(([first], next[1..]))
      else if next[0] != ',' then None
      else match ParseItems(next[1..]) case None => None case Some((items, last)) => Some(([first] + items, last))
  }

  /** A whole literal. */
  function Parse(s: string): Option<Tree> {
    match (if s != "" && s[0] == '{' then ParseList(s) else None)
    case None => None
    case Some((tree, rest)) => if rest == "" then Some(tree) else None
  }

  // ---------------------------------------------------------------------------
  // What an array on the heap stands for
  // ---------------------------------------------------------------------------

  function TreeOf(h: Heap, value: Value, seen: seq<Ref>): Option<Tree>
    requires Closed(h) && (value.Array? ==> value.ref in h)
    decreases Left(h, seen), 2, 0
  {
    match value
    case Absent => Some(NullItem)
    case Array(ref) => ListOf(h, ref, seen)
    case Bytes(hex) => Some(Item("\\x" + hex))
    case Leaf(text) => Some(Item(text))
  }

  /** The nested list an array holds; none when it holds itself. */
  function ListOf(h: Heap, ref: Ref, seen: seq<Ref>): Option<Tree>
    requires Closed(h) && ref in h
    decreases Left(h, seen), 1, 0
  {
    if ref in seen then None
    else
      LeftShrinks(h, seen, ref);
      match ItemsOf(h, h[ref], seen + [ref], |h[ref]|)
      case None => None
      case Some(items) => Some(List(items))
  }

  function ItemsOf(h: Heap, values: seq<Value>, seen: seq<Ref>, n: nat): (r: Option<seq<Tree>>)
    requires Closed(h) && n <= |values| && forall i :: 0 <= i < |values| && values[i].Array? ==> values[i].ref in h
    ensures r.Some? ==> |r.value| == n
    decreases Left(h, seen), 3, n
  {
    if n == 0 then Some([])
    else
      match (ItemsOf(h, values, seen, n - 1), TreeOf(h, values[n - 1], seen))
      case (Some(before), Some(last)) => Some(before + [last])
      case _ => None
  }

  // ---------------------------------------------------------------------------
  // The round trip
  // ---------------------------------------------------------------------------

  predicate Ends(tail: string) { tail != "" && (tail[0] == ',' || tail[0] == '}') }

  /** `item` is read as `tree` wherever an element may end. */
  ghost predicate Reads(item: string, tree: Tree) {
    && item != "" && !IsSpace(item[0]) && item[0] != '}'
    && forall tail {:trigger item + tail} :: Ends(tail) ==> ParseElement(item + tail) == Some((tree, tail))
  }

  lemma {:induction false} QuotedBody(text: string, rest: string)
    ensures ParseQuoted(EscapeQuotes(DoubleBackslashes(text)) + "\"" + rest) == Some((text, rest))
  {
    if text == "" {
      assert EscapeQuotes(DoubleBackslashes(text)) + "\"" + rest == "\"" + rest;
    } else {
      QuotedBody(text[1..], rest);
      EscapedHead(text);
      HeadParsed(text[0], EscapeQuotes(DoubleBackslashes(text[1..])), text[1..], rest);
      assert [text[0]] + text[1..] == text;
    }
  }

  /** A character in front of a quoted body, escaped where it has to be. */
  lemma {:induction false} HeadParsed(c: char, body: string, text: string, rest: string)
    requires ParseQuoted(body + "\"" + rest) == Some((text, rest))
    ensures ParseQuoted((if c == '\\' || c == '"' then ['\\', c] else [c]) + body + "\"" + rest) == Some(([c] + text, rest))
  {
    var head := if c == '\\' || c == '"' then ['\\', c] else [c];
    var s := head + body + "\"" + rest;
    assert s == head + (body + "\"" + rest);
    assert s[|head|..] == body + "\"" + rest;
  }

  lemma {:induction false} EscapeCons(c: char, s: string)
    ensures EscapeQuotes([c] + s) == (if c == '"' then "\\\"" else [c]) + EscapeQuotes(s)
    ensures DoubleBackslashes([c] + s) == (if c == '\\' then "\\\\" else [c]) + DoubleBackslashes(s)
  {
    assert ([c] + s)[1..] == s;
  }

  lemma {:induction false} EscapedHead(text: string)
    requires text != ""
    ensures EscapeQuotes(DoubleBackslashes(text))
            == (if text[0] == '\\' || text[0] == '"' then ['\\', text[0]] else [text[0]]) + EscapeQuotes(DoubleBackslashes(text[1..]))
  {
    hide EscapeQuotes, DoubleBackslashes;
    var c, rest := text[0], DoubleBackslashes(text[1..]);
    assert [c] + text[1..] == text;
    EscapeCons(c, text[1..]);
    EscapeCons(c, rest);
    if c == '\\' {
      EscapeCons(c, [c] + rest);
      assert "\\\\" + rest == [c] + ([c] + rest);
      assert [c] + ([c] + EscapeQuotes(rest)) == ['\\', c] + EscapeQuotes(rest);
    }
  }

  lemma {:induction false} LeafReads(text: string)
    ensures Reads(Quoted(text), Item(text))
  {
    hide DoubleBackslashes, EscapeQuotes, ParseQuoted;
    var item := Quoted(text);
    forall tail {:trigger item + tail} | Ends(tail) ensures ParseElement(item + tail) == Some((Item(text), tail)) {
      QuotedBody(text, tail);
      assert (item + tail)[1..] == EscapeQuotes(DoubleBackslashes(text)) + "\"" + tail;
    }
  }

  predicate IsLowerHex(hex: string) { forall k :: 0 <= k < |hex| ==> IsDigit(hex[k]) || 'a' <= hex[k] <= 'f' }

  /** Every byte string on the heap is printed in hex digits. */
  ghost predicate HexHeap(h: Heap) {
    forall r :: r in h ==> forall i :: 0 <= i < |h[r]| && h[r][i].Bytes? ==> IsLowerHex(h[r][i].hex)
  }

  lemma {:induction false} BareHex(hex: string, tail: string) returns (escaped: seq<bool>)
    requires IsLowerHex(hex) && Ends(tail)
    ensures ParseBare(hex + tail) == Some((hex, escaped, tail))
  {
    if hex == "" {
      assert hex + tail == tail;
      escaped := [];
    } else {
      var rest := BareHex(hex[1..], tail);
      assert (hex + tail)[1..] == hex[1..] + tail;
      assert [hex[0]] + hex[1..] == hex;
      escaped := [false] + rest;
    }
  }

  lemma {:induction false} BareChar(c: char, s: string)
    requires c !in {',', '}', '{', '"', '\\'}
    ensures ParseBare([c] + s) == match ParseBare(s)
                                  case None => None
                                  case Some((text, escaped, rest)) => Some(([c] + text, [false] + escaped, rest))
  {
    assert ([c] + s)[1..] == s;
  }

  lemma {:induction false} BareEscape(c: char, s: string)
    ensures ParseBare(['\\', c] + s) == match ParseBare(s)
                                        case None => None
                                        case Some((text, escaped, rest)) => Some(([c] + text, [true] + escaped, rest))
  {
    assert (['\\', c] + s)[2..] == s;
  }

  lemma {:induction false} BytesRead(hex: string)
    requires IsLowerHex(hex)
    ensures Reads("\\\\x" + hex, Item("\\x" + hex))
  {
    hide ParseBare, BareItem;
    var item := "\\\\x" + hex;
    forall tail {:trigger item + tail} | Ends(tail) ensures ParseElement(item + tail) == Some((Item("\\x" + hex), tail)) {
      var escaped := BareHex(hex, tail);
      BareChar('x', hex + tail);
      BareEscape('\\', ['x'] + (hex + tail));
      assert item + tail == ['\\', '\\'] + (['x'] + (hex + tail));
      BareKept(['\\'] + (['x'] + hex), [true] + ([false] + escaped));
      assert ['\\'] + (['x'] + hex) == "\\x" + hex;
    }
  }

  lemma {:induction false} BareKept(text: string, escaped: seq<bool>)
    requires |text| == |escaped| > 0 && escaped[0] && !IsSpace(text[|text| - 1])
    ensures BareItem(text, escaped) == Some(Item(text))
  {
    assert text[..|text|] == text && escaped[..|text|] == escaped;
  }

  lemma {:induction false} NullReads()
    ensures Reads("NULL", NullItem)
  {
    forall tail {:trigger "NULL" + tail} | Ends(tail) ensures ParseElement("NULL" + tail) == Some((NullItem, tail)) {
      NullBare(tail);
      assert "NULL"[..4] == "NULL";
    }
  }

  lemma {:induction false} NullBare(tail: string)
    requires Ends(tail)
    ensures ParseBare("NULL" + tail) == Some(("NULL", [false, false, false, false], tail))
  {
    assert ParseBare(tail) == Some(("", [], tail));
    hide ParseBare;
    BareChar('L', tail);
    BareChar('L', ['L'] + tail);
    BareChar('U', ['L'] + (['L'] + tail));
    BareChar('N', ['U'] + (['L'] + (['L'] + tail)));
    assert "NULL" + tail == ['N'] + (['U'] + (['L'] + (['L'] + tail)));
    assert ['N'] + (['U'] + (['L'] + (['L'] + ""))) == "NULL";
    assert [false] + ([false] + ([false] + ([false] + []))) == [false, false, false, false];
  }

  lemma {:induction false} SkipNothing(s: string)
    requires s != "" ==> !IsSpace(s[0])
    ensures SkipSpace(s) == s
  {
  }

  /** A comma-separated list of readable items is read as the list of what they are read as. */
  lemma {:induction false} ItemsRead(items: seq<string>, trees: seq<Tree>, rest: string)
    requires items != [] && |items| == |trees| && forall i :: 0 <= i < |items| ==> Reads(items[i], trees[i])
    ensures ParseItems(Elements(items) + "}" + rest) == Some((trees, rest))
    ensures Elements(items) != "" && !IsSpace(Elements(items)[0]) && Elements(items)[0] != '}'
    decreases |items|
  {
    hide ParseElement, SkipSpace;
    assert Reads(items[0], trees[0]);
    if |items| == 1 {
      var tail := "}" + rest;
      assert Elements(items) + "}" + rest == items[0] + tail;
      SkipNothing(items[0] + tail);
      SkipNothing(tail);
      assert ParseElement(items[0] + tail) == Some((trees[0], tail));
      assert tail[1..] == rest && [trees[0]] == trees;
    } else {
      ItemsRead(items[1..], trees[1..], rest);
      var more := Elements(items[1..]) + "}" + rest;
      var tail := "," + more;
      assert Elements(items) + "}" + rest == items[0] + tail;
      SkipNothing(items[0] + tail);
      SkipNothing(tail);
      assert ParseElement(items[0] + tail) == Some((trees[0], tail));
      assert tail[1..] == more;
      assert [trees[0]] + trees[1..] == trees;
    }
  }

  lemma {:induction false} ListReads(items: seq<string>, trees: seq<Tree>)
    requires |items| == |trees| && forall i :: 0 <= i < |items| ==> Reads(items[i], trees[i])
    ensures Reads("{" + Elements(items) + "}", List(trees))
    ensures ParseList("{" + Elements(items) + "}") == Some((List(trees), ""))
  {
    hide ParseItems, SkipSpace;
    var item := "{" + Elements(items) + "}";
    forall tail | Ends(tail) || tail == "" ensures ParseList(item + tail) == Some((List(trees), tail)) {
      var inside := Elements(items) + "}" + tail;
      assert (item + tail)[1..] == inside;
      if items == [] {
        assert inside == "}" + tail;
      } else {
        ItemsRead(items, trees, tail);
      }
      SkipNothing(inside);
    }
    assert item + "" == item;
    forall tail {:trigger item + tail} | Ends(tail) ensures ParseElement(item + tail) == Some((List(trees), tail)) {
      assert ParseList(item + tail) == Some((List(trees), tail));
    }
  }

  lemma {:induction false} ElementRoundTrip(h: Heap, value: Value, seen: seq<Ref>)
    requires Closed(h) && HexHeap(h) && (value.Array? ==> value.ref in h) && (value.Bytes? ==> IsLowerHex(value.hex))
    ensures EncodeElement(h, value, seen).Success? <==> TreeOf(h, value, seen).Some?
    ensures EncodeElement(h, value, seen).Success? ==> Reads(EncodeElement(h, value, seen).value, TreeOf(h, value, seen).value)
    decreases Left(h, seen), 2, 0
  {
    hide Reads, Quoted;
    match value {
      case Absent => NullReads();
      case Leaf(text) => LeafReads(text);
      case Bytes(hex) => BytesRead(hex);
      case Array(ref) => ArrayRoundTrip(h, ref, seen);
    }
  }

  lemma {:induction false} ItemsRoundTrip(h: Heap, values: seq<Value>, seen: seq<Ref>, n: nat)
    requires Closed(h) && HexHeap(h) && n <= |values|
    requires forall i :: 0 <= i < |values| ==> (values[i].Array? ==> values[i].ref in h) && (values[i].Bytes? ==> IsLowerHex(values[i].hex))
    ensures EncodeItems(h, values, seen, n).Success? <==> ItemsOf(h, values, seen, n).Some?
    ensures EncodeItems(h, values, seen, n).Success? ==>
              forall i :: 0 <= i < n ==> Reads(EncodeItems(h, values, seen, n).value[i], ItemsOf(h, values, seen, n).value[i])
    decreases Left(h, seen), 3, n
  {
    hide Reads, EncodeElement, TreeOf;
    if n > 0 {
      ItemsRoundTrip(h, values, seen, n - 1);
      ElementRoundTrip(h, values[n - 1], seen);
    }
  }

  lemma {:induction false} ArrayRoundTrip(h: Heap, ref: Ref, seen: seq<Ref>)
    requires Closed(h) && HexHeap(h) && ref in h
    ensures EncodeArray(h, ref, seen).Success? <==> ListOf(h, ref, seen).Some?
    ensures EncodeArray(h, ref, seen).Success? ==> Reads(EncodeArray(h, ref, seen).value, ListOf(h, ref, seen).value)
    ensures EncodeArray(h, ref, seen).Success? ==> Parse(EncodeArray(h, ref, seen).value) == ListOf(h, ref, seen)
    decreases Left(h, seen), 1, 0
  {
    hide Reads, Elements, EncodeItems, ItemsOf, ParseList;
    if ref !in seen {
      LeftShrinks(h, seen, ref);
      ItemsRoundTrip(h, h[ref], seen + [ref], |h[ref]|);
      if EncodeItems(h, h[ref], seen + [ref], |h[ref]|).Success? {
        ListReads(EncodeItems(h, h[ref], seen + [ref], |h[ref]|).value, ItemsOf(h, h[ref], seen + [ref], |h[ref]|).value);
      }
    }
  }
}

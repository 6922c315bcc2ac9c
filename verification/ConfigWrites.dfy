/**
 * The texts an edit writes: strings and lists as a JSON reader takes them back (section 7 of RFC
 * 8259), and the lines of a function, a bucket and a Realtime setting with their parts in place.
 */
module ConfigWrites {
  import opened Wrappers
  import opened ConfigEdit

  // ---------------------------------------------------------------------------
  // A JSON reader
  // ---------------------------------------------------------------------------

  function HexValue(c: char): Option<nat> {
    if '0' <= c <= '9' then Some(c as int - '0' as int)
    else if 'a' <= c <= 'f' then Some(c as int - 'a' as int + 10)
    else if 'A' <= c <= 'F' then Some(c as int - 'A' as int + 10)
    else None
  }

  /** The character of `\uXXXX` whose digits start `t`. */
  function ReadUnicode(t: string): Option<char> {
    if |t| < 4 || exists k :: 0 <= k < 4 && HexValue(t[k]).None? then None
    else
      var code := ((HexValue(t[0]).value * 16 + HexValue(t[1]).value) * 16 + HexValue(t[2]).value) * 16 + HexValue(t[3]).value;
      if code < 0xD800 then Some(code as char) else None
  }

  /** What a backslash and `c` stand for. */
  function ReadEscape(c: char): Option<char> {
    match c
    case '"' => Some('"')
    case '\\' => Some('\\')
    case '/' => Some('/')
    case 'b' => Some(8 as char)
    case 'f' => Some(12 as char)
    case 'n' => Some('\n')
    case 'r' => Some('\r')
    case 't' => Some('\t')
    case _ => None
  }

  /** The characters up to the closing quote, and what stands behind it. */
  function ReadChars(t: string): Option<(string, string)> {
    if t == "" || t[0] < ' ' then None
    else if t[0] == '"' then Some(("", t[1..]))
    else if t[0] != '\\' then Behind(t[0], ReadChars(t[1..]))
    else if |t| > 1 && t[1] == 'u' then
      (if ReadUnicode(t[2..]).None? then None else Behind(ReadUnicode(t[2..]).value, ReadChars(t[6..])))
    else if |t| > 1 && ReadEscape(t[1]).Some? then Behind(ReadEscape(t[1]).value, ReadChars(t[2..]))
    else None
  }

  function Behind(c: char, r: Option<(string, string)>): Option<(string, string)> {
    match r case None => None case Some((s, rest)) => Some(([c] + s, rest))
  }

  function ReadString(t: string): Option<(string, string)> {
    if t != "" && t[0] == '"' then ReadChars(t[1..]) else None
  }

  /** The strings behind an opening bracket, up to the closing one. */
  function ReadItems(t: string): (r: Option<(seq<string>, string)>)
    decreases |t|
  {
    match ReadString(t)
    case None => None
    case Some((s, rest)) =>
      if |rest| >= |t| || rest == "" then None
      else if rest[0] == ']' then Some(([s], rest[1..]))
      else if rest[0] == ',' then
        match ReadItems(rest[1..])
        case None => None
        case Some((items, end)) => Some(([s] + items, end))
      else None
  }

  function ReadList(t: string): Option<(seq<string>, string)> {
    if |t| < 2 || t[0] != '[' then None
    else if t[1] == ']' then Some(([], t[2..]))
    else ReadItems(t[1..])
  }

  // ---------------------------------------------------------------------------
  // What is written is read back
  // ---------------------------------------------------------------------------

  lemma {:induction false} ControlReads(c: char, rest: string)
    requires c < ' '
    ensures var t := "\\u00" + [HexDigit(c as int / 16), HexDigit(c as int % 16)] + rest;
            |t| >= 6 && t[0] == '\\' && t[1] == 'u' && ReadUnicode(t[2..]) == Some(c) && t[6..] == rest
  {
    var hi, lo := c as int / 16, c as int % 16;
    HexIs(hi);
    HexIs(lo);
    assert hi < 2 && hi * 16 + lo == c as int;
    var t := "\\u00" + [HexDigit(hi), HexDigit(lo)] + rest;
    assert t[2..][0] == '0' && t[2..][1] == '0' && t[2..][2] == HexDigit(hi) && t[2..][3] == HexDigit(lo);
    assert t[6..] == rest;
  }

  lemma {:induction false} HexIs(n: nat)
    requires n < 16
    ensures HexValue(HexDigit(n)) == Some(n)
  {
    assert HexDigit(n) == if n < 10 then (n + '0' as int) as char else (n - 10 + 'a' as int) as char;
  }

  /** One written character, whatever stands behind it. */
  lemma {:induction false} CharReads(c: char, rest: string)
    ensures ReadChars(JsonChar(c) + rest) == Behind(c, ReadChars(rest))
  {
    var t := JsonChar(c) + rest;
    if c == '"' || c == '\\' || c == '\n' || c == '\r' || c == '\t' || c == 8 as char || c == 12 as char {
      assert t[0] == '\\' && |JsonChar(c)| == 2 && t[1] == JsonChar(c)[1];
      assert t[2..] == rest;
    } else if c < ' ' {
      ControlReads(c, rest);
    } else {
      assert t[0] == c && t[1..] == rest;
    }
  }

  lemma {:induction false} BodyReads(s: string, rest: string)
    ensures ReadChars(JsonBody(s) + "\"" + rest) == Some((s, rest))
    decreases |s|
  {
    hide ReadChars, JsonChar;
    if s == "" {
      QuoteReads(rest);
      assert JsonBody("") + "\"" + rest == "\"" + rest;
    } else {
      BodyReads(s[1..], rest);
      CharReads(s[0], JsonBody(s[1..]) + "\"" + rest);
      assert JsonBody(s) + "\"" + rest == JsonChar(s[0]) + (JsonBody(s[1..]) + "\"" + rest);
      assert [s[0]] + s[1..] == s;
    }
  }

  lemma {:induction false} QuoteReads(rest: string)
    ensures ReadChars("\"" + rest) == Some(("", rest))
  {
    var t := "\"" + rest;
    assert t[0] == '"' && t[1..] == rest;
  }

  /** A string is read back from how it is written, with anything behind it. */
  lemma {:induction false} StringReadsBack(s: string, rest: string)
    ensures ReadString(JsonString(s) + rest) == Some((s, rest))
  {
    hide ReadChars, JsonBody;
    var t := JsonString(s) + rest;
    assert t[0] == '"';
    assert t[1..] == JsonBody(s) + "\"" + rest;
    BodyReads(s, rest);
  }

  lemma {:induction false} ItemsReadBack(items: seq<string>, rest: string)
    requires items != []
    ensures ReadItems(Joined(JsonStrings(items), ",") + "]" + rest) == Some((items, rest))
    decreases |items|
  {
    hide ReadString, JsonString, ReadItems;
    var head, more := items[0], items[1..];
    var texts := JsonStrings(items);
    assert texts == [JsonString(head)] + JsonStrings(more);
    assert texts[1..] == JsonStrings(more) && texts[0] == JsonString(head);
    if more == [] {
      assert texts == [JsonString(head)];
      LastItem(head, rest);
      assert items == [head];
    } else {
      assert JsonStrings(more) == [JsonString(more[0])] + JsonStrings(more[1..]);
      var tail := Joined(JsonStrings(more), ",") + "]" + rest;
      ItemsReadBack(more, rest);
      NextItem(head, tail, more, rest);
      assert Joined(texts, ",") + "]" + rest == JsonString(head) + ("," + tail);
      assert [head] + more == items;
    }
  }

  lemma {:induction false} LastItem(head: string, rest: string)
    ensures ReadItems(JsonString(head) + "]" + rest) == Some(([head], rest))
  {
    hide ReadString, JsonBody;
    var t, end := JsonString(head) + "]" + rest, "]" + rest;
    assert t == JsonString(head) + end;
    StringReadsBack(head, end);
    assert end[0] == ']' && end[1..] == rest;
  }

  lemma {:induction false} NextItem(head: string, tail: string, more: seq<string>, rest: string)
    requires ReadItems(tail) == Some((more, rest))
    ensures ReadItems(JsonString(head) + ("," + tail)) == Some(([head] + more, rest))
  {
    hide ReadString, JsonBody;
    var end := "," + tail;
    StringReadsBack(head, end);
    assert end[0] == ',' && end[1..] == tail;
  }

  /** A list is read back from how it is written, with anything behind it. */
  lemma {:induction false} ListReadsBack(items: seq<string>, rest: string)
    ensures ReadList(JsonList(items) + rest) == Some((items, rest))
  {
    hide ReadItems, JsonString;
    var t := JsonList(items) + rest;
    if items == [] {
      assert t == "[]" + rest && t[2..] == rest;
    } else {
      var body := Joined(JsonStrings(items), ",");
      assert t == "[" + (body + "]" + rest);
      assert t[1..] == body + "]" + rest;
      StartsQuoted(items);
      assert t[1] == body[0];
      ItemsReadBack(items, rest);
    }
  }

  lemma {:induction false} StartsQuoted(items: seq<string>)
    requires items != []
    ensures var body := Joined(JsonStrings(items), ","); body != "" && body[0] == '"'
  {
    hide JsonBody;
    assert JsonStrings(items) == [JsonString(items[0])] + JsonStrings(items[1..]);
  }

  // ---------------------------------------------------------------------------
  // The lines
  // ---------------------------------------------------------------------------

  /** Letters, digits, `_` and `$`, and no digit first. */
  predicate IsName(s: string) {
    && s != "" && !('0' <= s[0] <= '9')
    && forall k :: 0 <= k < |s| ==> 'a' <= s[k] <= 'z' || 'A' <= s[k] <= 'Z' || '0' <= s[k] <= '9' || s[k] == '_' || s[k] == '$'
  }

  /** `text` is `name` as a key: as it is where that is a name, as a string elsewhere. */
  ghost predicate KeyText(text: string, name: string) {
    if IsName(name) then text == name else ReadString(text) == Some((name, ""))
  }

  lemma {:induction false} KeyIs(name: string)
    ensures KeyText(RenderKey(name), name)
  {
    hide JsonString;
    assert IsIdentifier(name) <==> IsName(name);
    StringReadsBack(name, "");
    assert JsonString(name) + "" == JsonString(name);
  }

  /** `text` is a string literal for `s`. */
  ghost predicate Quotes(text: string, s: string) { ReadString(text) == Some((s, "")) }

  lemma {:induction false} QuotesIs(s: string)
    ensures Quotes(JsonString(s), s)
  {
    StringReadsBack(s, "");
    assert JsonString(s) + "" == JsonString(s);
  }

  /** Each variable under its own name, read from the environment. */
  ghost predicate EnvTexts(items: seq<string>, env: seq<string>, typescript: bool) {
    |items| == |env| && forall i :: 0 <= i < |env| ==> EnvText(items[i], env[i], typescript)
  }

  ghost predicate EnvText(item: string, name: string, typescript: bool) {
    exists key :: KeyText(key, name) && item == key + ": process.env." + name + (if typescript then "!" else "")
  }

  lemma {:induction false} EnvIs(env: seq<string>, typescript: bool)
    ensures EnvTexts(EnvItems(env, if typescript then "!" else ""), env, typescript)
    decreases |env|
  {
    hide KeyText, RenderKey, EnvText;
    var assertion := if typescript then "!" else "";
    if env != [] {
      EnvIs(env[1..], typescript);
      var items := EnvItems(env, assertion);
      OneEnv(env[0], typescript);
      forall i | 0 <= i < |env| ensures EnvText(items[i], env[i], typescript) {
        assert i > 0 ==> items[i] == EnvItems(env[1..], assertion)[i - 1] && env[i] == env[1..][i - 1];
      }
    }
  }

  lemma {:induction false} OneEnv(name: string, typescript: bool)
    ensures EnvText(RenderKey(name) + ": process.env." + name + (if typescript then "!" else ""), name, typescript)
  {
    hide KeyText, RenderKey;
    KeyIs(name);
  }

  /** The parts of a function's line: its slug, its name, its source, and its variables, if it has any. */
  lemma {:induction false} FunctionLineIs(slug: string, name: string, source: string, env: seq<string>, typescript: bool)
    returns (key: string, n: string, s: string, items: seq<string>)
    ensures KeyText(key, slug) && Quotes(n, name) && Quotes(s, source) && EnvTexts(items, env, typescript)
    ensures FunctionLine(slug, name, source, env, typescript)
         == if env == [] then key + ": { name: " + n + ", source: " + s + " },"
            else key + ": { name: " + n + ", source: " + s + ", env: { " + Joined(items, ", ") + " } },"
  {
    hide JsonString, KeyText, Quotes, EnvTexts, RenderKey, EnvItems, Joined;
    key, n, s, items := RenderKey(slug), JsonString(name), JsonString(source), EnvItems(env, if typescript then "!" else "");
    KeyIs(slug);
    QuotesIs(name);
    QuotesIs(source);
    EnvIs(env, typescript);
    if env == [] {
      NoEnvText(key + ": { name: " + n + ", source: " + s);
    } else {
      WithEnvText(key + ": { name: " + n + ", source: " + s, Joined(items, ", "));
    }
  }

  lemma {:induction false} NoEnvText(head: string)
    ensures head + "" + " }," == head + " },"
  {
  }

  lemma {:induction false} WithEnvText(head: string, items: string)
    ensures head + (", env: { " + items + " }") + " }," == head + ", env: { " + items + " } },"
  {
  }

  /** How each access is written. */
  function AccessText(access: Access): string {
    match access
    case Private => "\"private\""
    case PublicRead => "\"public_read\""
  }

  lemma {:induction false} AccessIs(access: Access)
    ensures JsonString(if access == Private then "private" else "public_read") == AccessText(access)
  {
    hide JsonString;
    PlainString("private");
    PlainString("public_read");
  }

  /** A bucket's line: its name, and the access it gives. */
  lemma {:induction false} BucketLineIs(bucket: string, access: Access) returns (key: string)
    ensures KeyText(key, bucket) && BucketLine(bucket, access) == key + ": { access: " + AccessText(access) + " },"
  {
    hide KeyText, RenderKey, JsonString, AccessText;
    key := RenderKey(bucket);
    KeyIs(bucket);
    AccessIs(access);
  }

  lemma {:induction false} PlainString(word: string)
    requires forall k :: 0 <= k < |word| ==> word[k] > '"' && word[k] != '\\'
    ensures JsonString(word) == "\"" + word + "\""
  {
    PlainText(word);
  }

  lemma {:induction false} PlainText(word: string)
    requires forall k :: 0 <= k < |word| ==> word[k] > '"' && word[k] != '\\'
    ensures JsonBody(word) == word
    decreases |word|
  {
    if word != "" {
      PlainText(word[1..]);
      assert JsonChar(word[0]) == [word[0]] && [word[0]] + word[1..] == word;
    }
  }

  /** The value of a Realtime setting: a word, or an object with the origins. */
  lemma {:induction false} RealtimeValueIs(enabled: bool, origins: Option<seq<string>>) returns (list: string)
    ensures !enabled ==> RealtimeValue(enabled, origins) == "false"
    ensures enabled && origins.None? ==> RealtimeValue(enabled, origins) == "true"
    ensures enabled && origins.Some? ==>
              RealtimeValue(enabled, origins) == "{ allowedOrigins: " + list + " }" && ReadList(list) == Some((origins.value, ""))
  {
    hide JsonList, ReadList;
    list := "";
    if origins.Some? {
      list := JsonList(origins.value);
      ListReadsBack(origins.value, "");
      assert list + "" == list;
    }
  }
}

/**
 * The body rewriting of packages/ai-sdk-provider/src/lib/neon-harmony-normalize.ts: an array
 * `content` becomes a string, and its reasoning moves to `reasoning_content`.
 */
module HarmonyBody {
  import opened Wrappers
  import opened Text
  import EventStream

  datatype Json =
    | Null | Boolean(b: bool) | Number(digits: string) | Str(s: string)
    | Array(items: seq<Json>) | Object(fields: map<string, Json>)

  function Get(fields: map<string, Json>, key: string): Option<Json> {
    if key in fields then Some(fields[key]) else None
  }

  /** The `text` of a part, when it is a string. */
  function TextOf(part: Json): seq<string> {
    if part.Object? && Get(part.fields, "text").Some? && part.fields["text"].Str? then [part.fields["text"].s] else []
  }

  function TextsOf(entries: seq<Json>): seq<string> {
    if entries == [] then [] else TextOf(entries[0]) + TextsOf(entries[1..])
  }

  function EntriesOf(part: Json, key: string): seq<Json> {
    if part.Object? && Get(part.fields, key).Some? && part.fields[key].Array? then part.fields[key].items else []
  }

  predicate IsPart(part: Json, kind: string) { part.Object? && Get(part.fields, "type") == Some(Str(kind)) }

  function Texts(parts: seq<Json>): seq<string> {
    if parts == [] then []
    else (if IsPart(parts[0], "text") then TextOf(parts[0]) else []) + Texts(parts[1..])
  }

  /** The reasoning of a part: its own text, those of its summary and those of its content. */
  function Thoughts(part: Json): seq<string> {
    if IsPart(part, "reasoning") then TextOf(part) + TextsOf(EntriesOf(part, "summary")) + TextsOf(EntriesOf(part, "content")) else []
  }

  function Reasonings(parts: seq<Json>): seq<string> {
    if parts == [] then [] else Thoughts(parts[0]) + Reasonings(parts[1..])
  }

  function Concatenated(texts: seq<string>): string {
    if texts == [] then "" else texts[0] + Concatenated(texts[1..])
  }

  datatype Extracted = Extracted(text: string, reasoning: string)

  /** `extractHarmonyContent`: none when `content` is not an array. */
  function Extract(content: Option<Json>): Option<Extracted> {
    if content.Some? && content.value.Array? then
      Some(Extracted(Concatenated(Texts(content.value.items)), EventStream.Join(Reasonings(content.value.items))))
    else None
  }

  predicate Nullish(fields: map<string, Json>, key: string) { Get(fields, key).None? || Get(fields, key) == Some(Null) }

  /** A message or a streamed delta; a delta's empty text is dropped. */
  function FixMessage(fields: map<string, Json>, streamed: bool): Option<map<string, Json>> {
    match Extract(Get(fields, "content"))
    case None => None
    case Some(e) =>
      var withText := if streamed && e.text == "" then fields - {"content"} else fields["content" := Str(e.text)];
      Some(if e.reasoning != "" && Nullish(fields, "reasoning_content") && Nullish(fields, "reasoning")
           then withText["reasoning_content" := Str(e.reasoning)] else withText)
  }

  function MessageKey(streamed: bool): string { if streamed then "delta" else "message" }

  /** A choice rewritten, and whether it was. */
  function FixChoice(choice: Json, streamed: bool): (Json, bool) {
    var key := MessageKey(streamed);
    if choice.Object? && Get(choice.fields, key).Some? && choice.fields[key].Object? then
      match FixMessage(choice.fields[key].fields, streamed)
      case None => (choice, false)
      case Some(fixed) => (Object(choice.fields[key := Object(fixed)]), true)
    else (choice, false)
  }

  function FixChoices(choices: seq<Json>, streamed: bool): (r: (seq<Json>, bool))
    ensures |r.0| == |choices|
    ensures forall i :: 0 <= i < |choices| ==> r.0[i] == FixChoice(choices[i], streamed).0
    ensures r.1 <==> exists i :: 0 <= i < |choices| && FixChoice(choices[i], streamed).1
  {
    if choices == [] then ([], false)
    else
      var (before, changed) := FixChoices(choices[..|choices| - 1], streamed);
      var last := FixChoice(choices[|choices| - 1], streamed);
      (before + [last.0], changed || last.1)
  }

  predicate HasChoices(body: Json) { body.Object? && Get(body.fields, "choices").Some? && body.fields["choices"].Array? }

  /** `normalizeChunkBody` (streamed) and `normalizeCompletionBody`. */
  function Normalize(body: Json, streamed: bool): (Json, bool) {
    if !HasChoices(body) then (body, false)
    else
      var (choices, changed) := FixChoices(body.fields["choices"].items, streamed);
      (Object(body.fields["choices" := Array(choices)]), changed)
  }

  /** One more choice behind those rewritten so far. */
  lemma {:induction false} FixNext(items: seq<Json>, i: nat, streamed: bool)
    requires i < |items|
    ensures var (before, changed) := FixChoices(items[..i], streamed);
            var last := FixChoice(items[i], streamed);
            FixChoices(items[..i + 1], streamed) == (before + [last.0], changed || last.1)
  {
    hide FixChoice;
    assert items[..i + 1][..i] == items[..i];
  }

  /** The loop over the choices, each rewritten where it stands. */
  method NormalizeBody(body: Json, streamed: bool) returns (r: Json, changed: bool)
    ensures (r, changed) == Normalize(body, streamed)
  {
    hide FixChoice, FixChoices;
    if !HasChoices(body) { return body, false; }
    var start := body.fields["choices"].items;
    var choices := start;
    changed := false;
    assert start[..0] == [] && FixChoices([], streamed) == ([], false) by { NoChoices(streamed); }
    for i := 0 to |start|
      invariant |choices| == |start| && choices[i..] == start[i..]
      invariant FixChoices(start[..i], streamed) == (choices[..i], changed)
    {
      FixNext(start, i, streamed);
      assert choices[i] == choices[i..][0] == start[i];
      var (fixed, fixes) := FixChoice(choices[i], streamed);
      var next := choices[i := fixed];
      assert next[..i + 1] == choices[..i] + [fixed];
      choices := next;
      changed := changed || fixes;
    }
    assert start[..|start|] == start && choices[..|start|] == choices;
    return Object(body.fields["choices" := Array(choices)]), changed;
  }

  lemma {:induction false} NoChoices(streamed: bool)
    ensures FixChoices([], streamed) == ([], false)
  {
  }

  // ---------------------------------------------------------------------------
  // What the rewriting guarantees
  // ---------------------------------------------------------------------------

  /** The content a strict client rejects. */
  predicate IsHarmony(choice: Json, streamed: bool) {
    var key := MessageKey(streamed);
    && choice.Object? && Get(choice.fields, key).Some? && choice.fields[key].Object?
    && Get(choice.fields[key].fields, "content").Some? && choice.fields[key].fields["content"].Array?
  }

  lemma {:induction false} FixedChoice(choice: Json, streamed: bool)
    ensures FixChoice(choice, streamed).1 <==> IsHarmony(choice, streamed)
    ensures !IsHarmony(FixChoice(choice, streamed).0, streamed)
    ensures !IsHarmony(choice, streamed) ==> FixChoice(choice, streamed).0 == choice
  {
    hide Concatenated, Texts, Reasonings;
  }

  lemma {:induction false} ChoicesSettle(items: seq<Json>, streamed: bool)
    ensures var (choices, changed) := FixChoices(items, streamed);
            && (changed <==> exists i :: 0 <= i < |items| && IsHarmony(items[i], streamed))
            && (!changed ==> choices == items)
            && FixChoices(choices, streamed) == (choices, false)
  {
    hide FixChoice, IsHarmony;
    var (choices, changed) := FixChoices(items, streamed);
    forall i | 0 <= i < |items|
      ensures FixChoice(items[i], streamed).1 <==> IsHarmony(items[i], streamed)
      ensures FixChoice(choices[i], streamed) == (choices[i], false)
      ensures !FixChoice(items[i], streamed).1 ==> choices[i] == items[i]
    {
      FixedChoice(items[i], streamed);
      FixedChoice(choices[i], streamed);
    }
    assert FixChoices(choices, streamed).0 == choices;
    if !changed { assert choices == items; }
  }

  /** A body is changed exactly when a choice has array content; then none has, and a second pass changes nothing. */
  lemma {:induction false} NormalizeSettles(body: Json, streamed: bool)
    ensures var (r, changed) := Normalize(body, streamed);
            && (changed <==> HasChoices(body) && exists i :: 0 <= i < |body.fields["choices"].items| && IsHarmony(body.fields["choices"].items[i], streamed))
            && (!changed ==> r == body)
            && Normalize(r, streamed) == (r, false)
  {
    hide FixChoice, IsHarmony, FixChoices;
    if HasChoices(body) {
      var items := body.fields["choices"].items;
      ChoicesSettle(items, streamed);
      var (choices, changed) := FixChoices(items, streamed);
      assert body.fields["choices" := Array(choices)]["choices" := Array(choices)] == body.fields["choices" := Array(choices)];
      if !changed { assert body.fields["choices" := Array(choices)] == body.fields; }
    }
  }

  /** A rewritten message keeps every field but the two it is for, and reasoning it already had. */
  lemma {:induction false} OtherFieldsKept(fields: map<string, Json>, streamed: bool, key: string)
    requires FixMessage(fields, streamed).Some?
    requires key != "content" && (key == "reasoning_content" ==> !Nullish(fields, "reasoning_content") || !Nullish(fields, "reasoning"))
    ensures Get(FixMessage(fields, streamed).value, key) == Get(fields, key)
  {
    hide Concatenated, Texts, Reasonings;
  }

  /** What a part of an array `content` adds to the text. */
  function Contribution(part: Json): string {
    if IsPart(part, "text") && Get(part.fields, "text").Some? && part.fields["text"].Str? then part.fields["text"].s else ""
  }

  lemma {:induction false} TextJoins(a: seq<Json>, b: seq<Json>)
    ensures Concatenated(Texts(a + b)) == Concatenated(Texts(a)) + Concatenated(Texts(b))
    decreases |a|
  {
    hide Contribution;
    if a == [] {
      assert a + b == b;
    } else {
      TextJoins(a[1..], b);
      JoinedText(a, b);
    }
  }

  lemma {:induction false} JoinedText(a: seq<Json>, b: seq<Json>)
    requires a != [] && Concatenated(Texts(a[1..] + b)) == Concatenated(Texts(a[1..])) + Concatenated(Texts(b))
    ensures Concatenated(Texts(a + b)) == Concatenated(Texts(a)) + Concatenated(Texts(b))
  {
    hide Contribution, Texts, Concatenated;
    FirstText(a);
    FirstText(a + b);
    assert (a + b)[1..] == a[1..] + b && (a + b)[0] == a[0];
    var x, y, z := Contribution(a[0]), Concatenated(Texts(a[1..])), Concatenated(Texts(b));
    assert x + (y + z) == x + y + z;
  }

  lemma {:induction false} FirstText(parts: seq<Json>)
    requires parts != []
    ensures Concatenated(Texts(parts)) == Contribution(parts[0]) + Concatenated(Texts(parts[1..]))
  {
    var rest := Texts(parts[1..]);
    if IsPart(parts[0], "text") && TextOf(parts[0]) != [] {
      assert (TextOf(parts[0]) + rest)[1..] == rest;
    } else {
      assert Texts(parts) == rest;
    }
  }

  /** Between the text of the parts before it and that of the parts behind it, a part adds what it contributes. */
  lemma {:induction false} PartStands(parts: seq<Json>, i: nat)
    requires i < |parts|
    ensures Concatenated(Texts(parts)) == Concatenated(Texts(parts[..i])) + Contribution(parts[i]) + Concatenated(Texts(parts[i + 1..]))
  {
    hide Contribution, Texts, Concatenated;
    assert parts == parts[..i] + parts[i..];
    TextJoins(parts[..i], parts[i..]);
    FirstText(parts[i..]);
    assert parts[i..][1..] == parts[i + 1..];
  }

  lemma {:induction false} NoText(parts: seq<Json>)
    ensures Concatenated(Texts(parts)) == "" <==> forall i :: 0 <= i < |parts| ==> Contribution(parts[i]) == ""
    decreases |parts|
  {
    hide Contribution;
    if parts != [] {
      FirstText(parts);
      NoText(parts[1..]);
      assert forall i :: 1 <= i < |parts| ==> parts[i] == parts[1..][i - 1];
    }
  }

  /** The content of a message, when it is a string; none counts as empty. */
  function ContentText(fields: map<string, Json>): string {
    match Get(fields, "content") case Some(Str(text)) => text case _ => ""
  }

  /**
   * In the text of a rewritten message every part stands at its place, with what it contributes
   * and nothing else; a stream drops the field exactly when no part contributes anything.
   */
  lemma {:induction false} TextIsKept(fields: map<string, Json>, streamed: bool, i: nat)
    requires FixMessage(fields, streamed).Some? && Get(fields, "content").Some? && fields["content"].Array?
    ensures var parts, fixed := fields["content"].items, FixMessage(fields, streamed).value;
            && (i < |parts| ==>
                  && ContentText(fixed) == Concatenated(Texts(parts[..i])) + Contribution(parts[i]) + Concatenated(Texts(parts[i + 1..])))
            && (Get(fixed, "content").None? <==> streamed && forall k :: 0 <= k < |parts| ==> Contribution(parts[k]) == "")
            && (Get(fixed, "content").Some? ==> fixed["content"].Str?)
  {
    hide Concatenated, Texts, Reasonings, Contribution;
    var parts := fields["content"].items;
    NoText(parts);
    if i < |parts| { PartStands(parts, i); }
  }

  // ---------------------------------------------------------------------------
  // The reasoning
  // ---------------------------------------------------------------------------

  lemma {:induction false} ReasoningsJoin(a: seq<Json>, b: seq<Json>)
    ensures Reasonings(a + b) == Reasonings(a) + Reasonings(b)
    decreases |a|
  {
    hide Thoughts;
    if a == [] {
      assert a + b == b;
    } else {
      ReasoningsJoin(a[1..], b);
      assert (a + b)[1..] == a[1..] + b;
      var x, y, z := Thoughts(a[0]), Reasonings(a[1..]), Reasonings(b);
      assert x + (y + z) == x + y + z;
    }
  }

  /** The reasoning of a part stands between that of the parts before it and that of the parts behind it. */
  lemma {:induction false} ThoughtsStand(parts: seq<Json>, i: nat)
    requires i < |parts|
    ensures Reasonings(parts) == Reasonings(parts[..i]) + Thoughts(parts[i]) + Reasonings(parts[i + 1..])
  {
    hide Thoughts;
    var a, b := parts[..i], parts[i..];
    assert parts == a + b && b[0] == parts[i] && b[1..] == parts[i + 1..];
    ReasoningsJoin(a, b);
    var x, y, z := Reasonings(a), Thoughts(parts[i]), Reasonings(parts[i + 1..]);
    assert x + (y + z) == x + y + z;
  }

  /** No text, or one empty text, is all that joins to nothing. */
  lemma {:induction false} NothingJoined(texts: seq<string>)
    ensures EventStream.Join(texts) == "" <==> texts == [] || texts == [""]
  {
  }

  /** The texts of the reasoning of a message with an array `content`. */
  function MessageReasonings(fields: map<string, Json>): seq<string>
    requires Get(fields, "content").Some? && fields["content"].Array?
  {
    Reasonings(fields["content"].items)
  }

  /** There is some reasoning, and the message has none of its own yet. */
  predicate Hoists(fields: map<string, Json>)
    requires Get(fields, "content").Some? && fields["content"].Array?
  {
    && MessageReasonings(fields) != [] && MessageReasonings(fields) != [""]
    && Nullish(fields, "reasoning_content") && Nullish(fields, "reasoning")
  }

  /**
   * Reasoning moves to `reasoning_content` exactly when there is any and the message had none: the
   * texts of all parts in their order, which splitting on newlines gives back where none holds one.
   */
  lemma {:induction false} ReasoningIsHoisted(fields: map<string, Json>, streamed: bool, i: nat)
    requires FixMessage(fields, streamed).Some? && Get(fields, "content").Some? && fields["content"].Array?
    ensures var parts, texts := fields["content"].items, MessageReasonings(fields);
            var moved := Get(FixMessage(fields, streamed).value, "reasoning_content");
            && (Hoists(fields) ==> moved == Some(Str(EventStream.Join(texts))))
            && (!Hoists(fields) ==> moved == Get(fields, "reasoning_content"))
            && (i < |parts| ==> texts == Reasonings(parts[..i]) + Thoughts(parts[i]) + Reasonings(parts[i + 1..]))
            && (Hoists(fields) && (forall k :: 0 <= k < |texts| ==> IsLine(texts[k])) ==>
                  EventStream.Split(moved.value.s) == texts)
  {
    hide Concatenated, Texts, Reasonings, Thoughts, EventStream.Join, EventStream.Split, IsLine;
    var parts, texts := fields["content"].items, MessageReasonings(fields);
    NothingJoined(texts);
    if i < |parts| { ThoughtsStand(parts, i); }
    if Hoists(fields) && forall k :: 0 <= k < |texts| ==> IsLine(texts[k]) { EventStream.SplitJoin(texts); }
  }

  // ---------------------------------------------------------------------------
  // One line of the stream
  // ---------------------------------------------------------------------------

  const DATA := "data:"

  /** `rewriteLine`, over a JSON parser and printer. */
  function RewriteLine(parse: string -> Option<Json>, show: Json -> string, line: string): string {
    if !(DATA <= line) then line
    else
      var payload := Trim(line[|DATA|..]);
      if payload == "" || payload == "[DONE]" then line
      else
        match parse(payload)
        case None => line
        case Some(body) =>
          var (normalized, changed) := Normalize(body, true);
          if changed then DATA + " " + show(normalized) else line
  }

  /**
   * A body with no array content left is printed without blanks around it, and if that is read, then
   * as a body with none. (Numbers need not survive: `1e400` is printed as `null`.)
   */
  ghost predicate KeepsCompliance(parse: string -> Option<Json>, show: Json -> string) {
    forall j :: !Normalize(j, true).1 ==>
      && show(j) != "" && !IsSpace(show(j)[0]) && !IsSpace(show(j)[|show(j)| - 1])
      && (parse(show(j)).Some? ==> !Normalize(parse(show(j)).value, true).1)
  }

  /** Such a body is printed on one line. */
  ghost predicate PrintsLines(show: Json -> string) {
    forall j :: !Normalize(j, true).1 ==> IsLine(show(j))
  }

  lemma {:induction false} TrimPadded(s: string)
    requires s != "" && !IsSpace(s[0]) && !IsSpace(s[|s| - 1])
    ensures Trim(" " + s) == s
  {
    assert (" " + s)[1..] == s;
    assert TrimStart(" " + s) == TrimStart(s) == s;
  }

  /** Rewriting a line twice is rewriting it once, and a compliant line passes verbatim. */
  lemma {:induction false} RewriteSettles(parse: string -> Option<Json>, show: Json -> string, line: string)
    requires KeepsCompliance(parse, show)
    ensures RewriteLine(parse, show, RewriteLine(parse, show, line)) == RewriteLine(parse, show, line)
    ensures RewriteLine(parse, show, "") == ""
    ensures RewriteLine(parse, show, line) != line ==>
              DATA <= line && parse(Trim(line[|DATA|..])).Some? && Normalize(parse(Trim(line[|DATA|..])).value, true).1
  {
    hide Trim, Normalize;
    var out := RewriteLine(parse, show, line);
    if out != line {
      var body := parse(Trim(line[|DATA|..])).value;
      var normalized := Normalize(body, true).0;
      NormalizeSettles(body, true);
      assert out[|DATA|..] == " " + show(normalized);
      assert !Normalize(normalized, true).1;
      TrimPadded(show(normalized));
    }
  }

  // ---------------------------------------------------------------------------
  // A whole stream
  // ---------------------------------------------------------------------------

  function Rewriter(parse: string -> Option<Json>, show: Json -> string): string -> string {
    line => RewriteLine(parse, show, line)
  }

  lemma {:induction false} RewrittenIsOneLine(parse: string -> Option<Json>, show: Json -> string, line: string)
    requires IsLine(line) && PrintsLines(show)
    ensures IsLine(RewriteLine(parse, show, line))
  {
    hide Trim, Normalize;
    var out := RewriteLine(parse, show, line);
    if out != line {
      var body := parse(Trim(line[|DATA|..])).value;
      var normalized := Normalize(body, true).0;
      NormalizeSettles(body, true);
      assert !Normalize(normalized, true).1;
      assert out == "data: " + show(normalized) && IsLine(show(normalized));
    }
  }

  /** With a printer that breaks no line, normalizing a stream that was normalized changes nothing. */
  lemma {:induction false} StreamSettles(parse: string -> Option<Json>, show: Json -> string, input: string)
    requires KeepsCompliance(parse, show) && PrintsLines(show)
    ensures var once := EventStream.Whole(Rewriter(parse, show), input);
            EventStream.Whole(Rewriter(parse, show), once) == once
  {
    hide RewriteLine, KeepsCompliance, PrintsLines;
    var rewrite := Rewriter(parse, show);
    var lines := EventStream.Split(input);
    var once := EventStream.Mapped(rewrite, lines);
    RewriteSettles(parse, show, "");
    EventStream.WholeIsMapJoin(rewrite, input);
    forall i | 0 <= i < |lines| ensures IsLine(once[i]) && rewrite(once[i]) == once[i] {
      RewrittenIsOneLine(parse, show, lines[i]);
      RewriteSettles(parse, show, lines[i]);
    }
    EventStream.SplitJoin(once);
    EventStream.WholeIsMapJoin(rewrite, EventStream.Join(once));
    assert EventStream.Mapped(rewrite, once) == once;
  }
}

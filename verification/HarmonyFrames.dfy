/**
 * What the harmony rewriting makes of a body and of a `data:` line, told by the fields of the JSON:
 * array contents become texts, reasoning moves beside them, and every such line is written anew.
 */
module HarmonyFrames {
  import opened Wrappers
  import opened Text
  import opened Trimming
  import opened HarmonyBody
  import EventStream

  // ---------------------------------------------------------------------------
  // Parts
  // ---------------------------------------------------------------------------

  /** The string a field holds, as a list of at most one. */
  function StringIn(value: Json, key: string): seq<string> {
    if value.Object? && key in value.fields && value.fields[key].Str? then [value.fields[key].s] else []
  }

  predicate Typed(part: Json, name: string) { StringIn(part, "type") == [name] }

  /** The texts of the entries a list field holds. */
  function EntryTexts(entries: seq<Json>): seq<string> {
    if entries == [] then [] else StringIn(entries[0], "text") + EntryTexts(entries[1..])
  }

  function ListIn(value: Json, key: string): seq<Json> {
    if value.Object? && key in value.fields && value.fields[key].Array? then value.fields[key].items else []
  }

  /** The text of all `text` parts, one after another. */
  function FlatText(parts: seq<Json>): string {
    if parts == [] then ""
    else (if Typed(parts[0], "text") && StringIn(parts[0], "text") != [] then StringIn(parts[0], "text")[0] else "") + FlatText(parts[1..])
  }

  /** The texts of all `reasoning` parts: of each its own, those of its summary, and those of its content. */
  function AllThoughts(parts: seq<Json>): seq<string> {
    if parts == [] then []
    else PartThoughts(parts[0]) + AllThoughts(parts[1..])
  }

  /** The texts with a line break between them. */
  function OnLines(texts: seq<string>): string {
    if texts == [] then "" else if |texts| == 1 then texts[0] else texts[0] + "\n" + OnLines(texts[1..])
  }

  lemma {:induction false} StringInIs(value: Json, key: string)
    ensures key == "text" ==> TextOf(value) == StringIn(value, key)
    ensures key == "type" ==> forall name :: IsPart(value, name) <==> Typed(value, name)
    ensures EntriesOf(value, key) == ListIn(value, key)
  {
  }

  lemma {:induction false} EntryTextsAre(entries: seq<Json>)
    ensures TextsOf(entries) == EntryTexts(entries)
    decreases |entries|
  {
    if entries != [] {
      StringInIs(entries[0], "text");
      EntryTextsAre(entries[1..]);
    }
  }

  lemma {:induction false} FlatTextIs(parts: seq<Json>)
    ensures Concatenated(Texts(parts)) == FlatText(parts)
    decreases |parts|
  {
    hide TextOf, StringIn, Typed, IsPart;
    if parts != [] {
      StringInIs(parts[0], "text");
      StringInIs(parts[0], "type");
      FlatTextIs(parts[1..]);
      FirstText(parts);
      ContributionIs(parts[0]);
    }
  }

  lemma {:induction false} ContributionIs(part: Json)
    ensures Contribution(part) == if Typed(part, "text") && StringIn(part, "text") != [] then StringIn(part, "text")[0] else ""
  {
  }

  /** The thoughts of one part. */
  function PartThoughts(part: Json): seq<string> {
    if Typed(part, "reasoning") then
      StringIn(part, "text") + EntryTexts(ListIn(part, "summary")) + EntryTexts(ListIn(part, "content"))
    else []
  }

  lemma {:induction false} PartThoughtsAre(part: Json)
    ensures Thoughts(part) == PartThoughts(part)
  {
    hide TextOf, StringIn, Typed, IsPart, TextsOf, EntryTexts, EntriesOf, ListIn;
    StringInIs(part, "text");
    StringInIs(part, "type");
    StringInIs(part, "summary");
    StringInIs(part, "content");
    EntryTextsAre(ListIn(part, "summary"));
    EntryTextsAre(ListIn(part, "content"));
  }

  lemma {:induction false} AllThoughtsAre(parts: seq<Json>)
    ensures Reasonings(parts) == AllThoughts(parts)
    decreases |parts|
  {
    hide Thoughts, PartThoughts;
    if parts != [] {
      PartThoughtsAre(parts[0]);
      AllThoughtsAre(parts[1..]);
    }
  }

  lemma {:induction false} OnLinesIs(texts: seq<string>)
    ensures EventStream.Join(texts) == OnLines(texts)
    decreases |texts|
  {
    if |texts| > 1 { OnLinesIs(texts[1..]); }
  }

  // ---------------------------------------------------------------------------
  // Bodies
  // ---------------------------------------------------------------------------

  /** The object of a choice that is looked at: of a streamed chunk its delta, of a completion its message. */
  function Part(streamed: bool): string { if streamed then "delta" else "message" }

  /** A choice whose `content` is an array. */
  predicate Harmonic(choice: Json, streamed: bool) {
    && choice.Object? && Part(streamed) in choice.fields && choice.fields[Part(streamed)].Object?
    && "content" in choice.fields[Part(streamed)].fields && choice.fields[Part(streamed)].fields["content"].Array?
  }

  predicate Lists(body: Json) { body.Object? && "choices" in body.fields && body.fields["choices"].Array? }

  /** A body a strict client rejects. */
  predicate HarmonicBody(body: Json, streamed: bool) {
    Lists(body) && exists i :: 0 <= i < |body.fields["choices"].items| && Harmonic(body.fields["choices"].items[i], streamed)
  }

  predicate Lacks(fields: map<string, Json>, key: string) { key !in fields || fields[key] == Null }

  /** A message rewritten: its text, the reasoning beside it, and every other field as it was. */
  ghost predicate Rewritten(fields: map<string, Json>, fixed: map<string, Json>, parts: seq<Json>, streamed: bool) {
    && (if streamed && FlatText(parts) == "" then "content" !in fixed else "content" in fixed && fixed["content"] == Str(FlatText(parts)))
    && (if OnLines(AllThoughts(parts)) != "" && Lacks(fields, "reasoning_content") && Lacks(fields, "reasoning")
        then "reasoning_content" in fixed && fixed["reasoning_content"] == Str(OnLines(AllThoughts(parts)))
        else Get(fixed, "reasoning_content") == Get(fields, "reasoning_content"))
    && forall key :: key != "content" && key != "reasoning_content" ==> Get(fixed, key) == Get(fields, key)
  }

  /** A choice rewritten in its one message, or left as it is. */
  ghost predicate ChoiceRewritten(choice: Json, fixed: Json, streamed: bool) {
    if !Harmonic(choice, streamed) then fixed == choice
    else
      var message := choice.fields[Part(streamed)].fields;
      exists m :: Rewritten(message, m, message["content"].items, streamed) && fixed == Object(choice.fields[Part(streamed) := Object(m)])
  }

  /** A body rewritten choice by choice, each in its place. */
  ghost predicate BodyRewritten(body: Json, fixed: Json, streamed: bool) {
    if !Lists(body) then fixed == body
    else
      && fixed.Object? && (forall key :: key != "choices" ==> Get(fixed.fields, key) == Get(body.fields, key)) && Lists(fixed)
      && var items, now := body.fields["choices"].items, fixed.fields["choices"].items;
         |now| == |items| && forall i :: 0 <= i < |items| ==> ChoiceRewritten(items[i], now[i], streamed)
  }

  lemma {:induction false} MessageIs(fields: map<string, Json>, streamed: bool)
    requires "content" in fields && fields["content"].Array?
    ensures FixMessage(fields, streamed).Some?
    ensures Rewritten(fields, FixMessage(fields, streamed).value, fields["content"].items, streamed)
  {
    hide Concatenated, Texts, Reasonings, FlatText, AllThoughts, OnLines, EventStream.Join;
    var parts := fields["content"].items;
    FlatTextIs(parts);
    AllThoughtsAre(parts);
    OnLinesIs(Reasonings(parts));
  }

  lemma {:induction false} ChoiceIs(choice: Json, streamed: bool)
    ensures FixChoice(choice, streamed).1 <==> Harmonic(choice, streamed)
    ensures ChoiceRewritten(choice, FixChoice(choice, streamed).0, streamed)
  {
    hide FixMessage, Rewritten;
    if Harmonic(choice, streamed) {
      MessageIs(choice.fields[Part(streamed)].fields, streamed);
    } else if choice.Object? && Part(streamed) in choice.fields && choice.fields[Part(streamed)].Object? {
      NoArray(choice.fields[Part(streamed)].fields, streamed);
    }
  }

  lemma {:induction false} NoArray(fields: map<string, Json>, streamed: bool)
    requires "content" in fields ==> !fields["content"].Array?
    ensures FixMessage(fields, streamed).None?
  {
  }

  /** The rewriting of a body: which bodies it changes, and into what. */
  lemma {:induction false} BodyIs(body: Json, streamed: bool)
    ensures BodyRewritten(body, Normalize(body, streamed).0, streamed)
    ensures Normalize(body, streamed).1 <==> HarmonicBody(body, streamed)
  {
    hide FixChoice, FixChoices, ChoiceRewritten, Harmonic;
    if Lists(body) {
      var items := body.fields["choices"].items;
      forall i | 0 <= i < |items|
        ensures FixChoice(items[i], streamed).1 <==> Harmonic(items[i], streamed)
        ensures ChoiceRewritten(items[i], FixChoice(items[i], streamed).0, streamed)
      {
        ChoiceIs(items[i], streamed);
      }
    }
  }

  // ---------------------------------------------------------------------------
  // Lines
  // ---------------------------------------------------------------------------

  /** A text without blanks at its ends, and not empty. */
  predicate Solid(s: string) { s != "" && !IsSpace(s[0]) && !IsSpace(s[|s| - 1]) }

  /** A data line with this payload, blanks around it aside. */
  ghost predicate Framed(line: string, payload: string) {
    Solid(payload) && exists a, z :: Blanks(a) && Blanks(z) && line == "data:" + a + payload + z
  }

  lemma {:induction false} TrimmedIs(a: string, payload: string, z: string)
    requires Blanks(a) && Blanks(z) && Solid(payload)
    ensures Trim(a + payload + z) == payload
  {
    assert a + payload + z == a + (payload + z);
    assert (payload + z)[0] == payload[0];
    TrimStartIs(a, payload + z);
    TrimEndIs(payload, z);
  }

  lemma {:induction false} TrimmedFrames(line: string)
    requires "data:" <= line && Trim(line[5..]) != ""
    ensures Framed(line, Trim(line[5..]))
  {
    hide TrimStart, TrimEnd;
    var rest := line[5..];
    var a := TrimStartParts(rest);
    var z := TrimEndParts(TrimStart(rest));
    var payload := Trim(rest);
    assert payload[0] == TrimStart(rest)[0];
    assert line == "data:" + rest;
    assert "data:" + (a + (payload + z)) == "data:" + a + payload + z;
  }

  lemma {:induction false} FramedTrims(line: string, payload: string)
    requires Framed(line, payload)
    ensures "data:" <= line && Trim(line[5..]) == payload
  {
    hide Trim;
    var a, z :| Blanks(a) && Blanks(z) && line == "data:" + a + payload + z;
    assert line == "data:" + (a + payload + z);
    assert line[5..] == a + payload + z;
    TrimmedIs(a, payload, z);
  }

  /** The line carries a body a strict client rejects. */
  ghost predicate Offends(parse: string -> Option<Json>, line: string, payload: string) {
    Framed(line, payload) && payload != "[DONE]" && parse(payload).Some? && HarmonicBody(parse(payload).value, true)
  }

  /** A data line that carries an array content is written anew with its body rewritten; every other line is left alone. */
  lemma {:induction false} LineIs(parse: string -> Option<Json>, show: Json -> string, line: string, payload: string)
    ensures Offends(parse, line, payload) ==>
              exists fixed :: BodyRewritten(parse(payload).value, fixed, true) && RewriteLine(parse, show, line) == "data: " + show(fixed)
    ensures (forall other :: !Offends(parse, line, other)) ==> RewriteLine(parse, show, line) == line
  {
    hide Trim, Normalize, BodyRewritten, HarmonicBody, Framed, Solid;
    if Offends(parse, line, payload) {
      FramedTrims(line, payload);
      FramedSolid(line, payload);
      var body := parse(payload).value;
      BodyIs(body, true);
      assert RewriteLine(parse, show, line) == "data:" + " " + show(Normalize(body, true).0);
    } else if DATA <= line && Trim(line[5..]) != "" {
      var own := Trim(line[5..]);
      TrimmedFrames(line);
      if parse(own).Some? {
        BodyIs(parse(own).value, true);
        assert own != "[DONE]" && HarmonicBody(parse(own).value, true) ==> Offends(parse, line, own);
      }
    }
  }

  lemma {:induction false} FramedSolid(line: string, payload: string)
    requires Framed(line, payload)
    ensures payload != ""
  {
  }

  // ---------------------------------------------------------------------------
  // A whole stream
  // ---------------------------------------------------------------------------

  /**
   * A body without array contents is printed on one line, without blanks around it, and if that is
   * read, then as a body without them.
   */
  ghost predicate PrintsStrictly(parse: string -> Option<Json>, show: Json -> string) {
    forall j :: !HarmonicBody(j, true) ==>
      && Solid(show(j)) && IsLine(show(j)) && (parse(show(j)).Some? ==> !HarmonicBody(parse(show(j)).value, true))
  }

  /** A rewritten body has no array content. */
  lemma {:induction false} RewrittenIsStrict(body: Json, fixed: Json)
    requires BodyRewritten(body, fixed, true)
    ensures !HarmonicBody(fixed, true)
  {
    hide Rewritten, FlatText, AllThoughts, OnLines;
    if Lists(body) {
      var items, now := body.fields["choices"].items, fixed.fields["choices"].items;
      forall i | 0 <= i < |now| ensures !Harmonic(now[i], true) { ChoiceIsStrict(items[i], now[i]); }
    }
  }

  lemma {:induction false} ChoiceIsStrict(choice: Json, fixed: Json)
    requires ChoiceRewritten(choice, fixed, true)
    ensures !Harmonic(fixed, true)
  {
    hide FlatText, AllThoughts, OnLines;
    if Harmonic(choice, true) {
      var message := choice.fields["delta"].fields;
      var m :| Rewritten(message, m, message["content"].items, true) && fixed == Object(choice.fields[Part(true) := Object(m)]);
    }
  }

  lemma {:induction false} OffenceParses(parse: string -> Option<Json>, line: string, payload: string)
    requires Offends(parse, line, payload)
    ensures parse(payload).Some?
  {
    hide Framed, HarmonicBody;
  }

  lemma {:induction false} LineIsStrict(parse: string -> Option<Json>, show: Json -> string, line: string)
    requires PrintsStrictly(parse, show) && IsLine(line)
    ensures IsLine(RewriteLine(parse, show, line))
    ensures forall payload :: !Offends(parse, RewriteLine(parse, show, line), payload)
  {
    hide RewriteLine, BodyRewritten, HarmonicBody, Framed, Solid, Offends;
    if payload :| Offends(parse, line, payload) {
      OffenceParses(parse, line, payload);
      LineIs(parse, show, line, payload);
      var fixed :| BodyRewritten(parse(payload).value, fixed, true) && RewriteLine(parse, show, line) == "data: " + show(fixed);
      RewrittenIsStrict(parse(payload).value, fixed);
      ShownIsStrict(parse, show, fixed);
    } else {
      LineIs(parse, show, line, "");
    }
  }

  lemma {:induction false} ShownIsStrict(parse: string -> Option<Json>, show: Json -> string, fixed: Json)
    requires PrintsStrictly(parse, show) && !HarmonicBody(fixed, true)
    ensures IsLine("data: " + show(fixed))
    ensures forall payload :: !Offends(parse, "data: " + show(fixed), payload)
  {
    hide HarmonicBody, Framed, Trim;
    var line := "data: " + show(fixed);
    assert line[5..] == " " + show(fixed) + "";
    TrimmedIs(" ", show(fixed), "");
    forall payload ensures !Offends(parse, line, payload) {
      if Framed(line, payload) { FramedTrims(line, payload); }
    }
  }

  /** Whatever the stream was, no data line of the normalized one carries an array content. */
  lemma {:induction false} StreamIsStrict(parse: string -> Option<Json>, show: Json -> string, input: string)
    requires PrintsStrictly(parse, show)
    ensures var output := EventStream.Whole(Rewriter(parse, show), input);
            forall line, payload :: line in EventStream.Split(output) ==> !Offends(parse, line, payload)
  {
    hide RewriteLine, PrintsStrictly, Offends, EventStream.Split, EventStream.Whole, EventStream.Join, IsLine;
    var rewrite := Rewriter(parse, show);
    var lines := EventStream.Split(input);
    EmptyStays(parse, show);
    EventStream.WholeIsMapJoin(rewrite, input);
    var out := EventStream.Mapped(rewrite, lines);
    forall i | 0 <= i < |out| ensures IsLine(out[i]) && forall payload :: !Offends(parse, out[i], payload) {
      LineIsStrict(parse, show, lines[i]);
    }
    EventStream.SplitJoin(out);
  }

  lemma {:induction false} EmptyStays(parse: string -> Option<Json>, show: Json -> string)
    ensures RewriteLine(parse, show, "") == ""
  {
  }
}

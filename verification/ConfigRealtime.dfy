/** Realtime edits: where their line or value lands, and what the file then declares. */
module ConfigRealtime {
  import opened Wrappers
  import opened Text
  import opened SourceLexer
  import opened ObjectScan
  import opened ConfigEdit
  import opened ConfigReplace
  import opened ConfigInsert
  import opened ConfigLines
  import opened ConfigEntries
  import opened ConfigFields
  import opened ConfigGrowth
  import opened ConfigSwallowed
  import opened ConfigNested
  import opened ConfigValue
  import opened ConfigAccepted
  import opened ConfigLands

  // ---------------------------------------------------------------------------
  // What the file says
  // ---------------------------------------------------------------------------

  lemma {:induction false} SaysReads(parsed: Parsed, entries: seq<ObjectEntry>, name: string, value: seq<Piece>)
    requires FindEntry(entries, name).Some? && Says(parsed.source, parsed.kinds, FindEntry(entries, name).value, name, value)
    ensures Reads(parsed, entries, name, Written(value))
  {
    hide FindEntry, Written, Labels;
    SaysText(parsed.source, parsed.kinds, FindEntry(entries, name).value, name, value);
  }

  /** A `preview` object that says the value asked for. */
  lemma {:induction false} ValueIsSaid(parsed: Parsed, s2: string, k2: seq<Kind>, preview2: ObjectScan, enabled: bool,
                                       origins: Option<seq<string>>)
    requires RootHolds(parsed, "preview", s2, k2, preview2) && Gains(s2, k2, preview2, "realtime", RealtimePieces(enabled, origins))
    ensures WellRead(Parse(s2).value) && RealtimeSays(Parse(s2).value, enabled, origins)
  {
    hide Parse, Plain, Holds, OthersKept, FindEntry, ObjectUnder, Written, Labels, RealtimePieces, RealtimeValue, Reads, Says;
    RootObject(parsed, "preview", s2, k2, preview2);
    RealtimeReads();
    RealtimeIsValue(enabled, origins);
    SaysReads(Parse(s2).value, preview2.entries, "realtime", RealtimePieces(enabled, origins));
  }

  lemma {:induction false} RealtimeReads()
    ensures IsIdentifier("realtime") && IsIdentifier("allowedOrigins") && IsIdentifier("preview")
    ensures KeyReads("realtime") && KeyReads("allowedOrigins")
  {
    hide JsonBody;
  }

  /** A `preview` object without `realtime` declares nothing. */
  lemma {:induction false} ValueIsMissing(parsed: Parsed, s2: string, k2: seq<Kind>, preview2: ObjectScan,
                                          enabled: bool, origins: Option<seq<string>>)
    requires RootHolds(parsed, "preview", s2, k2, preview2) && FindEntry(preview2.entries, "realtime").None?
    ensures WellRead(Parse(s2).value) && !RealtimeSays(Parse(s2).value, enabled, origins)
  {
    hide Parse, Plain, Holds, OthersKept, FindEntry, ObjectOf, RealtimeValue;
    RootObject(parsed, "preview", s2, k2, preview2);
  }

  // ---------------------------------------------------------------------------
  // The settings object under `preview.realtime`
  // ---------------------------------------------------------------------------

  /** The settings object has changed in its place, three levels down. */
  lemma {:induction false} SettingsAround(s: string, preview: ObjectScan, settings: ObjectScan, s2: string,
                                          k2: seq<Kind>, settings2: ObjectScan)
    returns (preview2: ObjectScan)
    requires Parse(s).Success? && WellRead(Parse(s).value)
    requires ObjectUnder(Parse(s).value, Parse(s).value.root.entries, "preview") == Some(preview)
    requires ObjectUnder(Parse(s).value, preview.entries, "realtime") == Some(settings)
    requires Changed(s, Parse(s).value.kinds, settings, s2, k2, settings2)
    ensures RootHolds(Parse(s).value, "preview", s2, k2, preview2) && Plain(preview2.entries)
    ensures FindEntry(preview2.entries, "realtime").Some?
    ensures |s2| == |k2| && Holds(s2, k2, FindEntry(preview2.entries, "realtime").value, settings2)
  {
    hide Parse, Plain, OthersKept, FindEntry, ObjectUnder, Changed, ReplacedEntries, Lex, FindConfigObject, Agree, RootHolds, ScanObject;
    var parsed := ParsedIs(s);
    UnderIs(parsed, parsed.root.entries, "preview", preview);
    UnderIs(parsed, preview.entries, "realtime", settings);
    var j := FoundAt(preview.entries, "realtime");
    var d;
    preview2, d := OuterChanged(s, parsed.kinds, preview, j, settings, s2, k2, settings2);
    ChangedLengths(s, parsed.kinds, settings, s2, k2, settings2);
    OuterOthers(s, parsed.kinds, preview, j, settings, s2, k2, preview2, d, "realtime");
    RootAround(s, "preview", preview, s2, k2, preview2);
  }

  /** Settings that say the origins asked for. */
  lemma {:induction false} OriginsAreSaid(parsed: Parsed, s2: string, k2: seq<Kind>, preview2: ObjectScan,
                                          settings2: ObjectScan, origins: seq<string>)
    requires RootHolds(parsed, "preview", s2, k2, preview2) && Plain(preview2.entries)
    requires FindEntry(preview2.entries, "realtime").Some? && Holds(s2, k2, FindEntry(preview2.entries, "realtime").value, settings2)
    requires Gains(s2, k2, settings2, "allowedOrigins", OriginsValue(origins))
    ensures WellRead(Parse(s2).value) && RealtimeSays(Parse(s2).value, true, Some(origins))
  {
    hide Parse, Plain, Holds, OthersKept, FindEntry, ObjectOf, Written, Labels, OriginsValue, RealtimeValue, JsonList, Says, Reads, KeyReads;
    RootObject(parsed, "preview", s2, k2, preview2);
    RealtimeReads();
    OriginsIsValue(origins);
    SettingsSay(Parse(s2).value, preview2, settings2, OriginsValue(origins));
  }

  lemma {:induction false} SettingsSay(parsed: Parsed, preview: ObjectScan, settings: ObjectScan, value: seq<Piece>)
    requires |parsed.source| == |parsed.kinds| && FindEntry(preview.entries, "realtime").Some?
    requires Holds(parsed.source, parsed.kinds, FindEntry(preview.entries, "realtime").value, settings) && Plain(settings.entries)
    requires FindEntry(settings.entries, "allowedOrigins").Some?
    requires Says(parsed.source, parsed.kinds, FindEntry(settings.entries, "allowedOrigins").value, "allowedOrigins", value)
    ensures ObjectUnder(parsed, preview.entries, "realtime") == Some(settings)
    ensures Reads(parsed, settings.entries, "allowedOrigins", Written(value))
  {
    hide Plain, FindEntry, ObjectOf, ScanObject, Says, Reads, Written;
    HeldObject(parsed, FindEntry(preview.entries, "realtime").value, settings);
    SaysReads(parsed, settings.entries, "allowedOrigins", value);
  }

  lemma {:induction false} OriginsLine(origins: seq<string>)
    ensures Line("allowedOrigins", OriginsValue(origins)) == OriginsLineText(origins)
  {
    hide Written, OriginsValue, JsonList, RenderKey, IsIdentifier, KeyReads;
    OriginsIsValue(origins);
    FieldText("allowedOrigins", OriginsValue(origins));
    RealtimeReads();
    NameIsIdent("allowedOrigins");
  }

  lemma {:induction false} RealtimeLine(enabled: bool, origins: Option<seq<string>>)
    ensures Line("realtime", RealtimePieces(enabled, origins)) == RealtimeLineText(enabled, origins)
  {
    hide Written, RealtimePieces, RealtimeValue, RenderKey, IsIdentifier, KeyReads;
    RealtimeIsValue(enabled, origins);
    FieldText("realtime", RealtimePieces(enabled, origins));
    RealtimeReads();
    NameIsIdent("realtime");
  }

  // ---------------------------------------------------------------------------
  // Origins swallowed
  // ---------------------------------------------------------------------------

  lemma {:induction false} JsonOneLine(t: string)
    ensures IsLine(JsonBody(t))
    decreases |t|
  {
    if t != [] {
      CharOneLine(t[0]);
      JsonOneLine(t[1..]);
    }
  }

  lemma {:induction false} CharOneLine(c: char)
    ensures IsLine(JsonChar(c))
  {
    if c < ' ' {
      DigitOneLine(c as int / 16);
      DigitOneLine(c as int % 16);
    }
  }

  lemma {:induction false} DigitOneLine(n: nat)
    requires n < 16
    ensures HexDigit(n) != '\n'
  {
  }

  lemma {:induction false} ItemsOneLine(items: seq<string>)
    ensures IsLine(Joined(JsonStrings(items), ","))
    decreases |items|
  {
    if items != [] {
      JsonOneLine(items[0]);
      ItemsOneLine(items[1..]);
      JsonStringsLength(items);
    }
  }

  lemma {:induction false} ValueOneLine(origins: seq<string>)
    ensures IsLine(RealtimeValue(true, Some(origins)))
  {
    hide Joined, JsonStrings;
    ItemsOneLine(origins);
  }

  /** A line that was appended broke the text inside the braces. */
  lemma {:induction false} BreakInside(parsed: Parsed, scan: ObjectScan, lines: seq<string>, s2: string, k2: seq<Kind>, scan2: ObjectScan)
    returns (p: nat)
    requires ReadOf(parsed, scan) && !InCode(parsed, Place(scan, None)) && Put(parsed, Place(scan, None), lines, s2)
    requires Changed(parsed.source, parsed.kinds, scan, s2, k2, scan2)
    ensures scan2.open < p < scan2.close < |s2| && s2[p] == '\n'
  {
    hide Lex, FindConfigObject, ScanObject, InsertLast, StartsLine, LineEnd, LineIndent, HasCrLf, JoinedLines, Agree, ConfigKept, SeparatorIn;
    var s := parsed.source;
    var indent := LineIndent(s, scan.entries[0].start);
    var end, lineEnd, nl, c := AppendedSource(parsed, scan, lines, indent, s2);
    LastBehindBrace(s, parsed.kinds, scan);
    p := lineEnd + |c| + |parsed.eol| - 1;
    var head := s[..end] + c + s[end..lineEnd];
    var joined := JoinedLines(lines, indent, parsed.eol);
    BreakAt(head, parsed.eol, joined, s[lineEnd..], s2, p);
  }

  lemma {:induction false} BreakAt(head: string, eol: string, joined: string, rest: string, s2: string, p: nat)
    requires IsEol(eol) && s2 == head + (eol + joined) + rest && p == |head| + |eol| - 1
    ensures p < |s2| - |rest| && s2[p] == '\n'
  {
    assert s2 == head + eol + joined + rest;
  }

  /** Text with a line break is not the value asked for. */
  lemma {:induction false} BrokenIsOther(s: string, lo: nat, hi: nat, p: nat, text: string)
    requires lo <= p < hi <= |s| && s[p] == '\n' && IsLine(text)
    ensures s[lo..hi] != text
  {
    assert s[lo..hi][p - lo] == '\n';
  }

  /** Settings that have swallowed the line declare other origins than those asked for. */
  lemma {:induction false} OriginsAreMissing(parsed: Parsed, s2: string, k2: seq<Kind>, preview2: ObjectScan, settings2: ObjectScan,
                                             origins: seq<string>, p: nat)
    requires RootHolds(parsed, "preview", s2, k2, preview2) && Plain(preview2.entries)
    requires FindEntry(preview2.entries, "realtime").Some? && Holds(s2, k2, FindEntry(preview2.entries, "realtime").value, settings2)
    requires FindEntry(settings2.entries, "allowedOrigins").None? && settings2.open < p < settings2.close < |s2| && s2[p] == '\n'
    ensures WellRead(Parse(s2).value) && !RealtimeSays(Parse(s2).value, true, Some(origins))
  {
    hide Parse, Plain, OthersKept, FindEntry, ObjectOf, RealtimeValue, JsonList, Holds, IsLine;
    RootObject(parsed, "preview", s2, k2, preview2);
    ValueOneLine(origins);
    SettingsDiffer(Parse(s2).value, preview2, settings2, RealtimeValue(true, Some(origins)), JsonList(origins), p);
  }

  lemma {:induction false} SettingsDiffer(parsed: Parsed, preview: ObjectScan, settings: ObjectScan, desired: string,
                                          origins: string, p: nat)
    requires |parsed.source| == |parsed.kinds| && FindEntry(preview.entries, "realtime").Some?
    requires Holds(parsed.source, parsed.kinds, FindEntry(preview.entries, "realtime").value, settings)
    requires FindEntry(settings.entries, "allowedOrigins").None?
    requires settings.open < p < settings.close < |parsed.source| && parsed.source[p] == '\n' && IsLine(desired)
    ensures !Reads(parsed, preview.entries, "realtime", desired)
    ensures ObjectUnder(parsed, preview.entries, "realtime").Some? ==>
              !Reads(parsed, ObjectUnder(parsed, preview.entries, "realtime").value.entries, "allowedOrigins", origins)
  {
    hide Plain, FindEntry, ObjectOf, IsLine, ScanObject;
    HeldObject(parsed, FindEntry(preview.entries, "realtime").value, settings);
    BrokenIsOther(parsed.source, settings.open, settings.close + 1, p, desired);
  }

  // ---------------------------------------------------------------------------
  // The cases of a Realtime edit
  // ---------------------------------------------------------------------------

  /** The place of a new line for Realtime: its own, its origins', or that of a new `preview` block. */
  ghost function RealtimePlace(parsed: Parsed, enabled: bool, origins: Option<seq<string>>): Option<Place>
    requires WellRead(parsed)
  {
    var entries := parsed.root.entries;
    if FindEntry(entries, "preview").None? then Some(RootPlace(parsed, "preview"))
    else
      var preview := ObjectUnder(parsed, entries, "preview");
      if preview.None? then None
      else if FindEntry(preview.value.entries, "realtime").None? then Some(Place(preview.value, None))
      else if Reads(parsed, preview.value.entries, "realtime", RealtimeValue(enabled, origins)) then None
      else
        var settings := ObjectUnder(parsed, preview.value.entries, "realtime");
        if enabled && origins.Some? && settings.Some? && FindEntry(settings.value.entries, "allowedOrigins").None? then
          Some(Place(settings.value, None))
        else None
  }

  /** The text a Realtime edit writes. */
  function RealtimeLineText(enabled: bool, origins: Option<seq<string>>): string {
    "realtime: " + RealtimeValue(enabled, origins) + ","
  }

  function OriginsLineText(origins: seq<string>): string { "allowedOrigins: " + JsonList(origins) + "," }

  lemma {:induction false} PreviewLines(line: string, unit: string)
    ensures ["preview: {", unit + line, "},"] == ContainerOf("preview", line, unit)
  {
    assert "preview: {" == "preview" + ": {";
  }

  /** The file `t` is read, and says what was asked for. */
  ghost predicate RealtimeInText(t: string, enabled: bool, origins: Option<seq<string>>) {
    Parse(t).Success? && WellRead(Parse(t).value) && RealtimeSays(Parse(t).value, enabled, origins)
  }

  lemma {:induction false} NewPreview(s: string, enabled: bool, origins: Option<seq<string>>, t: string)
    requires Parse(s).Success? && WellRead(Parse(s).value) && FindEntry(Parse(s).value.root.entries, "preview").None?
    requires Put(Parse(s).value, RootPlace(Parse(s).value, "preview"),
                 ContainerOf("preview", RealtimeLineText(enabled, origins), Parse(s).value.unit), t)
    ensures var code := InCode(Parse(s).value, RootPlace(Parse(s).value, "preview"));
            code || NoTerminator(RealtimeLineText(enabled, origins)) ==> (RealtimeInText(t, enabled, origins) <==> code)
  {
    hide Parse, FindEntry, Line, IsValue, RootHolds, RealtimeSays, Gains, NoTerminator, RealtimeValue, RootPlace, InCode, Put, ContainerOf,
      RealtimePieces, IsIdentifier, KeyReads, RealtimeLineText;
    var parsed := Parse(s).value;
    RealtimeReads();
    RealtimeIsValue(enabled, origins);
    RealtimeLine(enabled, origins);
    var value := RealtimePieces(enabled, origins);
    if InCode(parsed, RootPlace(parsed, "preview")) {
      var k2, inner := ContainerLands(s, "preview", "realtime", value, t);
      HoldsRoot(parsed, "preview", t, k2, inner);
      ValueIsSaid(parsed, t, k2, inner, enabled, origins);
    } else if NoTerminator(RealtimeLineText(enabled, origins)) {
      ContainerSwallowed(s, "preview", "realtime", value, t);
      NoPreviewSaysNothing(Parse(t).value, enabled, origins);
    }
  }

  lemma {:induction false} NoPreviewSaysNothing(parsed: Parsed, enabled: bool, origins: Option<seq<string>>)
    requires WellRead(parsed) && FindEntry(parsed.root.entries, "preview").None?
    ensures !RealtimeSays(parsed, enabled, origins)
  {
    hide FindEntry, RealtimeValue, JsonList;
  }

  lemma {:induction false} NewRealtime(s: string, preview: ObjectScan, enabled: bool, origins: Option<seq<string>>, t: string)
    requires Parse(s).Success? && WellRead(Parse(s).value)
    requires ObjectUnder(Parse(s).value, Parse(s).value.root.entries, "preview") == Some(preview)
    requires FindEntry(preview.entries, "realtime").None?
    requires Put(Parse(s).value, Place(preview, None), [RealtimeLineText(enabled, origins)], t)
    ensures var code := InCode(Parse(s).value, Place(preview, None));
            code || NoTerminator(RealtimeLineText(enabled, origins)) ==> (RealtimeInText(t, enabled, origins) <==> code)
  {
    hide Parse, FindEntry, Line, IsValue, RootHolds, RealtimeSays, Gains, NoTerminator, RealtimeValue, Holds, InCode, Put,
      RealtimePieces, KeyReads, Lex, ScanObject, HasCrLf, FindConfigObject, Plain, Changed, ObjectUnder, RealtimeLineText;
    var parsed := ParsedIs(s);
    UnderIs(parsed, parsed.root.entries, "preview", preview);
    HeldRead(parsed, preview, FindEntry(parsed.root.entries, "preview").value);
    RealtimeIsValue(enabled, origins);
    RealtimeLine(enabled, origins);
    if InCode(parsed, Place(preview, None)) {
      var k2, scan2 := LineLands(parsed, preview, "realtime", RealtimePieces(enabled, origins), t);
      RootAround(s, "preview", preview, t, k2, scan2);
      HoldsRoot(parsed, "preview", t, k2, scan2);
      ValueIsSaid(parsed, t, k2, scan2, enabled, origins);
    } else if NoTerminator(RealtimeLineText(enabled, origins)) {
      var k2, scan2 := LineSwallowed(parsed, preview, RealtimeLineText(enabled, origins), "realtime", t);
      RootAround(s, "preview", preview, t, k2, scan2);
      HoldsRoot(parsed, "preview", t, k2, scan2);
      ValueIsMissing(parsed, t, k2, scan2, enabled, origins);
    }
  }

  lemma {:induction false} NewOrigins(s: string, preview: ObjectScan, settings: ObjectScan, origins: seq<string>, t: string)
    requires Parse(s).Success? && WellRead(Parse(s).value)
    requires ObjectUnder(Parse(s).value, Parse(s).value.root.entries, "preview") == Some(preview)
    requires ObjectUnder(Parse(s).value, preview.entries, "realtime") == Some(settings)
    requires FindEntry(settings.entries, "allowedOrigins").None?
    requires Put(Parse(s).value, Place(settings, None), [OriginsLineText(origins)], t)
    ensures var code := InCode(Parse(s).value, Place(settings, None));
            code || NoTerminator(OriginsLineText(origins)) ==> (RealtimeInText(t, true, Some(origins)) <==> code)
  {
    hide Parse, FindEntry, Line, IsValue, RootHolds, RealtimeSays, Gains, NoTerminator, JsonList, Holds, InCode, Put,
      OriginsValue, KeyReads, Lex, ScanObject, HasCrLf, FindConfigObject, Plain, Changed, ObjectUnder, OriginsLineText;
    var parsed := ParsedIs(s);
    UnderIs(parsed, parsed.root.entries, "preview", preview);
    UnderIs(parsed, preview.entries, "realtime", settings);
    HeldRead(parsed, settings, FindEntry(preview.entries, "realtime").value);
    OriginsIsValue(origins);
    OriginsLine(origins);
    if InCode(parsed, Place(settings, None)) {
      var k2, scan2 := LineLands(parsed, settings, "allowedOrigins", OriginsValue(origins), t);
      var preview2 := SettingsAround(s, preview, settings, t, k2, scan2);
      HoldsRoot(parsed, "preview", t, k2, preview2);
      OriginsAreSaid(parsed, t, k2, preview2, scan2, origins);
    } else if NoTerminator(OriginsLineText(origins)) {
      var k2, scan2 := LineSwallowed(parsed, settings, OriginsLineText(origins), "allowedOrigins", t);
      var preview2 := SettingsAround(s, preview, settings, t, k2, scan2);
      HoldsRoot(parsed, "preview", t, k2, preview2);
      var p := BreakInside(parsed, settings, [OriginsLineText(origins)], t, k2, scan2);
      OriginsAreMissing(parsed, t, k2, preview2, scan2, origins, p);
    }
  }

  /** An entry whose value was replaced says the new value. */
  lemma {:induction false} ReplacedGains(scan: ObjectScan, j: nat, d: int, scan2: ObjectScan, s2: string,
                                         k2: seq<Kind>, name: string, value: seq<Piece>)
    requires Plain(scan.entries) && ReplacedEntries(scan, j, d, scan2.entries) && KeyReads(name)
    requires j < |scan2.entries| && Says(s2, k2, scan2.entries[j], name, value)
    ensures Gains(s2, k2, scan2, name, value)
  {
    hide Plain, FindEntry, ReplacedEntries, Written, Labels, KeyReads;
    ReplacedAt(scan, j, d, scan2.entries);
    SameKeysPlain(scan.entries, scan2.entries);
    SaysKey(s2, k2, scan2.entries[j], name, value);
    PlainFind(scan2.entries, j, name);
  }

  lemma {:induction false} RealtimeReplaced(s: string, preview: ObjectScan, enabled: bool, origins: Option<seq<string>>, t: string)
    requires Parse(s).Success? && WellRead(Parse(s).value)
    requires ObjectUnder(Parse(s).value, Parse(s).value.root.entries, "preview") == Some(preview)
    requires FindEntry(preview.entries, "realtime").Some?
    requires var e := FindEntry(preview.entries, "realtime").value;
             && e.keyed && 0 <= e.valueStart <= e.valueEnd <= |s| && t == s[..e.valueStart] + RealtimeValue(enabled, origins) + s[e.valueEnd..]
    ensures Parse(t).Success? && WellRead(Parse(t).value) && RealtimeSays(Parse(t).value, enabled, origins)
  {
    hide Parse, FindEntry, IsValue, RootHolds, RealtimeSays, Gains, RealtimeValue, Holds, ReplacedEntries, RealtimePieces, KeyReads,
      Lex, ScanObject, HasCrLf, FindConfigObject, Plain, Changed, ObjectUnder, Says, Agree, Written;
    var parsed := ParsedIs(s);
    UnderIs(parsed, parsed.root.entries, "preview", preview);
    HeldRead(parsed, preview, FindEntry(parsed.root.entries, "preview").value);
    RealtimeIsValue(enabled, origins);
    RealtimeReads();
    var value := RealtimePieces(enabled, origins);
    var j := FoundAt(preview.entries, "realtime");
    var k2, scan2, d := ValueReplaced(s, parsed.kinds, preview, j, "realtime", value, t);
    ReplacedGains(preview, j, d, scan2, t, k2, "realtime", value);
    RootAround(s, "preview", preview, t, k2, scan2);
    HoldsRoot(parsed, "preview", t, k2, scan2);
    ValueIsSaid(parsed, t, k2, scan2, enabled, origins);
  }

  lemma {:induction false} OriginsReplaced(s: string, preview: ObjectScan, settings: ObjectScan, origins: seq<string>, t: string)
    requires Parse(s).Success? && WellRead(Parse(s).value)
    requires ObjectUnder(Parse(s).value, Parse(s).value.root.entries, "preview") == Some(preview)
    requires ObjectUnder(Parse(s).value, preview.entries, "realtime") == Some(settings)
    requires FindEntry(settings.entries, "allowedOrigins").Some?
    requires var e := FindEntry(settings.entries, "allowedOrigins").value;
             && e.keyed && 0 <= e.valueStart <= e.valueEnd <= |s| && t == s[..e.valueStart] + JsonList(origins) + s[e.valueEnd..]
    ensures Parse(t).Success? && WellRead(Parse(t).value) && RealtimeSays(Parse(t).value, true, Some(origins))
  {
    hide Parse, FindEntry, IsValue, RootHolds, RealtimeSays, Gains, JsonList, Holds, ReplacedEntries, OriginsValue, KeyReads,
      Lex, ScanObject, HasCrLf, FindConfigObject, Plain, Changed, ObjectUnder, Says, Agree, Written;
    var parsed := ParsedIs(s);
    UnderIs(parsed, parsed.root.entries, "preview", preview);
    UnderIs(parsed, preview.entries, "realtime", settings);
    HeldRead(parsed, settings, FindEntry(preview.entries, "realtime").value);
    OriginsIsValue(origins);
    RealtimeReads();
    var j := FoundAt(settings.entries, "allowedOrigins");
    var k2, scan2, d := ValueReplaced(s, parsed.kinds, settings, j, "allowedOrigins", OriginsValue(origins), t);
    ReplacedGains(settings, j, d, scan2, t, k2, "allowedOrigins", OriginsValue(origins));
    var preview2 := SettingsAround(s, preview, settings, t, k2, scan2);
    HoldsRoot(parsed, "preview", t, k2, preview2);
    OriginsAreSaid(parsed, t, k2, preview2, scan2, origins);
  }
}

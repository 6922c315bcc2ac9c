/**
 * What an edit of any kind does to the text of a `neon.ts` file: each step that changes it is one
 * replaced value or one inserted block with at most one comma, and can be undone; an edited file
 * is left alone by the same edit.
 */
module ConfigSteps {
  import opened Wrappers
  import opened SourceLexer
  import opened ObjectScan
  import opened ConfigEdit
  import opened ConfigAppend
  import opened ConfigReplace
  import opened ConfigInsert

  // ---------------------------------------------------------------------------
  // Splices
  // ---------------------------------------------------------------------------

  /** `separator` goes in at `comma`, and `inserted` takes the place of `removed` at `at`. */
  datatype Splice = Splice(comma: nat, separator: string, at: nat, removed: string, inserted: string)

  ghost predicate Fits(s: string, sp: Splice) {
    sp.comma <= sp.at && HasPrefixAt(s, sp.at, sp.removed)
  }

  function Spliced(s: string, sp: Splice): string
    requires Fits(s, sp)
  {
    s[..sp.comma] + sp.separator + s[sp.comma..sp.at] + sp.inserted + s[sp.at + |sp.removed|..]
  }

  /** The text before a splice, from the text after it and what the splice put in and took out. */
  function Unspliced(t: string, sp: Splice): string
    requires sp.comma <= sp.at && sp.at + |sp.separator| + |sp.inserted| <= |t|
  {
    t[..sp.comma] + t[sp.comma + |sp.separator|..sp.at + |sp.separator|] + sp.removed
    + t[sp.at + |sp.separator| + |sp.inserted|..]
  }

  lemma {:induction false} FiveParts(a: string, b: string, c: string, d: string, e: string)
    ensures var t := a + b + c + d + e;
            && t[..|a|] == a && t[|a| + |b|..|a| + |b| + |c|] == c && t[|a| + |b| + |c| + |d|..] == e
  {
    assert a + b + c + d + e == a + (b + c + d + e);
  }

  lemma {:induction false} UndoSplice(s: string, sp: Splice)
    requires Fits(s, sp)
    ensures sp.at + |sp.separator| + |sp.inserted| <= |Spliced(s, sp)|
    ensures Unspliced(Spliced(s, sp), sp) == s
  {
    FiveParts(s[..sp.comma], sp.separator, s[sp.comma..sp.at], sp.inserted, s[sp.at + |sp.removed|..]);
    assert s[..sp.comma] + s[sp.comma..sp.at] == s[..sp.at];
    assert s[..sp.at] + s[sp.at..sp.at + |sp.removed|] == s[..sp.at + |sp.removed|];
  }

  // ---------------------------------------------------------------------------
  // An inserted block
  // ---------------------------------------------------------------------------

  ghost predicate Blank(s: string) { AllSpace(s, 0, |s|) }

  /** `lines` on lines of their own, with only spaces around them. */
  ghost predicate IsBlock(inserted: string, lines: seq<string>, eol: string) {
    exists head, indent, tail ::
      Blank(head) && Blank(indent) && Blank(tail) && inserted == head + JoinedLines(lines, indent, eol) + tail
  }

  lemma {:induction false} BlockOf(head: string, lines: seq<string>, indent: string, eol: string, tail: string, inserted: string)
    requires Blank(head) && Blank(indent) && Blank(tail) && inserted == head + JoinedLines(lines, indent, eol) + tail
    ensures IsBlock(inserted, lines, eol)
  {
  }

  lemma {:induction false} IndentIsBlank(s: string, i: nat)
    requires i <= |s|
    ensures Blank(LineIndent(s, i))
  {
  }

  lemma {:induction false} BlankJoin(a: string, b: string)
    requires Blank(a) && Blank(b)
    ensures Blank(a + b)
  {
  }

  /** An insertion puts in a block of the new lines, and at most a comma; it removes only spaces. */
  ghost predicate Inserts(s: string, sp: Splice, lines: seq<string>, eol: string, t: string) {
    && Fits(s, sp) && t == Spliced(s, sp)
    && sp.separator in {"", ","} && Blank(sp.removed) && IsBlock(sp.inserted, lines, eol)
  }

  lemma {:induction false} InsertFirstSplices(parsed: Parsed, scan: ObjectScan, lines: seq<string>, t: string) returns (sp: Splice)
    requires scan.open < scan.close < |parsed.source| && IsEol(parsed.eol) && Blank(parsed.unit)
    requires InsertFirst(parsed, scan, lines) == Success(t)
    ensures Inserts(parsed.source, sp, lines, parsed.eol, t)
  {
    hide LineIndent, JoinedLines;
    var s, eol, at := parsed.source, parsed.eol, scan.open + 1;
    var base := LineIndent(s, scan.open);
    IndentIsBlank(s, scan.open);
    BlankJoin(base, parsed.unit);
    BlankJoin(eol, base);
    var joined := JoinedLines(lines, base + parsed.unit, eol);
    sp := Splice(at, "", at, s[at..scan.close], eol + joined + (eol + base));
    BlockOf(eol, lines, base + parsed.unit, eol, eol + base, sp.inserted);
    assert t == s[..at] + "" + s[at..at] + sp.inserted + s[scan.close..];
  }

  lemma {:induction false} InsertBeforeSplices(parsed: Parsed, scan: ObjectScan, lines: seq<string>, indent: string,
                                               before: ObjectEntry, t: string) returns (sp: Splice)
    requires |parsed.kinds| == |parsed.source| && 0 <= before.start <= |parsed.source| && IsEol(parsed.eol)
    requires lines != [] && Blank(indent) && InsertBefore(parsed, scan, lines, indent, before) == Success(t)
    ensures Inserts(parsed.source, sp, lines, parsed.eol, t)
  {
    hide JoinedLines, Lines, AboveComments, StartsLine, LineStart;
    var s := parsed.source;
    var at := AboveComments(s, parsed.kinds, scan.open, LineStart(s, before.start));
    LinesJoin(lines, indent, parsed.eol);
    sp := Splice(at, "", at, "", Lines(lines, indent, parsed.eol));
    BlockOf("", lines, indent, parsed.eol, parsed.eol, sp.inserted);
    assert t == s[..at] + "" + s[at..at] + sp.inserted + s[at..];
  }

  lemma {:induction false} InsertLastSplices(parsed: Parsed, scan: ObjectScan, lines: seq<string>, indent: string,
                                             last: ObjectEntry, t: string) returns (sp: Splice)
    requires |parsed.kinds| == |parsed.source| && 0 < last.end <= scan.close < |parsed.source| && IsEol(parsed.eol)
    requires Blank(indent) && InsertLast(parsed, scan, lines, indent, last) == Success(t)
    requires last.end <= LineBreak(parsed.source, last.end)
    ensures Inserts(parsed.source, sp, lines, parsed.eol, t)
  {
    hide JoinedLines, LineBreak, SeparatorIn;
    var s := parsed.source;
    var lineEnd := LineBreak(s, last.end);
    var comma := if SeparatorIn(s, parsed.kinds, last.end, scan.close, lineEnd).value then "" else ",";
    var joined := JoinedLines(lines, indent, parsed.eol);
    sp := Splice(last.end, comma, lineEnd, "", parsed.eol + joined);
    BlockOf(parsed.eol, lines, indent, parsed.eol, "", sp.inserted);
    assert t == s[..last.end] + comma + s[last.end..lineEnd] + sp.inserted + s[lineEnd..];
  }

  ghost predicate WellParsed(parsed: Parsed) {
    WellRead(parsed) && IsEol(parsed.eol) && Blank(parsed.unit)
  }

  lemma {:induction false} ParsedWell(s: string) returns (parsed: Parsed)
    requires Parse(s).Success?
    ensures parsed == Parse(s).value && WellParsed(parsed) && parsed.source == s
  {
    hide Lex, FindConfigObject, ScanObject, HasCrLf, Plain, LineIndent;
    parsed := Parse(s).value;
    IndentIsBlank(s, parsed.root.open);
    if parsed.root.entries != [] { IndentIsBlank(s, parsed.root.entries[0].start); }
  }

  /** An object literal of the file, as it is scanned. */
  ghost predicate Scanned(parsed: Parsed, scan: ObjectScan) {
    && WellParsed(parsed) && scan.open < scan.close < |parsed.source|
    && ScanObject(parsed.source, parsed.kinds, scan.open) == Success(scan)
    && EntriesWithin(scan.entries, scan.open + 1, scan.close)
  }

  lemma {:induction false} RootScanned(s: string) returns (parsed: Parsed)
    requires Parse(s).Success?
    ensures parsed == Parse(s).value && parsed.source == s && Scanned(parsed, parsed.root)
  {
    hide Lex, FindConfigObject, ScanObject, HasCrLf, Plain, LineIndent;
    parsed := ParsedWell(s);
  }

  lemma {:induction false} ObjectScanned(parsed: Parsed, e: ObjectEntry, scan: ObjectScan)
    requires WellParsed(parsed) && 0 <= e.valueStart && ObjectOf(parsed, e) == Success(Some(scan))
    ensures Scanned(parsed, scan)
  {
    hide ScanTo, Plain;
  }

  /** An entry ends in a character that is no line break. */
  lemma {:induction false} LastBeforeBreak(s: string, kinds: seq<Kind>, scan: ObjectScan)
    requires |s| == |kinds| && scan.entries != [] && scan.close < |s| && EntriesWithin(scan.entries, scan.open + 1, scan.close)
    requires ScanObject(s, kinds, scan.open) == Success(scan)
    ensures scan.entries[|scan.entries| - 1].end <= LineBreak(s, scan.entries[|scan.entries| - 1].end)
  {
    hide ScanObject, ReadEntry, AllTrivia;
    var last := scan.entries[|scan.entries| - 1];
    var m, c := EntryPoint(s, kinds, scan, |scan.entries| - 1);
    ReadEntryEnds(s, kinds, m, c, last);
  }

  lemma {:induction false} InsertSplices(parsed: Parsed, scan: ObjectScan, lines: seq<string>, before: Option<ObjectEntry>, t: string)
    returns (sp: Splice)
    requires Scanned(parsed, scan) && lines != [] && (before.Some? ==> before.value in scan.entries)
    requires InsertEntry(parsed, scan, lines, before) == Success(t)
    ensures Inserts(parsed.source, sp, lines, parsed.eol, t)
  {
    hide ScanObject, InsertFirst, InsertBefore, InsertLast, StartsLine, LineEnd, LineIndent, Inserts, LineBreak;
    if scan.entries == [] {
      sp := InsertFirstSplices(parsed, scan, lines, t);
    } else {
      var indent := LineIndent(parsed.source, scan.entries[0].start);
      IndentIsBlank(parsed.source, scan.entries[0].start);
      if before.Some? {
        sp := InsertBeforeSplices(parsed, scan, lines, indent, before.value, t);
      } else {
        LastBeforeBreak(parsed.source, parsed.kinds, scan);
        sp := InsertLastSplices(parsed, scan, lines, indent, scan.entries[|scan.entries| - 1], t);
      }
    }
  }

  // ---------------------------------------------------------------------------
  // One step
  // ---------------------------------------------------------------------------

  /** `e` is the entry that `names` leads to, from the object `scan` down. */
  ghost predicate Leads(parsed: Parsed, scan: ObjectScan, names: seq<string>, e: ObjectEntry)
    requires |parsed.kinds| == |parsed.source|
    decreases |names|
  {
    names != [] && FindEntry(scan.entries, names[0]).Some? &&
    var found := FindEntry(scan.entries, names[0]).value;
    if |names| == 1 then found == e
    else
      && 0 <= found.valueStart && ObjectOf(parsed, found).Success? && ObjectOf(parsed, found).value.Some?
      && Leads(parsed, ObjectOf(parsed, found).value.value, names[1..], e)
  }

  /** The value of the entry named by `path` is replaced by another one. */
  ghost predicate Replaces(parsed: Parsed, sp: Splice, path: string, value: string, t: string)
    requires WellRead(parsed)
  {
    exists names, e ::
      && Joined(names, ".") == path && Leads(parsed, parsed.root, names, e)
      && e.keyed && 0 <= e.valueStart <= e.valueEnd <= |parsed.source| && ValueText(parsed.source, e) != value
      && sp == Splice(e.valueStart, "", e.valueStart, ValueText(parsed.source, e), value)
      && Fits(parsed.source, sp) && t == Spliced(parsed.source, sp)
  }

  /** The lines that declare what `edit` asks for, in the container they belong to or without it. */
  predicate Declaration(unit: string, edit: ConfigEdit, lines: seq<string>) {
    match edit
    case ServiceEdit(service) => lines == [ServiceKey(service) + ": true,"]
    case RealtimeEdit(enabled, origins) =>
      var line := "realtime: " + RealtimeValue(enabled, origins) + ",";
      || lines == ["preview: {", unit + line, "},"] || lines == [line]
      || (origins.Some? && lines == ["allowedOrigins: " + JsonList(origins.value) + ","])
    case FunctionEdit(slug, name, source, env, typescript) =>
      var line := FunctionLine(slug, name, source, env, typescript);
      lines == [line] || lines == ["functions" + ": {", unit + line, "},"]
    case BucketEdit(bucket, access) =>
      var line := BucketLine(bucket, access);
      lines == [line] || lines == ["buckets" + ": {", unit + line, "},"]
  }

  /** What a changing step does to the text: one inserted block, or one replaced value. */
  ghost predicate Effect(parsed: Parsed, edit: ConfigEdit, change: Change, sp: Splice, t: string)
    requires WellRead(parsed)
  {
    match change
    case Added(_) =>
      exists lines {:trigger Declaration(parsed.unit, edit, lines)} ::
        Declaration(parsed.unit, edit, lines) && Inserts(parsed.source, sp, lines, parsed.eol, t)
    case SetTo(path, value) => Replaces(parsed, sp, path, value, t)
  }

  lemma {:induction false} ReplaceSplices(parsed: Parsed, names: seq<string>, e: ObjectEntry, path: string, value: string, t: string)
    returns (sp: Splice)
    requires WellRead(parsed) && Joined(names, ".") == path && Leads(parsed, parsed.root, names, e)
    requires e.keyed && 0 <= e.valueStart <= e.valueEnd <= |parsed.source| && ValueText(parsed.source, e) != value
    requires t == parsed.source[..e.valueStart] + value + parsed.source[e.valueEnd..]
    ensures Replaces(parsed, sp, path, value, t)
  {
    hide ObjectOf, FindEntry, Joined, Leads;
    var s := parsed.source;
    sp := Splice(e.valueStart, "", e.valueStart, ValueText(s, e), value);
    assert t == s[..e.valueStart] + "" + s[e.valueStart..e.valueStart] + value + s[e.valueEnd..];
  }

  lemma {:induction false} ToggleStep(parsed: Parsed, service: Service, t: string, change: Change) returns (sp: Splice)
    requires Scanned(parsed, parsed.root) && SetToggle(parsed, service) == Success(EditStep(t, Some(change)))
    ensures Effect(parsed, ServiceEdit(service), change, sp, t)
  {
    hide ScanObject, InsertEntry, FindEntry, Inserts, Replaces, ServiceKey, Plain, NotUnderPreview;
    var key := ServiceKey(service);
    var found := FindEntry(parsed.root.entries, key);
    if found.None? {
      sp := InsertSplices(parsed, parsed.root, [key + ": true,"], EntryAfter(parsed.root.entries, key), t);
      assert Declaration(parsed.unit, ServiceEdit(service), [key + ": true,"]);
    } else if found.value.keyed && ValueText(parsed.source, found.value) == "false" {
      sp := ReplaceSplices(parsed, [key], found.value, key, "true", t);
    } else {
      var inner := ObjectOf(parsed, found.value).value.value;
      var e := FindEntry(inner.entries, "enabled").value;
      assert [key, "enabled"][1..] == ["enabled"];
      assert Joined([key, "enabled"], ".") == key + "." + Joined(["enabled"], ".");
      sp := ReplaceSplices(parsed, [key, "enabled"], e, key + ".enabled", "true", t);
    }
  }

  lemma {:induction false} AddStep(parsed: Parsed, edit: ConfigEdit, container: string, name: string, line: string,
                                   t: string, change: Change)
    returns (sp: Splice)
    requires Scanned(parsed, parsed.root) && AddNamed(parsed, container, name, [line]) == Success(EditStep(t, Some(change)))
    requires Declaration(parsed.unit, edit, [line]) && Declaration(parsed.unit, edit, [container + ": {", parsed.unit + line, "},"])
    ensures Effect(parsed, edit, change, sp, t)
  {
    hide ScanObject, InsertEntry, FindEntry, Inserts, Declaration, Plain, NotUnderPreview, ObjectOf;
    var found := FindEntry(parsed.root.entries, container);
    if found.None? {
      assert Prefixed([line], parsed.unit) == [parsed.unit + line] + Prefixed([line][1..], parsed.unit);
      var block := [container + ": {"] + Prefixed([line], parsed.unit) + ["},"];
      assert block == [container + ": {", parsed.unit + line, "},"];
      sp := InsertSplices(parsed, parsed.root, block, EntryAfter(parsed.root.entries, container), t);
    } else {
      var inner := ObjectOf(parsed, found.value).value.value;
      ObjectScanned(parsed, found.value, inner);
      sp := InsertSplices(parsed, inner, [line], None, t);
    }
  }

  lemma {:induction false} OriginsStep(parsed: Parsed, settings: ObjectScan, names: seq<string>, origins: seq<string>,
                                       t: string, change: Change) returns (sp: Splice)
    requires Scanned(parsed, parsed.root) && Scanned(parsed, settings)
    requires SetOrigins(parsed, settings, JsonList(origins)) == Success(EditStep(t, Some(change)))
    requires names == ["preview", "realtime", "allowedOrigins"]
    requires forall e :: FindEntry(settings.entries, "allowedOrigins") == Some(e) ==> Leads(parsed, parsed.root, names, e)
    ensures Effect(parsed, RealtimeEdit(true, Some(origins)), change, sp, t)
  {
    hide ScanObject, InsertEntry, FindEntry, Inserts, Replaces, Plain, ObjectOf, Leads, JsonList;
    var found := FindEntry(settings.entries, "allowedOrigins");
    if found.None? {
      var lines := ["allowedOrigins: " + JsonList(origins) + ","];
      assert Declaration(parsed.unit, RealtimeEdit(true, Some(origins)), lines);
      sp := InsertSplices(parsed, settings, lines, None, t);
    } else {
      RealtimePath();
      sp := ReplaceSplices(parsed, names, found.value, "preview.realtime.allowedOrigins", JsonList(origins), t);
    }
  }

  lemma {:induction false} RealtimePath()
    ensures Joined(["preview", "realtime", "allowedOrigins"], ".") == "preview.realtime.allowedOrigins"
    ensures Joined(["preview", "realtime"], ".") == "preview.realtime"
  {
    assert ["preview", "realtime", "allowedOrigins"][1..] == ["realtime", "allowedOrigins"];
    assert ["realtime", "allowedOrigins"][1..] == ["allowedOrigins"];
    assert ["preview", "realtime"][1..] == ["realtime"];
  }

  lemma {:induction false} RealtimeLeads(parsed: Parsed, previewEntry: ObjectEntry, preview: ObjectScan, entry: ObjectEntry)
    requires WellRead(parsed) && FindEntry(parsed.root.entries, "preview") == Some(previewEntry)
    requires 0 <= previewEntry.valueStart && ObjectOf(parsed, previewEntry) == Success(Some(preview))
    requires FindEntry(preview.entries, "realtime") == Some(entry)
    ensures Leads(parsed, parsed.root, ["preview", "realtime"], entry)
    ensures forall settings: ObjectScan, e :: 0 <= entry.valueStart && ObjectOf(parsed, entry) == Success(Some(settings))
                                  && FindEntry(settings.entries, "allowedOrigins") == Some(e)
              ==> Leads(parsed, parsed.root, ["preview", "realtime", "allowedOrigins"], e)
  {
    hide ObjectOf, FindEntry;
    assert ["preview", "realtime", "allowedOrigins"][1..] == ["realtime", "allowedOrigins"];
    assert ["realtime", "allowedOrigins"][1..] == ["allowedOrigins"];
    assert ["preview", "realtime"][1..] == ["realtime"];
  }

  lemma {:induction false} RealtimeStep(parsed: Parsed, enabled: bool, origins: Option<seq<string>>, t: string, change: Change)
    returns (sp: Splice)
    requires Scanned(parsed, parsed.root) && SetRealtime(parsed, enabled, origins) == Success(EditStep(t, Some(change)))
    ensures Effect(parsed, RealtimeEdit(enabled, origins), change, sp, t)
  {
    hide ScanObject, InsertEntry, FindEntry, Inserts, Replaces, Plain, ObjectOf, Leads, JsonList, SetOrigins, RealtimeValue;
    var edit := RealtimeEdit(enabled, origins);
    var desired := RealtimeValue(enabled, origins);
    var line := "realtime: " + desired + ",";
    var found := FindEntry(parsed.root.entries, "preview");
    if found.None? {
      var lines := ["preview: {", parsed.unit + line, "},"];
      assert Declaration(parsed.unit, edit, lines);
      sp := InsertSplices(parsed, parsed.root, lines, EntryAfter(parsed.root.entries, "preview"), t);
    } else {
      var preview := ObjectOf(parsed, found.value).value.value;
      ObjectScanned(parsed, found.value, preview);
      var entry := FindEntry(preview.entries, "realtime");
      if entry.None? {
        assert Declaration(parsed.unit, edit, [line]);
        sp := InsertSplices(parsed, preview, [line], None, t);
      } else {
        RealtimeLeads(parsed, found.value, preview, entry.value);
        var settings := ObjectOf(parsed, entry.value).value;
        if enabled && origins.Some? && settings.Some? {
          ObjectScanned(parsed, entry.value, settings.value);
          sp := OriginsStep(parsed, settings.value, ["preview", "realtime", "allowedOrigins"], origins.value, t, change);
        } else {
          RealtimePath();
          sp := ReplaceSplices(parsed, ["preview", "realtime"], entry.value, "preview.realtime", desired, t);
        }
      }
    }
  }

  /**
   * Each changing step puts in one block of the declaring lines and at most one comma, removing
   * only spaces, or replaces the value of the one entry it names. Undone, it gives the old text.
   */
  lemma {:induction false} StepIsOneSplice(s: string, edit: ConfigEdit, t: string, change: Change) returns (sp: Splice)
    requires BuildStep(s, edit) == Success(EditStep(t, Some(change)))
    ensures Parse(s).Success? && WellRead(Parse(s).value) && Effect(Parse(s).value, edit, change, sp, t)
    ensures sp.comma <= sp.at && sp.at + |sp.separator| + |sp.inserted| <= |t| && Unspliced(t, sp) == s
  {
    hide Parse, SetToggle, SetRealtime, AddNamed, FunctionLine, BucketLine, ScanObject, JsonList, RealtimeValue, Plain, FindEntry,
      Inserts, Replaces, IsBlock, Leads, Unspliced, Spliced;
    var parsed := RootScanned(s);
    match edit {
      case ServiceEdit(service) => sp := ToggleStep(parsed, service, t, change);
      case RealtimeEdit(enabled, origins) => sp := RealtimeStep(parsed, enabled, origins, t, change);
      case FunctionEdit(slug, name, path, env, typescript) =>
        sp := AddStep(parsed, edit, "functions", slug, FunctionLine(slug, name, path, env, typescript), t, change);
      case BucketEdit(bucket, access) =>
        sp := AddStep(parsed, edit, "buckets", bucket, BucketLine(bucket, access), t, change);
    }
    EffectFits(parsed, edit, change, sp, t);
    UndoSplice(s, sp);
  }

  lemma {:induction false} EffectFits(parsed: Parsed, edit: ConfigEdit, change: Change, sp: Splice, t: string)
    requires WellRead(parsed) && Effect(parsed, edit, change, sp, t)
    ensures Fits(parsed.source, sp) && t == Spliced(parsed.source, sp)
  {
    hide FindEntry, Leads, Declaration;
  }

  // ---------------------------------------------------------------------------
  // A whole edit
  // ---------------------------------------------------------------------------

  lemma {:induction false} ToggleUnchanged(parsed: Parsed, service: Service, t: string)
    requires WellRead(parsed) && SetToggle(parsed, service) == Success(EditStep(t, None))
    ensures t == parsed.source
  {
    hide ObjectOf, FindEntry, InsertEntry, NotUnderPreview;
  }

  lemma {:induction false} RealtimeUnchanged(parsed: Parsed, enabled: bool, origins: Option<seq<string>>, t: string)
    requires WellRead(parsed) && SetRealtime(parsed, enabled, origins) == Success(EditStep(t, None))
    ensures t == parsed.source
  {
    hide ObjectOf, FindEntry, InsertEntry, RealtimeValue, JsonList;
  }

  lemma {:induction false} AddUnchanged(parsed: Parsed, container: string, name: string, lines: seq<string>, t: string)
    requires WellRead(parsed) && AddNamed(parsed, container, name, lines) == Success(EditStep(t, None))
    ensures t == parsed.source
  {
    hide ObjectOf, FindEntry, InsertEntry, NotUnderPreview;
  }

  /** A step that reports no change returns its source. */
  lemma {:induction false} StepUnchanged(s: string, edit: ConfigEdit, t: string)
    requires BuildStep(s, edit) == Success(EditStep(t, None))
    ensures t == s
  {
    hide Parse, SetToggle, SetRealtime, AddNamed, FunctionLine, BucketLine, ScanObject, Plain;
    var parsed := RootScanned(s);
    match edit {
      case ServiceEdit(service) => ToggleUnchanged(parsed, service, t);
      case RealtimeEdit(enabled, origins) => RealtimeUnchanged(parsed, enabled, origins, t);
      case FunctionEdit(slug, name, path, env, typescript) =>
        AddUnchanged(parsed, "functions", slug, [FunctionLine(slug, name, path, env, typescript)], t);
      case BucketEdit(bucket, access) => AddUnchanged(parsed, "buckets", bucket, [BucketLine(bucket, access)], t);
    }
  }

  /** The texts a run of steps goes through, each one splice away from the one before. */
  ghost predicate SplicesTo(s: string, splices: seq<Splice>, t: string)
    decreases |splices|
  {
    if splices == [] then s == t
    else Fits(s, splices[0]) && SplicesTo(Spliced(s, splices[0]), splices[1..], t)
  }

  lemma {:induction false} RunIsSplices(s: string, steps: seq<ConfigEdit>, result: EditResult) returns (splices: seq<Splice>)
    requires RunSteps(s, steps) == Success(result)
    ensures |splices| == |result.changes| && SplicesTo(s, splices, result.source)
    decreases |steps|
  {
    hide BuildStep, Spliced, Fits, Effect;
    if steps == [] {
      splices := [];
    } else {
      var step := BuildStep(s, steps[0]).value;
      var rest := RunSteps(step.source, steps[1..]).value;
      var tail := RunIsSplices(step.source, steps[1..], rest);
      if step.change.None? {
        StepUnchanged(s, steps[0], step.source);
        splices := tail;
      } else {
        var sp := StepIsOneSplice(s, steps[0], step.source, step.change.value);
        EffectFits(Parse(s).value, steps[0], step.change.value, sp, step.source);
        splices := [sp] + tail;
      }
    }
  }

  /** Taking the splices of a run back, last one first. */
  ghost function TakeBack(t: string, splices: seq<Splice>): Option<string>
    decreases |splices|
  {
    if splices == [] then Some(t)
    else
      match TakeBack(t, splices[1..])
      case None => None
      case Some(u) =>
        var sp := splices[0];
        if sp.comma <= sp.at && sp.at + |sp.separator| + |sp.inserted| <= |u| then Some(Unspliced(u, sp)) else None
  }

  lemma {:induction false} SplicesTakeBack(s: string, splices: seq<Splice>, t: string)
    requires SplicesTo(s, splices, t)
    ensures TakeBack(t, splices) == Some(s)
    decreases |splices|
  {
    hide Spliced, Unspliced;
    if splices != [] {
      SplicesTakeBack(Spliced(s, splices[0]), splices[1..], t);
      UndoSplice(s, splices[0]);
    }
  }

  /** An edit makes one splice for each change it reports, and taking them back restores the file. */
  lemma {:induction false} EditIsReversible(s: string, edit: ConfigEdit, result: EditResult) returns (splices: seq<Splice>)
    requires EditNeonConfig(s, edit) == Success(result)
    ensures |splices| == |result.changes| && SplicesTo(s, splices, result.source)
    ensures TakeBack(result.source, splices) == Some(s)
  {
    hide StepsOf, RunSteps, SplicesTo, TakeBack;
    var steps := StepsOf(s, edit).value;
    splices := RunIsSplices(s, steps, result);
    SplicesTakeBack(s, splices, result.source);
  }

  lemma {:induction false} NoChangesNoText(s: string, steps: seq<ConfigEdit>, result: EditResult)
    requires RunSteps(s, steps) == Success(result) && result.changes == []
    ensures result.source == s
  {
    hide RunSteps;
    var splices := RunIsSplices(s, steps, result);
  }

  /** Editing the result of an edit again changes nothing, whatever the edit. */
  lemma {:induction false} EditIsIdempotent(s: string, edit: ConfigEdit, result: EditResult)
    requires EditNeonConfig(s, edit) == Success(result)
    ensures result.changes == [] ==> result.source == s
    ensures EditNeonConfig(result.source, edit) == Success(EditResult(result.source, []))
  {
    hide StepsOf, RunSteps;
    if result.changes == [] {
      NoChangesNoText(s, StepsOf(s, edit).value, result);
    } else {
      NoChangesNoText(result.source, StepsOf(result.source, edit).value, Apply(result.source, edit).value);
    }
  }
}

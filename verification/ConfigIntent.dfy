/**
 * Each step of an edit, for all files: which text it leaves and which change it reports, told by
 * the entries the file has and the lines and words that are written.
 */
module ConfigIntent {
  import opened Wrappers
  import opened ObjectScan
  import opened ConfigEdit
  import opened ConfigFound
  import opened ConfigPlacing
  import opened ConfigStates
  import opened ConfigAccepted
  import opened ConfigEntries

  /** `text` with the value of `e` replaced. */
  ghost predicate Rewrites(parsed: Parsed, e: ObjectEntry, value: string, t: string) {
    && 0 <= e.valueStart <= e.valueEnd <= |parsed.source|
    && t == parsed.source[..e.valueStart] + value + parsed.source[e.valueEnd..]
  }

  /** A new top-level entry goes above the first one that is declared behind its key. */
  ghost predicate PutsKey(parsed: Parsed, key: string, lines: seq<string>, t: string) {
    exists before :: FirstAfter(parsed.root.entries, key, before) && Placed(parsed, parsed.root, lines, before, t)
  }

  lemma {:induction false} FirstAfterIsOne(entries: seq<ObjectEntry>, key: string, a: Option<ObjectEntry>, b: Option<ObjectEntry>)
    requires FirstAfter(entries, key, a) && FirstAfter(entries, key, b)
    ensures a == b
  {
    hide Later;
    if a.Some? && b.Some? {
      var i :| 0 <= i < |entries| && entries[i] == a.value && Later(a.value, key) && forall k :: 0 <= k < i ==> !Later(entries[k], key);
      var j :| 0 <= j < |entries| && entries[j] == b.value && Later(b.value, key) && forall k :: 0 <= k < j ==> !Later(entries[k], key);
      assert i == j;
    }
  }

  lemma {:induction false} PutsKeyIs(s: string, parsed: Parsed, key: string, lines: seq<string>, t: string)
    requires Parse(s) == Success(parsed) && WellRead(parsed) && IsAddedKey(key)
    ensures InsertEntry(parsed, parsed.root, lines, EntryAfter(parsed.root.entries, key)) == Success(t) <==> PutsKey(parsed, key, lines, t)
  {
    hide Parse, InsertEntry, Placed, FirstAfter;
    var before := EntryAfter(parsed.root.entries, key);
    EntryAfterIs(parsed.root.entries, key);
    RootBehind(s, parsed);
    InsertIs(parsed, parsed.root, lines, before, t);
    forall other | FirstAfter(parsed.root.entries, key, other) ensures other == before {
      FirstAfterIsOne(parsed.root.entries, key, other, before);
    }
  }

  lemma {:induction false} RootBehind(s: string, parsed: Parsed)
    requires Parse(s) == Success(parsed)
    ensures 0 < parsed.root.open
  {
    hide Parse, FindConfigObject, ScanObject, HasOverride, HasWindowsBreak;
    ParseIs(s);
    OpenIsBehind(s, parsed.kinds, parsed.root.open);
  }

  // ---------------------------------------------------------------------------
  // A service
  // ---------------------------------------------------------------------------

  function KeyOf(service: Service): string {
    match service
    case Auth => "auth"
    case DataApi => "dataApi"
    case AiGateway => "aiGateway"
  }

  /** A missing service is added, one that is off is switched on, and one that is on is left alone. */
  ghost predicate TogglesOn(parsed: Parsed, key: string, t: string, change: Option<Change>) {
    match FindEntry(parsed.root.entries, key)
    case None => PutsKey(parsed, key, [key + ": true,"], t) && change == Some(Added(key))
    case Some(e) =>
      || (SwitchedOn(parsed, e) && t == parsed.source && change == None)
      || (Says(parsed, e, "false") && Rewrites(parsed, e, "true", t) && change == Some(SetTo(key, "true")))
      || exists flag :: OffInside(parsed, e, flag) && Rewrites(parsed, flag, "true", t) && change == Some(SetTo(key + ".enabled", "true"))
  }

  lemma {:induction false} ToggleStepIs(s: string, parsed: Parsed, service: Service, t: string, change: Option<Change>)
    requires Parse(s) == Success(parsed) && WellRead(parsed)
    ensures SetToggle(parsed, service) == Success(EditStep(t, change)) <==>
            (service == AiGateway ==> NotInPreview(parsed, "aiGateway")) && TogglesOn(parsed, KeyOf(service), t, change)
  {
    hide Parse, FindEntry, InsertEntry, NotUnderPreview, NotInPreview, ReadToggle, TogglesOn, SetToggle;
    var key := KeyOf(service);
    assert ServiceKey(service) == key;
    PreviewIs(parsed, key);
    if service == AiGateway && !NotInPreview(parsed, key) {
      ToggleHidden(parsed);
    } else if FindEntry(parsed.root.entries, key).None? {
      PutsKeyIs(s, parsed, key, [key + ": true,"], t);
      ToggleAdds(parsed, service, key, t, change);
    } else {
      EntryRange(parsed, FindEntry(parsed.root.entries, key).value);
      ToggleTurns(parsed, service, key, FindEntry(parsed.root.entries, key).value, t, change);
    }
  }

  lemma {:induction false} ToggleHidden(parsed: Parsed)
    requires WellRead(parsed) && NotUnderPreview(parsed, "aiGateway").Failure?
    ensures SetToggle(parsed, AiGateway).Failure?
  {
    hide FindEntry, InsertEntry, NotUnderPreview, ReadToggle;
  }

  lemma {:induction false} ToggleAdds(parsed: Parsed, service: Service, key: string, t: string, change: Option<Change>)
    requires WellRead(parsed) && ServiceKey(service) == key && FindEntry(parsed.root.entries, key).None?
    requires service == AiGateway ==> NotUnderPreview(parsed, key).Success?
    requires InsertEntry(parsed, parsed.root, [key + ": true,"], EntryAfter(parsed.root.entries, key)) == Success(t)
        <==> PutsKey(parsed, key, [key + ": true,"], t)
    ensures SetToggle(parsed, service) == Success(EditStep(t, change)) <==> TogglesOn(parsed, key, t, change)
  {
    hide FindEntry, InsertEntry, NotUnderPreview, ReadToggle, PutsKey, EntryAfter, ServiceKey;
  }

  lemma {:induction false} ToggleTurns(parsed: Parsed, service: Service, key: string, e: ObjectEntry, t: string, change: Option<Change>)
    requires WellRead(parsed) && ServiceKey(service) == key && FindEntry(parsed.root.entries, key) == Some(e)
    requires service == AiGateway ==> NotUnderPreview(parsed, key).Success?
    requires 0 <= e.valueStart <= e.valueEnd <= |parsed.source|
    ensures SetToggle(parsed, service) == Success(EditStep(t, change)) <==> TogglesOn(parsed, key, t, change)
  {
    hide FindEntry, InsertEntry, NotUnderPreview, ReadToggle, PutsKey, EntryAfter, ServiceKey, SwitchedOn, OffInside, Says;
    ToggleIs(parsed, e, key);
    var r := ReadToggle(parsed, e, key);
    if r.Success? && r.value.Off? {
      assert !SwitchedOn(parsed, e);
    }
  }

  // ---------------------------------------------------------------------------
  // A function or a bucket
  // ---------------------------------------------------------------------------

  /** A missing name is added to its container, in a new one if there is none; a name that is there is left alone. */
  ghost predicate AddsName(parsed: Parsed, container: string, name: string, line: string, t: string, change: Option<Change>) {
    match FindEntry(parsed.root.entries, container)
    case None =>
      && PutsKey(parsed, container, [container + ": {", parsed.unit + line, "},"], t)
      && change == Some(Added(container + "." + name))
    case Some(e) => exists scan :: Opens(parsed, e, scan) && NamesIn(parsed, scan, container, name, line, t, change)
  }

  ghost predicate NamesIn(parsed: Parsed, scan: ObjectScan, container: string, name: string, line: string, t: string, change: Option<Change>) {
    if FindEntry(scan.entries, name).Some? then t == parsed.source && change == None
    else Placed(parsed, scan, [line], None, t) && change == Some(Added(container + "." + name))
  }

  lemma {:induction false} BlockLines(container: string, unit: string, line: string)
    ensures [container + ": {"] + Prefixed([line], unit) + ["},"] == [container + ": {", unit + line, "},"]
  {
    assert [line][1..] == [];
    assert Prefixed([line], unit) == [unit + line] + Prefixed([], unit);
  }

  lemma {:induction false} OpensBehind(parsed: Parsed, e: ObjectEntry, scan: ObjectScan)
    requires WellRead(parsed) && 0 < e.valueStart && ObjectOf(parsed, e) == Success(Some(scan))
    ensures Entered(parsed, scan, None) && 0 < scan.open
  {
    hide ObjectOf, ScanObject, Plain;
    ObjectCloses(parsed, e, scan);
  }

  lemma {:induction false} NameStepIs(s: string, parsed: Parsed, container: string, name: string, line: string, t: string,
                                      change: Option<Change>)
    requires Parse(s) == Success(parsed) && WellRead(parsed) && IsAddedKey(container)
    ensures AddNamed(parsed, container, name, [line]) == Success(EditStep(t, change)) <==>
            NotInPreview(parsed, container) && AddsName(parsed, container, name, line, t, change)
  {
    hide Parse, FindEntry, InsertEntry, NotUnderPreview, NotInPreview, AddsName, AddNamed, IsAddedKey;
    PreviewIs(parsed, container);
    if !NotInPreview(parsed, container) {
      NameHidden(parsed, container, name, line);
    } else if FindEntry(parsed.root.entries, container).None? {
      PutsKeyIs(s, parsed, container, [container + ": {", parsed.unit + line, "},"], t);
      NameStarts(parsed, container, name, line, t, change);
    } else {
      EntryRange(parsed, FindEntry(parsed.root.entries, container).value);
      NameJoins(parsed, container, name, line, FindEntry(parsed.root.entries, container).value, t, change);
    }
  }

  lemma {:induction false} NameHidden(parsed: Parsed, container: string, name: string, line: string)
    requires WellRead(parsed) && NotUnderPreview(parsed, container).Failure?
    ensures AddNamed(parsed, container, name, [line]).Failure?
  {
    hide FindEntry, InsertEntry, NotUnderPreview, ObjectOf;
  }

  lemma {:induction false} NameStarts(parsed: Parsed, container: string, name: string, line: string, t: string, change: Option<Change>)
    requires WellRead(parsed) && FindEntry(parsed.root.entries, container).None? && NotUnderPreview(parsed, container).Success?
    requires var lines := [container + ": {", parsed.unit + line, "},"];
             InsertEntry(parsed, parsed.root, lines, EntryAfter(parsed.root.entries, container)) == Success(t) <==>
               PutsKey(parsed, container, lines, t)
    ensures AddNamed(parsed, container, name, [line]) == Success(EditStep(t, change)) <==> AddsName(parsed, container, name, line, t, change)
  {
    hide FindEntry, InsertEntry, NotUnderPreview, ObjectOf, PutsKey, EntryAfter, Prefixed;
    BlockLines(container, parsed.unit, line);
  }

  lemma {:induction false} NameJoins(parsed: Parsed, container: string, name: string, line: string, e: ObjectEntry, t: string,
                                     change: Option<Change>)
    requires WellRead(parsed) && FindEntry(parsed.root.entries, container) == Some(e)
    requires NotUnderPreview(parsed, container).Success? && 0 <= e.start < e.valueStart
    ensures AddNamed(parsed, container, name, [line]) == Success(EditStep(t, change)) <==> AddsName(parsed, container, name, line, t, change)
  {
    hide FindEntry, InsertEntry, NotUnderPreview, ObjectOf, Opens, OpensNothing, Placed, Prefixed;
    ObjectIs(parsed, e);
    var literal := ObjectOf(parsed, e);
    if literal.Success? && literal.value.Some? {
      var scan := literal.value.value;
      OpensBehind(parsed, e, scan);
      InsertIs(parsed, scan, [line], None, t);
      assert AddsName(parsed, container, name, line, t, change) <==> NamesIn(parsed, scan, container, name, line, t, change);
    } else {
      assert !AddsName(parsed, container, name, line, t, change);
    }
  }

  // ---------------------------------------------------------------------------
  // Realtime
  // ---------------------------------------------------------------------------

  /** `preview.realtime` is added where it is missing, and has its value set where it is there. */
  ghost predicate SetsRealtime(parsed: Parsed, enabled: bool, origins: Option<seq<string>>, t: string, change: Option<Change>) {
    var line := "realtime: " + RealtimeValue(enabled, origins) + ",";
    match FindEntry(parsed.root.entries, "preview")
    case None => PutsKey(parsed, "preview", ["preview: {", parsed.unit + line, "},"], t) && change == Some(Added("preview.realtime"))
    case Some(e) => exists scan :: Opens(parsed, e, scan) && SetsIn(parsed, scan, line, enabled, origins, t, change)
  }

  ghost predicate SetsIn(parsed: Parsed, preview: ObjectScan, line: string, enabled: bool, origins: Option<seq<string>>, t: string,
                         change: Option<Change>) {
    match FindEntry(preview.entries, "realtime")
    case None => Placed(parsed, preview, [line], None, t) && change == Some(Added("preview.realtime"))
    case Some(e) => SetsValue(parsed, e, RealtimeValue(enabled, origins), enabled, origins, t, change)
  }

  /**
   * The value asked for stays as it is. An object is as good as `true`, and takes the origins where
   * some are given. Any other word or object is replaced; an expression is not touched.
   */
  ghost predicate SetsValue(parsed: Parsed, e: ObjectEntry, desired: string, enabled: bool, origins: Option<seq<string>>, t: string,
                            change: Option<Change>) {
    if Says(parsed, e, desired) then t == parsed.source && change == None
    else if enabled && exists scan :: Opens(parsed, e, scan) then
      match origins
      case None => t == parsed.source && change == None
      case Some(list) => exists scan :: Opens(parsed, e, scan) && SetsOrigins(parsed, scan, JsonList(list), t, change)
    else
      && (|| (OpensNothing(parsed, e) && (Says(parsed, e, "true") || Says(parsed, e, "false")))
          || exists scan :: Opens(parsed, e, scan))
      && Rewrites(parsed, e, desired, t) && change == Some(SetTo("preview.realtime", desired))
  }

  ghost predicate SetsOrigins(parsed: Parsed, settings: ObjectScan, list: string, t: string, change: Option<Change>) {
    match FindEntry(settings.entries, "allowedOrigins")
    case None => Placed(parsed, settings, ["allowedOrigins: " + list + ","], None, t) && change == Some(Added("preview.realtime.allowedOrigins"))
    case Some(e) =>
      if Says(parsed, e, list) then t == parsed.source && change == None
      else e.keyed && Rewrites(parsed, e, list, t) && change == Some(SetTo("preview.realtime.allowedOrigins", list))
  }

  lemma {:induction false} OriginsStepIs(parsed: Parsed, settings: ObjectScan, list: string, t: string, change: Option<Change>)
    requires WellRead(parsed) && Entered(parsed, settings, None) && 0 < settings.open
    ensures SetOrigins(parsed, settings, list) == Success(EditStep(t, change)) <==> SetsOrigins(parsed, settings, list, t, change)
  {
    hide FindEntry, InsertEntry, Placed;
    InsertIs(parsed, settings, ["allowedOrigins: " + list + ","], None, t);
  }

  lemma {:induction false} RealtimeStepIs(s: string, parsed: Parsed, enabled: bool, origins: Option<seq<string>>, t: string,
                                          change: Option<Change>)
    requires Parse(s) == Success(parsed) && WellRead(parsed)
    ensures SetRealtime(parsed, enabled, origins) == Success(EditStep(t, change)) <==> SetsRealtime(parsed, enabled, origins, t, change)
  {
    hide Parse, FindEntry, InsertEntry, SetRealtime, SetsRealtime, RealtimeValue;
    if FindEntry(parsed.root.entries, "preview").None? {
      PutsKeyIs(s, parsed, "preview", ["preview: {", parsed.unit + ("realtime: " + RealtimeValue(enabled, origins) + ","), "},"], t);
      RealtimeStarts(parsed, enabled, origins, t, change);
    } else {
      EntryRange(parsed, FindEntry(parsed.root.entries, "preview").value);
      RealtimeJoins(parsed, FindEntry(parsed.root.entries, "preview").value, enabled, origins, t, change);
    }
  }

  lemma {:induction false} RealtimeStarts(parsed: Parsed, enabled: bool, origins: Option<seq<string>>, t: string, change: Option<Change>)
    requires WellRead(parsed) && FindEntry(parsed.root.entries, "preview").None?
    requires var lines := ["preview: {", parsed.unit + ("realtime: " + RealtimeValue(enabled, origins) + ","), "},"];
             InsertEntry(parsed, parsed.root, lines, EntryAfter(parsed.root.entries, "preview")) == Success(t) <==>
               PutsKey(parsed, "preview", lines, t)
    ensures SetRealtime(parsed, enabled, origins) == Success(EditStep(t, change)) <==> SetsRealtime(parsed, enabled, origins, t, change)
  {
    hide FindEntry, InsertEntry, PutsKey, EntryAfter, RealtimeValue, ObjectOf;
  }

  lemma {:induction false} RealtimeJoins(parsed: Parsed, e: ObjectEntry, enabled: bool, origins: Option<seq<string>>, t: string,
                                         change: Option<Change>)
    requires WellRead(parsed) && FindEntry(parsed.root.entries, "preview") == Some(e)
    requires 0 <= e.start < e.valueStart
    ensures SetRealtime(parsed, enabled, origins) == Success(EditStep(t, change)) <==> SetsRealtime(parsed, enabled, origins, t, change)
  {
    hide FindEntry, InsertEntry, ObjectOf, Opens, OpensNothing, SetsIn, RealtimeValue, SetOrigins;
    ObjectIs(parsed, e);
    var literal := ObjectOf(parsed, e);
    if literal.Success? && literal.value.Some? {
      var preview := literal.value.value;
      var line := "realtime: " + RealtimeValue(enabled, origins) + ",";
      assert SetsRealtime(parsed, enabled, origins, t, change) <==> SetsIn(parsed, preview, line, enabled, origins, t, change);
      OpensBehind(parsed, e, preview);
      RealtimeIn(parsed, e, preview, enabled, origins, t, change);
    } else {
      assert !SetsRealtime(parsed, enabled, origins, t, change);
      RealtimeRefused(parsed, e, enabled, origins);
    }
  }

  lemma {:induction false} RealtimeRefused(parsed: Parsed, e: ObjectEntry, enabled: bool, origins: Option<seq<string>>)
    requires WellRead(parsed) && FindEntry(parsed.root.entries, "preview") == Some(e) && 0 <= e.valueStart
    requires ObjectOf(parsed, e).Success? ==> ObjectOf(parsed, e).value.None?
    ensures SetRealtime(parsed, enabled, origins).Failure?
  {
    hide FindEntry, InsertEntry, ObjectOf, RealtimeValue, SetOrigins;
  }

  lemma {:induction false} RealtimeIn(parsed: Parsed, e: ObjectEntry, preview: ObjectScan, enabled: bool,
                                      origins: Option<seq<string>>, t: string, change: Option<Change>)
    requires WellRead(parsed) && FindEntry(parsed.root.entries, "preview") == Some(e)
    requires 0 <= e.valueStart && ObjectOf(parsed, e) == Success(Some(preview)) && Entered(parsed, preview, None) && 0 < preview.open
    ensures SetRealtime(parsed, enabled, origins) == Success(EditStep(t, change)) <==>
            SetsIn(parsed, preview, "realtime: " + RealtimeValue(enabled, origins) + ",", enabled, origins, t, change)
  {
    hide FindEntry, InsertEntry, ObjectOf, RealtimeValue, SetRealtime, SetsIn, Placed, SetsValue;
    var desired := RealtimeValue(enabled, origins);
    var found := FindEntry(preview.entries, "realtime");
    if found.None? {
      InsertIs(parsed, preview, ["realtime: " + desired + ","], None, t);
      RealtimeNew(parsed, e, preview, enabled, origins, t, change);
    } else {
      UnderIs(parsed, e, preview, found.value);
      RealtimeThere(parsed, e, preview, found.value, desired, enabled, origins, t, change);
      InThere(parsed, preview, found.value, enabled, origins, t, change);
    }
  }

  lemma {:induction false} RealtimeNew(parsed: Parsed, e: ObjectEntry, preview: ObjectScan, enabled: bool, origins: Option<seq<string>>,
                                       t: string, change: Option<Change>)
    requires WellRead(parsed) && FindEntry(parsed.root.entries, "preview") == Some(e) && 0 <= e.valueStart
    requires ObjectOf(parsed, e) == Success(Some(preview)) && Entered(parsed, preview, None) && FindEntry(preview.entries, "realtime").None?
    requires var lines := ["realtime: " + RealtimeValue(enabled, origins) + ","];
             InsertEntry(parsed, preview, lines, None) == Success(t) <==> Placed(parsed, preview, lines, None, t)
    ensures SetRealtime(parsed, enabled, origins) == Success(EditStep(t, change)) <==>
            SetsIn(parsed, preview, "realtime: " + RealtimeValue(enabled, origins) + ",", enabled, origins, t, change)
  {
    hide FindEntry, InsertEntry, ObjectOf, RealtimeValue, Placed, SetsValue;
  }

  lemma {:induction false} UnderIs(parsed: Parsed, p: ObjectEntry, preview: ObjectScan, e: ObjectEntry)
    requires WellRead(parsed) && FindEntry(parsed.root.entries, "preview") == Some(p) && 0 <= p.valueStart
    requires ObjectOf(parsed, p) == Success(Some(preview)) && Entered(parsed, preview, None) && 0 < preview.open
    requires FindEntry(preview.entries, "realtime") == Some(e)
    ensures RealtimeUnder(parsed, p, preview, e)
  {
    hide ObjectOf;
  }

  lemma {:induction false} InThere(parsed: Parsed, preview: ObjectScan, e: ObjectEntry, enabled: bool, origins: Option<seq<string>>,
                                   t: string, change: Option<Change>)
    requires FindEntry(preview.entries, "realtime") == Some(e)
    ensures SetsIn(parsed, preview, "realtime: " + RealtimeValue(enabled, origins) + ",", enabled, origins, t, change)
       <==> SetsValue(parsed, e, RealtimeValue(enabled, origins), enabled, origins, t, change)
  {
    hide FindEntry, RealtimeValue, SetsValue;
  }

  /** `preview` holds an entry `realtime`. */
  ghost predicate RealtimeUnder(parsed: Parsed, p: ObjectEntry, preview: ObjectScan, e: ObjectEntry) {
    && WellRead(parsed) && FindEntry(parsed.root.entries, "preview") == Some(p) && 0 <= p.valueStart
    && ObjectOf(parsed, p) == Success(Some(preview)) && Entered(parsed, preview, None) && 0 < preview.open
    && FindEntry(preview.entries, "realtime") == Some(e) && 0 < e.valueStart <= e.valueEnd <= |parsed.source|
  }

  lemma {:induction false} RealtimeThere(parsed: Parsed, p: ObjectEntry, preview: ObjectScan, e: ObjectEntry, desired: string,
                                         enabled: bool, origins: Option<seq<string>>, t: string, change: Option<Change>)
    requires RealtimeUnder(parsed, p, preview, e) && desired == RealtimeValue(enabled, origins)
    ensures SetRealtime(parsed, enabled, origins) == Success(EditStep(t, change)) <==>
            SetsValue(parsed, e, desired, enabled, origins, t, change)
  {
    hide FindEntry, InsertEntry, ObjectOf, RealtimeValue, SetOrigins, Opens, OpensNothing, SetsOrigins, JsonList, RealtimeUnder, SetRealtime,
      SetsValue, Rewrites;
    if Says(parsed, e, desired) {
      RealtimeSaid(parsed, p, preview, e, desired, enabled, origins, t, change);
    } else {
      UnderReads(parsed, p, preview, e);
      ObjectIs(parsed, e);
      var literal := ObjectOf(parsed, e);
      if literal.Failure? {
        assert forall scan :: !Opens(parsed, e, scan);
        RealtimeUnread(parsed, p, preview, e, desired, enabled, origins, t, change);
      } else if enabled && literal.value.Some? {
        RealtimeObject(parsed, p, preview, e, literal.value.value, desired, origins, t, change);
      } else {
        RealtimeWord(parsed, p, preview, e, desired, enabled, origins, t, change);
      }
    }
  }

  lemma {:induction false} UnderReads(parsed: Parsed, p: ObjectEntry, preview: ObjectScan, e: ObjectEntry)
    requires RealtimeUnder(parsed, p, preview, e)
    ensures WellRead(parsed) && 0 < e.valueStart <= e.valueEnd <= |parsed.source|
  {
    hide FindEntry, ObjectOf;
  }

  lemma {:induction false} RealtimeSaid(parsed: Parsed, p: ObjectEntry, preview: ObjectScan, e: ObjectEntry, desired: string,
                                        enabled: bool, origins: Option<seq<string>>, t: string, change: Option<Change>)
    requires RealtimeUnder(parsed, p, preview, e) && desired == RealtimeValue(enabled, origins) && Says(parsed, e, desired)
    ensures SetRealtime(parsed, enabled, origins) == Success(EditStep(t, change)) <==>
            SetsValue(parsed, e, desired, enabled, origins, t, change)
  {
    hide FindEntry, InsertEntry, ObjectOf, RealtimeValue, SetOrigins, Opens, OpensNothing, SetsOrigins, JsonList, Entered;
  }

  lemma {:induction false} RealtimeUnread(parsed: Parsed, p: ObjectEntry, preview: ObjectScan, e: ObjectEntry, desired: string,
                                          enabled: bool, origins: Option<seq<string>>, t: string, change: Option<Change>)
    requires RealtimeUnder(parsed, p, preview, e) && desired == RealtimeValue(enabled, origins) && !Says(parsed, e, desired)
    requires ObjectOf(parsed, e).Failure? && !OpensNothing(parsed, e) && forall scan :: !Opens(parsed, e, scan)
    ensures SetRealtime(parsed, enabled, origins) == Success(EditStep(t, change)) <==>
            SetsValue(parsed, e, desired, enabled, origins, t, change)
  {
    hide FindEntry, InsertEntry, ObjectOf, RealtimeValue, SetOrigins, Opens, OpensNothing, SetsOrigins, JsonList, Entered;
  }

  lemma {:induction false} RealtimeObject(parsed: Parsed, p: ObjectEntry, preview: ObjectScan, e: ObjectEntry, settings: ObjectScan,
                                          desired: string, origins: Option<seq<string>>, t: string, change: Option<Change>)
    requires RealtimeUnder(parsed, p, preview, e) && desired == RealtimeValue(true, origins) && !Says(parsed, e, desired)
    requires ObjectOf(parsed, e) == Success(Some(settings)) && Opens(parsed, e, settings)
    requires forall scan :: Opens(parsed, e, scan) ==> scan == settings
    ensures SetRealtime(parsed, true, origins) == Success(EditStep(t, change)) <==>
            SetsValue(parsed, e, desired, true, origins, t, change)
  {
    hide FindEntry, InsertEntry, ObjectOf, RealtimeValue, SetOrigins, Opens, OpensNothing, SetsOrigins, JsonList;
    OpensBehind(parsed, e, settings);
    if origins.Some? { OriginsStepIs(parsed, settings, JsonList(origins.value), t, change); }
  }

  lemma {:induction false} RealtimeWord(parsed: Parsed, p: ObjectEntry, preview: ObjectScan, e: ObjectEntry, desired: string,
                                        enabled: bool, origins: Option<seq<string>>, t: string, change: Option<Change>)
    requires RealtimeUnder(parsed, p, preview, e) && desired == RealtimeValue(enabled, origins) && !Says(parsed, e, desired)
    requires ObjectOf(parsed, e).Success? && (enabled ==> ObjectOf(parsed, e).value.None?)
    requires ObjectOf(parsed, e).value.None? <==> OpensNothing(parsed, e)
    requires ObjectOf(parsed, e).value.Some? <==> exists scan :: Opens(parsed, e, scan)
    requires ObjectOf(parsed, e).value.Some? ==> e.keyed
    ensures SetRealtime(parsed, enabled, origins) == Success(EditStep(t, change)) <==>
            SetsValue(parsed, e, desired, enabled, origins, t, change)
  {
    hide FindEntry, InsertEntry, ObjectOf, RealtimeValue, SetOrigins, Opens, OpensNothing, SetsOrigins, JsonList, Entered;
  }

  // ---------------------------------------------------------------------------
  // Any edit
  // ---------------------------------------------------------------------------

  /** What one step of `edit` makes of a file. */
  ghost predicate StepMakes(parsed: Parsed, edit: ConfigEdit, t: string, change: Option<Change>) {
    match edit
    case ServiceEdit(service) =>
      (service == AiGateway ==> NotInPreview(parsed, "aiGateway")) && TogglesOn(parsed, KeyOf(service), t, change)
    case RealtimeEdit(enabled, origins) => SetsRealtime(parsed, enabled, origins, t, change)
    case FunctionEdit(slug, name, source, env, typescript) =>
      && NotInPreview(parsed, "functions")
      && AddsName(parsed, "functions", slug, FunctionLine(slug, name, source, env, typescript), t, change)
    case BucketEdit(bucket, access) =>
      NotInPreview(parsed, "buckets") && AddsName(parsed, "buckets", bucket, BucketLine(bucket, access), t, change)
  }

  /** A step makes of a file exactly what its entries call for, and refuses every other file. */
  lemma {:induction false} StepIs(s: string, edit: ConfigEdit, t: string, change: Option<Change>)
    ensures BuildStep(s, edit) == Success(EditStep(t, change)) <==> Parse(s).Success? && StepMakes(Parse(s).value, edit, t, change)
  {
    hide Parse, SetToggle, SetRealtime, AddNamed, FunctionLine, BucketLine, NotInPreview, TogglesOn, SetsRealtime, AddsName, KeyOf;
    if Parse(s).Success? {
      ConfigDeclares.ParsedReads(s);
      var parsed := Parse(s).value;
      match edit {
        case ServiceEdit(service) => ToggleStepIs(s, parsed, service, t, change);
        case RealtimeEdit(enabled, origins) => RealtimeStepIs(s, parsed, enabled, origins, t, change);
        case FunctionEdit(slug, name, path, env, typescript) =>
          NameStepIs(s, parsed, "functions", slug, FunctionLine(slug, name, path, env, typescript), t, change);
        case BucketEdit(bucket, access) => NameStepIs(s, parsed, "buckets", bucket, BucketLine(bucket, access), t, change);
      }
    }
  }
}

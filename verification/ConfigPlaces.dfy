/**
 * Exactly when a function, bucket or Realtime edit goes through: when it needs no new line, or its
 * line goes where code is, under a name that can be read back.
 */
module ConfigPlaces {
  import opened Wrappers
  import opened ObjectScan
  import opened ConfigEdit
  import opened ConfigInsert
  import opened ConfigLines
  import opened ConfigEntries
  import opened ConfigGrowth
  import opened ConfigDeclares
  import opened ConfigAccepted
  import opened ConfigLands
  import opened ConfigRealtime
  import ConfigSteps

  /** Where an edit puts a new line, when it needs one. */
  ghost function PlaceOf(parsed: Parsed, edit: ConfigEdit): Option<Place>
    requires WellRead(parsed)
  {
    match edit
    case ServiceEdit(_) => None
    case RealtimeEdit(enabled, origins) => RealtimePlace(parsed, enabled, origins)
    case FunctionEdit(slug, _, _, _, _) => NamedPlace(parsed, "functions", slug)
    case BucketEdit(bucket, _) => NamedPlace(parsed, "buckets", bucket)
  }

  /** The name an edit declares is read back from the key it is written as. */
  predicate NameReads(edit: ConfigEdit) {
    match edit
    case FunctionEdit(slug, _, _, _, _) => KeyReads(slug)
    case BucketEdit(bucket, _) => KeyReads(bucket)
    case _ => true
  }

  /** Put in a block comment, the lines of an edit do not end it. */
  predicate StaysInComments(edit: ConfigEdit) {
    match edit
    case ServiceEdit(_) => true
    case RealtimeEdit(enabled, origins) =>
      NoTerminator(RealtimeLineText(enabled, origins)) && (origins.Some? ==> NoTerminator(OriginsLineText(origins.value)))
    case FunctionEdit(slug, name, source, env, typescript) => NoTerminator(FunctionLine(slug, name, source, env, typescript))
    case BucketEdit(bucket, access) => NoTerminator(BucketLine(bucket, access))
  }

  /** No block comment covers the place of the edit's new line, if it has one. */
  ghost predicate PlacedInCode(s: string, edit: ConfigEdit) {
    Parse(s).Success? && WellRead(Parse(s).value) && PlaceOf(Parse(s).value, edit).Some? ==>
      InCode(Parse(s).value, PlaceOf(Parse(s).value, edit).value)
  }

  /** The edit needs no new line, or puts it where code is, under a name that is read back. */
  ghost predicate Lands(s: string, edit: ConfigEdit) {
    Parse(s).Success? && WellRead(Parse(s).value) && PlaceOf(Parse(s).value, edit).Some? ==>
      InCode(Parse(s).value, PlaceOf(Parse(s).value, edit).value) && NameReads(edit)
  }

  /**
   * The file says what the edit asks for, values included: a function or bucket stands in its
   * container as the edit writes it, a service is on, and Realtime has the value or the origins.
   */
  ghost predicate AsWritten(t: string, edit: ConfigEdit) {
    && Parse(t).Success? && WellRead(Parse(t).value)
    && match edit
       case FunctionEdit(slug, name, source, env, typescript) =>
         WrittenIn(Parse(t).value, "functions", slug, FunctionValue(name, source, env, typescript))
       case BucketEdit(bucket, access) => WrittenIn(Parse(t).value, "buckets", bucket, BucketValue(access))
       case _ => Declares(Parse(t).value, edit)
  }

  // ---------------------------------------------------------------------------
  // By place
  // ---------------------------------------------------------------------------

  lemma {:induction false} NamedLands(s: string, container: string, name: string, value: seq<Piece>, line: string, step: EditStep)
    requires Parse(s).Success? && WellRead(Parse(s).value) && AddNamed(Parse(s).value, container, name, [line]) == Success(step)
    requires IsIdentifier(container) && container != "preview" && IsValue(value) && line == Line(name, value)
    requires NamedPlace(Parse(s).value, container, name).Some?
    requires InCode(Parse(s).value, NamedPlace(Parse(s).value, container, name).value) || NoTerminator(line)
    ensures var lands := InCode(Parse(s).value, NamedPlace(Parse(s).value, container, name).value) && KeyReads(name);
            && (NamedInText(step.source, container, name) <==> lands)
            && (lands ==> WrittenInText(step.source, container, name, value))
  {
    hide Parse, FindEntry, NotUnderPreview, Line, IsValue, IsIdentifier, NamedInText, WrittenInText, KeyReads, NoTerminator, ObjectUnder,
      AddNamed, Put, InCode, ContainerOf, RootPlace;
    var parsed := Parse(s).value;
    NamedByPlace(s, container, name, line, step);
    if FindEntry(parsed.root.entries, container).None? {
      NewContainer(s, container, name, value, step.source);
    } else {
      NewInContainer(s, container, ObjectUnder(parsed, parsed.root.entries, container).value, name, value, step.source);
    }
  }

  ghost predicate StaysOrCode(parsed: Parsed, enabled: bool, origins: Option<seq<string>>)
    requires WellRead(parsed)
  {
    || StaysInComments(RealtimeEdit(enabled, origins))
    || (RealtimePlace(parsed, enabled, origins).Some? ==> InCode(parsed, RealtimePlace(parsed, enabled, origins).value))
  }

  /** A Realtime step declares what it was asked for just when its new line, if it puts one in, goes where code is. */
  ghost predicate LandsAsPlaced(parsed: Parsed, enabled: bool, origins: Option<seq<string>>, t: string)
    requires WellRead(parsed)
  {
    RealtimeInText(t, enabled, origins) <==>
    (RealtimePlace(parsed, enabled, origins).Some? ==> InCode(parsed, RealtimePlace(parsed, enabled, origins).value))
  }

  lemma {:induction false} PutWithoutPreview(parsed: Parsed, enabled: bool, origins: Option<seq<string>>, step: EditStep)
    requires WellRead(parsed) && SetRealtime(parsed, enabled, origins) == Success(step) && FindEntry(parsed.root.entries, "preview").None?
    ensures Put(parsed, RootPlace(parsed, "preview"), ContainerOf("preview", RealtimeLineText(enabled, origins), parsed.unit), step.source)
    ensures RealtimePlace(parsed, enabled, origins) == Some(RootPlace(parsed, "preview"))
  {
    hide FindEntry, InsertEntry, EntryAfter, RealtimeValue, ContainerOf;
    PreviewLines(RealtimeLineText(enabled, origins), parsed.unit);
  }

  lemma {:induction false} RealtimeWithoutPreview(s: string, enabled: bool, origins: Option<seq<string>>, step: EditStep)
    requires Parse(s).Success? && WellRead(Parse(s).value) && SetRealtime(Parse(s).value, enabled, origins) == Success(step)
    requires FindEntry(Parse(s).value.root.entries, "preview").None? && StaysOrCode(Parse(s).value, enabled, origins)
    ensures LandsAsPlaced(Parse(s).value, enabled, origins, step.source)
  {
    hide Parse, FindEntry, RealtimeInText, RealtimeLineText, NoTerminator, RealtimePlace, Put, InCode, SetRealtime, RootPlace, ContainerOf;
    PutWithoutPreview(Parse(s).value, enabled, origins, step);
    NewPreview(s, enabled, origins, step.source);
  }

  lemma {:induction false} PutWithoutEntry(parsed: Parsed, e: ObjectEntry, preview: ObjectScan, enabled: bool,
                                           origins: Option<seq<string>>, step: EditStep)
    requires WellRead(parsed) && SetRealtime(parsed, enabled, origins) == Success(step)
    requires FindEntry(parsed.root.entries, "preview") == Some(e) && 0 <= e.valueStart && ObjectOf(parsed, e) == Success(Some(preview))
    requires FindEntry(preview.entries, "realtime").None?
    ensures Put(parsed, Place(preview, None), [RealtimeLineText(enabled, origins)], step.source)
    ensures ObjectUnder(parsed, parsed.root.entries, "preview") == Some(preview)
    ensures RealtimePlace(parsed, enabled, origins) == Some(Place(preview, None))
  {
    hide FindEntry, InsertEntry, RealtimeValue, ObjectOf;
    ObjectCloses(parsed, e, preview);
  }

  lemma {:induction false} RealtimeWithoutEntry(s: string, e: ObjectEntry, preview: ObjectScan, enabled: bool,
                                                origins: Option<seq<string>>, step: EditStep)
    requires Parse(s).Success? && WellRead(Parse(s).value) && SetRealtime(Parse(s).value, enabled, origins) == Success(step)
    requires FindEntry(Parse(s).value.root.entries, "preview") == Some(e) && 0 <= e.valueStart
    requires ObjectOf(Parse(s).value, e) == Success(Some(preview))
    requires FindEntry(preview.entries, "realtime").None? && StaysOrCode(Parse(s).value, enabled, origins)
    ensures LandsAsPlaced(Parse(s).value, enabled, origins, step.source)
  {
    hide Parse, FindEntry, RealtimeInText, RealtimeLineText, NoTerminator, RealtimePlace, Put, InCode, SetRealtime, ObjectOf, ObjectUnder;
    PutWithoutEntry(Parse(s).value, e, preview, enabled, origins, step);
    NewRealtime(s, preview, enabled, origins, step.source);
  }

  /** Where Realtime is declared, only its origins may need a new line. */
  lemma {:induction false} PlaceInPreview(parsed: Parsed, e: ObjectEntry, preview: ObjectScan, entry: ObjectEntry,
                                          enabled: bool, origins: Option<seq<string>>)
    requires WellRead(parsed) && FindEntry(parsed.root.entries, "preview") == Some(e) && 0 <= e.valueStart
    requires ObjectOf(parsed, e) == Success(Some(preview)) && FindEntry(preview.entries, "realtime") == Some(entry) && 0 <= entry.valueStart
    requires !Reads(parsed, preview.entries, "realtime", RealtimeValue(enabled, origins)) && ObjectOf(parsed, entry).Success?
    ensures RealtimePlace(parsed, enabled, origins)
         == if enabled && origins.Some? && ObjectOf(parsed, entry).value.Some?
               && FindEntry(ObjectOf(parsed, entry).value.value.entries, "allowedOrigins").None?
            then Some(Place(ObjectOf(parsed, entry).value.value, None)) else None
  {
    hide FindEntry, ObjectOf, RealtimeValue, Reads;
  }

  /** A step for the origins puts in their line, or replaces their value. */
  lemma {:induction false} OriginsStep(parsed: Parsed, settings: ObjectScan, origins: seq<string>, step: EditStep)
    requires WellRead(parsed) && settings.open < settings.close < |parsed.source|
    requires EntriesWithin(settings.entries, settings.open + 1, settings.close)
    requires SetOrigins(parsed, settings, JsonList(origins)) == Success(step) && step.change.Some?
    ensures var found := FindEntry(settings.entries, "allowedOrigins");
            if found.None? then Put(parsed, Place(settings, None), [OriginsLineText(origins)], step.source)
            else
              && found.value.keyed && 0 <= found.value.valueStart <= found.value.valueEnd <= |parsed.source|
              && step.source == parsed.source[..found.value.valueStart] + JsonList(origins) + parsed.source[found.value.valueEnd..]
  {
    hide FindEntry, InsertEntry, JsonList;
  }

  lemma {:induction false} PlacedLands(parsed: Parsed, origins: seq<string>, place: Place, t: string)
    requires WellRead(parsed) && RealtimePlace(parsed, true, Some(origins)) == Some(place)
    requires StaysOrCode(parsed, true, Some(origins))
    requires InCode(parsed, place) || NoTerminator(OriginsLineText(origins)) ==>
               (RealtimeInText(t, true, Some(origins)) <==> InCode(parsed, place))
    ensures LandsAsPlaced(parsed, true, Some(origins), t)
  {
    hide RealtimePlace, InCode, RealtimeInText, NoTerminator, OriginsLineText, RealtimeLineText;
  }

  lemma {:induction false} UnplacedLands(parsed: Parsed, origins: seq<string>, t: string)
    requires WellRead(parsed) && RealtimePlace(parsed, true, Some(origins)).None? && RealtimeInText(t, true, Some(origins))
    ensures LandsAsPlaced(parsed, true, Some(origins), t)
  {
    hide RealtimePlace, RealtimeInText;
  }

  lemma {:induction false} OriginsLand(s: string, preview: ObjectScan, settings: ObjectScan, origins: seq<string>, step: EditStep)
    requires Parse(s).Success? && WellRead(Parse(s).value)
    requires ObjectUnder(Parse(s).value, Parse(s).value.root.entries, "preview") == Some(preview)
    requires ObjectUnder(Parse(s).value, preview.entries, "realtime") == Some(settings)
    requires settings.open < settings.close < |Parse(s).value.source| && EntriesWithin(settings.entries, settings.open + 1, settings.close)
    requires SetOrigins(Parse(s).value, settings, JsonList(origins)) == Success(step) && step.change.Some?
    requires RealtimePlace(Parse(s).value, true, Some(origins))
          == if FindEntry(settings.entries, "allowedOrigins").None? then Some(Place(settings, None)) else None
    requires StaysOrCode(Parse(s).value, true, Some(origins))
    ensures LandsAsPlaced(Parse(s).value, true, Some(origins), step.source)
  {
    hide Parse, FindEntry, SetOrigins, RealtimeInText, JsonList, NoTerminator, ObjectUnder, RealtimePlace, OriginsLineText, Put, InCode,
      StaysOrCode, LandsAsPlaced;
    var parsed := Parse(s).value;
    OriginsStep(parsed, settings, origins, step);
    if FindEntry(settings.entries, "allowedOrigins").None? {
      NewOrigins(s, preview, settings, origins, step.source);
      PlacedLands(parsed, origins, Place(settings, None), step.source);
    } else {
      OriginsReplaced(s, preview, settings, origins, step.source);
      SaidInText(step.source, true, Some(origins));
      UnplacedLands(parsed, origins, step.source);
    }
  }

  lemma {:induction false} SaidInText(t: string, enabled: bool, origins: Option<seq<string>>)
    requires Parse(t).Success? && WellRead(Parse(t).value) && RealtimeSays(Parse(t).value, enabled, origins)
    ensures RealtimeInText(t, enabled, origins)
  {
    hide Parse, RealtimeSays;
  }

  lemma {:induction false} ValueLands(s: string, e: ObjectEntry, preview: ObjectScan, entry: ObjectEntry, enabled: bool,
                                      origins: Option<seq<string>>, t: string)
    requires Parse(s).Success? && WellRead(Parse(s).value) && 0 <= e.valueStart
    requires FindEntry(Parse(s).value.root.entries, "preview") == Some(e) && ObjectOf(Parse(s).value, e) == Success(Some(preview))
    requires FindEntry(preview.entries, "realtime") == Some(entry) && RealtimePlace(Parse(s).value, enabled, origins).None?
    requires entry.keyed && 0 <= entry.valueStart <= entry.valueEnd <= |s|
    requires t == s[..entry.valueStart] + RealtimeValue(enabled, origins) + s[entry.valueEnd..]
    ensures LandsAsPlaced(Parse(s).value, enabled, origins, t)
  {
    hide Parse, FindEntry, RealtimeSays, RealtimeValue, ObjectOf, RealtimePlace;
    RealtimeReplaced(s, preview, enabled, origins, t);
  }

  /** Where Realtime is declared, a changing step is one for its origins, or replaces its value. */
  lemma {:induction false} EntryStep(parsed: Parsed, e: ObjectEntry, preview: ObjectScan, entry: ObjectEntry, enabled: bool,
                                     origins: Option<seq<string>>, step: EditStep)
    requires WellRead(parsed) && SetRealtime(parsed, enabled, origins) == Success(step) && step.change.Some?
    requires FindEntry(parsed.root.entries, "preview") == Some(e) && 0 <= e.valueStart && ObjectOf(parsed, e) == Success(Some(preview))
    requires FindEntry(preview.entries, "realtime") == Some(entry) && 0 <= entry.valueStart <= entry.valueEnd <= |parsed.source|
    ensures !Reads(parsed, preview.entries, "realtime", RealtimeValue(enabled, origins)) && ObjectOf(parsed, entry).Success?
    ensures if enabled && origins.Some? && ObjectOf(parsed, entry).value.Some? then
              var settings := ObjectOf(parsed, entry).value.value;
              && settings.open < settings.close < |parsed.source| && EntriesWithin(settings.entries, settings.open + 1, settings.close)
              && SetOrigins(parsed, settings, JsonList(origins.value)) == Success(step)
            else
              && entry.keyed && !(enabled && origins.None? && ObjectOf(parsed, entry).value.Some?)
              && step.source == parsed.source[..entry.valueStart] + RealtimeValue(enabled, origins) + parsed.source[entry.valueEnd..]
  {
    hide FindEntry, InsertEntry, EntryAfter, RealtimeValue, JsonList, ObjectOf, SetOrigins;
    ObjectCloses(parsed, e, preview);
    if ObjectOf(parsed, entry).Success? && ObjectOf(parsed, entry).value.Some? {
      ObjectCloses(parsed, entry, ObjectOf(parsed, entry).value.value);
    }
  }

  lemma {:induction false} RealtimeEntryLands(s: string, e: ObjectEntry, preview: ObjectScan, enabled: bool,
                                              origins: Option<seq<string>>, step: EditStep)
    requires Parse(s).Success? && WellRead(Parse(s).value) && SetRealtime(Parse(s).value, enabled, origins) == Success(step)
    requires FindEntry(Parse(s).value.root.entries, "preview") == Some(e) && 0 <= e.valueStart
    requires ObjectOf(Parse(s).value, e) == Success(Some(preview))
    requires FindEntry(preview.entries, "realtime").Some? && step.change.Some? && StaysOrCode(Parse(s).value, enabled, origins)
    ensures LandsAsPlaced(Parse(s).value, enabled, origins, step.source)
  {
    hide Parse, FindEntry, SetRealtime, Reads, RealtimeValue, JsonList, ObjectOf, RealtimePlace, StaysOrCode, LandsAsPlaced, SetOrigins;
    var parsed := ParsedIs(s);
    ObjectCloses(parsed, e, preview);
    var entry := FindEntry(preview.entries, "realtime").value;
    EntryStep(parsed, e, preview, entry, enabled, origins, step);
    PlaceInPreview(parsed, e, preview, entry, enabled, origins);
    var literal := ObjectOf(parsed, entry).value;
    if enabled && origins.Some? && literal.Some? {
      OriginsLand(s, preview, literal.value, origins.value, step);
    } else {
      ValueLands(s, e, preview, entry, enabled, origins, step.source);
    }
  }

  /** What a Realtime step does, by what the file says. */
  lemma {:induction false} RealtimeLands(s: string, enabled: bool, origins: Option<seq<string>>, step: EditStep)
    requires Parse(s).Success? && WellRead(Parse(s).value) && SetRealtime(Parse(s).value, enabled, origins) == Success(step)
    requires step.change.Some? && StaysOrCode(Parse(s).value, enabled, origins)
    ensures LandsAsPlaced(Parse(s).value, enabled, origins, step.source)
  {
    hide Parse, FindEntry, InsertEntry, EntryAfter, ObjectOf, SetOrigins, StaysOrCode, LandsAsPlaced, Joined;
    var parsed := Parse(s).value;
    var found := FindEntry(parsed.root.entries, "preview");
    if found.None? {
      RealtimeWithoutPreview(s, enabled, origins, step);
    } else {
      EntryRange(parsed, found.value);
      var preview := ObjectOf(parsed, found.value).value.value;
      if FindEntry(preview.entries, "realtime").None? {
        RealtimeWithoutEntry(s, found.value, preview, enabled, origins, step);
      } else {
        RealtimeEntryLands(s, found.value, preview, enabled, origins, step);
      }
    }
  }

  // ---------------------------------------------------------------------------
  // Exactly when an edit goes through
  // ---------------------------------------------------------------------------

  /** The file `t` is read, and declares what the edit asks for. */
  ghost predicate DeclaredIn(t: string, edit: ConfigEdit) {
    Parse(t).Success? && WellRead(Parse(t).value) && Declares(Parse(t).value, edit)
  }

  lemma {:induction false} NamedAccepted(s: string, edit: ConfigEdit, container: string, name: string, value: seq<Piece>, line: string)
    requires Parse(s).Success? && WellRead(Parse(s).value) && BuildStep(s, edit).Success? && BuildStep(s, edit).value.change.Some?
    requires BuildStep(s, edit) == AddNamed(Parse(s).value, container, name, [line])
    requires PlaceOf(Parse(s).value, edit) == NamedPlace(Parse(s).value, container, name) && (NameReads(edit) <==> KeyReads(name))
    requires forall p :: WellRead(p) ==> (Declares(p, edit) <==> NamedIn(p, container, name))
    requires IsIdentifier(container) && container != "preview" && IsValue(value) && line == Line(name, value)
    requires NoTerminator(line) || PlacedInCode(s, edit)
    ensures var t := BuildStep(s, edit).value.source;
            && (DeclaredIn(t, edit) <==> Lands(s, edit))
            && (Lands(s, edit) ==> WrittenInText(t, container, name, value))
  {
    hide Parse, AddNamed, NamedPlace, Declares, NamedIn, WrittenIn, KeyReads, IsValue, Line, NoTerminator, IsIdentifier, InCode, NameReads, PlaceOf,
      BuildStep, NotUnderPreview, FindEntry, InsertEntry;
    var step := BuildStep(s, edit).value;
    NamedByPlace(s, container, name, line, step);
    NamedLands(s, container, name, value, line, step);
  }

  lemma {:induction false} ContainersAreNames()
    ensures IsIdentifier("functions") && IsIdentifier("buckets")
  {
  }

  lemma {:induction false} FunctionAccepted(s: string, edit: ConfigEdit)
    requires edit.FunctionEdit? && EnvReads(edit.env) && BuildStep(s, edit).Success? && BuildStep(s, edit).value.change.Some?
    requires StaysInComments(edit) || PlacedInCode(s, edit)
    ensures var t := BuildStep(s, edit).value.source;
            (DeclaredIn(t, edit) <==> Lands(s, edit)) && (Lands(s, edit) ==> AsWritten(t, edit))
  {
    hide Parse, AddNamed, NamedPlace, NamedIn, WrittenIn, KeyReads, IsValue, Line, NoTerminator, IsIdentifier, InCode, FunctionLine, FunctionValue;
    var value := FunctionValue(edit.name, edit.source, edit.env, edit.typescript);
    var parsed := ParsedIs(s);
    ContainersAreNames();
    FunctionIsValue(edit.slug, edit.name, edit.source, edit.env, edit.typescript);
    NamedAccepted(s, edit, "functions", edit.slug, value, FunctionLine(edit.slug, edit.name, edit.source, edit.env, edit.typescript));
  }

  lemma {:induction false} BucketAccepted(s: string, edit: ConfigEdit)
    requires edit.BucketEdit? && BuildStep(s, edit).Success? && BuildStep(s, edit).value.change.Some?
    requires StaysInComments(edit) || PlacedInCode(s, edit)
    ensures var t := BuildStep(s, edit).value.source;
            (DeclaredIn(t, edit) <==> Lands(s, edit)) && (Lands(s, edit) ==> AsWritten(t, edit))
  {
    hide Parse, AddNamed, NamedPlace, NamedIn, WrittenIn, KeyReads, IsValue, Line, NoTerminator, IsIdentifier, InCode, BucketLine, BucketValue;
    var parsed := ParsedIs(s);
    ContainersAreNames();
    BucketIsValue(edit.bucket, edit.access);
    NamedAccepted(s, edit, "buckets", edit.bucket, BucketValue(edit.access), BucketLine(edit.bucket, edit.access));
  }

  lemma {:induction false} RealtimeAccepted(s: string, edit: ConfigEdit)
    requires edit.RealtimeEdit? && BuildStep(s, edit).Success? && BuildStep(s, edit).value.change.Some?
    requires StaysInComments(edit) || PlacedInCode(s, edit)
    ensures var t := BuildStep(s, edit).value.source;
            (DeclaredIn(t, edit) <==> Lands(s, edit)) && (Lands(s, edit) ==> AsWritten(t, edit))
  {
    hide Parse, SetRealtime, RealtimePlace, RealtimeSays, InCode, NoTerminator;
    var parsed := ParsedIs(s);
    RealtimeLands(s, edit.enabled, edit.allowedOrigins, BuildStep(s, edit).value);
  }

  lemma {:induction false} UnplacedWithoutChange(s: string, edit: ConfigEdit)
    requires !edit.ServiceEdit? && BuildStep(s, edit).Success? && BuildStep(s, edit).value.change.None?
    ensures Lands(s, edit)
  {
    hide Parse, BuildStep, PlaceOf, InCode, NameReads;
    var t := BuildStep(s, edit).value.source;
    ConfigSteps.StepUnchanged(s, edit, t);
    StepDone(s, edit);
    if Parse(s).Success? { DeclaredNeedsNoPlace(Parse(s).value, edit); }
  }

  /** What is declared needs no new line. */
  lemma {:induction false} DeclaredNeedsNoPlace(parsed: Parsed, edit: ConfigEdit)
    requires Declares(parsed, edit) && !edit.ServiceEdit?
    ensures PlaceOf(parsed, edit).None?
  {
    hide FindEntry, NotUnderPreview, ObjectOf, RealtimeValue, JsonList;
  }

  /** An edit that needs no new line, or lands, is accepted; what it wrote itself is then there as it is written. */
  lemma {:induction false} PlacedAccepted(s: string, edit: ConfigEdit)
    requires !edit.ServiceEdit? && Apply(s, edit).Success? && (edit.FunctionEdit? ==> EnvReads(edit.env))
    requires StaysInComments(edit) || PlacedInCode(s, edit)
    ensures EditNeonConfig(s, edit).Success? <==> Lands(s, edit)
    ensures Lands(s, edit) && BuildStep(s, edit).Success? && BuildStep(s, edit).value.change.Some? ==>
              AsWritten(BuildStep(s, edit).value.source, edit)
  {
    hide Apply, BuildStep, Parse, Declares, Lands, PlacedInCode, StaysInComments, EnvReads, EditNeonConfig, AsWritten;
    AcceptedIffDeclared(s, edit);
    ApplyIsStep(s, edit);
    var t := BuildStep(s, edit).value.source;
    DeclaresIsRead(t, edit);
    if BuildStep(s, edit).value.change.None? {
      UnplacedWithoutChange(s, edit);
      ConfigSteps.StepUnchanged(s, edit, t);
      StepDone(s, edit);
    } else {
      match edit {
        case RealtimeEdit(_, _) => RealtimeAccepted(s, edit);
        case FunctionEdit(_, _, _, _, _) => FunctionAccepted(s, edit);
        case BucketEdit(_, _) => BucketAccepted(s, edit);
      }
    }
  }

  lemma {:induction false} LandsIsPlaced(s: string, edit: ConfigEdit)
    requires Lands(s, edit)
    ensures PlacedInCode(s, edit)
  {
    hide Parse, PlaceOf, InCode, NameReads;
  }

  /**
   * A function, bucket or Realtime edit whose step succeeds is accepted whenever it needs no new
   * line, or its line goes where no block comment covers the place and its key, as it is written,
   * is read as the name. It is accepted only then, unless its own text ends the comment it is put in.
   */
  lemma {:induction false} EditLandsIff(s: string, edit: ConfigEdit)
    requires !edit.ServiceEdit? && Apply(s, edit).Success? && (edit.FunctionEdit? ==> EnvReads(edit.env))
    ensures Lands(s, edit) ==> EditNeonConfig(s, edit).Success?
    ensures StaysInComments(edit) || PlacedInCode(s, edit) ==> (EditNeonConfig(s, edit).Success? <==> Lands(s, edit))
  {
    hide Apply, BuildStep, EditNeonConfig, Lands, PlacedInCode, StaysInComments, EnvReads, AsWritten;
    if Lands(s, edit) { LandsIsPlaced(s, edit); }
    if StaysInComments(edit) || PlacedInCode(s, edit) { PlacedAccepted(s, edit); }
  }

  /**
   * Every accepted edit that reports a change leaves a file that says it as it was asked for, with
   * its values, when its text cannot end a comment or goes where none covers the place.
   */
  lemma {:induction false} AcceptedAsWritten(s: string, edit: ConfigEdit, result: EditResult)
    requires EditNeonConfig(s, edit) == Success(result) && result.changes != [] && (edit.FunctionEdit? ==> EnvReads(edit.env))
    requires StaysInComments(edit) || PlacedInCode(s, edit)
    ensures AsWritten(result.source, edit)
  {
    hide Apply, BuildStep, EditNeonConfig, Lands, PlacedInCode, StaysInComments, EnvReads, Parse, Declares, WrittenIn;
    AcceptedDeclares(s, edit, result);
    DeclaresIsRead(result.source, edit);
    if edit.FunctionEdit? || edit.BucketEdit? {
      EditIsItsSteps(s, edit, result);
      PlacedAccepted(s, edit);
      ChangeOfStep(s, edit, result);
    }
  }

  lemma {:induction false} ChangeOfStep(s: string, edit: ConfigEdit, result: EditResult)
    requires !edit.ServiceEdit? && Apply(s, edit) == Success(result) && result.changes != []
    ensures BuildStep(s, edit).Success? && BuildStep(s, edit).value.source == result.source && BuildStep(s, edit).value.change.Some?
  {
    hide BuildStep, RunSteps;
    RunOne(s, edit);
  }

  lemma {:induction false} ApplyIsStep(s: string, edit: ConfigEdit)
    requires !edit.ServiceEdit? && Apply(s, edit).Success?
    ensures BuildStep(s, edit).Success? && Apply(s, edit).value.source == BuildStep(s, edit).value.source
  {
    hide BuildStep, RunSteps;
    RunOne(s, edit);
  }

  lemma {:induction false} DeclaresIsRead(t: string, edit: ConfigEdit)
    ensures Parse(t).Success? && Declares(Parse(t).value, edit) ==> WellRead(Parse(t).value)
  {
    hide Parse, NamedIn, RealtimeSays, ConfigConverge.ServiceOn;
  }
}

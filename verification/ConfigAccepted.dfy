/**
 * What the read-back of `editNeonConfig` accepts: exactly the results that declare what the edit
 * asks for, whatever the edit.
 */
module ConfigAccepted {
  import opened Wrappers
  import opened ObjectScan
  import opened ConfigEdit
  import opened ConfigEntries
  import opened ConfigConverge
  import opened ConfigDeclares
  import opened ConfigSteps

  /** The object literal the entry `key` holds. */
  ghost function ObjectUnder(parsed: Parsed, entries: seq<ObjectEntry>, key: string): Option<ObjectScan>
    requires |parsed.kinds| == |parsed.source|
  {
    match FindEntry(entries, key)
    case None => None
    case Some(e) => if 0 <= e.valueStart && ObjectOf(parsed, e).Success? then ObjectOf(parsed, e).value else None
  }

  /** `container` is an object literal with an entry `name`, and `preview` cannot hide it. */
  ghost predicate NamedIn(parsed: Parsed, container: string, name: string)
    requires WellRead(parsed)
  {
    var inner := ObjectUnder(parsed, parsed.root.entries, container);
    NotUnderPreview(parsed, container).Success? && inner.Some? && FindEntry(inner.value.entries, name).Some?
  }

  /** `name: text`, as it is written. */
  ghost predicate Reads(parsed: Parsed, entries: seq<ObjectEntry>, name: string, text: string) {
    var found := FindEntry(entries, name);
    && found.Some? && found.value.keyed && 0 <= found.value.valueStart <= found.value.valueEnd <= |parsed.source|
    && ValueText(parsed.source, found.value) == text
  }

  /** `preview.realtime` has the value asked for; any object switches it on, with the origins asked for. */
  ghost predicate RealtimeSays(parsed: Parsed, enabled: bool, origins: Option<seq<string>>)
    requires WellRead(parsed)
  {
    var preview := ObjectUnder(parsed, parsed.root.entries, "preview");
    && preview.Some?
    && (|| Reads(parsed, preview.value.entries, "realtime", RealtimeValue(enabled, origins))
        || (enabled &&
            var settings := ObjectUnder(parsed, preview.value.entries, "realtime");
            settings.Some? && (origins.Some? ==> Reads(parsed, settings.value.entries, "allowedOrigins", JsonList(origins.value)))))
  }

  /** The file declares what the edit asks for. */
  ghost predicate Declares(parsed: Parsed, edit: ConfigEdit) {
    WellRead(parsed) &&
    match edit
    case ServiceEdit(service) =>
      && ServiceOn(parsed, service)
      && (service == AiGateway ==> NotUnderPreview(parsed, ServiceKey(service)).Success?)
      && (service == DataApi ==>
            DataApiIsExternal(parsed) == Success(true) || (DataApiIsExternal(parsed) == Success(false) && ServiceOn(parsed, Auth)))
    case RealtimeEdit(enabled, origins) => RealtimeSays(parsed, enabled, origins)
    case FunctionEdit(slug, _, _, _, _) => NamedIn(parsed, "functions", slug)
    case BucketEdit(bucket, _) => NamedIn(parsed, "buckets", bucket)
  }

  // ---------------------------------------------------------------------------
  // A step with nothing left to do
  // ---------------------------------------------------------------------------

  lemma {:induction false} NamedDone(parsed: Parsed, container: string, name: string, lines: seq<string>)
    requires WellRead(parsed)
    ensures AddNamed(parsed, container, name, lines) == Success(EditStep(parsed.source, None)) <==> NamedIn(parsed, container, name)
  {
    hide ObjectOf, FindEntry, InsertEntry, NotUnderPreview, Prefixed, EntryAfter;
    var found := FindEntry(parsed.root.entries, container);
    if found.Some? { EntryRange(parsed, found.value); }
  }

  lemma {:induction false} ObjectCloses(parsed: Parsed, e: ObjectEntry, scan: ObjectScan)
    requires |parsed.kinds| == |parsed.source| && 0 <= e.valueStart && ObjectOf(parsed, e) == Success(Some(scan))
    ensures scan.open < scan.close < |parsed.source| && EntriesWithin(scan.entries, scan.open + 1, scan.close)
  {
    hide ScanTo, Plain;
  }

  lemma {:induction false} OriginsDone(parsed: Parsed, settings: ObjectScan, origins: string)
    requires WellRead(parsed) && settings.open < settings.close < |parsed.source|
    requires EntriesWithin(settings.entries, settings.open + 1, settings.close)
    ensures SetOrigins(parsed, settings, origins) == Success(EditStep(parsed.source, None))
       <==> Reads(parsed, settings.entries, "allowedOrigins", origins)
  {
    hide FindEntry, InsertEntry;
  }

  lemma {:induction false} RealtimeDone(parsed: Parsed, enabled: bool, origins: Option<seq<string>>)
    requires WellRead(parsed)
    ensures SetRealtime(parsed, enabled, origins) == Success(EditStep(parsed.source, None)) <==> RealtimeSays(parsed, enabled, origins)
  {
    hide ObjectOf, FindEntry, InsertEntry, SetOrigins, RealtimeValue, JsonList, EntryAfter, Reads;
    var found := FindEntry(parsed.root.entries, "preview");
    if found.Some? {
      EntryRange(parsed, found.value);
      if ObjectOf(parsed, found.value).Success? && ObjectOf(parsed, found.value).value.Some? {
        RealtimeEntryDone(parsed, found.value, ObjectOf(parsed, found.value).value.value, enabled, origins);
      }
    }
  }

  lemma {:induction false} RealtimeEntryDone(parsed: Parsed, e: ObjectEntry, preview: ObjectScan, enabled: bool,
                                             origins: Option<seq<string>>)
    requires WellRead(parsed) && FindEntry(parsed.root.entries, "preview") == Some(e) && 0 <= e.valueStart
    requires ObjectOf(parsed, e) == Success(Some(preview))
    ensures SetRealtime(parsed, enabled, origins) == Success(EditStep(parsed.source, None)) <==> RealtimeSays(parsed, enabled, origins)
  {
    hide ObjectOf, FindEntry, InsertEntry, SetOrigins, RealtimeValue, JsonList, EntryAfter;
    ObjectCloses(parsed, e, preview);
    var entry := FindEntry(preview.entries, "realtime");
    if entry.Some? && ObjectOf(parsed, entry.value).Success? && ObjectOf(parsed, entry.value).value.Some? && origins.Some? {
      var settings := ObjectOf(parsed, entry.value).value.value;
      ObjectCloses(parsed, entry.value, settings);
      OriginsDone(parsed, settings, JsonList(origins.value));
    }
  }

  lemma {:induction false} ToggleDone(parsed: Parsed, service: Service)
    requires WellRead(parsed)
    ensures SetToggle(parsed, service) == Success(EditStep(parsed.source, None)) <==>
            ServiceOn(parsed, service) && (service == AiGateway ==> NotUnderPreview(parsed, ServiceKey(service)).Success?)
  {
    hide ObjectOf, FindEntry, InsertEntry, NotUnderPreview, EntryAfter, ReadToggle;
    var found := FindEntry(parsed.root.entries, ServiceKey(service));
    if found.Some? { EntryRange(parsed, found.value); }
  }

  /** A single step leaves the file alone exactly when the file declares what it asks for. */
  lemma {:induction false} StepDone(t: string, edit: ConfigEdit)
    requires edit != ServiceEdit(DataApi)
    ensures BuildStep(t, edit) == Success(EditStep(t, None)) <==> Parse(t).Success? && Declares(Parse(t).value, edit)
  {
    hide Parse, SetToggle, SetRealtime, AddNamed, FunctionLine, BucketLine, NamedIn, RealtimeSays, NotUnderPreview, ServiceOn, DataApiIsExternal;
    if Parse(t).Success? {
      var parsed := ParsedWell(t);
      match edit {
        case ServiceEdit(service) => ToggleDone(parsed, service);
        case RealtimeEdit(enabled, origins) => RealtimeDone(parsed, enabled, origins);
        case FunctionEdit(slug, name, path, env, typescript) =>
          NamedDone(parsed, "functions", slug, [FunctionLine(slug, name, path, env, typescript)]);
        case BucketEdit(bucket, access) => NamedDone(parsed, "buckets", bucket, [BucketLine(bucket, access)]);
      }
    }
  }

  lemma {:induction false} ToggleStepDone(t: string, service: Service)
    requires service != AiGateway
    ensures BuildStep(t, ServiceEdit(service)) == Success(EditStep(t, None)) <==> Parse(t).Success? && ServiceOn(Parse(t).value, service)
  {
    hide Parse, SetToggle, ServiceOn;
    if Parse(t).Success? {
      var parsed := ParsedWell(t);
      ToggleDone(parsed, service);
    }
  }

  // ---------------------------------------------------------------------------
  // An edit with nothing left to do
  // ---------------------------------------------------------------------------

  lemma {:induction false} RunTwoIffDone(t: string, first: ConfigEdit, second: ConfigEdit)
    ensures RunSteps(t, [first, second]) == Success(EditResult(t, [])) <==>
            BuildStep(t, first) == Success(EditStep(t, None)) && BuildStep(t, second) == Success(EditStep(t, None))
  {
    hide BuildStep, RunSteps;
    if RunSteps(t, [first, second]) == Success(EditResult(t, [])) {
      RunTwo(t, first, second);
      var a := BuildStep(t, first).value;
      var b := BuildStep(a.source, second).value;
      NoneBoth(a.change, b.change);
      StepUnchanged(t, first, a.source);
    } else if BuildStep(t, first) == Success(EditStep(t, None)) && BuildStep(t, second) == Success(EditStep(t, None)) {
      RunTwoDone(t, first, second);
    }
  }

  lemma {:induction false} NoneBoth(a: Option<Change>, b: Option<Change>)
    requires OptionSeq(a) + OptionSeq(b) == []
    ensures a.None? && b.None?
  {
    assert |OptionSeq(a) + OptionSeq(b)| == |OptionSeq(a)| + |OptionSeq(b)|;
  }

  /** An edit changes nothing exactly when the file declares what it asks for. */
  lemma {:induction false} DeclaredIffDone(t: string, edit: ConfigEdit)
    ensures Apply(t, edit) == Success(EditResult(t, [])) <==> Parse(t).Success? && Declares(Parse(t).value, edit)
  {
    hide BuildStep, Parse, Declares, RunSteps;
    if edit == ServiceEdit(DataApi) {
      DataApiIffDone(t);
    } else {
      RunOneIffDone(t, edit);
      StepDone(t, edit);
    }
  }

  /** The steps of a Data API edit, by whose tokens it verifies. */
  lemma {:induction false} DataApiSteps(t: string)
    requires Parse(t).Success?
    ensures var external := DataApiIsExternal(Parse(t).value);
            StepsOf(t, ServiceEdit(DataApi))
            == if external.Failure? then Failure(external.error)
               else Success(if external.value then [ServiceEdit(DataApi)] else [ServiceEdit(Auth), ServiceEdit(DataApi)])
  {
    hide Parse, DataApiIsExternal;
  }

  lemma {:induction false} DataApiDeclared(parsed: Parsed)
    requires WellRead(parsed)
    ensures Declares(parsed, ServiceEdit(DataApi)) <==>
            && ServiceOn(parsed, DataApi) && DataApiIsExternal(parsed).Success?
            && (!DataApiIsExternal(parsed).value ==> ServiceOn(parsed, Auth))
  {
    hide ServiceOn, DataApiIsExternal;
  }

  lemma {:induction false} DataApiIffDone(t: string)
    ensures Apply(t, ServiceEdit(DataApi)) == Success(EditResult(t, [])) <==> Parse(t).Success? && Declares(Parse(t).value, ServiceEdit(DataApi))
  {
    hide BuildStep, Parse, DataApiIsExternal, ServiceOn, RunSteps, Declares;
    if Parse(t).Success? {
      hide StepsOf;
      var parsed := ParsedWell(t);
      DataApiSteps(t);
      DataApiDeclared(parsed);
      ToggleStepDone(t, DataApi);
      ToggleStepDone(t, Auth);
      RunOneIffDone(t, ServiceEdit(DataApi));
      RunTwoIffDone(t, ServiceEdit(Auth), ServiceEdit(DataApi));
    }
  }

  lemma {:induction false} RunOneIffDone(t: string, edit: ConfigEdit)
    ensures RunSteps(t, [edit]) == Success(EditResult(t, [])) <==> BuildStep(t, edit) == Success(EditStep(t, None))
  {
    hide BuildStep, RunSteps;
    RunOne(t, edit);
  }

  /**
   * Once its steps succeed, an edit is accepted exactly when the text they produced declares what
   * the edit asks for.
   */
  lemma {:induction false} AcceptedIffDeclared(s: string, edit: ConfigEdit)
    requires Apply(s, edit).Success?
    ensures var t := Apply(s, edit).value.source;
            EditNeonConfig(s, edit).Success? <==> Parse(t).Success? && Declares(Parse(t).value, edit)
  {
    hide StepsOf, RunSteps, Parse, Declares;
    var result := Apply(s, edit).value;
    var t := result.source;
    DeclaredIffDone(t, edit);
    if result.changes == [] {
      NoChangesNoText(s, StepsOf(s, edit).value, result);
    } else if Apply(t, edit).Success? && Apply(t, edit).value.changes == [] {
      NoChangesNoText(t, StepsOf(t, edit).value, Apply(t, edit).value);
    }
  }

  lemma {:induction false} EditIsItsSteps(s: string, edit: ConfigEdit, result: EditResult)
    requires EditNeonConfig(s, edit) == Success(result)
    ensures Apply(s, edit) == Success(result)
  {
    hide Apply;
  }

  /** Every file an edit returns declares what the edit asked for. */
  lemma {:induction false} AcceptedDeclares(s: string, edit: ConfigEdit, result: EditResult)
    requires EditNeonConfig(s, edit) == Success(result)
    ensures Parse(result.source).Success? && Declares(Parse(result.source).value, edit)
  {
    hide Apply, Parse, Declares, EditNeonConfig;
    EditIsItsSteps(s, edit, result);
    AcceptedIffDeclared(s, edit);
  }
}

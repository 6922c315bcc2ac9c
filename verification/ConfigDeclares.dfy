/**
 * `editNeonConfig` for the services: unless a block comment covers the place where a line goes,
 * the read-back finds the edit, so the edit is never refused for what it wrote.
 */
module ConfigDeclares {
  import opened Wrappers
  import opened Text
  import opened SourceLexer
  import opened ObjectScan
  import opened ObjectShift
  import opened ConfigEdit
  import opened ConfigAppend
  import opened ConfigReplace
  import opened ConfigInsert
  import opened ConfigEntries
  import opened ConfigConverge

  /** The new line of every step goes where code is. */
  ghost predicate StepsInCode(s: string, steps: seq<Service>)
    decreases |steps|
  {
    steps != [] ==>
      && PlaceInCode(s, steps[0])
      && (BuildStep(s, ServiceEdit(steps[0])).Success? ==>
            StepsInCode(BuildStep(s, ServiceEdit(steps[0])).value.source, steps[1..]))
  }

  lemma {:induction false} KeptBack(s1: string, k1: seq<Kind>, e: ObjectEntry, s2: string, k2: seq<Kind>, e2: ObjectEntry, d: int)
    requires Kept(s1, k1, e, s2, k2, e2, d)
    ensures Kept(s2, k2, e2, s1, k1, e, -d)
  {
    var lo, hi := e2.start, e2.end;
    forall k {:trigger s2[k]} | lo <= k < hi ensures s2[k] == s1[k - d] { assert s1[k - d] == s2[k - d + d]; }
    forall k {:trigger k2[k]} | lo <= k < hi ensures k2[k] == k1[k - d] { assert k1[k - d] == k2[k - d + d]; }
  }

  /** The named part of an object that moved: it is there or not as before, with the same text. */
  lemma {:induction false} PartKept(s1: string, k1: seq<Kind>, scan: ObjectScan, s2: string, k2: seq<Kind>, d: int, name: string)
    requires Same(s1, k1, s2, k2, d, scan.open, scan.close + 1) && EntriesWithin(scan.entries, scan.open + 1, scan.close)
    ensures var f1, f2 := FindEntry(scan.entries, name), FindEntry(MoveAll(scan.entries, d), name);
            && (f1.None? <==> f2.None?)
            && (f1.Some? ==>
                  && 0 <= f1.value.valueStart <= f1.value.valueEnd <= |s1| && 0 <= f2.value.valueStart <= f2.value.valueEnd <= |s2|
                  && f2.value.keyed == f1.value.keyed && ValueText(s2, f2.value) == ValueText(s1, f1.value))
  {
    hide FindEntry, Agree;
    MovedKeys(scan.entries, d);
    var n := SameKeysFind(scan.entries, MoveAll(scan.entries, d), name);
    if FindEntry(scan.entries, name).Some? {
      var e := scan.entries[n];
      AgreeInside(s1, s2, d, scan.open, scan.close + 1);
      SliceShift(s1, s2, d, scan.open, scan.close + 1, e.valueStart, e.valueEnd);
    }
  }

  lemma {:induction false} AgreeInside<T(!new)>(s1: seq<T>, s2: seq<T>, d: int, lo: int, hi: int)
    requires Agree(s1, s2, d, lo, hi)
    ensures 0 <= lo <= hi <= |s1| && 0 <= lo + d && hi + d <= |s2|
  {
  }

  lemma {:induction false} ScanSameIn(p1: Parsed, e: ObjectEntry, p2: Parsed, e2: ObjectEntry, d: int)
    requires |p1.source| == |p1.kinds| && 0 <= e.start < e.valueStart <= e.valueEnd == e.end
    requires Kept(p1.source, p1.kinds, e, p2.source, p2.kinds, e2, d)
    requires ObjectOf(p1, e).Success? && ObjectOf(p1, e).value.Some?
    ensures var scan := ObjectOf(p1, e).value.value;
            && Same(p1.source, p1.kinds, p2.source, p2.kinds, d, scan.open, scan.close + 1)
            && EntriesWithin(scan.entries, scan.open + 1, scan.close)
  {
    hide ScanObject, Plain, Agree;
    var scan := ObjectOf(p1, e).value.value;
    AgreePart(p1.source, p2.source, d, e.start, e.end, scan.open, scan.close + 1);
    AgreePart(p1.kinds, p2.kinds, d, e.start, e.end, scan.open, scan.close + 1);
  }

  /** A service stays on where its entry is kept. */
  lemma {:induction false} OnKept(p1: Parsed, p2: Parsed, e: ObjectEntry, e2: ObjectEntry, d: int, key: string)
    requires WellRead(p1) && WellRead(p2) && 0 <= e.start < e.valueStart <= e.valueEnd == e.end <= |p1.source|
    requires Kept(p1.source, p1.kinds, e, p2.source, p2.kinds, e2, d)
    requires 0 <= e2.valueStart <= e2.valueEnd <= |p2.source|
    requires ReadToggle(p1, e, key) == Success(On)
    ensures ReadToggle(p2, e2, key) == Success(On)
  {
    hide ObjectOf, FindEntry, Agree;
    TextKept(p1, e, p2, e2, d);
    if !(e.keyed && ValueText(p1.source, e) == "true") {
      ScanSameIn(p1, e, p2, e2, d);
      ObjectOfKept(p1, e, p2, e2, d);
      PartKept(p1.source, p1.kinds, ObjectOf(p1, e).value.value, p2.source, p2.kinds, d, "enabled");
    }
  }

  /** Whether the Data API is verified by a third party is read the same where its object is kept. */
  lemma {:induction false} ExternalKept(p1: Parsed, p2: Parsed, e: ObjectEntry, e2: ObjectEntry, d: int)
    requires WellRead(p1) && WellRead(p2) && 0 <= e.start < e.valueStart <= e.valueEnd == e.end
    requires FindEntry(p1.root.entries, "dataApi") == Some(e) && FindEntry(p2.root.entries, "dataApi") == Some(e2)
    requires Kept(p1.source, p1.kinds, e, p2.source, p2.kinds, e2, d)
    requires ObjectOf(p1, e).Success? && ObjectOf(p1, e).value.Some?
    ensures DataApiIsExternal(p1) == DataApiIsExternal(p2)
  {
    hide ObjectOf, FindEntry, Agree, WithoutAsConst, IsQuoted;
    ScanSameIn(p1, e, p2, e2, d);
    ObjectOfKept(p1, e, p2, e2, d);
    PartKept(p1.source, p1.kinds, ObjectOf(p1, e).value.value, p2.source, p2.kinds, d, "authProvider");
  }

  lemma {:induction false} WordIsNoObject(parsed: Parsed, e: ObjectEntry, word: string)
    requires WellRead(parsed) && 0 <= e.valueStart <= e.valueEnd <= |parsed.source| && ValueText(parsed.source, e) == word
    requires word == "true" || word == "false"
    ensures ObjectOf(parsed, e) == Success(None)
  {
    assert ValueText(parsed.source, e)[0] == parsed.source[e.valueStart];
  }

  /** A `dataApi` that the toggle can read: absent, a word, or an object literal. */
  lemma {:induction false} ReadableDataApi(parsed: Parsed)
    requires WellRead(parsed) && SetToggle(parsed, DataApi).Success?
    ensures var found := FindEntry(parsed.root.entries, "dataApi");
            found.Some? && 0 <= found.value.valueStart ==> ObjectOf(parsed, found.value).Success?
    ensures var found := FindEntry(parsed.root.entries, "dataApi");
            found.Some? && 0 <= found.value.valueStart && ObjectOf(parsed, found.value).value.None? ==> DataApiIsExternal(parsed) == Success(false)
    ensures FindEntry(parsed.root.entries, "dataApi").None? ==> DataApiIsExternal(parsed) == Success(false)
  {
    hide ObjectOf, FindEntry, InsertEntry;
    var found := FindEntry(parsed.root.entries, "dataApi");
    if found.Some? {
      EntryRange(parsed, found.value);
      var text := ValueText(parsed.source, found.value);
      if text == "true" || text == "false" { WordIsNoObject(parsed, found.value, text); }
    }
  }

  /** The entry `key` is found in both files with the same text, or in neither. */
  ghost predicate KeptOrAbsent(p1: Parsed, p2: Parsed, key: string) {
    var f1, f2 := FindEntry(p1.root.entries, key), FindEntry(p2.root.entries, key);
    && (f1.None? <==> f2.None?)
    && (f1.Some? ==> exists d :: Kept(p1.source, p1.kinds, f1.value, p2.source, p2.kinds, f2.value, d))
  }

  /** Which provider the Data API has is read the same where its entry is kept and its toggle readable. */
  lemma {:induction false} ProviderAfterAuth(p0: Parsed, p1: Parsed)
    requires WellRead(p0) && WellRead(p1) && DataApiIsExternal(p0).Success? && SetToggle(p1, DataApi).Success?
    requires KeptOrAbsent(p0, p1, "dataApi")
    ensures DataApiIsExternal(p1) == DataApiIsExternal(p0)
  {
    hide ObjectOf, FindEntry, Agree, Kept, SetToggle, DataApiIsExternal;
    ReadableDataApi(p1);
    var f0, f1 := FindEntry(p0.root.entries, "dataApi"), FindEntry(p1.root.entries, "dataApi");
    ProviderObject(p0);
    if f1.Some? {
      EntryRange(p0, f0.value);
      EntryRange(p1, f1.value);
      var d :| Kept(p0.source, p0.kinds, f0.value, p1.source, p1.kinds, f1.value, d);
      if ObjectOf(p0, f0.value).value.Some? {
        ExternalKept(p0, p1, f0.value, f1.value, d);
      } else if ObjectOf(p1, f1.value).value.Some? {
        KeptBack(p0.source, p0.kinds, f0.value, p1.source, p1.kinds, f1.value, d);
        ExternalKept(p1, p0, f1.value, f0.value, -d);
      }
    }
  }

  /** A Data API whose provider can be read is absent, or its value is read; without an object it is Neon's. */
  lemma {:induction false} ProviderObject(parsed: Parsed)
    requires WellRead(parsed) && DataApiIsExternal(parsed).Success?
    ensures var found := FindEntry(parsed.root.entries, "dataApi");
            if found.None? then DataApiIsExternal(parsed) == Success(false)
            else
              && 0 <= found.value.valueStart && ObjectOf(parsed, found.value).Success?
              && (ObjectOf(parsed, found.value).value.None? ==> DataApiIsExternal(parsed) == Success(false))
  {
    hide ObjectOf, FindEntry;
  }

  /** A nested `enabled: false` switched: the same object is found, and its other entries are kept. */
  lemma {:induction false} SwitchedObject(s: string, service: Service, inner: ObjectScan, s2: string)
    returns (e2: ObjectEntry, inner2: ObjectScan)
    requires Parse(s).Success? && WellRead(Parse(s).value) && FindEntry(Parse(s).value.root.entries, ServiceKey(service)).Some?
    requires var e := FindEntry(Parse(s).value.root.entries, ServiceKey(service)).value;
             && 0 <= e.valueStart && ObjectOf(Parse(s).value, e) == Success(Some(inner))
    requires FindEntry(inner.entries, "enabled").Some?
    requires var e := FindEntry(inner.entries, "enabled").value;
             && e.keyed && 0 <= e.valueStart <= e.valueEnd <= |s| && ValueText(s, e) == "false"
             && s2 == s[..e.valueStart] + "true" + s[e.valueEnd..]
    ensures Parse(s2).Success? && WellRead(Parse(s2).value) && Parse(s2).value.source == s2
    ensures FindEntry(Parse(s2).value.root.entries, ServiceKey(service)) == Some(e2)
    ensures 0 <= e2.valueStart && ObjectOf(Parse(s2).value, e2) == Success(Some(inner2))
    ensures OthersKept(s, Parse(s).value.kinds, inner.entries, s2, Parse(s2).value.kinds, inner2.entries, "enabled")
  {
    hide Lex, ScanObject, FindConfigObject, FindEntry, OthersKept, Plain, ServiceKey, Parse, Switched, ReplacedEntries, SaysTrue,
      ReadToggle, EntriesWithin, HasCrLf;
    var parsed := ParsedIs(s);
    var key, scan := ServiceKey(service), parsed.root;
    var j := FoundAt(scan.entries, key);
    EntryRange(parsed, scan.entries[j]) by { assert WellRead(parsed); }
    var i := FoundAt(inner.entries, "enabled");
    var e := inner.entries[i];
    ScanObjectRange(s, parsed.kinds, inner, i);
    ScanObjectRange(s, parsed.kinds, scan, j);
    var k2, colon := FalseReplaced(s, parsed.kinds, inner, i, s2);
    SwitchedText(s, parsed.kinds, colon, e.valueStart, e.valueEnd, s2, k2);
    var d := e.valueStart + 4 - e.valueEnd;
    RootSwitched(s, parsed, key, j, colon, e.valueStart, e.valueEnd, s2, k2, d);
    e2, inner2 := InnerFound(s, parsed.kinds, scan, j, inner, i, colon, Parse(s2).value, d);
  }

  lemma {:induction false} InnerFound(s: string, k1: seq<Kind>, scan: ObjectScan, j: nat, inner: ObjectScan, i: nat,
                                      colon: nat, p2: Parsed, d: int)
    returns (e2: ObjectEntry, inner2: ObjectScan)
    requires |s| == |k1| && ScanObject(s, k1, inner.open) == Success(inner) && Plain(inner.entries) && WellRead(p2)
    requires i < |inner.entries| && inner.entries[i].key == Some("enabled") && inner.entries[i].keyed
    requires 0 <= inner.entries[i].valueStart && 0 <= inner.entries[i].valueEnd
    requires Switched(s, k1, colon, inner.entries[i].valueStart, inner.entries[i].valueEnd, p2.source, p2.kinds)
    requires j < |scan.entries| && scan.entries[j].keyed
    requires scan.entries[j].valueStart == inner.open && scan.entries[j].valueEnd == inner.close + 1
    requires inner.entries[i].valueStart + 4 == inner.entries[i].valueEnd + d && ReplacedEntries(scan, j, d, p2.root.entries)
    ensures j < |p2.root.entries| && e2 == p2.root.entries[j] && 0 <= e2.valueStart && ObjectOf(p2, e2) == Success(Some(inner2))
    ensures OthersKept(s, k1, inner.entries, p2.source, p2.kinds, inner2.entries, "enabled")
  {
    hide Lex, ScanObject, FindEntry, Plain, Agree, AllCode, Replaced, ReplacedEntries, AllTrivia, OthersKept, SaysTrue, Switched;
    var a: nat, b: nat := inner.entries[i].valueStart, inner.entries[i].valueEnd;
    ScanObjectRange(s, k1, inner, i);
    SwitchedFacts(s, k1, colon, a, b, p2.source, p2.kinds, d);
    var in2 := ReplaceReadsBack(s, k1, inner, i, a, b, p2.source, p2.kinds, d, a + 4);
    ReplacedOthers(s, k1, inner, i, a, b, p2.source, p2.kinds, d, in2, "enabled");
    ReplacedAt(scan, j, d, p2.root.entries);
    e2, inner2 := p2.root.entries[j], ObjectScan(inner.open, inner.close + d, in2);
    ScanObjectCloses(p2.source, p2.kinds, inner2);
  }

  /** Which provider the Data API has is readable after the Data API was turned on. */
  lemma {:induction false} ProviderAfterDataApi(s: string)
    requires BuildStep(s, ServiceEdit(DataApi)).Success? && PlaceInCode(s, DataApi)
    requires Parse(s).Success? && WellRead(Parse(s).value) && DataApiIsExternal(Parse(s).value).Success?
    ensures var s2 := BuildStep(s, ServiceEdit(DataApi)).value.source;
            Parse(s2).Success? && WellRead(Parse(s2).value) && DataApiIsExternal(Parse(s2).value) == DataApiIsExternal(Parse(s).value)
  {
    hide Lex, ScanObject, FindConfigObject, FindEntry, OthersKept, Plain, Parse, InsertEntry, GoesInCode, ObjectOf,
      NotUnderPreview, DataApiIsExternal, SaysTrue, ReadToggle, HasCrLf, PlaceInCode;
    var parsed := ParsedIs(s);
    StepDeclares(s, DataApi);
    var step := BuildStep(s, ServiceEdit(DataApi)).value;
    if step.change.Some? {
      var p2 := Parse(step.source).value;
      if NoObject(parsed, DataApi) {
        SaysTrueIsNoObject(p2, FindEntry(p2.root.entries, "dataApi").value);
        NoObjectIsNotExternal(parsed);
      } else {
        var e := FindEntry(parsed.root.entries, "dataApi").value;
        EntryRange(parsed, e);
        var inner := SwitchedInnerFlag(parsed, e, step.source);
        var e2, inner2 := SwitchedObject(s, DataApi, inner, step.source);
        ProviderKept(parsed, e, inner, p2, e2, inner2);
      }
    }
  }

  lemma {:induction false} SaysTrueIsNoObject(parsed: Parsed, e: ObjectEntry)
    requires WellRead(parsed) && FindEntry(parsed.root.entries, "dataApi") == Some(e) && SaysTrue(parsed.source, e, "dataApi")
    ensures DataApiIsExternal(parsed) == Success(false)
  {
    hide ObjectOf, FindEntry;
    WordIsNoObject(parsed, e, "true");
  }

  lemma {:induction false} NoObjectIsNotExternal(parsed: Parsed)
    requires NoObject(parsed, DataApi)
    ensures DataApiIsExternal(parsed) == Success(false)
  {
    hide ObjectOf, FindEntry;
    var found := FindEntry(parsed.root.entries, "dataApi");
    if found.Some? {
      EntryRange(parsed, found.value);
      WordIsNoObject(parsed, found.value, "false");
    }
  }

  /** When a toggle that is not a plain word changes, it is the `enabled` flag of its object. */
  lemma {:induction false} SwitchedInnerFlag(parsed: Parsed, e: ObjectEntry, t: string) returns (inner: ObjectScan)
    requires WellRead(parsed) && FindEntry(parsed.root.entries, "dataApi") == Some(e) && !NoObject(parsed, DataApi)
    requires 0 <= e.valueStart <= e.valueEnd <= |parsed.source|
    requires SetToggle(parsed, DataApi).Success? && SetToggle(parsed, DataApi).value.change.Some?
    requires t == SetToggle(parsed, DataApi).value.source
    ensures ObjectOf(parsed, e) == Success(Some(inner)) && FindEntry(inner.entries, "enabled").Some?
    ensures var flag := FindEntry(inner.entries, "enabled").value;
            && flag.keyed && 0 <= flag.valueStart <= flag.valueEnd <= |parsed.source| && ValueText(parsed.source, flag) == "false"
            && t == parsed.source[..flag.valueStart] + "true" + parsed.source[flag.valueEnd..]
  {
    hide ObjectOf, FindEntry;
    inner := ObjectOf(parsed, e).value.value;
  }

  lemma {:induction false} ProviderKept(p1: Parsed, e: ObjectEntry, inner: ObjectScan, p2: Parsed, e2: ObjectEntry, inner2: ObjectScan)
    requires WellRead(p1) && WellRead(p2) && 0 <= e.valueStart && 0 <= e2.valueStart
    requires FindEntry(p1.root.entries, "dataApi") == Some(e) && FindEntry(p2.root.entries, "dataApi") == Some(e2)
    requires ObjectOf(p1, e) == Success(Some(inner)) && ObjectOf(p2, e2) == Success(Some(inner2))
    requires OthersKept(p1.source, p1.kinds, inner.entries, p2.source, p2.kinds, inner2.entries, "enabled")
    ensures DataApiIsExternal(p1) == DataApiIsExternal(p2)
  {
    hide ObjectOf, FindEntry, Agree, Kept, WithoutAsConst, IsQuoted;
    var f1, f2 := FindEntry(inner.entries, "authProvider"), FindEntry(inner2.entries, "authProvider");
    assert "authProvider" != "enabled";
    if f1.Some? {
      var d :| Kept(p1.source, p1.kinds, f1.value, p2.source, p2.kinds, f2.value, d);
      TextKept(p1, f1.value, p2, f2.value, d);
      KeptKeyed(p1.source, p1.kinds, f1.value, p2.source, p2.kinds, f2.value, d);
    }
  }

  lemma {:induction false} KeptKeyed(s1: string, k1: seq<Kind>, e: ObjectEntry, s2: string, k2: seq<Kind>, e2: ObjectEntry, d: int)
    requires Kept(s1, k1, e, s2, k2, e2, d)
    ensures e2.keyed == e.keyed
  {
  }

  /** A service that was on is on after the step for another one. */
  lemma {:induction false} StillOn(p1: Parsed, p2: Parsed, service: Service, changed: Service)
    requires service != changed && ServiceOn(p1, service) && WellRead(p2)
    requires OthersKept(p1.source, p1.kinds, p1.root.entries, p2.source, p2.kinds, p2.root.entries, ServiceKey(changed))
    ensures ServiceOn(p2, service)
  {
    hide FindEntry, Kept, ReadToggle;
    var key := ServiceKey(service);
    assert key != ServiceKey(changed);
    var f1, f2 := FindEntry(p1.root.entries, key), FindEntry(p2.root.entries, key);
    var d :| Kept(p1.source, p1.kinds, f1.value, p2.source, p2.kinds, f2.value, d);
    EntryRange(p1, f1.value);
    EntryRange(p2, f2.value);
    OnKept(p1, p2, f1.value, f2.value, d, key);
  }

  /** A step for a service that is on changes nothing. */
  lemma {:induction false} OnIsDone(s: string, service: Service)
    requires Parse(s).Success? && ServiceOn(Parse(s).value, service) && service != AiGateway
    ensures BuildStep(s, ServiceEdit(service)) == Success(EditStep(s, None))
  {
    hide Lex, FindConfigObject, ScanObject, FindEntry, ReadToggle, Plain, HasCrLf, LineIndent;
  }

  lemma {:induction false} StepOn(s: string, service: Service)
    requires BuildStep(s, ServiceEdit(service)).Success? && PlaceInCode(s, service)
    ensures Parse(s).Success?
    ensures var t := BuildStep(s, ServiceEdit(service)).value.source; Parse(t).Success? && ServiceOn(Parse(t).value, service)
  {
    hide Parse, OthersKept, ReadToggle, FindEntry, PlaceInCode, BuildStep;
    StepDeclares(s, service);
  }

  /** Turning the Data API on, with Neon Auth before it, leaves nothing to do. */
  lemma {:induction false} DataApiSettles(s: string)
    requires BuildStep(s, ServiceEdit(DataApi)).Success? && PlaceInCode(s, DataApi)
    requires Parse(s).Success? && WellRead(Parse(s).value) && DataApiIsExternal(Parse(s).value).Success?
    requires ServiceOn(Parse(s).value, Auth) || DataApiIsExternal(Parse(s).value) == Success(true)
    ensures var t := BuildStep(s, ServiceEdit(DataApi)).value.source;
            Parse(t).Success? && ServiceOn(Parse(t).value, DataApi) && WellRead(Parse(t).value)
            && DataApiIsExternal(Parse(t).value) == DataApiIsExternal(Parse(s).value)
            && (ServiceOn(Parse(s).value, Auth) ==> ServiceOn(Parse(t).value, Auth))
  {
    hide Parse, OthersKept, ReadToggle, FindEntry, PlaceInCode, BuildStep, DataApiIsExternal;
    StepDeclares(s, DataApi);
    ProviderAfterDataApi(s);
    var step := BuildStep(s, ServiceEdit(DataApi)).value;
    if step.change.Some? && ServiceOn(Parse(s).value, Auth) {
      ParsedSource(s);
      ParsedSource(step.source);
      StillOn(Parse(s).value, Parse(step.source).value, Auth, DataApi);
    }
  }

  lemma {:induction false} ParsedSource(s: string)
    requires Parse(s).Success?
    ensures Parse(s).value.source == s
  {
    hide Lex, FindConfigObject, ScanObject, Plain, HasCrLf, LineIndent;
  }

  lemma {:induction false} DataApiOther(p1: Parsed, p2: Parsed)
    requires OthersKept(p1.source, p1.kinds, p1.root.entries, p2.source, p2.kinds, p2.root.entries, ServiceKey(Auth))
    ensures KeptOrAbsent(p1, p2, "dataApi")
  {
    hide FindEntry, Kept;
  }

  /** Neon Auth turned on, the provider of the Data API is still readable. */
  lemma {:induction false} AuthThenDataApi(s: string)
    requires BuildStep(s, ServiceEdit(Auth)).Success? && PlaceInCode(s, Auth)
    requires Parse(s).Success? && WellRead(Parse(s).value) && DataApiIsExternal(Parse(s).value).Success?
    requires BuildStep(BuildStep(s, ServiceEdit(Auth)).value.source, ServiceEdit(DataApi)).Success?
    ensures var t := BuildStep(s, ServiceEdit(Auth)).value.source;
            Parse(t).Success? && ServiceOn(Parse(t).value, Auth) && DataApiIsExternal(Parse(t).value).Success?
  {
    hide Parse, OthersKept, ReadToggle, FindEntry, PlaceInCode, DataApiIsExternal, SetToggle, KeptOrAbsent;
    StepDeclares(s, Auth);
    var step := BuildStep(s, ServiceEdit(Auth)).value;
    if step.change.Some? {
      ParsedSource(s);
      ParsedSource(step.source);
      DataApiOther(Parse(s).value, Parse(step.source).value);
      ProviderAfterAuth(Parse(s).value, Parse(step.source).value);
    }
  }

  /** What holds of a text when the steps of an edit have nothing left to do in it. */
  ghost predicate Settled(t: string, service: Service) {
    && Parse(t).Success? && ServiceOn(Parse(t).value, service)
    && (if service == DataApi then
          && DataApiIsExternal(Parse(t).value).Success?
          && (ServiceOn(Parse(t).value, Auth) || DataApiIsExternal(Parse(t).value) == Success(true))
        else BuildStep(t, ServiceEdit(service)) == Success(EditStep(t, None)))
  }

  lemma {:induction false} RunOne(s: string, edit: ConfigEdit)
    ensures RunSteps(s, [edit]) == match BuildStep(s, edit)
                                   case Failure(error) => Failure(error)
                                   case Success(step) => Success(EditResult(step.source, OptionSeq(step.change)))
  {
    hide BuildStep;
    assert [edit][1..] == [];
    if BuildStep(s, edit).Success? {
      var step := BuildStep(s, edit).value;
      assert RunSteps(step.source, []) == Success(EditResult(step.source, []));
      assert OptionSeq(step.change) + [] == OptionSeq(step.change);
    }
  }

  lemma {:induction false} RunTwo(s: string, first: ConfigEdit, second: ConfigEdit)
    requires RunSteps(s, [first, second]).Success?
    ensures BuildStep(s, first).Success? && BuildStep(BuildStep(s, first).value.source, second).Success?
    ensures var a := BuildStep(s, first).value; var b := BuildStep(a.source, second).value;
            RunSteps(s, [first, second]) == Success(EditResult(b.source, OptionSeq(a.change) + OptionSeq(b.change)))
  {
    hide BuildStep;
    assert [first, second][1..] == [second];
    RunOne(BuildStep(s, first).value.source, second);
  }

  lemma {:induction false} SettledIsDone(t: string, service: Service)
    requires Settled(t, service)
    ensures Apply(t, ServiceEdit(service)) == Success(EditResult(t, []))
  {
    hide BuildStep, Parse, DataApiIsExternal, ServiceOn, RunSteps;
    var edit := ServiceEdit(service);
    if service == DataApi {
      OnIsDone(t, DataApi);
      RunOne(t, edit);
      if DataApiIsExternal(Parse(t).value) == Success(false) {
        OnIsDone(t, Auth);
        RunTwoDone(t, ServiceEdit(Auth), edit);
      }
    } else {
      RunOne(t, edit);
    }
  }

  lemma {:induction false} RunTwoDone(t: string, first: ConfigEdit, second: ConfigEdit)
    requires BuildStep(t, first) == Success(EditStep(t, None)) && BuildStep(t, second) == Success(EditStep(t, None))
    ensures RunSteps(t, [first, second]) == Success(EditResult(t, []))
  {
    hide BuildStep;
    assert [first, second][1..] == [second];
    RunOne(t, second);
  }

  /** The services whose steps an edit takes. */
  ghost function ServicesOf(s: string, service: Service): seq<Service> {
    if service == DataApi && Parse(s).Success? && DataApiIsExternal(Parse(s).value) != Success(true) then [Auth, DataApi] else [service]
  }

  lemma {:induction false} ApplySettles(s: string, service: Service)
    requires Apply(s, ServiceEdit(service)).Success? && StepsInCode(s, ServicesOf(s, service))
    ensures Settled(Apply(s, ServiceEdit(service)).value.source, service)
  {
    hide BuildStep, Parse, DataApiIsExternal, Settled, RunSteps, PlaceInCode, StepsInCode, Apply, ServicesOf;
    if service == DataApi { DataApiApplySettles(s); } else { ToggleApplySettles(s, service); }
  }

  lemma {:induction false} ToggleApplySettles(s: string, service: Service)
    requires service != DataApi && Apply(s, ServiceEdit(service)).Success? && StepsInCode(s, ServicesOf(s, service))
    ensures Settled(Apply(s, ServiceEdit(service)).value.source, service)
  {
    hide BuildStep, Parse, DataApiIsExternal, ServiceOn, RunSteps, PlaceInCode;
    RunOne(s, ServiceEdit(service));
    StepIsStable(s, service);
    StepOn(s, service);
  }

  lemma {:induction false} DataApiApplySettles(s: string)
    requires Apply(s, ServiceEdit(DataApi)).Success? && StepsInCode(s, ServicesOf(s, DataApi))
    ensures Settled(Apply(s, ServiceEdit(DataApi)).value.source, DataApi)
  {
    hide BuildStep, Parse, DataApiIsExternal, ServiceOn, RunSteps, PlaceInCode;
    var edit := ServiceEdit(DataApi);
    ParsedReads(s);
    if DataApiIsExternal(Parse(s).value) == Success(true) {
      RunOne(s, edit);
      DataApiSettles(s);
    } else {
      RunTwo(s, ServiceEdit(Auth), edit);
      assert [Auth, DataApi][1..] == [DataApi];
      var t := BuildStep(s, ServiceEdit(Auth)).value.source;
      AuthThenDataApi(s);
      ParsedReads(t);
      DataApiSettles(t);
    }
  }

  lemma {:induction false} ParsedReads(s: string)
    requires Parse(s).Success?
    ensures WellRead(Parse(s).value)
  {
    hide Lex, FindConfigObject, ScanObject, Plain, HasCrLf, LineIndent;
    var parsed := ParsedIs(s);
  }

  /**
   * A service edit whose steps place their lines in code is never refused by the read-back: it
   * succeeds as soon as its steps do, and the file it returns declares the service, switched on.
   */
  lemma {:induction false} EditDeclares(s: string, service: Service)
    requires StepsInCode(s, ServicesOf(s, service))
    ensures EditNeonConfig(s, ServiceEdit(service)) == Apply(s, ServiceEdit(service))
    ensures EditNeonConfig(s, ServiceEdit(service)).Success? ==>
              var t := EditNeonConfig(s, ServiceEdit(service)).value.source;
              Parse(t).Success? && ServiceOn(Parse(t).value, service)
  {
    hide Apply, Parse, ServiceOn, StepsInCode, DataApiIsExternal;
    if Apply(s, ServiceEdit(service)).Success? {
      ApplySettles(s, service);
      SettledIsDone(Apply(s, ServiceEdit(service)).value.source, service);
    }
  }
}

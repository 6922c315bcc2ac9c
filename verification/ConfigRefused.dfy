/**
 * A service edit whose line lands in a block comment declares nothing: `editNeonConfig` refuses it,
 * and only those.
 */
module ConfigRefused {
  import opened Wrappers
  import opened Text
  import opened SourceLexer
  import opened ObjectScan
  import opened ConfigAppend
  import opened ConfigEdit
  import opened ConfigInsert
  import opened ConfigEntries
  import opened ConfigConverge
  import opened ConfigDeclares
  import opened ConfigGrowth
  import opened ConfigSwallowed
  import ConfigSteps

  // ---------------------------------------------------------------------------
  // A step whose line lands in a block comment
  // ---------------------------------------------------------------------------

  /** A file whose root object has gained nothing is read with entries of the same names. */
  lemma {:induction false} NothingGained(parsed: Parsed, s2: string, k2: seq<Kind>, scan2: ObjectScan)
    requires ReadOf(parsed, parsed.root) && NoNewEntry(parsed.source, parsed.kinds, parsed.root, s2, k2, scan2)
    requires FindConfigObject(parsed.source, parsed.kinds) == Success(parsed.root.open) && Plain(parsed.root.entries)
    ensures Parse(s2).Success? && WellRead(Parse(s2).value) && Parse(s2).value.source == s2
    ensures Parse(s2).value.kinds == k2 && Parse(s2).value.root == scan2 && SameKeys(parsed.root.entries, scan2.entries)
  {
    hide Lex, FindConfigObject, ScanObject, Plain, Parse, Agree;
    ScanObjectCloses(parsed.source, parsed.kinds, parsed.root);
    SameKeysPlain(parsed.root.entries, scan2.entries);
    ScanObjectCloses(s2, k2, scan2);
    Parses(s2, k2, scan2.open, scan2.close, scan2.entries);
  }

  /** `j` is where the entries that belong behind the service begin; those are found with their text. */
  ghost predicate BehindKept(p1: Parsed, p2: Parsed, key: string, j: nat, d: nat) {
    EntryAfter(p1.root.entries, key).Some? ==>
      && j < |p1.root.entries| && EntryAfter(p1.root.entries, key) == Some(p1.root.entries[j])
      && KeptFrom(p1.source, p1.kinds, p1.root.entries, p2.source, p2.kinds, p2.root.entries, j, d)
  }

  lemma {:induction false} ToggleStays(service: Service)
    ensures NoTerminator(ServiceKey(service) + ": true,")
  {
  }

  /** A step whose line lands in a block comment reports a change, and adds no entry. */
  lemma {:induction false} StepInComment(s: string, service: Service) returns (j: nat, d: nat)
    requires BuildStep(s, ServiceEdit(service)).Success? && !PlaceInCode(s, service)
    ensures BuildStep(s, ServiceEdit(service)).value.change.Some?
    ensures Parse(s).Success? && WellRead(Parse(s).value) && FindEntry(Parse(s).value.root.entries, ServiceKey(service)).None?
    ensures var t := BuildStep(s, ServiceEdit(service)).value.source;
            && Parse(t).Success? && WellRead(Parse(t).value) && SameKeys(Parse(s).value.root.entries, Parse(t).value.root.entries)
            && BehindKept(Parse(s).value, Parse(t).value, ServiceKey(service), j, d)
  {
    hide Lex, ScanObject, FindConfigObject, FindEntry, InsertEntry, GoesInCode, Plain, ServiceKey, Parse, NotUnderPreview, ReadToggle,
      NoTerminator, NoNewEntry, KeptFrom, EntryAfter;
    var parsed := ParsedIs(s);
    var key := ServiceKey(service);
    var step := BuildStep(s, ServiceEdit(service)).value;
    ToggleStays(service);
    var k2, scan2;
    k2, scan2, j, d := InsertSwallowed(parsed, parsed.root, [key + ": true,"], EntryAfter(parsed.root.entries, key), step.source);
    NothingGained(parsed, step.source, k2, scan2);
  }

  /** A file without the service is changed by the step that declares it, or refused. */
  lemma {:induction false} AbsentIsNotDone(t: string, service: Service)
    requires Parse(t).Success? && WellRead(Parse(t).value) && FindEntry(Parse(t).value.root.entries, ServiceKey(service)).None?
    ensures BuildStep(t, ServiceEdit(service)).Success? ==> BuildStep(t, ServiceEdit(service)).value.change.Some?
  {
    hide Parse, FindEntry, InsertEntry, NotUnderPreview;
  }

  lemma {:induction false} StillAbsent(s: string, service: Service, t: string)
    requires Parse(s).Success? && Parse(t).Success? && WellRead(Parse(t).value)
    requires FindEntry(Parse(s).value.root.entries, ServiceKey(service)).None?
    requires SameKeys(Parse(s).value.root.entries, Parse(t).value.root.entries)
    ensures BuildStep(t, ServiceEdit(service)).Success? ==> BuildStep(t, ServiceEdit(service)).value.change.Some?
  {
    hide Parse, FindEntry, BuildStep;
    var n := SameKeysFind(Parse(s).value.root.entries, Parse(t).value.root.entries, ServiceKey(service));
    AbsentIsNotDone(t, service);
  }

  lemma {:induction false} OneStepInComment(s: string, service: Service)
    requires service != DataApi && Apply(s, ServiceEdit(service)).Success? && !PlaceInCode(s, service)
    ensures EditNeonConfig(s, ServiceEdit(service)).Failure?
  {
    hide BuildStep, PlaceInCode, Parse, FindEntry, SameKeys, BehindKept;
    var edit := ServiceEdit(service);
    RunOne(s, edit);
    var j, d := StepInComment(s, service);
    var t := BuildStep(s, edit).value.source;
    StillAbsent(s, service, t);
    RunOne(t, edit);
  }

  // ---------------------------------------------------------------------------
  // The Data API
  // ---------------------------------------------------------------------------

  /** The text a Data API step starts from: what the Neon Auth step before it left, when there is one. */
  function BeforeDataApi(s: string): Result<EditStep, EditError> {
    var steps :- StepsOf(s, ServiceEdit(DataApi));
    if |steps| == 2 then BuildStep(s, ServiceEdit(Auth)) else Success(EditStep(s, None))
  }

  /** What a Data API run is: its own step on the text the Neon Auth step left, or on the file itself. */
  lemma {:induction false} DataApiRun(s: string)
    requires Apply(s, ServiceEdit(DataApi)).Success?
    ensures var result, middle := Apply(s, ServiceEdit(DataApi)).value, BeforeDataApi(s);
            && middle.Success? && BuildStep(middle.value.source, ServiceEdit(DataApi)).Success?
            && var step := BuildStep(middle.value.source, ServiceEdit(DataApi)).value;
            && result.source == step.source
            && result.changes == OptionSeq(middle.value.change) + OptionSeq(step.change)
  {
    hide BuildStep, Parse, DataApiIsExternal, RunSteps, StepsOf;
    var edit := ServiceEdit(DataApi);
    DataApiSteps(s);
    if |StepsOf(s, edit).value| == 2 {
      RunTwo(s, ServiceEdit(Auth), edit);
    } else {
      RunOne(s, edit);
      NoChangeFirst(BuildStep(s, edit).value.change);
    }
  }

  lemma {:induction false} DataApiSteps(s: string)
    requires StepsOf(s, ServiceEdit(DataApi)).Success?
    ensures var edit := ServiceEdit(DataApi);
            StepsOf(s, edit).value == if |StepsOf(s, edit).value| == 2 then [ServiceEdit(Auth), edit] else [edit]
  {
    hide Parse, DataApiIsExternal;
  }

  lemma {:induction false} NoChangeFirst(change: Option<Change>)
    ensures OptionSeq<Change>(None) + OptionSeq(change) == OptionSeq(change)
  {
  }

  /** Where a Data API step cannot be done without a change, the whole edit repeated reports one. */
  lemma {:induction false} StillChanges(t: string)
    requires BuildStep(t, ServiceEdit(DataApi)).Success? ==> BuildStep(t, ServiceEdit(DataApi)).value.change.Some?
    requires Apply(t, ServiceEdit(DataApi)).Success?
    ensures Apply(t, ServiceEdit(DataApi)).value.changes != []
  {
    hide Apply, BuildStep, StepsOf, Parse, RunSteps;
    DataApiRun(t);
    var first := BeforeDataApi(t).value;
    if first.change.None? && |StepsOf(t, ServiceEdit(DataApi)).value| == 2 {
      ConfigSteps.StepUnchanged(t, ServiceEdit(Auth), first.source);
    }
  }

  /** The Data API is refused when its own line lands in a block comment. */
  lemma {:induction false} DataApiInComment(s: string)
    requires Apply(s, ServiceEdit(DataApi)).Success?
    requires BeforeDataApi(s).Success? && !PlaceInCode(BeforeDataApi(s).value.source, DataApi)
    ensures EditNeonConfig(s, ServiceEdit(DataApi)).Failure?
  {
    hide Apply, BuildStep, PlaceInCode, BeforeDataApi, StepsOf, Parse, RunSteps, FindEntry, SameKeys, BehindKept;
    DataApiRun(s);
    var middle, t := BeforeDataApi(s).value.source, Apply(s, ServiceEdit(DataApi)).value.source;
    var j, d := StepInComment(middle, DataApi);
    StillAbsent(middle, DataApi, t);
    if Apply(t, ServiceEdit(DataApi)).Success? { StillChanges(t); }
  }

  /** An entry that belongs behind `key` is not in front of the first one that does. */
  lemma {:induction false} AfterStandsFirst(es: seq<ObjectEntry>, key: string, n: nat) returns (j: nat)
    requires n < |es| && KeyRank(es[n].key) > KeyRank(Some(key))
    ensures j <= n && EntryAfter(es, key) == Some(es[j])
    decreases |es|
  {
    hide KeyRank;
    if KeyRank(es[0].key) > KeyRank(Some(key)) {
      j := 0;
    } else {
      var k := AfterStandsFirst(es[1..], key, n - 1);
      j := k + 1;
    }
  }

  lemma {:induction false} DataApiAfterAuth()
    ensures KeyRank(Some("dataApi")) > KeyRank(Some("auth"))
  {
    assert IndexIn(KeyOrder, "dataApi", 1) == 1;
  }

  lemma {:induction false} OnePlace(es: seq<ObjectEntry>, i: nat, j: nat)
    requires Plain(es) && i < |es| && j < |es| && es[i] == es[j]
    ensures i == j
  {
  }

  /** Neon Auth put in a comment leaves the `dataApi` entry with its text. */
  lemma {:induction false} DataApiKept(p1: Parsed, p2: Parsed, j: nat, d: nat)
    requires Plain(p1.root.entries) && SameKeys(p1.root.entries, p2.root.entries) && BehindKept(p1, p2, "auth", j, d)
    ensures KeptOrAbsent(p1, p2, "dataApi")
  {
    hide Plain, Kept, FindEntry, EntryAfter, KeyRank;
    var es := p1.root.entries;
    var n := SameKeysFind(es, p2.root.entries, "dataApi");
    if FindEntry(es, "dataApi").Some? {
      DataApiAfterAuth();
      var i := AfterStandsFirst(es, "auth", n);
      OnePlace(es, i, j);
      assert Kept(p1.source, p1.kinds, es[n], p2.source, p2.kinds, p2.root.entries[n], d);
    }
  }

  /** Whether the Data API has a provider of its own is read the same when Neon Auth has landed in a comment. */
  lemma {:induction false} AuthSwallowed(s: string)
    requires BuildStep(s, ServiceEdit(Auth)).Success? && !PlaceInCode(s, Auth)
    requires BuildStep(BuildStep(s, ServiceEdit(Auth)).value.source, ServiceEdit(DataApi)).Success?
    requires Parse(s).Success? && WellRead(Parse(s).value) && DataApiIsExternal(Parse(s).value).Success?
    ensures BuildStep(s, ServiceEdit(Auth)).value.change.Some?
    ensures var t := BuildStep(s, ServiceEdit(Auth)).value.source;
            && Parse(t).Success? && WellRead(Parse(t).value) && FindEntry(Parse(t).value.root.entries, "auth").None?
            && DataApiIsExternal(Parse(t).value) == DataApiIsExternal(Parse(s).value)
  {
    hide Parse, Plain, FindEntry, PlaceInCode, DataApiIsExternal, SetToggle, SameKeys, BehindKept, KeptOrAbsent;
    var j, d := StepInComment(s, Auth);
    var t := BuildStep(s, ServiceEdit(Auth)).value.source;
    var p1 := ParsedIs(s);
    var p2 := Parse(t).value;
    var n := SameKeysFind(p1.root.entries, p2.root.entries, "auth");
    DataApiKept(p1, p2, j, d);
    ProviderAfterAuth(p1, p2);
  }

  /** The step for the Data API does not declare Neon Auth. */
  lemma {:induction false} AuthStillAbsent(t: string)
    requires BuildStep(t, ServiceEdit(DataApi)).Success? && PlaceInCode(t, DataApi)
    requires Parse(t).Success? && WellRead(Parse(t).value) && FindEntry(Parse(t).value.root.entries, "auth").None?
    ensures var u := BuildStep(t, ServiceEdit(DataApi)).value.source;
            Parse(u).Success? && WellRead(Parse(u).value) && FindEntry(Parse(u).value.root.entries, "auth").None?
  {
    hide Parse, FindEntry, PlaceInCode, BuildStep, ReadToggle, Kept;
    StepDeclares(t, DataApi);
    var u := BuildStep(t, ServiceEdit(DataApi)).value.source;
    ParsedReads(u);
    assert "auth" != ServiceKey(DataApi);
  }

  /** Where the Neon Auth step has to be taken and changes the file or fails, the edit reports a change. */
  lemma {:induction false} AuthChanges(u: string)
    requires Parse(u).Success? && WellRead(Parse(u).value) && FindEntry(Parse(u).value.root.entries, "auth").None?
    requires DataApiIsExternal(Parse(u).value) == Success(false) && Apply(u, ServiceEdit(DataApi)).Success?
    ensures Apply(u, ServiceEdit(DataApi)).value.changes != []
  {
    hide BuildStep, Parse, DataApiIsExternal, RunSteps, FindEntry;
    AbsentIsNotDone(u, Auth);
    RunTwo(u, ServiceEdit(Auth), ServiceEdit(DataApi));
  }

  /** The Data API is refused when the Neon Auth line it needs lands in a block comment. */
  lemma {:induction false} AuthInComment(s: string)
    requires Apply(s, ServiceEdit(DataApi)).Success? && !PlaceInCode(s, Auth)
    requires Parse(s).Success? && WellRead(Parse(s).value) && DataApiIsExternal(Parse(s).value) == Success(false)
    ensures EditNeonConfig(s, ServiceEdit(DataApi)).Failure?
  {
    hide BuildStep, PlaceInCode, Parse, RunSteps, FindEntry, DataApiIsExternal;
    RunTwo(s, ServiceEdit(Auth), ServiceEdit(DataApi));
    var t := BuildStep(s, ServiceEdit(Auth)).value.source;
    AuthSwallowed(s);
    if PlaceInCode(t, DataApi) {
      ProviderAfterDataApi(t);
      AuthStillAbsent(t);
      var u := BuildStep(t, ServiceEdit(DataApi)).value.source;
      if Apply(u, ServiceEdit(DataApi)).Success? { AuthChanges(u); }
    } else {
      DataApiInComment(s);
    }
  }

  // ---------------------------------------------------------------------------
  // Exactly when an edit goes through
  // ---------------------------------------------------------------------------

  lemma {:induction false} StepOutOfCode(s: string, steps: seq<Service>)
    requires !StepsInCode(s, steps)
    ensures steps != []
    ensures |steps| == 1 ==> !PlaceInCode(s, steps[0])
    ensures |steps| == 2 && PlaceInCode(s, steps[0]) ==>
              && BuildStep(s, ServiceEdit(steps[0])).Success?
              && !PlaceInCode(BuildStep(s, ServiceEdit(steps[0])).value.source, steps[1])
  {
    hide BuildStep, PlaceInCode;
    if |steps| == 1 {
      assert steps[1..] == [];
    } else if |steps| == 2 && PlaceInCode(s, steps[0]) {
      var t := BuildStep(s, ServiceEdit(steps[0])).value.source;
      assert steps[1..] == [steps[1]] && [steps[1]][1..] == [];
      assert !StepsInCode(t, [steps[1]]);
    }
  }

  lemma {:induction false} DataApiOutOfCode(s: string)
    requires Apply(s, ServiceEdit(DataApi)).Success? && !StepsInCode(s, ServicesOf(s, DataApi))
    ensures EditNeonConfig(s, ServiceEdit(DataApi)).Failure?
  {
    hide BuildStep, PlaceInCode, Parse, RunSteps, DataApiIsExternal, StepsInCode, EditNeonConfig, WellRead;
    ParsedReads(s);
    StepOutOfCode(s, ServicesOf(s, DataApi));
    if DataApiIsExternal(Parse(s).value) == Success(false) && !PlaceInCode(s, Auth) {
      AuthInComment(s);
    } else {
      DataApiInComment(s);
    }
  }

  /**
   * An edit that turns a service on goes through exactly when no block comment covers the place of
   * a line it puts in; where one does, the read-back refuses it.
   */
  lemma {:induction false} EditAppliesIff(s: string, service: Service)
    requires Apply(s, ServiceEdit(service)).Success?
    ensures EditNeonConfig(s, ServiceEdit(service)).Success? <==> StepsInCode(s, ServicesOf(s, service))
  {
    hide Apply, PlaceInCode, EditNeonConfig, StepsInCode, Parse, DataApiIsExternal;
    if StepsInCode(s, ServicesOf(s, service)) {
      EditDeclares(s, service);
    } else if service == DataApi {
      DataApiOutOfCode(s);
    } else {
      StepOutOfCode(s, [service]);
      OneStepInComment(s, service);
    }
  }
}

/**
 * What the entries of a `neon.ts` file mean to an edit, on their text: which services are on,
 * which provider the Data API has, and what `preview` and Realtime say.
 */
module ConfigStates {
  import opened Wrappers
  import opened Text
  import opened ObjectScan
  import opened ConfigEdit
  import opened ConfigFound
  import opened ConfigConverge
  import opened ConfigDeclares
  import opened ConfigAccepted
  import opened ConfigEntries
  import ConfigRefused

  // ---------------------------------------------------------------------------
  // Values
  // ---------------------------------------------------------------------------

  /** The value of `e` is written `text`. */
  ghost predicate Says(parsed: Parsed, e: ObjectEntry, text: string) {
    e.keyed && 0 <= e.valueStart <= e.valueEnd <= |parsed.source| && parsed.source[e.valueStart..e.valueEnd] == text
  }

  /** The value of `e` is exactly one object literal, without spread, computed or repeated entries. */
  ghost predicate Opens(parsed: Parsed, e: ObjectEntry, scan: ObjectScan) {
    && e.keyed && 0 <= e.valueStart == scan.open && e.valueEnd == scan.close + 1 && |parsed.kinds| == |parsed.source|
    && ScanObject(parsed.source, parsed.kinds, scan.open) == Success(scan) && !HasOverride(scan.entries)
  }

  /** The value of `e` is no object literal, or more than one: it is followed by something in the same entry. */
  ghost predicate OpensNothing(parsed: Parsed, e: ObjectEntry) {
    && |parsed.kinds| == |parsed.source| && 0 <= e.valueStart
    && (|| !e.keyed || !At(parsed.source, e.valueStart, '{')
        || exists scan :: ScanObject(parsed.source, parsed.kinds, e.valueStart) == Success(scan) && e.valueEnd != scan.close + 1)
  }

  lemma {:induction false} ObjectIs(parsed: Parsed, e: ObjectEntry)
    requires |parsed.kinds| == |parsed.source| && 0 <= e.valueStart
    ensures match ObjectOf(parsed, e)
            case Success(Some(scan)) => Opens(parsed, e, scan)
            case Success(None) => OpensNothing(parsed, e)
            case Failure(error) =>
              && e.keyed && At(parsed.source, e.valueStart, '{')
              && (error == Unscannable || error == NotPlain)
              && (error == Unscannable <==> ScanObject(parsed.source, parsed.kinds, e.valueStart).Failure?)
    ensures forall scan :: Opens(parsed, e, scan) ==> ObjectOf(parsed, e) == Success(Some(scan))
    ensures OpensNothing(parsed, e) ==> ObjectOf(parsed, e) == Success(None)
  {
    hide ScanTo, Plain, HasOverride;
    var r := ScanObject(parsed.source, parsed.kinds, e.valueStart);
    if r.Success? { PlainIs(r.value.entries); }
    forall scan | Opens(parsed, e, scan) ensures ObjectOf(parsed, e) == Success(Some(scan)) { PlainIs(scan.entries); }
  }

  /** `e` has an object with an entry `name` whose value is written `text`. */
  ghost predicate Holding(parsed: Parsed, e: ObjectEntry, scan: ObjectScan, name: string, inner: ObjectEntry) {
    Opens(parsed, e, scan) && FindEntry(scan.entries, name) == Some(inner)
  }

  /** Switched on: `true`, or an object that has no `enabled` or says `enabled: true`. */
  ghost predicate SwitchedOn(parsed: Parsed, e: ObjectEntry) {
    || Says(parsed, e, "true")
    || (exists scan :: Opens(parsed, e, scan) && FindEntry(scan.entries, "enabled").None?)
    || (exists scan, flag :: Holding(parsed, e, scan, "enabled", flag) && Says(parsed, flag, "true"))
  }

  /** Switched off by the `enabled: false` of its object. */
  ghost predicate OffInside(parsed: Parsed, e: ObjectEntry, flag: ObjectEntry) {
    exists scan :: Holding(parsed, e, scan, "enabled", flag) && Says(parsed, flag, "false")
  }

  lemma {:induction false} WordOpensNothing(parsed: Parsed, e: ObjectEntry, word: string, scan: ObjectScan)
    requires Says(parsed, e, word) && (word == "true" || word == "false")
    ensures !Opens(parsed, e, scan)
  {
    assert parsed.source[e.valueStart..e.valueEnd][0] == parsed.source[e.valueStart];
  }

  lemma {:induction false} OneWord(parsed: Parsed, e: ObjectEntry)
    ensures !(Says(parsed, e, "true") && Says(parsed, e, "false"))
  {
    assert "true"[0] != "false"[0];
  }

  /** How a toggle is read, and where the word is that has to change. */
  lemma {:induction false} ToggleIs(parsed: Parsed, e: ObjectEntry, key: string)
    requires WellRead(parsed) && 0 <= e.valueStart <= e.valueEnd <= |parsed.source|
    ensures ReadToggle(parsed, e, key) == Success(On) <==> SwitchedOn(parsed, e)
    ensures Says(parsed, e, "false") ==> ReadToggle(parsed, e, key) == Success(Off(e.valueStart, e.valueEnd, key))
    ensures forall flag :: OffInside(parsed, e, flag) ==>
              0 <= flag.valueStart <= flag.valueEnd && ReadToggle(parsed, e, key) == Success(Off(flag.valueStart, flag.valueEnd, key + ".enabled"))
    ensures ReadToggle(parsed, e, key).Success? && ReadToggle(parsed, e, key).value.Off? ==>
              Says(parsed, e, "false") || exists flag :: OffInside(parsed, e, flag)
  {
    hide ObjectOf, FindEntry, Opens;
    ObjectIs(parsed, e);
    OneWord(parsed, e);
    forall scan, word | (word == "true" || word == "false") && Says(parsed, e, word) ensures !Opens(parsed, e, scan) {
      WordOpensNothing(parsed, e, word, scan);
    }
    var literal := ObjectOf(parsed, e);
    if literal.Success? && literal.value.Some? && !Says(parsed, e, "true") && !Says(parsed, e, "false") {
      ToggleInside(parsed, e, key, literal.value.value);
    }
  }

  lemma {:induction false} ToggleInside(parsed: Parsed, e: ObjectEntry, key: string, scan: ObjectScan)
    requires WellRead(parsed) && 0 <= e.valueStart <= e.valueEnd <= |parsed.source| && ObjectOf(parsed, e) == Success(Some(scan))
    requires Opens(parsed, e, scan) && !Says(parsed, e, "true") && !Says(parsed, e, "false")
    requires forall other :: Opens(parsed, e, other) ==> other == scan
    ensures ReadToggle(parsed, e, key) == Success(On) <==> SwitchedOn(parsed, e)
    ensures forall flag :: OffInside(parsed, e, flag) ==>
              0 <= flag.valueStart <= flag.valueEnd && ReadToggle(parsed, e, key) == Success(Off(flag.valueStart, flag.valueEnd, key + ".enabled"))
    ensures ReadToggle(parsed, e, key).Success? && ReadToggle(parsed, e, key).value.Off? ==> exists flag :: OffInside(parsed, e, flag)
  {
    hide ObjectOf, FindEntry, Opens;
    var found := FindEntry(scan.entries, "enabled");
    ObjectCloses(parsed, e, scan);
    if found.Some? {
      OneWord(parsed, found.value);
      assert Holding(parsed, e, scan, "enabled", found.value);
    }
  }

  // ---------------------------------------------------------------------------
  // The provider of the Data API
  // ---------------------------------------------------------------------------

  ghost predicate Spaces(text: string) { text != "" && forall k :: 0 <= k < |text| ==> IsSpace(text[k]) }

  /** `text` is `value`, perhaps with `as const` behind it. */
  ghost predicate Asserts(text: string, value: string) {
    text == value || exists a, b :: Spaces(a) && Spaces(b) && text == value + a + "as" + b + "const"
  }

  /** `word` between two quotes, of either kind. */
  ghost predicate QuotedWord(value: string, word: string) {
    exists a: char, b: char :: IsQuote(a) && IsQuote(b) && value == [a] + word + [b]
  }

  predicate IsQuote(c: char) { c == '"' || c == '\'' }

  ghost predicate IsLiteral(text: string, word: string) { exists value :: Asserts(text, value) && QuotedWord(value, word) }

  lemma {:induction false} QuotedIs(value: string, word: string)
    ensures IsQuoted(value, word) <==> QuotedWord(value, word)
  {
    if IsQuoted(value, word) {
      assert value == [value[0]] + value[1..|value| - 1] + [value[|value| - 1]];
      assert IsQuote(value[0]) && IsQuote(value[|value| - 1]);
    }
    if QuotedWord(value, word) {
      var a: char, b: char :| IsQuote(a) && IsQuote(b) && value == [a] + word + [b];
      assert value[1..|value| - 1] == word;
    }
  }

  lemma {:induction false} SpacesBeforeIs(s: string, i: nat)
    requires i <= |s|
    ensures var p := SpacesBefore(s, i);
            p <= i && (forall k :: p <= k < i ==> IsSpace(s[k])) && (p > 0 ==> !IsSpace(s[p - 1]))
  {
    if i > 0 && IsSpace(s[i - 1]) { SpacesBeforeIs(s, i - 1); }
  }

  /** Blanks end where the text before them does not end in one. */
  lemma {:induction false} SpacesBeforeAt(s: string, p: nat, i: nat)
    requires p <= i <= |s| && (forall k :: p <= k < i ==> IsSpace(s[k])) && p > 0 && !IsSpace(s[p - 1])
    ensures SpacesBefore(s, i) == p
    decreases i
  {
    if p < i { SpacesBeforeAt(s, p, i - 1); }
  }

  lemma {:induction false} StrippedAsserts(text: string)
    ensures Asserts(text, WithoutAsConst(text))
  {
    hide SpacesBefore;
    var n := |text|;
    if n >= 5 && text[n - 5..] == "const" {
      var p := SpacesBefore(text, n - 5);
      SpacesBeforeIs(text, n - 5);
      if p != n - 5 && p >= 2 && text[p - 2..p] == "as" {
        var q := SpacesBefore(text, p - 2);
        SpacesBeforeIs(text, p - 2);
        if q != p - 2 {
          AssertedParts(text, q, p);
        }
      }
    }
  }

  lemma {:induction false} AssertedParts(text: string, q: nat, p: nat)
    requires |text| >= 5 && text[|text| - 5..] == "const" && q + 2 < p < |text| - 5 && text[p - 2..p] == "as"
    requires (forall k :: q <= k < p - 2 ==> IsSpace(text[k])) && forall k :: p <= k < |text| - 5 ==> IsSpace(text[k])
    ensures Asserts(text, text[..q])
  {
    var a, b := text[q..p - 2], text[p..|text| - 5];
    assert Spaces(a) && Spaces(b);
    FiveParts(text, q, p - 2, p, |text| - 5);
  }

  lemma {:induction false} FiveParts(t: string, a: nat, b: nat, c: nat, d: nat)
    requires a <= b <= c <= d <= |t|
    ensures t == t[..a] + t[a..b] + t[b..c] + t[c..d] + t[d..]
  {
  }

  lemma {:induction false} AssertedStrips(value: string, a: string, b: string)
    requires value != "" && !IsSpace(value[|value| - 1]) && Spaces(a) && Spaces(b)
    ensures WithoutAsConst(value + a + "as" + b + "const") == value
  {
    hide SpacesBefore;
    var text := value + a + "as" + b + "const";
    var n, q := |text|, |value|;
    var p := q + |a| + 2;
    ConstBehind(value + a + "as" + b);
    assert n - 5 == p + |b|;
    assert text == value + a + "as" + (b + "const");
    assert forall k :: p <= k < n - 5 ==> text[k] == b[k - p];
    assert text[p - 1] == 's' && text[p - 2] == 'a';
    SpacesBeforeAt(text, p, n - 5);
    assert text[p - 2..p] == "as";
    assert forall k :: q <= k < p - 2 ==> text[k] == a[k - q];
    assert text[q - 1] == value[q - 1];
    SpacesBeforeAt(text, q, p - 2);
    assert text[..q] == value;
  }

  lemma {:induction false} ConstBehind(head: string)
    ensures var text := head + "const"; |text| >= 5 && text[|text| - 5..] == "const"
  {
  }

  lemma {:induction false} LiteralIs(text: string, word: string)
    ensures IsQuoted(WithoutAsConst(text), word) <==> IsLiteral(text, word)
  {
    hide WithoutAsConst, IsQuoted;
    var value := WithoutAsConst(text);
    StrippedAsserts(text);
    QuotedIs(value, word);
    if IsLiteral(text, word) {
      var v :| Asserts(text, v) && QuotedWord(v, word);
      QuotedEnds(v, word);
      if text == v {
        NoConst(text);
      } else {
        var a, b :| Spaces(a) && Spaces(b) && text == v + a + "as" + b + "const";
        AssertedStrips(v, a, b);
      }
    }
  }

  lemma {:induction false} QuotedEnds(value: string, word: string)
    requires QuotedWord(value, word)
    ensures value != "" && IsQuote(value[|value| - 1])
  {
  }

  lemma {:induction false} NoConst(text: string)
    requires text != "" && IsQuote(text[|text| - 1])
    ensures WithoutAsConst(text) == text
  {
    if |text| >= 5 { assert text[|text| - 5..][4] == text[|text| - 1]; }
  }

  /** `dataApi` is an object whose `authProvider` is the literal `word`. */
  ghost predicate Provider(parsed: Parsed, word: string) {
    exists e, scan, provider, text ::
      ProvidedBy(parsed, e, scan, provider) && Says(parsed, provider, text) && IsLiteral(text, word)
  }

  ghost predicate ProvidedBy(parsed: Parsed, e: ObjectEntry, scan: ObjectScan, provider: ObjectEntry) {
    FindEntry(parsed.root.entries, "dataApi") == Some(e) && Holding(parsed, e, scan, "authProvider", provider)
  }

  /** `dataApi` is absent, no object, or an object without `authProvider`. */
  ghost predicate NoProvider(parsed: Parsed) {
    match FindEntry(parsed.root.entries, "dataApi")
    case None => true
    case Some(e) =>
      OpensNothing(parsed, e) || exists scan :: Opens(parsed, e, scan) && FindEntry(scan.entries, "authProvider").None?
  }

  lemma {:induction false} OneLiteral(text: string)
    ensures !(IsLiteral(text, "external") && IsLiteral(text, "neon"))
  {
    hide WithoutAsConst;
    LiteralIs(text, "external");
    LiteralIs(text, "neon");
    assert |"external"| != |"neon"|;
  }

  /** Whose tokens the Data API verifies: a third party's for `external`, Neon Auth's for `neon` and by default. */
  lemma {:induction false} ProviderIs(parsed: Parsed)
    requires WellRead(parsed)
    ensures DataApiIsExternal(parsed) == Success(true) <==> Provider(parsed, "external")
    ensures DataApiIsExternal(parsed) == Success(false) <==> NoProvider(parsed) || Provider(parsed, "neon")
  {
    hide ObjectOf, FindEntry, Opens, OpensNothing, WithoutAsConst, IsQuoted, IsLiteral;
    var found := FindEntry(parsed.root.entries, "dataApi");
    if found.Some? {
      EntryRange(parsed, found.value);
      ObjectIs(parsed, found.value);
      var literal := ObjectOf(parsed, found.value);
      if literal.Success? && literal.value.Some? {
        ProviderOf(parsed, found.value, literal.value.value);
      } else {
        assert forall scan :: !Opens(parsed, found.value, scan);
        assert NoProvider(parsed) <==> literal.Success?;
      }
    }
  }

  lemma {:induction false} ProviderOf(parsed: Parsed, e: ObjectEntry, scan: ObjectScan)
    requires WellRead(parsed) && FindEntry(parsed.root.entries, "dataApi") == Some(e) && 0 <= e.valueStart
    requires ObjectOf(parsed, e) == Success(Some(scan)) && Opens(parsed, e, scan)
    requires !OpensNothing(parsed, e) && forall other :: Opens(parsed, e, other) ==> other == scan
    ensures DataApiIsExternal(parsed) == Success(true) <==> Provider(parsed, "external")
    ensures DataApiIsExternal(parsed) == Success(false) <==> NoProvider(parsed) || Provider(parsed, "neon")
  {
    hide ObjectOf, FindEntry, Opens, OpensNothing, WithoutAsConst, IsQuoted, IsLiteral;
    var found := FindEntry(scan.entries, "authProvider");
    if found.Some? {
      var provider := found.value;
      ObjectCloses(parsed, e, scan);
      var text := parsed.source[provider.valueStart..provider.valueEnd];
      LiteralIs(text, "external");
      LiteralIs(text, "neon");
      OneLiteral(text);
      assert ProvidedBy(parsed, e, scan, provider);
      assert provider.keyed ==> Says(parsed, provider, text);
    }
  }

  // ---------------------------------------------------------------------------
  // Services
  // ---------------------------------------------------------------------------

  /** The policy has an entry `key` that is switched on. */
  ghost predicate Running(parsed: Parsed, key: string) {
    exists e :: FindEntry(parsed.root.entries, key) == Some(e) && SwitchedOn(parsed, e)
  }

  lemma {:induction false} ServiceIs(parsed: Parsed)
    requires WellRead(parsed)
    ensures ServiceOn(parsed, Auth) <==> Running(parsed, "auth")
    ensures ServiceOn(parsed, DataApi) <==> Running(parsed, "dataApi")
    ensures ServiceOn(parsed, AiGateway) <==> Running(parsed, "aiGateway")
  {
    hide ReadToggle, FindEntry, SwitchedOn;
    RunningIs(parsed, Auth, "auth");
    RunningIs(parsed, DataApi, "dataApi");
    RunningIs(parsed, AiGateway, "aiGateway");
  }

  lemma {:induction false} RunningIs(parsed: Parsed, service: Service, key: string)
    requires WellRead(parsed) && ServiceKey(service) == key
    ensures ServiceOn(parsed, service) <==> Running(parsed, key)
  {
    hide ReadToggle, FindEntry, SwitchedOn;
    var found := FindEntry(parsed.root.entries, key);
    if found.Some? {
      EntryRange(parsed, found.value);
      ToggleIs(parsed, found.value, key);
    }
  }

  /** `preview` is absent, or an object without an entry `key`. */
  ghost predicate NotInPreview(parsed: Parsed, key: string) {
    || FindEntry(parsed.root.entries, "preview").None?
    || exists e, scan :: FindEntry(parsed.root.entries, "preview") == Some(e) && Opens(parsed, e, scan) && FindEntry(scan.entries, key).None?
  }

  /** What `preview` has to say about a key that stands outside it. */
  lemma {:induction false} PreviewIs(parsed: Parsed, key: string)
    requires WellRead(parsed)
    ensures NotUnderPreview(parsed, key).Success? <==> NotInPreview(parsed, key)
    ensures NotUnderPreview(parsed, key) == Failure(Unsupported(PreviewMayDeclare)) <==>
              exists e :: FindEntry(parsed.root.entries, "preview") == Some(e) && OpensNothing(parsed, e)
    ensures NotUnderPreview(parsed, key) == Failure(Unsupported(DeclaredUnderPreview)) <==>
              exists e, scan :: FindEntry(parsed.root.entries, "preview") == Some(e) && Opens(parsed, e, scan) && FindEntry(scan.entries, key).Some?
  {
    hide ObjectOf, FindEntry, Opens, OpensNothing;
    var found := FindEntry(parsed.root.entries, "preview");
    if found.Some? {
      EntryRange(parsed, found.value);
      ObjectIs(parsed, found.value);
    }
  }

  /** What the read-back asks of a file for each service, on its text. */
  lemma {:induction false} ServicesDeclared(parsed: Parsed)
    requires WellRead(parsed)
    ensures Declares(parsed, ServiceEdit(Auth)) <==> Running(parsed, "auth")
    ensures Declares(parsed, ServiceEdit(AiGateway)) <==> Running(parsed, "aiGateway") && NotInPreview(parsed, "aiGateway")
    ensures Declares(parsed, ServiceEdit(DataApi)) <==>
              && Running(parsed, "dataApi")
              && (Provider(parsed, "external") || ((NoProvider(parsed) || Provider(parsed, "neon")) && Running(parsed, "auth")))
  {
    hide ServiceOn, DataApiIsExternal, Running, Provider, NoProvider, NotUnderPreview, NotInPreview;
    ServiceIs(parsed);
    ProviderIs(parsed);
    PreviewIs(parsed, "aiGateway");
  }

  // ---------------------------------------------------------------------------
  // A Data API edit
  // ---------------------------------------------------------------------------

  /** With a third party's tokens, the edit is the Data API step alone, and does not declare Neon Auth. */
  lemma {:induction false} ExternalEdit(s: string, result: EditResult)
    requires EditNeonConfig(s, ServiceEdit(DataApi)) == Success(result) && Parse(s).Success?
    requires DataApiIsExternal(Parse(s).value) == Success(true)
    ensures BuildStep(s, ServiceEdit(DataApi)).Success?
    ensures var step := BuildStep(s, ServiceEdit(DataApi)).value;
            result.source == step.source && result.changes == OptionSeq(step.change)
    ensures FindEntry(Parse(s).value.root.entries, "auth").None? ==>
              Parse(result.source).Success? && FindEntry(Parse(result.source).value.root.entries, "auth").None?
  {
    hide BuildStep, Parse, DataApiIsExternal, RunSteps, FindEntry, PlaceInCode, Apply, EditNeonConfig;
    EditIsItsSteps(s, ServiceEdit(DataApi), result);
    ConfigRefused.EditAppliesIff(s, DataApi);
    ParsedReads(s);
    OneStep(s, result);
    if FindEntry(Parse(s).value.root.entries, "auth").None? { ConfigRefused.AuthStillAbsent(s); }
  }

  lemma {:induction false} OneStep(s: string, result: EditResult)
    requires Apply(s, ServiceEdit(DataApi)) == Success(result) && Parse(s).Success?
    requires DataApiIsExternal(Parse(s).value) == Success(true)
    ensures RunSteps(s, [ServiceEdit(DataApi)]) == Success(result) && BuildStep(s, ServiceEdit(DataApi)).Success?
    ensures var step := BuildStep(s, ServiceEdit(DataApi)).value;
            result.source == step.source && result.changes == OptionSeq(step.change)
  {
    hide BuildStep, Parse, DataApiIsExternal, RunSteps;
    RunOne(s, ServiceEdit(DataApi));
  }

  /** With Neon Auth's tokens, the edit leaves Neon Auth switched on. */
  lemma {:induction false} NeonEdit(s: string, result: EditResult)
    requires EditNeonConfig(s, ServiceEdit(DataApi)) == Success(result) && Parse(s).Success?
    requires DataApiIsExternal(Parse(s).value) == Success(false)
    ensures Parse(result.source).Success? && ServiceOn(Parse(result.source).value, Auth)
  {
    hide BuildStep, Parse, DataApiIsExternal, RunSteps, FindEntry, PlaceInCode, Apply, EditNeonConfig, ServiceOn;
    EditIsItsSteps(s, ServiceEdit(DataApi), result);
    ConfigRefused.EditAppliesIff(s, DataApi);
    TwoSteps(s, result);
    ParsedReads(s);
    var t := BuildStep(s, ServiceEdit(Auth)).value.source;
    AuthThenDataApi(s);
    ParsedReads(t);
    DataApiSettles(t);
  }

  lemma {:induction false} TwoSteps(s: string, result: EditResult)
    requires Apply(s, ServiceEdit(DataApi)) == Success(result) && Parse(s).Success?
    requires DataApiIsExternal(Parse(s).value) == Success(false) && StepsInCode(s, ServicesOf(s, DataApi))
    ensures PlaceInCode(s, Auth) && BuildStep(s, ServiceEdit(Auth)).Success?
    ensures var t := BuildStep(s, ServiceEdit(Auth)).value.source;
            && PlaceInCode(t, DataApi) && BuildStep(t, ServiceEdit(DataApi)).Success?
            && BuildStep(t, ServiceEdit(DataApi)).value.source == result.source
  {
    hide BuildStep, Parse, DataApiIsExternal, RunSteps, PlaceInCode;
    RunTwo(s, ServiceEdit(Auth), ServiceEdit(DataApi));
    assert [Auth, DataApi][1..] == [DataApi];
  }

  /**
   * Every Data API edit that goes through switches the Data API on. Where Neon Auth's tokens are
   * verified, by default or because the file says `neon`, Neon Auth is on as well; where the file
   * says `external`, the edit is one step, and Neon Auth stays undeclared if it was.
   */
  lemma {:induction false} DataApiEdit(s: string, result: EditResult)
    requires EditNeonConfig(s, ServiceEdit(DataApi)) == Success(result)
    ensures Parse(s).Success? && Parse(result.source).Success? && Running(Parse(result.source).value, "dataApi")
    ensures var parsed, after := Parse(s).value, Parse(result.source).value;
            && (Provider(parsed, "external") || Provider(parsed, "neon") || NoProvider(parsed))
            && (Provider(parsed, "neon") || NoProvider(parsed) ==> Running(after, "auth"))
            && (Provider(parsed, "external") ==>
                  && |result.changes| <= 1
                  && BuildStep(s, ServiceEdit(DataApi)).Success? && BuildStep(s, ServiceEdit(DataApi)).value.source == result.source
                  && (FindEntry(parsed.root.entries, "auth").None? ==> FindEntry(after.root.entries, "auth").None?))
  {
    hide Parse, DataApiIsExternal, EditNeonConfig, Running, Provider, NoProvider, FindEntry, BuildStep, Declares, ServiceOn;
    DataApiRuns(s, result);
    ParsedFirst(s, result);
    ParsedReads(s);
    ProviderIs(Parse(s).value);
    var external := DataApiIsExternal(Parse(s).value);
    assert external == Success(external.value);
    if external.value {
      ExternalEdit(s, result);
    } else {
      NeonRuns(s, result);
    }
  }

  lemma {:induction false} DataApiRuns(s: string, result: EditResult)
    requires EditNeonConfig(s, ServiceEdit(DataApi)) == Success(result)
    ensures Parse(result.source).Success? && Running(Parse(result.source).value, "dataApi")
  {
    hide Parse, EditNeonConfig, Running, Provider, NoProvider, Declares;
    AcceptedDeclares(s, ServiceEdit(DataApi), result);
    ParsedReads(result.source);
    ServicesDeclared(Parse(result.source).value);
  }

  lemma {:induction false} NeonRuns(s: string, result: EditResult)
    requires EditNeonConfig(s, ServiceEdit(DataApi)) == Success(result) && Parse(s).Success?
    requires DataApiIsExternal(Parse(s).value) == Success(false)
    ensures Parse(result.source).Success? && Running(Parse(result.source).value, "auth")
  {
    hide Parse, EditNeonConfig, Running, DataApiIsExternal, ServiceOn;
    NeonEdit(s, result);
    ParsedReads(result.source);
    ServiceIs(Parse(result.source).value);
  }

  lemma {:induction false} ParsedFirst(s: string, result: EditResult)
    requires EditNeonConfig(s, ServiceEdit(DataApi)) == Success(result)
    ensures Parse(s).Success? && DataApiIsExternal(Parse(s).value).Success?
  {
    hide Parse, DataApiIsExternal, RunSteps;
  }
}
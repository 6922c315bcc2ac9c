/**
 * `editNeonConfig` for the services: what an edit writes is read back as declared, and nothing
 * else a file declares is affected.
 */
module ConfigConverge {
  import opened Wrappers
  import opened Text
  import opened SourceLexer
  import opened LexerTokens
  import opened LexerSplice
  import opened ObjectScan
  import opened ObjectShift
  import opened ConfigEdit
  import opened ConfigSplice
  import opened ConfigAppend
  import opened ConfigReplace
  import opened ConfigFind
  import opened ConfigInsert
  import opened ConfigEntries
  import opened ConfigLines
  import opened ConfigFields

  // ---------------------------------------------------------------------------
  // A service added
  // ---------------------------------------------------------------------------

  /** The file declares the service, switched on. */
  ghost predicate ServiceOn(parsed: Parsed, service: Service) {
    WellRead(parsed) &&
    var key := ServiceKey(service);
    && FindEntry(parsed.root.entries, key).Some?
    && ReadToggle(parsed, FindEntry(parsed.root.entries, key).value, key) == Success(On)
  }

  /** The file does not declare the service, or as plain `false`. */
  ghost predicate NoObject(parsed: Parsed, service: Service) {
    WellRead(parsed) &&
    match FindEntry(parsed.root.entries, ServiceKey(service))
    case None => true
    case Some(e) => e.keyed && ValueText(parsed.source, e) == "false"
  }

  /** `s2` reads as a file that declares the service and keeps everything else `parsed` declares. */
  ghost predicate Declared(parsed: Parsed, service: Service, s2: string) {
    && Parse(s2).Success? && ServiceOn(Parse(s2).value, service)
    && (NoObject(parsed, service) ==> SaysTrue(s2, FindEntry(Parse(s2).value.root.entries, ServiceKey(service)).value, ServiceKey(service)))
    && OthersKept(parsed.source, parsed.kinds, parsed.root.entries, s2, Parse(s2).value.kinds, Parse(s2).value.root.entries,
                  ServiceKey(service))
  }

  /** The entry says `key: true`. */
  ghost predicate SaysTrue(s: string, e: ObjectEntry, key: string) {
    && e.key == Some(key) && e.keyed && 0 <= e.valueStart <= e.valueEnd <= |s|
    && s[e.valueStart..e.valueEnd] == "true"
  }

  /** However it is inserted, the line `key: true,` is read back as a new entry that says `true`. */
  lemma {:induction false} InsertToggle(parsed: Parsed, scan: ObjectScan, key: string, before: Option<ObjectEntry>, s2: string)
    returns (k2: seq<Kind>, i: nat, added: ObjectEntry, d: int, close: nat)
    requires ReadOf(parsed, scan) && IsIdentifier(key) && (before.Some? ==> before.value in scan.entries)
    requires GoesInCode(parsed, scan, before)
    requires InsertEntry(parsed, scan, [key + ": true,"], before) == Success(s2)
    ensures HasNewEntry(parsed.source, parsed.kinds, scan, s2, k2, i, added, d, close) && SaysTrue(s2, added, key)
  {
    hide InsertEntry, GoesInCode, HasNewEntry, IsIdentifier, IsValue, Written, Says;
    var value := WordValue("true");
    WordIsValue("true");
    ToggleText(key);
    k2, i, added, d, close := LineGained(parsed, scan, key, value, before, s2);
    SaysNamed(s2, k2, added, key, value);
    SaysText(s2, k2, added, key, value);
    assert added.key == Some(key) && added.keyed by { SaysKey(s2, k2, added, key, value); }
  }

  lemma {:induction false} ToggleText(key: string)
    requires IsIdentifier(key)
    ensures Line(key, WordValue("true")) == key + ": true,"
  {
    hide Written, IsIdentifier, RenderKey;
    NameIsIdent(key);
    WordIsValue("true");
    FieldText(key, WordValue("true"));
  }

  lemma {:induction false} KeysAreIdentifiers(service: Service)
    ensures IsIdentifier(ServiceKey(service)) && ServiceKey(service) != "preview"
  {
  }

  lemma {:induction false} TrueIsOn(parsed: Parsed, e: ObjectEntry, key: string)
    requires WellRead(parsed) && SaysTrue(parsed.source, e, key)
    ensures ReadToggle(parsed, e, key) == Success(On)
  {
  }

  lemma {:induction false} AddedIsDeclared(s: string, service: Service, s2: string)
    requires Parse(s).Success? && WellRead(Parse(s).value) && FindEntry(Parse(s).value.root.entries, ServiceKey(service)).None?
    requires var parsed := Parse(s).value;
             var before := EntryAfter(parsed.root.entries, ServiceKey(service));
             && GoesInCode(parsed, parsed.root, before)
             && InsertEntry(parsed, parsed.root, [ServiceKey(service) + ": true,"], before) == Success(s2)
    ensures Declared(Parse(s).value, service, s2)
  {
    hide Lex, ScanObject, FindConfigObject, FindEntry, InsertEntry, GoesInCode, OthersKept, Plain, ServiceKey, IsIdentifier, Parse, ReadToggle;
    var parsed := ParsedIs(s);
    var key, es := ServiceKey(service), parsed.root.entries;
    KeysAreIdentifiers(service);
    var k2, i, added, d, close := InsertToggle(parsed, parsed.root, key, EntryAfter(es, key), s2);
    var es2 := es[..i] + [added] + MoveAll(es[i..], d);
    InsertedPlain(es, i, added, d, key);
    ScanObjectCloses(s, parsed.kinds, parsed.root);
    Parses(s2, k2, parsed.root.open, close, es2);
    var n := InsertedFind(es, i, added, d, key, key);
    TrueIsOn(Parse(s2).value, added, key);
    InsertedOthers(s, parsed.kinds, parsed.root, s2, k2, i, added, d, close, key);
  }

  // ---------------------------------------------------------------------------
  // A service switched on
  // ---------------------------------------------------------------------------

  /** A word that ends where its entry does is followed by no identifier character. */
  lemma {:induction false} WordEnds(s: string, kinds: seq<Kind>, m: nat, c: nat, e: ObjectEntry, a: nat)
    requires Labelled(s, kinds) && m <= c < |s| && ReadEntry(s, kinds, m, c) == Some(e) && kinds[c] == Code
    requires s[c] == ',' || s[c] == '}'
    requires 0 <= a < e.end && AllCode(kinds, a, e.end)
    ensures !IsIdent(s[e.end])
  {
    hide Lex, RunTo, ReadEntry, EntryAt;
    ReadEntryEnds(s, kinds, m, c, e);
    var b: nat := e.end;
    if b < c {
      assert IsTrivia(s, kinds, b);
      assert kinds[b - 1] == Code;
      if kinds[b] == Comment {
        TokenBoundaryHere(s, kinds, b);
        BoundaryGoesOn(s, kinds, b);
        var t := NextToken(s, TopLevel(kinds, b), kinds);
      }
    }
  }

  /** `false` on `[a, b)`, behind a colon and trivia, has become `true`; `k2` are the new labels. */
  ghost predicate Switched(s: string, k1: seq<Kind>, colon: nat, a: nat, b: nat, s2: string, k2: seq<Kind>) {
    && colon < a < b < |s| == |k1| && Replaced(s, a, b, s2, a + 4) && s2[a..a + 4] == "true"
    && Labelled(s2, k2) && |k2| == |s2| && AllCode(k1, a, b) && AllCode(k2, a, a + 4)
    && Agree(k1, k2, 0, 0, a) && Agree(k1, k2, a + 4 - b, b, |s|)
    && s[colon] == ':' && AllTrivia(s, k1, colon + 1, a)
  }

  lemma {:induction false} SwitchedFacts(s: string, k1: seq<Kind>, colon: nat, a: nat, b: nat, s2: string, k2: seq<Kind>, d: int)
    requires Switched(s, k1, colon, a, b, s2, k2) && a + 4 == b + d
    ensures colon < a < b < |s| == |k1| && Replaced(s, a, b, s2, a + 4) && Labelled(s2, k2) && |k2| == |s2|
    ensures AllCode(k1, a, b) && AllCode(k2, a, a + 4)
    ensures Same(s, k1, s2, k2, 0, 0, a) && Same(s, k1, s2, k2, d, b, |s|)
  {
  }

  /** The value `false` of an entry, replaced by `true`. */
  lemma {:induction false} FalseReplaced(s: string, kinds: seq<Kind>, scan: ObjectScan, j: nat, s2: string)
    returns (k2: seq<Kind>, colon: nat)
    requires Labelled(s, kinds) && |s| == |kinds| && ScanObject(s, kinds, scan.open) == Success(scan) && j < |scan.entries|
    requires var e := scan.entries[j];
             && e.keyed && 0 <= e.valueStart <= e.valueEnd <= |s| && ValueText(s, e) == "false"
             && s2 == s[..e.valueStart] + "true" + s[e.valueEnd..]
    ensures var e := scan.entries[j];
            scan.open < colon && Switched(s, kinds, colon, e.valueStart, e.valueEnd, s2, k2)
  {
    hide Lex, RunTo, ReadEntry, ScanTo, EntryAt, Boundary, Agree;
    var e := scan.entries[j];
    var m, c := EntryPoint(s, kinds, scan, j);
    ReadEntryStarts(s, kinds, m, c, e);
    ReadEntryIs(s, kinds, m, c, e);
    var a: nat, b: nat := e.valueStart, e.valueEnd;
    FalseIsWord(s, a, b);
    colon := ValueStarts(s, kinds, e.start, e.end);
    WordIsCode(s, kinds, a, b);
    WordEnds(s, kinds, m, c, e, a);
    TrueReplaces(s, a, b, s2);
    k2 := ReplaceLabels(s, kinds, a, b, s2, a + 4);
  }

  lemma {:induction false} FalseIsWord(s: string, a: nat, b: nat)
    requires a <= b <= |s| && s[a..b] == "false"
    ensures b == a + 5 && AllIdent(s, a, b)
  {
    forall k | a <= k < b ensures IsIdent(s[k]) { assert s[a..b][k - a] == s[k]; }
  }

  lemma {:induction false} FlagsAreNoWords()
    ensures "false" !in RegexKeywords && "true" !in RegexKeywords
  {
  }

  lemma {:induction false} TrueReplaces(s: string, a: nat, b: nat, s2: string)
    requires 0 < a && b == a + 5 < |s| && s[a..b] == "false" && AllIdent(s, a, b) && !IsIdent(s[a - 1]) && !IsIdent(s[b])
    requires s2 == s[..a] + "true" + s[b..]
    ensures Replaced(s, a, b, s2, a + 4) && s2[a..a + 4] == "true"
  {
    hide Agree, RegexKeywords;
    FlagsAreNoWords();
    AgreeConcat(s[..a], "true");
    AgreeConcat(s[..a] + "true", s[b..]);
    AgreeAppend(s[..a], s[..a] + "true", s[b..], 0, 0, a);
    AgreePrefixOf(s, s2, a);
    AgreeOfSlice(s, s2, b, |s|, a + 4);
    assert s2[a..a + 4] == "true";
    forall k | a <= k < a + 4 ensures IsIdent(s2[k]) { assert s2[a..a + 4][k - a] == s2[k]; }
  }

  lemma {:induction false} ReplacedKeepsConfig(s: string, k1: seq<Kind>, open: nat, colon: nat, a: nat, b: nat, s2: string, k2: seq<Kind>)
    requires |s| == |k1| && |s2| == |k2| && FindConfigObject(s, k1) == Success(open)
    requires open < colon && Switched(s, k1, colon, a, b, s2, k2) && k1[open] == Code
    ensures FindConfigObject(s2, k2) == Success(open)
  {
    hide Lex, FindConfigObject, Agree, MatchStop, MatchDefine, MatchExport;
    var d := a + 4 - b;
    AgreeAt(s, s2, 0, 0, a, colon);
    AgreePart(s, s2, 0, 0, a, colon + 1, a);
    AgreePart(k1, k2, 0, 0, a, colon + 1, a);
    TriviaMoved(s, k1, s2, k2, 0, colon + 1, a);
    forall i | 0 <= i < a && CodeMatch(s2, k2, i) ensures MatchStop(s2, i) <= a {
      if i <= colon {
        MatchBefore(s2, k2, i, colon);
      } else {
        assert IsTrivia(s2, k2, i);
        NoMatchAtTrivia(s2, k2, i);
      }
    }
    AgreeAt(s, s2, d, b, |s|, b);
    assert s2[a] == s2[a..a + 4][0];
    forall i | a <= i < a + 5 ensures !CodeMatch(s2, k2, i) {
      if i == a {
        FirstChar(s2, a, "defineConfig");
        FirstChar(s2, a, "export");
        NeitherMatches(s2, k2, a);
      } else {
        assert i < a + 4 ==> s2[a..a + 4][i - 1 - a] == s2[i - 1];
        NoMatchAtOther(s2, k2, i);
      }
    }
    AgreePart(s, s2, d, b, |s|, b + 1, |s|);
    AgreePart(k1, k2, d, b, |s|, b + 1, |s|);
    SpliceKeepsConfig(s, k1, open, a, b + 1, s2, k2, a + 5);
  }

  lemma {:induction false} NeitherMatches(s: string, kinds: seq<Kind>, i: nat)
    requires i < |s| && !HasPrefixAt(s, i, "defineConfig") && !HasPrefixAt(s, i, "export")
    ensures !CodeMatch(s, kinds, i)
  {
  }

  /** The root object of a file with a word in its `j`-th entry switched. */
  lemma {:induction false} RootSwitched(s: string, parsed: Parsed, key: string, j: nat, colon: nat, a: nat, b: nat,
                                        s2: string, k2: seq<Kind>,
                                        d: int)
    requires a + 4 == b + d && Parse(s) == Success(parsed) && WellRead(parsed) && ReadOf(parsed, parsed.root) && Plain(parsed.root.entries)
    requires parsed.source == s && FindConfigObject(s, parsed.kinds) == Success(parsed.root.open)
    requires j < |parsed.root.entries| && parsed.root.entries[j].key == Some(key) && parsed.root.entries[j].keyed
    requires parsed.root.entries[j].valueStart <= a && b <= parsed.root.entries[j].end
    requires parsed.root.open < colon && Switched(s, parsed.kinds, colon, a, b, s2, k2)
    ensures Parse(s2).Success? && WellRead(Parse(s2).value) && Parse(s2).value.source == s2 && Parse(s2).value.kinds == k2
    ensures ReplacedEntries(parsed.root, j, d, Parse(s2).value.root.entries)
    ensures OthersKept(s, parsed.kinds, parsed.root.entries, s2, k2, Parse(s2).value.root.entries, key)
    ensures j < |Parse(s2).value.root.entries| && FindEntry(Parse(s2).value.root.entries, key) == Some(Parse(s2).value.root.entries[j])
  {
    hide Lex, ScanObject, FindConfigObject, FindEntry, OthersKept, Plain, Parse, Agree, Replaced, AllCode, ReplacedEntries,
      AllTrivia, EntriesWithin, HasCrLf, Switched;
    var scan := parsed.root;
    ScanObjectCloses(s, parsed.kinds, scan);
    ScanObjectRange(s, parsed.kinds, scan, j);
    SwitchedFacts(s, parsed.kinds, colon, a, b, s2, k2, d);
    var es2 := ReplaceReadsBack(s, parsed.kinds, scan, j, a, b, s2, k2, d, a + 4);
    ReplacedKeepsConfig(s, parsed.kinds, scan.open, colon, a, b, s2, k2);
    ReplacedOthers(s, parsed.kinds, scan, j, a, b, s2, k2, d, es2, key);
    ReplacedAt(scan, j, d, es2);
    var close: nat := scan.close + d;
    Parses(s2, k2, scan.open, close, es2);
  }

  lemma {:induction false} SwitchedText(s: string, k1: seq<Kind>, colon: nat, a: nat, b: nat, s2: string, k2: seq<Kind>)
    requires Switched(s, k1, colon, a, b, s2, k2)
    ensures a < b && a + 4 <= |s2| == |k2| && s2[a..a + 4] == "true"
  {
  }

  /** A top-level `false` replaced: the file reads as the same one with that entry true. */
  lemma {:induction false} SwitchedDirectly(s: string, service: Service, s2: string)
    requires Parse(s).Success? && WellRead(Parse(s).value) && FindEntry(Parse(s).value.root.entries, ServiceKey(service)).Some?
    requires var e := FindEntry(Parse(s).value.root.entries, ServiceKey(service)).value;
             && e.keyed && 0 <= e.valueStart <= e.valueEnd <= |s| && ValueText(s, e) == "false"
             && s2 == s[..e.valueStart] + "true" + s[e.valueEnd..]
    ensures Declared(Parse(s).value, service, s2)
  {
    hide Lex, ScanObject, FindConfigObject, FindEntry, OthersKept, Plain, ServiceKey, Parse, Switched, ReplacedEntries, ReadToggle, HasCrLf;
    var parsed := ParsedIs(s);
    var key, scan := ServiceKey(service), parsed.root;
    var j := FoundAt(scan.entries, key);
    EntryRange(parsed, scan.entries[j]);
    var k2, colon := FalseReplaced(s, parsed.kinds, scan, j, s2);
    var a: nat, b: nat := scan.entries[j].valueStart, scan.entries[j].valueEnd;
    SwitchedText(s, parsed.kinds, colon, a, b, s2, k2);
    var d := a + 4 - b;
    RootSwitched(s, parsed, key, j, colon, a, b, s2, k2, d);
    ReplacedAt(scan, j, d, Parse(s2).value.root.entries);
    TrueIsOn(Parse(s2).value, Parse(s2).value.root.entries[j], key);
  }

  /** An object value in which `enabled` now says true is switched on. */
  lemma {:induction false} EnabledIsOn(parsed: Parsed, e: ObjectEntry, key: string, scan: ObjectScan)
    requires WellRead(parsed) && 0 <= e.valueStart <= e.valueEnd <= |parsed.source| && e.keyed
    requires scan.open == e.valueStart && scan.close + 1 == e.valueEnd
    requires ScanObject(parsed.source, parsed.kinds, scan.open) == Success(scan) && Plain(scan.entries)
    requires FindEntry(scan.entries, "enabled").Some? && SaysTrue(parsed.source, FindEntry(scan.entries, "enabled").value, "enabled")
    ensures ReadToggle(parsed, e, key) == Success(On)
  {
    hide ScanTo, FindEntry, Plain;
    assert ValueText(parsed.source, e)[0] == '{';
    ScanObjectWithin(parsed.source, parsed.kinds, scan.open);
  }

  /** The nested object of a changed file, with its flag now true. */
  lemma {:induction false} InnerSaysTrue(inner: ObjectScan, i: nat, s2: string, in2: seq<ObjectEntry>, a: nat, b: nat, d: int)
    requires i < |inner.entries| && inner.entries[i].key == Some("enabled") && inner.entries[i].keyed && Plain(inner.entries)
    requires inner.entries[i].valueStart == a && inner.entries[i].valueEnd == b && a + 4 <= |s2| && s2[a..a + 4] == "true"
    requires a + 4 == b + d && ReplacedEntries(inner, i, d, in2)
    ensures Plain(in2) && FindEntry(in2, "enabled").Some? && SaysTrue(s2, FindEntry(in2, "enabled").value, "enabled")
  {
    hide FindEntry, ReplacedEntries, Plain;
    ReplacedAt(inner, i, d, in2);
    SameKeysPlain(inner.entries, in2);
    PlainFind(in2, i, "enabled");
  }

  lemma {:induction false} ObjectIsNotFalse(parsed: Parsed, service: Service)
    requires WellRead(parsed) && FindEntry(parsed.root.entries, ServiceKey(service)).Some?
    requires ObjectOf(parsed, FindEntry(parsed.root.entries, ServiceKey(service)).value).Success?
    requires ObjectOf(parsed, FindEntry(parsed.root.entries, ServiceKey(service)).value).value.Some?
    ensures !NoObject(parsed, service)
  {
    hide ScanObject, FindEntry, Plain;
    var e := FindEntry(parsed.root.entries, ServiceKey(service)).value;
    assert ValueText(parsed.source, e)[0] == parsed.source[e.valueStart];
  }

  lemma {:induction false} InnerIsOn(scan: ObjectScan, j: nat, inner: ObjectScan, d: int, p2: Parsed, in2: seq<ObjectEntry>, key: string)
    requires j < |scan.entries| && ReplacedEntries(scan, j, d, p2.root.entries) && WellRead(p2)
    requires var e := scan.entries[j]; e.keyed && e.valueStart == inner.open && e.valueEnd == inner.close + 1
    requires 0 <= inner.close + d < |p2.source|
    requires ScanObject(p2.source, p2.kinds, inner.open) == Success(ObjectScan(inner.open, inner.close + d, in2))
    requires Plain(in2) && FindEntry(in2, "enabled").Some? && SaysTrue(p2.source, FindEntry(in2, "enabled").value, "enabled")
    ensures j < |p2.root.entries| && ReadToggle(p2, p2.root.entries[j], key) == Success(On)
  {
    hide ScanObject, FindEntry, ReplacedEntries, Plain, SaysTrue;
    ReplacedAt(scan, j, d, p2.root.entries);
    var scan2 := ObjectScan(inner.open, inner.close + d, in2);
    ScanObjectCloses(p2.source, p2.kinds, scan2);
    EnabledIsOn(p2, p2.root.entries[j], key, scan2);
  }

  /** The nested object of a file with its flag switched. */
  lemma {:induction false} InnerSwitched(s: string, k1: seq<Kind>, inner: ObjectScan, i: nat, colon: nat, s2: string, k2: seq<Kind>, d: int)
    returns (in2: seq<ObjectEntry>)
    requires |s| == |k1| && |s2| == |k2| && ScanObject(s, k1, inner.open) == Success(inner) && Plain(inner.entries)
    requires i < |inner.entries| && inner.entries[i].key == Some("enabled") && inner.entries[i].keyed
    requires 0 <= inner.entries[i].valueStart && 0 <= inner.entries[i].valueEnd
    requires Switched(s, k1, colon, inner.entries[i].valueStart, inner.entries[i].valueEnd, s2, k2)
    requires inner.entries[i].valueStart + 4 == inner.entries[i].valueEnd + d
    ensures && 0 <= inner.close + d < |s2|
            && ScanObject(s2, k2, inner.open) == Success(ObjectScan(inner.open, inner.close + d, in2))
    ensures Plain(in2) && FindEntry(in2, "enabled").Some? && SaysTrue(s2, FindEntry(in2, "enabled").value, "enabled")
  {
    hide Lex, ScanObject, FindEntry, Plain, Agree, Replaced, AllCode, ReplacedEntries, AllTrivia, SaysTrue;
    var a: nat, b: nat := inner.entries[i].valueStart, inner.entries[i].valueEnd;
    ScanObjectRange(s, k1, inner, i);
    SwitchedFacts(s, k1, colon, a, b, s2, k2, d);
    in2 := ReplaceReadsBack(s, k1, inner, i, a, b, s2, k2, d, a + 4);
    SwitchedText(s, k1, colon, a, b, s2, k2);
    InnerSaysTrue(inner, i, s2, in2, a, b, d);
    ScanObjectCloses(s2, k2, ObjectScan(inner.open, inner.close + d, in2));
  }

  /** A nested `enabled: false` replaced: the file reads as the same one with that entry true. */
  lemma {:induction false} SwitchedInside(s: string, service: Service, inner: ObjectScan, s2: string)
    requires Parse(s).Success? && WellRead(Parse(s).value) && FindEntry(Parse(s).value.root.entries, ServiceKey(service)).Some?
    requires var e := FindEntry(Parse(s).value.root.entries, ServiceKey(service)).value;
             && 0 <= e.valueStart && ObjectOf(Parse(s).value, e) == Success(Some(inner))
    requires FindEntry(inner.entries, "enabled").Some?
    requires var e := FindEntry(inner.entries, "enabled").value;
             && e.keyed && 0 <= e.valueStart <= e.valueEnd <= |s| && ValueText(s, e) == "false"
             && s2 == s[..e.valueStart] + "true" + s[e.valueEnd..]
    ensures Declared(Parse(s).value, service, s2)
  {
    hide Lex, ScanObject, FindConfigObject, FindEntry, OthersKept, Plain, ServiceKey, Parse, Switched, ReplacedEntries, SaysTrue,
      ReadToggle, EntriesWithin, HasCrLf, ValueText, NoObject, ObjectOf;
    var parsed := ParsedIs(s);
    var key, scan := ServiceKey(service), parsed.root;
    var j := FoundAt(scan.entries, key);
    EntryRange(parsed, scan.entries[j]) by { assert WellRead(parsed); }
    var i := FoundAt(inner.entries, "enabled");
    var e := inner.entries[i];
    ScanObjectRange(s, parsed.kinds, inner, i);
    ScanObjectRange(s, parsed.kinds, scan, j);
    var k2, colon := FalseReplaced(s, parsed.kinds, inner, i, s2);
    SwitchedText(s, parsed.kinds, colon, e.valueStart, e.valueEnd, s2, k2);
    var d := e.valueStart + 4 - e.valueEnd;
    var in2 := InnerSwitched(s, parsed.kinds, inner, i, colon, s2, k2, d);
    RootSwitched(s, parsed, key, j, colon, e.valueStart, e.valueEnd, s2, k2, d);
    InnerIsOn(scan, j, inner, d, Parse(s2).value, in2, key);
    ObjectIsNotFalse(parsed, service);
  }

  // ---------------------------------------------------------------------------
  // One step
  // ---------------------------------------------------------------------------

  /** Where the line that declares the service goes, unless a block comment covers the place. */
  ghost predicate PlaceInCode(s: string, service: Service) {
    Parse(s).Success? ==>
      var parsed := Parse(s).value;
      WellRead(parsed) && (FindEntry(parsed.root.entries, ServiceKey(service)).None? ==>
        GoesInCode(parsed, parsed.root, EntryAfter(parsed.root.entries, ServiceKey(service))))
  }

  /** A step that changed the file has declared the service, and kept everything else. */
  lemma {:induction false} StepDeclares(s: string, service: Service)
    requires BuildStep(s, ServiceEdit(service)).Success? && PlaceInCode(s, service)
    ensures Parse(s).Success?
    ensures var step := BuildStep(s, ServiceEdit(service)).value;
            if step.change.None? then step.source == s && ServiceOn(Parse(s).value, service)
            else Declared(Parse(s).value, service, step.source)
  {
    hide Lex, ScanObject, FindConfigObject, FindEntry, OthersKept, Plain, ServiceKey, Parse, InsertEntry, GoesInCode, ObjectOf,
      NotUnderPreview, Declared;
    var parsed := ParsedIs(s);
    var key := ServiceKey(service);
    var step := BuildStep(s, ServiceEdit(service)).value;
    var found := FindEntry(parsed.root.entries, key);
    if found.None? {
      AddedIsDeclared(s, service, step.source);
    } else {
      EntryRange(parsed, found.value);
      if step.change.Some? {
        if ValueText(s, found.value) == "false" && found.value.keyed {
          SwitchedDirectly(s, service, step.source);
        } else {
          SwitchedInside(s, service, ObjectOf(parsed, found.value).value.value, step.source);
        }
      }
    }
  }

  /** The step repeated on its own result changes nothing. */
  lemma {:induction false} StepIsStable(s: string, service: Service)
    requires BuildStep(s, ServiceEdit(service)).Success? && PlaceInCode(s, service)
    ensures var s2 := BuildStep(s, ServiceEdit(service)).value.source;
            BuildStep(s2, ServiceEdit(service)) == Success(EditStep(s2, None))
  {
    hide Lex, ScanObject, FindConfigObject, FindEntry, OthersKept, Plain, ServiceKey, Parse, InsertEntry, GoesInCode, ObjectOf,
      ReadToggle, NotUnderPreview;
    StepDeclares(s, service);
    KeysAreIdentifiers(service);
    var step := BuildStep(s, ServiceEdit(service)).value;
    if step.change.Some? && service == AiGateway {
      PreviewKept(Parse(s).value, Parse(step.source).value, ServiceKey(service));
    }
  }
}

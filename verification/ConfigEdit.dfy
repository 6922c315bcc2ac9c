/**
 * packages/cli/src/config_edit.ts, with `findConfigObject` and the line helpers of
 * packages/cli/src/config_source.ts: edits of a `neon.ts` file as text splices.
 */
module ConfigEdit {
  import opened Wrappers
  import opened Text
  import opened SourceLexer
  import opened ObjectScan

  datatype Reason =
    | HoldsOnlyComments | NotOnePropertyPerLine | SharesItsLine | CommaOnItsOwnLine
    | PreviewMayDeclare | DeclaredUnderPreview | NotAnObjectLiteral | SetToAnExpression

  datatype EditError = Unscannable | NotPlain | Unsupported(reason: Reason) | NotDeclared

  datatype Service = Auth | DataApi | AiGateway

  datatype Access = Private | PublicRead

  datatype ConfigEdit =
    | ServiceEdit(service: Service)
    | RealtimeEdit(enabled: bool, allowedOrigins: Option<seq<string>>)
    | FunctionEdit(slug: string, name: string, source: string, env: seq<string>, typescript: bool)
    | BucketEdit(bucket: string, access: Access)

  datatype Parsed = Parsed(source: string, kinds: seq<Kind>, root: ObjectScan, eol: string, unit: string)

  datatype Change = Added(path: string) | SetTo(path: string, value: string)

  datatype EditStep = EditStep(source: string, change: Option<Change>)

  datatype EditResult = EditResult(source: string, changes: seq<Change>)

  // ---------------------------------------------------------------------------
  // Lines
  // ---------------------------------------------------------------------------

  /** One past the last newline before `i`, or 0. */
  function LastLine(s: string, i: nat): (p: nat)
    requires i <= |s|
    ensures p <= i
    ensures p > 0 ==> s[p - 1] == '\n'
    ensures forall k :: p <= k < i ==> s[k] != '\n'
  {
    if i == 0 || s[i - 1] == '\n' then i else LastLine(s, i - 1)
  }

  /** Start of the line containing `i`; offset 0 looks at itself, as `lastIndexOf` clamps. */
  function LineStart(s: string, i: nat): (p: nat)
    requires i <= |s|
    ensures p <= |s|
    ensures i > 0 ==> p == LastLine(s, i)
  {
    if i == 0 && At(s, 0, '\n') then 1 else LastLine(s, i)
  }

  function IndentEnd(s: string, i: nat): (e: nat)
    requires i <= |s|
    ensures i <= e <= |s|
    ensures forall k :: i <= k < e ==> s[k] == ' ' || s[k] == '\t'
    decreases |s| - i
  {
    if i < |s| && (s[i] == ' ' || s[i] == '\t') then IndentEnd(s, i + 1) else i
  }

  /** The whitespace that indents the line containing `i`. */
  function LineIndent(s: string, i: nat): (r: string)
    requires i <= |s|
    ensures forall k :: 0 <= k < |r| ==> r[k] == ' ' || r[k] == '\t'
  {
    var start := LineStart(s, i);
    s[start..IndentEnd(s, start)]
  }

  predicate AllSpace(s: string, lo: nat, hi: nat)
    requires hi <= |s|
  {
    forall k {:trigger s[k]} :: lo <= k < hi ==> IsSpace(s[k])
  }

  predicate StartsLine(s: string, i: nat)
    requires i <= |s|
  {
    AllSpace(s, LineStart(s, i), i)
  }

  function SkipSpaces(s: string, i: nat, till: nat): (e: nat)
    requires i <= till <= |s|
    ensures i <= e <= till && AllSpace(s, i, e)
    ensures e < till ==> !IsSpace(s[e])
    decreases |s| - i
  {
    if i < till && IsSpace(s[i]) then SkipSpaces(s, i + 1, till) else i
  }

  predicate HasPrefixAt(s: string, i: nat, word: string) {
    i + |word| <= |s| && s[i..i + |word|] == word
  }

  /** `slice`, which is empty when its ends cross. */
  function Slice(s: string, from: nat, till: nat): string
    requires till <= |s|
  {
    if from <= till then s[from..till] else ""
  }

  /** `includes("\r\n")`. */
  predicate HasCrLf(s: string) {
    exists i :: 0 <= i < |s| && HasPrefixAt(s, i, "\r\n")
  }

  // ---------------------------------------------------------------------------
  // Finding the config object
  // ---------------------------------------------------------------------------

  predicate WordStartsAt(s: string, i: nat, word: string) {
    HasPrefixAt(s, i, word) && (i == 0 || !IsWord(s[i - 1]))
  }

  /** A match of `\bdefineConfig\s*\(` at `i`: one past its parenthesis. */
  function MatchDefine(s: string, i: nat): (r: Option<nat>)
    ensures r.Some? ==> i < r.value <= |s|
  {
    if !WordStartsAt(s, i, "defineConfig") then None
    else
      var p := SkipSpaces(s, i + 12, |s|);
      if At(s, p, '(') then Some(p + 1) else None
  }

  /** A match of `\bexport\s+default\s+(?=\{)` at `i`: the offset of the brace. */
  function MatchExport(s: string, i: nat): (r: Option<nat>)
    ensures r.Some? ==> i < r.value < |s|
  {
    if !WordStartsAt(s, i, "export") then None
    else
      var p := SkipSpaces(s, i + 6, |s|);
      if p == i + 6 || !HasPrefixAt(s, p, "default") then None
      else
        var q := SkipSpaces(s, p + 7, |s|);
        if q > p + 7 && At(s, q, '{') then Some(q) else None
  }

  /** The arguments of the `defineConfig(` calls from `i` on; each has to be an object literal. */
  function DefineArgs(s: string, kinds: seq<Kind>, i: nat): (r: Result<seq<nat>, EditError>)
    requires i <= |s| == |kinds|
    ensures r.Success? ==> forall arg :: arg in r.value ==> arg < |s|
    decreases |s| - i
  {
    if i == |s| then Success([])
    else if kinds[i] == Code && MatchDefine(s, i).Some? then
      var arg := SkipTrivia(s, kinds, MatchDefine(s, i).value, |s|);
      if !At(s, arg, '{') then Failure(Unscannable)
      else
        var rest :- DefineArgs(s, kinds, i + 1);
        Success([arg] + rest)
    else DefineArgs(s, kinds, i + 1)
  }

  function ExportObjects(s: string, kinds: seq<Kind>, i: nat): (r: seq<nat>)
    requires i <= |s| == |kinds|
    ensures forall arg :: arg in r ==> arg < |s|
    decreases |s| - i
  {
    if i == |s| then []
    else (if kinds[i] == Code && MatchExport(s, i).Some? then [MatchExport(s, i).value] else [])
         + ExportObjects(s, kinds, i + 1)
  }

  function FindConfigObject(s: string, kinds: seq<Kind>): (r: Result<nat, EditError>)
    requires |s| == |kinds|
    ensures r.Success? ==> r.value < |s|
  {
    var calls :- DefineArgs(s, kinds, 0);
    var candidates := calls + ExportObjects(s, kinds, 0);
    if |candidates| == 1 then
      assert candidates[0] in candidates;
      Success(candidates[0])
    else Failure(Unscannable)
  }

  // ---------------------------------------------------------------------------
  // Reading a file
  // ---------------------------------------------------------------------------

  /** Every entry is named, and no name repeats. */
  predicate Plain(entries: seq<ObjectEntry>) {
    && (forall i :: 0 <= i < |entries| ==> entries[i].key.Some?)
    && (forall i, j :: 0 <= i < j < |entries| ==> entries[i].key != entries[j].key)
  }

  function ScanRoot(source: string, kinds: seq<Kind>): (r: Result<ObjectScan, EditError>)
    requires |source| == |kinds|
    ensures r.Success? ==> r.value.open < r.value.close < |source| && Plain(r.value.entries)
    ensures r.Success? ==> EntriesWithin(r.value.entries, r.value.open + 1, r.value.close)
  {
    var open :- FindConfigObject(source, kinds);
    match ScanObject(source, kinds, open)
    case Failure(_) => Failure(Unscannable)
    case Success(scan) =>
      ScanObjectWithin(source, kinds, open);
      if Plain(scan.entries) then Success(scan) else Failure(NotPlain)
  }

  function Parse(source: string): (r: Result<Parsed, EditError>)
    ensures r.Success? ==> r.value.source == source && Lex(source) == Success(r.value.kinds)
    ensures r.Success? ==> ScanRoot(source, r.value.kinds) == Success(r.value.root)
    ensures r.Success? ==> r.value.eol == (if HasCrLf(source) then "\r\n" else "\n")
    ensures r.Success? ==> WellRead(r.value)
  {
    match Lex(source)
    case Failure(_) => Failure(Unscannable)
    case Success(kinds) =>
      var root :- ScanRoot(source, kinds);
      var base := LineIndent(source, root.open);
      var firstIndent :=
        if root.entries != [] then LineIndent(source, root.entries[0].start) else base;
      var unit := if base < firstIndent then firstIndent[|base|..] else "  ";
      Success(Parsed(source, kinds, root, if HasCrLf(source) then "\r\n" else "\n", unit))
  }

  /** The object literal `entry` holds, or none when its value is anything else. */
  function ObjectOf(parsed: Parsed, entry: ObjectEntry): (r: Result<Option<ObjectScan>, EditError>)
    requires |parsed.kinds| == |parsed.source| && 0 <= entry.valueStart
    ensures r.Success? && r.value.Some? ==>
              var scan := r.value.value;
              && entry.keyed && scan.open == entry.valueStart && scan.close + 1 == entry.valueEnd
              && ScanObject(parsed.source, parsed.kinds, entry.valueStart) == Success(scan)
              && Plain(scan.entries) && EntriesWithin(scan.entries, scan.open + 1, scan.close)
  {
    match EntryObject(parsed.source, parsed.kinds, entry)
    case Failure(_) => Failure(Unscannable)
    case Success(None) => Success(None)
    case Success(Some(scan)) =>
      ScanObjectWithin(parsed.source, parsed.kinds, entry.valueStart);
      if Plain(scan.entries) then Success(Some(scan)) else Failure(NotPlain)
  }

  // ---------------------------------------------------------------------------
  // Inserting an entry
  // ---------------------------------------------------------------------------

  /** Whether `[from, till)` reads as a `//` line whose slashes are a comment's. */
  predicate CommentLine(s: string, kinds: seq<Kind>, from: nat, till: nat)
    requires till <= |s| == |kinds|
  {
    from <= till &&
    var marker := SkipSpaces(s, from, till);
    marker + 2 <= till && s[marker] == '/' && s[marker + 1] == '/' && kinds[marker] == Comment
  }

  /** The line start `at`, moved above the comment lines that describe what follows. */
  function AboveComments(s: string, kinds: seq<Kind>, open: nat, at: nat): (r: nat)
    requires at <= |s| == |kinds|
    ensures r <= at
  {
    if at == 0 then at
    else
      var previous := LineStart(s, at - 1);
      if previous <= open || !CommentLine(s, kinds, previous, at) then at
      else AboveComments(s, kinds, open, previous)
  }

  /** Each line indented and ended by `eol`. */
  function Lines(lines: seq<string>, indent: string, eol: string): (r: string) {
    if lines == [] then "" else indent + lines[0] + eol + Lines(lines[1..], indent, eol)
  }

  /** Each line indented, with `eol` between them. */
  function JoinedLines(lines: seq<string>, indent: string, eol: string): string {
    if lines == [] then ""
    else if |lines| == 1 then indent + lines[0]
    else indent + lines[0] + eol + JoinedLines(lines[1..], indent, eol)
  }

  /** Whether a separator follows in `[i, till)`; none when one stands at `lineEnd` or later. */
  function SeparatorIn(s: string, kinds: seq<Kind>, i: nat, till: nat, lineEnd: nat): (r: Option<bool>)
    requires i <= till <= |s| == |kinds|
    ensures r.None? <==> exists k :: i <= k < till && lineEnd <= k && IsCodeComma(s, kinds, k)
    ensures r.Some? ==> (r.value <==> exists k :: i <= k < till && IsCodeComma(s, kinds, k))
    decreases |s| - i
  {
    if i == till then Some(false)
    else if !IsCodeComma(s, kinds, i) then SeparatorIn(s, kinds, i + 1, till, lineEnd)
    else if i >= lineEnd then None
    else if SeparatorIn(s, kinds, i + 1, till, lineEnd).None? then None
    else Some(true)
  }

  /** Where the line containing `i` ends, before its line break. */
  function LineBreak(s: string, i: nat): (e: nat)
    requires 0 < i <= |s|
    ensures e <= LineEnd(s, i)
  {
    var newline := LineEnd(s, i);
    if s[newline - 1] == '\r' then newline - 1 else newline
  }

  function InsertFirst(parsed: Parsed, scan: ObjectScan, lines: seq<string>): (r: Result<string, EditError>)
    requires scan.open < scan.close < |parsed.source|
  {
    var s := parsed.source;
    if !AllSpace(s, scan.open + 1, scan.close) then Failure(Unsupported(HoldsOnlyComments))
    else
      var base := LineIndent(s, scan.open);
      Success(s[..scan.open + 1] + parsed.eol + JoinedLines(lines, base + parsed.unit, parsed.eol) + parsed.eol
              + base + s[scan.close..])
  }

  function InsertBefore(parsed: Parsed, scan: ObjectScan, lines: seq<string>, indent: string, before: ObjectEntry):
    (r: Result<string, EditError>)
    requires |parsed.kinds| == |parsed.source| && 0 <= before.start <= |parsed.source|
  {
    var s := parsed.source;
    if !StartsLine(s, before.start) then Failure(Unsupported(SharesItsLine))
    else
      var at := AboveComments(s, parsed.kinds, scan.open, LineStart(s, before.start));
      Success(s[..at] + Lines(lines, indent, parsed.eol) + s[at..])
  }

  function InsertLast(parsed: Parsed, scan: ObjectScan, lines: seq<string>, indent: string, last: ObjectEntry):
    (r: Result<string, EditError>)
    requires |parsed.kinds| == |parsed.source| && 0 < last.end <= scan.close < |parsed.source|
  {
    var s := parsed.source;
    var lineEnd := LineBreak(s, last.end);
    match SeparatorIn(s, parsed.kinds, last.end, scan.close, lineEnd)
    case None => Failure(Unsupported(CommaOnItsOwnLine))
    case Some(hasComma) =>
      Success(s[..last.end] + (if hasComma then "" else ",") + Slice(s, last.end, lineEnd)
              + parsed.eol + JoinedLines(lines, indent, parsed.eol) + s[lineEnd..])
  }

  /** A new entry, above `before` and the comments that describe it, or at the end. */
  function InsertEntry(parsed: Parsed, scan: ObjectScan, lines: seq<string>, before: Option<ObjectEntry>):
    (r: Result<string, EditError>)
    requires |parsed.kinds| == |parsed.source| && scan.open < scan.close < |parsed.source|
    requires EntriesWithin(scan.entries, scan.open + 1, scan.close)
    requires before.Some? ==> before.value in scan.entries
  {
    var s := parsed.source;
    if scan.entries == [] then InsertFirst(parsed, scan, lines)
    else
      var first, last := scan.entries[0], scan.entries[|scan.entries| - 1];
      if !StartsLine(s, first.start) || LineEnd(s, last.end) >= scan.close then
        Failure(Unsupported(NotOnePropertyPerLine))
      else
        match before
        case Some(entry) => InsertBefore(parsed, scan, lines, LineIndent(s, first.start), entry)
        case None => InsertLast(parsed, scan, lines, LineIndent(s, first.start), last)
  }

  // ---------------------------------------------------------------------------
  // The edits
  // ---------------------------------------------------------------------------

  const KeyOrder: seq<string> :=
    ["auth", "dataApi", "aiGateway", "functions", "buckets", "triggers", "preview", "branch", "experimental"]

  function IndexIn(keys: seq<string>, key: string, i: nat): (r: int)
    requires i <= |keys|
    ensures r == -1 || (i <= r < |keys| && keys[r] == key)
    decreases |keys| - i
  {
    if i == |keys| then -1 else if keys[i] == key then i else IndexIn(keys, key, i + 1)
  }

  function KeyRank(key: Option<string>): int {
    match key case None => -1 case Some(name) => IndexIn(KeyOrder, name, 0)
  }

  /** The root entry a new `key` goes above: the first one of a higher rank. */
  function EntryAfter(entries: seq<ObjectEntry>, key: string): (r: Option<ObjectEntry>)
    ensures r.Some? ==> r.value in entries
  {
    if entries == [] then None
    else if KeyRank(entries[0].key) > KeyRank(Some(key)) then Some(entries[0])
    else EntryAfter(entries[1..], key)
  }

  ghost predicate WellRead(parsed: Parsed) {
    && |parsed.kinds| == |parsed.source|
    && parsed.root.open < parsed.root.close < |parsed.source|
    && EntriesWithin(parsed.root.entries, parsed.root.open + 1, parsed.root.close)
  }

  /** `key` must not be declared in, or hidden by, a `preview` block. */
  function NotUnderPreview(parsed: Parsed, key: string): Result<bool, EditError>
    requires WellRead(parsed)
  {
    match FindEntry(parsed.root.entries, "preview")
    case None => Success(true)
    case Some(preview) =>
      var literal :- ObjectOf(parsed, preview);
      match literal
      case None => Failure(Unsupported(PreviewMayDeclare))
      case Some(scan) =>
        if FindEntry(scan.entries, key).Some? then Failure(Unsupported(DeclaredUnderPreview)) else Success(true)
  }

  datatype Toggle = On | Off(from: nat, till: nat, path: string)

  function ValueText(source: string, e: ObjectEntry): string
    requires 0 <= e.valueStart <= e.valueEnd <= |source|
  {
    source[e.valueStart..e.valueEnd]
  }

  function ReadToggle(parsed: Parsed, entry: ObjectEntry, key: string): (r: Result<Toggle, EditError>)
    requires WellRead(parsed) && 0 <= entry.valueStart <= entry.valueEnd <= |parsed.source|
    ensures r.Success? && r.value.Off? ==> r.value.from <= r.value.till <= |parsed.source|
  {
    var value := ValueText(parsed.source, entry);
    if entry.keyed && value == "true" then Success(On)
    else if entry.keyed && value == "false" then Success(Off(entry.valueStart, entry.valueEnd, key))
    else
      var literal :- ObjectOf(parsed, entry);
      match literal
      case None => Failure(Unsupported(SetToAnExpression))
      case Some(scan) =>
        match FindEntry(scan.entries, "enabled")
        case None => Success(On)
        case Some(enabled) =>
          var flag := ValueText(parsed.source, enabled);
          if enabled.keyed && flag == "true" then Success(On)
          else if enabled.keyed && flag == "false" then
            Success(Off(enabled.valueStart, enabled.valueEnd, key + ".enabled"))
          else Failure(Unsupported(SetToAnExpression))
  }

  function ServiceKey(service: Service): string {
    match service case Auth => "auth" case DataApi => "dataApi" case AiGateway => "aiGateway"
  }

  function SetToggle(parsed: Parsed, service: Service): Result<EditStep, EditError>
    requires WellRead(parsed)
  {
    var key := ServiceKey(service);
    var _ :- if service == AiGateway then NotUnderPreview(parsed, key) else Success(true);
    match FindEntry(parsed.root.entries, key)
    case None =>
      var source :- InsertEntry(parsed, parsed.root, [key + ": true,"], EntryAfter(parsed.root.entries, key));
      Success(EditStep(source, Some(Added(key))))
    case Some(entry) =>
      var toggle :- ReadToggle(parsed, entry, key);
      match toggle
      case On => Success(EditStep(parsed.source, None))
      case Off(from, till, path) =>
        Success(EditStep(parsed.source[..from] + "true" + parsed.source[till..], Some(SetTo(path, "true"))))
  }

  function HexDigit(n: nat): char
    requires n < 16
  {
    "0123456789abcdef"[n]
  }

  function JsonChar(c: char): string {
    if c == '"' then "\\\"" else if c == '\\' then "\\\\"
    else if c == '\U{8}' then "\\b" else if c == '\U{c}' then "\\f"
    else if c == '\n' then "\\n" else if c == '\r' then "\\r" else if c == '\t' then "\\t"
    else if c < ' ' then "\\u00" + [HexDigit(c as int / 16), HexDigit(c as int % 16)]
    else [c]
  }

  function JsonBody(s: string): string {
    if s == [] then "" else JsonChar(s[0]) + JsonBody(s[1..])
  }

  /** `JSON.stringify` of a string. */
  function JsonString(s: string): string { "\"" + JsonBody(s) + "\"" }

  function Joined(items: seq<string>, separator: string): string {
    if items == [] then "" else if |items| == 1 then items[0] else items[0] + separator + Joined(items[1..], separator)
  }

  function JsonStrings(items: seq<string>): seq<string> {
    if items == [] then [] else [JsonString(items[0])] + JsonStrings(items[1..])
  }

  /** `JSON.stringify` of a list of strings. */
  function JsonList(items: seq<string>): string { "[" + Joined(JsonStrings(items), ",") + "]" }

  predicate IsIdentifier(name: string) {
    name != "" && !IsDigit(name[0]) && forall i :: 0 <= i < |name| ==> IsIdent(name[i])
  }

  /** `renderKey` of packages/cli/src/config_template.ts. */
  function RenderKey(name: string): string {
    if IsIdentifier(name) then name else JsonString(name)
  }

  function RealtimeValue(enabled: bool, allowedOrigins: Option<seq<string>>): string {
    if enabled && allowedOrigins.Some? then "{ allowedOrigins: " + JsonList(allowedOrigins.value) + " }"
    else if enabled then "true" else "false"
  }

  function SetRealtime(parsed: Parsed, enabled: bool, allowedOrigins: Option<seq<string>>): Result<EditStep, EditError>
    requires WellRead(parsed)
  {
    var s := parsed.source;
    var desired := RealtimeValue(enabled, allowedOrigins);
    var declaration := "realtime: " + desired + ",";
    match FindEntry(parsed.root.entries, "preview")
    case None =>
      var source :- InsertEntry(parsed, parsed.root, ["preview: {", parsed.unit + declaration, "},"],
                                EntryAfter(parsed.root.entries, "preview"));
      Success(EditStep(source, Some(Added("preview.realtime"))))
    case Some(previewEntry) =>
      var literal :- ObjectOf(parsed, previewEntry);
      match literal
      case None => Failure(Unsupported(NotAnObjectLiteral))
      case Some(preview) =>
        match FindEntry(preview.entries, "realtime")
        case None =>
          var source :- InsertEntry(parsed, preview, [declaration], None);
          Success(EditStep(source, Some(Added("preview.realtime"))))
        case Some(entry) =>
          if entry.keyed && ValueText(s, entry) == desired then Success(EditStep(s, None))
          else
            var settings :- ObjectOf(parsed, entry);
            if enabled && allowedOrigins.None? && settings.Some? then Success(EditStep(s, None))
            else if enabled && allowedOrigins.Some? && settings.Some? then
              SetOrigins(parsed, settings.value, JsonList(allowedOrigins.value))
            else if !entry.keyed || (ValueText(s, entry) != "true" && ValueText(s, entry) != "false" && settings.None?) then
              Failure(Unsupported(SetToAnExpression))
            else
              Success(EditStep(s[..entry.valueStart] + desired + s[entry.valueEnd..], Some(SetTo("preview.realtime", desired))))
  }

  function SetOrigins(parsed: Parsed, settings: ObjectScan, origins: string): Result<EditStep, EditError>
    requires WellRead(parsed) && settings.open < settings.close < |parsed.source|
    requires EntriesWithin(settings.entries, settings.open + 1, settings.close)
  {
    var s := parsed.source;
    match FindEntry(settings.entries, "allowedOrigins")
    case None =>
      var source :- InsertEntry(parsed, settings, ["allowedOrigins: " + origins + ","], None);
      Success(EditStep(source, Some(Added("preview.realtime.allowedOrigins"))))
    case Some(entry) =>
      if !entry.keyed then Failure(Unsupported(SetToAnExpression))
      else if ValueText(s, entry) == origins then Success(EditStep(s, None))
      else
        Success(EditStep(s[..entry.valueStart] + origins + s[entry.valueEnd..],
                     Some(SetTo("preview.realtime.allowedOrigins", origins))))
  }

  function SpacesBefore(s: string, i: nat): (p: nat)
    requires i <= |s|
    ensures p <= i
  {
    if i > 0 && IsSpace(s[i - 1]) then SpacesBefore(s, i - 1) else i
  }

  /** `replace(/\s+as\s+const$/, "")`. */
  function WithoutAsConst(value: string): string {
    if |value| < 5 || value[|value| - 5..] != "const" then value
    else
      var p := SpacesBefore(value, |value| - 5);
      if p == |value| - 5 || p < 2 || value[p - 2..p] != "as" then value
      else
        var q := SpacesBefore(value, p - 2);
        if q == p - 2 then value else value[..q]
  }

  predicate IsQuoted(value: string, word: string) {
    && |value| == |word| + 2 && value[1..|value| - 1] == word
    && (value[0] == '"' || value[0] == '\'') && (value[|value| - 1] == '"' || value[|value| - 1] == '\'')
  }

  /** Whether `dataApi` verifies a third-party provider, in which case it needs no Neon Auth. */
  function DataApiIsExternal(parsed: Parsed): Result<bool, EditError>
    requires WellRead(parsed)
  {
    match FindEntry(parsed.root.entries, "dataApi")
    case None => Success(false)
    case Some(entry) =>
      var literal :- ObjectOf(parsed, entry);
      if literal.None? then Success(false)
      else
        match FindEntry(literal.value.entries, "authProvider")
        case None => Success(false)
        case Some(provider) =>
          var value := WithoutAsConst(ValueText(parsed.source, provider));
          if provider.keyed && IsQuoted(value, "external") then Success(true)
          else if provider.keyed && IsQuoted(value, "neon") then Success(false)
          else Failure(Unsupported(SetToAnExpression))
  }

  function Prefixed(lines: seq<string>, unit: string): seq<string> {
    if lines == [] then [] else [unit + lines[0]] + Prefixed(lines[1..], unit)
  }

  /** Declares `name`, a function or a bucket, in its container, which is added when missing. */
  function AddNamed(parsed: Parsed, container: string, name: string, entryLines: seq<string>): Result<EditStep, EditError>
    requires WellRead(parsed)
  {
    var block := [container + ": {"] + Prefixed(entryLines, parsed.unit) + ["},"];
    var _ :- NotUnderPreview(parsed, container);
    match FindEntry(parsed.root.entries, container)
    case None =>
      var source :- InsertEntry(parsed, parsed.root, block, EntryAfter(parsed.root.entries, container));
      Success(EditStep(source, Some(Added(container + "." + name))))
    case Some(entry) =>
      var literal :- ObjectOf(parsed, entry);
      match literal
      case None => Failure(Unsupported(NotAnObjectLiteral))
      case Some(scan) =>
        if FindEntry(scan.entries, name).Some? then Success(EditStep(parsed.source, None))
        else
          var source :- InsertEntry(parsed, scan, entryLines, None);
          Success(EditStep(source, Some(Added(container + "." + name))))
  }

  function EnvItems(env: seq<string>, assertion: string): seq<string> {
    if env == [] then []
    else [RenderKey(env[0]) + ": process.env." + env[0] + assertion] + EnvItems(env[1..], assertion)
  }

  function FunctionLine(slug: string, name: string, source: string, env: seq<string>, typescript: bool): string {
    RenderKey(slug) + ": { name: " + JsonString(name) + ", source: " + JsonString(source)
    + (if env == [] then "" else ", env: { " + Joined(EnvItems(env, if typescript then "!" else ""), ", ") + " }")
    + " },"
  }

  function BucketLine(bucket: string, access: Access): string {
    RenderKey(bucket) + ": { access: " + JsonString(if access == Private then "private" else "public_read") + " },"
  }

  /** One step: the file is read afresh and edited. */
  function BuildStep(source: string, edit: ConfigEdit): Result<EditStep, EditError>
  {
    hide Parse, WellRead, SetToggle, SetRealtime, AddNamed;
    var parsed :- Parse(source);
    match edit
    case ServiceEdit(service) => SetToggle(parsed, service)
    case RealtimeEdit(enabled, origins) => SetRealtime(parsed, enabled, origins)
    case FunctionEdit(slug, name, path, env, typescript) =>
      AddNamed(parsed, "functions", slug, [FunctionLine(slug, name, path, env, typescript)])
    case BucketEdit(bucket, access) => AddNamed(parsed, "buckets", bucket, [BucketLine(bucket, access)])
  }

  /** The steps of an edit: enabling the Data API enables Neon Auth first, unless a third party verifies. */
  function StepsOf(source: string, edit: ConfigEdit): Result<seq<ConfigEdit>, EditError> {
    hide Parse, DataApiIsExternal, WellRead;
    if edit == ServiceEdit(DataApi) then
      var parsed :- Parse(source);
      var external :- DataApiIsExternal(parsed);
      Success(if external then [edit] else [ServiceEdit(Auth), edit])
    else Success([edit])
  }

  function RunSteps(source: string, steps: seq<ConfigEdit>): Result<EditResult, EditError>
    decreases |steps|
  {
    if steps == [] then Success(EditResult(source, []))
    else
      var step :- BuildStep(source, steps[0]);
      var rest :- RunSteps(step.source, steps[1..]);
      Success(EditResult(rest.source, OptionSeq(step.change) + rest.changes))
  }

  function Apply(source: string, edit: ConfigEdit): Result<EditResult, EditError> {
    var steps :- StepsOf(source, edit);
    RunSteps(source, steps)
  }

  /** An edit that changed something is read back: applying it again must change nothing. */
  function EditNeonConfig(source: string, edit: ConfigEdit): Result<EditResult, EditError> {
    var result :- Apply(source, edit);
    if result.changes == [] then Success(result)
    else
      var again :- Apply(result.source, edit);
      if again.changes != [] then Failure(NotDeclared) else Success(result)
  }
}

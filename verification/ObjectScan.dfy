/**
 * `scanObject` of packages/cli/src/config_source.ts: an object literal is split into entries on
 * its top-level commas, over the characters labelled code.
 */
module ObjectScan {
  import opened Wrappers
  import opened Text
  import opened SourceLexer

  datatype ObjectEntry = ObjectEntry(
    key: Option<string>,
    keyed: bool,
    start: int,
    end: int,
    valueStart: int,
    valueEnd: int)

  datatype ObjectScan = ObjectScan(open: nat, close: nat, entries: seq<ObjectEntry>)

  datatype ScanObjectError = NotAnObject(open: nat) | Unbalanced(at: nat) | NeverClosed(open: nat)

  ghost predicate AllTrivia(s: string, kinds: seq<Kind>, lo: nat, hi: nat) {
    && hi <= |s| && hi <= |kinds|
    && forall k {:trigger IsTrivia(s, kinds, k)} {:trigger kinds[k]} {:trigger s[k]} :: lo <= k < hi ==> IsTrivia(s, kinds, k)
  }

  function SkipTrivia(s: string, kinds: seq<Kind>, from: nat, till: nat): (i: nat)
    requires from <= till <= |s| && till <= |kinds|
    ensures from <= i <= till
    ensures AllTrivia(s, kinds, from, i)
    ensures i < till ==> !IsTrivia(s, kinds, i)
    decreases |s| - from
  {
    if from < till && IsTrivia(s, kinds, from) then SkipTrivia(s, kinds, from + 1, till) else from
  }

  function TrimTriviaEnd(s: string, kinds: seq<Kind>, from: nat, till: nat): (i: nat)
    requires from <= till <= |s| && till <= |kinds|
    ensures from <= i <= till
    ensures AllTrivia(s, kinds, i, till)
    ensures i > from ==> !IsTrivia(s, kinds, i - 1)
    decreases till
  {
    if from < till && IsTrivia(s, kinds, till - 1) then TrimTriviaEnd(s, kinds, from, till - 1) else till
  }

  /** One past the literal characters from `i` on. */
  function LiteralEnd(kinds: seq<Kind>, i: nat, till: nat): (e: nat)
    requires i <= till <= |kinds|
    ensures i <= e <= till
    ensures forall k :: i <= k < e ==> kinds[k] == Literal
    ensures e < till ==> kinds[e] != Literal
    decreases |kinds| - i
  {
    if i < till && kinds[i] == Literal then LiteralEnd(kinds, i + 1, till) else i
  }

  /** One past the identifier characters from `i` on. */
  function IdentEnd(s: string, i: nat, till: nat): (e: nat)
    requires i <= till <= |s|
    ensures i <= e <= till
    ensures forall k :: i <= k < e ==> IsIdent(s[k])
    ensures e < till ==> !IsIdent(s[e])
    decreases |s| - i
  {
    if i < till && IsIdent(s[i]) then IdentEnd(s, i + 1, till) else i
  }

  /** `slice(start + 1, close - 1)`, which is empty for a lone quote. */
  function QuotedText(s: string, start: nat, close: nat): string
    requires close <= |s|
  {
    if close < start + 2 then "" else s[start + 1..close - 1]
  }

  /** Where the property name at `start` ends, and the name; none for a computed or escaped one. */
  function ReadKey(s: string, kinds: seq<Kind>, start: nat, end: nat): (r: Option<(string, nat)>)
    requires start < end <= |s| && end <= |kinds|
    ensures r.Some? ==> start < r.value.1 <= end
  {
    if kinds[start] == Literal && (s[start] == '"' || s[start] == '\'') then
      var close := LiteralEnd(kinds, start, end);
      var inner := QuotedText(s, start, close);
      if '\\' in inner then None else Some((inner, close))
    else if kinds[start] == Code && IsIdent(s[start]) && !IsDigit(s[start]) then
      var close := IdentEnd(s, start, end);
      Some((s[start..close], close))
    else None
  }

  function Unkeyed(key: Option<string>, start: int, end: int): ObjectEntry {
    ObjectEntry(key, false, start, end, end, end)
  }

  /** The entry whose first and last characters are at `start` and `end - 1`. */
  function EntryAt(s: string, kinds: seq<Kind>, start: nat, end: nat): (r: ObjectEntry)
    requires start < end <= |s| && end <= |kinds|
    ensures r.start == start < r.valueStart <= r.valueEnd == r.end == end
  {
    match ReadKey(s, kinds, start, end)
    case None => Unkeyed(None, start, end)
    case Some((key, afterKey)) =>
      var colon := SkipTrivia(s, kinds, afterKey, end);
      if colon >= end || s[colon] != ':' || kinds[colon] != Code then Unkeyed(Some(key), start, end)
      else ObjectEntry(Some(key), true, start, end, SkipTrivia(s, kinds, colon + 1, end), end)
  }

  /** The entry in `[from, till)`, or none when that holds only spaces and comments. */
  function ReadEntry(s: string, kinds: seq<Kind>, from: nat, till: nat): (r: Option<ObjectEntry>)
    requires from <= till <= |s| && till <= |kinds|
    ensures r.None? <==> AllTrivia(s, kinds, from, till)
    ensures r.Some? ==> from <= r.value.start < r.value.end <= till
    ensures r.Some? ==> AllTrivia(s, kinds, from, r.value.start) && AllTrivia(s, kinds, r.value.end, till)
    ensures r.Some? ==> !IsTrivia(s, kinds, r.value.start) && !IsTrivia(s, kinds, r.value.end - 1)
    ensures r.Some? ==> r.value == EntryAt(s, kinds, r.value.start, r.value.end)
  {
    var start := SkipTrivia(s, kinds, from, till);
    if start >= till then None else Some(EntryAt(s, kinds, start, TrimTriviaEnd(s, kinds, start, till)))
  }

  predicate IsCodeComma(s: string, kinds: seq<Kind>, i: nat)
    requires i < |s| == |kinds|
  {
    kinds[i] == Code && s[i] == ','
  }

  datatype ScanState = ScanState(depth: nat, entryStart: nat, entries: seq<ObjectEntry>)

  datatype ScanOutcome = Running(state: ScanState) | Complete(close: nat, entries: seq<ObjectEntry>) | Stray(at: nat)

  function OptionSeq<T>(o: Option<T>): seq<T> {
    match o case None => [] case Some(v) => [v]
  }

  predicate OpensBracket(c: char) { c == '{' || c == '[' || c == '(' }

  predicate ClosesBracket(c: char) { c == '}' || c == ']' || c == ')' }

  /** One turn of the loop over the characters after the opening brace. */
  function ScanStep(s: string, kinds: seq<Kind>, i: nat, st: ScanState): (r: ScanOutcome)
    requires i < |s| == |kinds| && st.entryStart <= i
    ensures r.Running? ==> st.entryStart <= r.state.entryStart <= i + 1
  {
    if kinds[i] != Code then Running(st)
    else if OpensBracket(s[i]) then Running(st.(depth := st.depth + 1))
    else if ClosesBracket(s[i]) then
      if st.depth > 0 then Running(st.(depth := st.depth - 1))
      else if s[i] != '}' then Stray(i)
      else Complete(i, st.entries + OptionSeq(ReadEntry(s, kinds, st.entryStart, i)))
    else if s[i] == ',' && st.depth == 0 then
      Running(ScanState(0, i + 1, st.entries + OptionSeq(ReadEntry(s, kinds, st.entryStart, i))))
    else Running(st)
  }

  /** The loop from `i` up to `to`. */
  function ScanTo(s: string, kinds: seq<Kind>, i: nat, st: ScanState, till: nat): (r: ScanOutcome)
    requires i <= till <= |s| == |kinds| && st.entryStart <= i
    ensures r.Running? ==> st.entryStart <= r.state.entryStart <= till
    ensures r.Complete? ==> i <= r.close < till && s[r.close] == '}' && kinds[r.close] == Code
    decreases |s| - i
  {
    if i == till then Running(st)
    else
      match ScanStep(s, kinds, i, st)
      case Running(next) => ScanTo(s, kinds, i + 1, next, till)
      case other => other
  }

  /** Scans the object literal that `open` is the brace of. */
  function ScanObject(s: string, kinds: seq<Kind>, open: nat): (r: Result<ObjectScan, ScanObjectError>)
    requires |s| == |kinds|
    ensures r.Success? ==> At(s, open, '{') && r.value.open == open < r.value.close && At(s, r.value.close, '}')
  {
    if !At(s, open, '{') || kinds[open] != Code then Failure(NotAnObject(open))
    else
      match ScanTo(s, kinds, open + 1, ScanState(0, open + 1, []), |s|)
      case Running(_) => Failure(NeverClosed(open))
      case Complete(close, entries) => Success(ObjectScan(open, close, entries))
      case Stray(at) => Failure(Unbalanced(at))
  }

  ghost predicate EntriesWithin(entries: seq<ObjectEntry>, lo: int, hi: int) {
    forall i :: 0 <= i < |entries| ==>
      var e := entries[i];
      lo <= e.start < e.valueStart <= e.valueEnd == e.end <= hi
  }

  lemma {:induction false} ScanWithin(s: string, kinds: seq<Kind>, i: nat, st: ScanState, till: nat, lo: nat)
    requires i <= till <= |s| == |kinds| && lo <= st.entryStart <= i && EntriesWithin(st.entries, lo, i)
    ensures var r := ScanTo(s, kinds, i, st, till);
            && (r.Running? ==> EntriesWithin(r.state.entries, lo, till))
            && (r.Complete? ==> EntriesWithin(r.entries, lo, r.close))
    decreases |s| - i
  {
    hide EntryAt;
    if i < till {
      var r := ScanStep(s, kinds, i, st);
      if r.Running? { ScanWithin(s, kinds, i + 1, r.state, till, lo); }
    }
  }

  /** The entries of an object literal lie between its braces. */
  lemma {:induction false} ScanObjectWithin(s: string, kinds: seq<Kind>, open: nat)
    requires |s| == |kinds| && ScanObject(s, kinds, open).Success?
    ensures var scan := ScanObject(s, kinds, open).value; EntriesWithin(scan.entries, open + 1, scan.close)
  {
    hide ScanTo;
    ScanWithin(s, kinds, open + 1, ScanState(0, open + 1, []), |s|, open + 1);
  }

  /** The first entry with this name, if any. */
  function FindEntry(entries: seq<ObjectEntry>, key: string): (r: Option<ObjectEntry>)
    ensures r.Some? ==> r.value in entries && r.value.key == Some(key)
    ensures r.None? ==> forall e :: e in entries ==> e.key != Some(key)
  {
    if entries == [] then None
    else if entries[0].key == Some(key) then Some(entries[0])
    else FindEntry(entries[1..], key)
  }

  /** The object literal an entry's value is, when it is exactly one object literal. */
  function EntryObject(s: string, kinds: seq<Kind>, entry: ObjectEntry): Result<Option<ObjectScan>, ScanObjectError>
    requires |s| == |kinds| && 0 <= entry.valueStart
  {
    if !entry.keyed || !At(s, entry.valueStart, '{') then Success(None)
    else
      var scan :- ScanObject(s, kinds, entry.valueStart);
      Success(if scan.close + 1 == entry.valueEnd then Some(scan) else None)
  }
}

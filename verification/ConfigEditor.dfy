/**
 * The loops of `insertEntry` and `apply` in packages/cli/src/config_edit.ts, each proved to
 * compute what ConfigEdit defines.
 */
module ConfigEditor {
  import opened Wrappers
  import opened SourceLexer
  import opened ObjectScan
  import opened ConfigEdit
  import opened ConfigSplice

  /** The line above which an entry goes: past the comment lines that describe what follows. */
  method ClimbComments(s: string, kinds: seq<Kind>, open: nat, start: nat) returns (at: nat)
    requires start <= |s| == |kinds|
    ensures at == AboveComments(s, kinds, open, start)
  {
    hide CommentLine, LineStart;
    at := start;
    while at > 0
      invariant at <= start && AboveComments(s, kinds, open, start) == AboveComments(s, kinds, open, at)
      decreases at
    {
      var previous := LineStart(s, at - 1);
      if previous <= open || !CommentLine(s, kinds, previous, at) { break; }
      CommentLineNonEmpty(s, kinds, previous, at);
      at := previous;
    }
  }

  /** Whether a separator follows `last`; none when one stands on a later line. */
  method FindSeparator(s: string, kinds: seq<Kind>, end: nat, close: nat, lineEnd: nat) returns (r: Option<bool>)
    requires end <= close <= |s| == |kinds|
    ensures r == SeparatorIn(s, kinds, end, close, lineEnd)
  {
    var hasComma, i := false, end;
    while i < close
      invariant end <= i <= close
      invariant SeparatorIn(s, kinds, end, close, lineEnd) ==
                match SeparatorIn(s, kinds, i, close, lineEnd) case None => None case Some(more) => Some(hasComma || more)
    {
      if kinds[i] == Code && s[i] == ',' {
        if i >= lineEnd { return None; }
        hasComma := true;
      }
      i := i + 1;
    }
    return Some(hasComma);
  }

  /** `insertEntry`: a new entry as a splice into the source. */
  method InsertEntryText(parsed: Parsed, scan: ObjectScan, lines: seq<string>, before: Option<ObjectEntry>)
    returns (r: Result<string, EditError>)
    requires |parsed.kinds| == |parsed.source| && scan.open < scan.close < |parsed.source|
    requires EntriesWithin(scan.entries, scan.open + 1, scan.close)
    requires before.Some? ==> before.value in scan.entries
    ensures r == InsertEntry(parsed, scan, lines, before)
  {
    hide AboveComments, SeparatorIn, LineStart, LineEnd, LineIndent, JoinedLines, Lines, StartsLine, AllSpace;
    var s, eol := parsed.source, parsed.eol;
    if scan.entries == [] {
      var base := LineIndent(s, scan.open);
      if !AllSpace(s, scan.open + 1, scan.close) { return Failure(Unsupported(HoldsOnlyComments)); }
      return Success(s[..scan.open + 1] + eol + JoinedLines(lines, base + parsed.unit, eol) + eol + base + s[scan.close..]);
    }
    var first, last := scan.entries[0], scan.entries[|scan.entries| - 1];
    if !StartsLine(s, first.start) || LineEnd(s, last.end) >= scan.close { return Failure(Unsupported(NotOnePropertyPerLine)); }
    var indent := LineIndent(s, first.start);
    if before.Some? {
      if !StartsLine(s, before.value.start) { return Failure(Unsupported(SharesItsLine)); }
      var at := ClimbComments(s, parsed.kinds, scan.open, LineStart(s, before.value.start));
      return Success(s[..at] + Lines(lines, indent, eol) + s[at..]);
    }
    var lineEnd := LineBreak(s, last.end);
    var hasComma := FindSeparator(s, parsed.kinds, last.end, scan.close, lineEnd);
    if hasComma.None? { return Failure(Unsupported(CommaOnItsOwnLine)); }
    return Success(s[..last.end] + (if hasComma.value then "" else ",") + Slice(s, last.end, lineEnd)
                   + eol + JoinedLines(lines, indent, eol) + s[lineEnd..]);
  }

  /** A result with the changes of earlier steps ahead of its own. */
  function Behind(changes: seq<Change>, r: Result<EditResult, EditError>): Result<EditResult, EditError> {
    match r
    case Success(rest) => Success(EditResult(rest.source, changes + rest.changes))
    case Failure(error) => Failure(error)
  }

  lemma {:induction false} BehindBehind(a: seq<Change>, b: seq<Change>, r: Result<EditResult, EditError>)
    ensures Behind([], r) == r && Behind(a, Behind(b, r)) == Behind(a + b, r)
  {
    if r.Success? {
      assert [] + r.value.changes == r.value.changes;
      assert a + (b + r.value.changes) == a + b + r.value.changes;
    }
  }

  lemma {:induction false} BehindNothing(changes: seq<Change>, source: string)
    ensures Behind(changes, RunSteps(source, [])) == Success(EditResult(source, changes))
  {
    assert changes + [] == changes;
  }

  /** One more step, in front of those that are left. */
  lemma {:induction false} BehindStep(changes: seq<Change>, current: string, steps: seq<ConfigEdit>)
    requires steps != []
    ensures var step := BuildStep(current, steps[0]);
            && (step.Failure? ==> Behind(changes, RunSteps(current, steps)) == Failure(step.error))
            && (step.Success? ==>
                  Behind(changes, RunSteps(current, steps))
                  == Behind(changes + OptionSeq(step.value.change), RunSteps(step.value.source, steps[1..])))
  {
    hide BuildStep;
    var step := BuildStep(current, steps[0]);
    if step.Success? { BehindBehind(changes, OptionSeq(step.value.change), RunSteps(step.value.source, steps[1..])); }
  }

  /** `apply`: the steps of an edit, each on the text the one before left. */
  method ApplySteps(source: string, edit: ConfigEdit) returns (r: Result<EditResult, EditError>)
    ensures r == Apply(source, edit)
  {
    hide BuildStep, StepsOf, RunSteps, Behind;
    var build := StepsOf(source, edit);
    if build.Failure? { return Failure(build.error); }
    var current, changes := source, [];
    var steps := build.value;
    var k := 0;
    assert steps[0..] == steps;
    BehindBehind([], [], RunSteps(current, steps));
    while k < |steps|
      invariant k <= |steps|
      invariant RunSteps(source, steps) == Behind(changes, RunSteps(current, steps[k..]))
    {
      assert steps[k..][0] == steps[k] && steps[k..][1..] == steps[k + 1..];
      BehindStep(changes, current, steps[k..]);
      var step := BuildStep(current, steps[k]);
      if step.Failure? { return Failure(step.error); }
      changes := changes + OptionSeq(step.value.change);
      current := step.value.source;
      k := k + 1;
    }
    assert steps[k..] == [];
    BehindNothing(changes, current);
    return Success(EditResult(current, changes));
  }
}

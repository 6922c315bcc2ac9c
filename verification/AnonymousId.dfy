/**
 * packages/cli/src/anonymous_id.ts: any number of first runs at once agree on one id, through a
 * temporary file linked into place, whichever of their system calls fail.
 */
module AnonymousId {
  import opened Wrappers
  import opened Text

  type Pid = nat

  predicate IsHexDigit(c: char) { IsDigit(c) || 'a' <= c <= 'f' || 'A' <= c <= 'F' }

  /** `[0-9a-f]{8}-[0-9a-f]{4}-[0-9a-f]{4}-[0-9a-f]{4}-[0-9a-f]{12}`, in either case. */
  predicate IsUuid(s: string) {
    |s| == 36 && forall k :: 0 <= k < 36 ==> if k in {8, 13, 18, 23} then s[k] == '-' else IsHexDigit(s[k])
  }

  /** `readStored`, of a file's content. */
  function Stored(file: Option<string>): Option<string> {
    match file
    case None => None
    case Some(content) => if IsUuid(Trim(content)) then Some(Trim(content)) else None
  }

  function ContentOf(id: string): string { id + "\n" }

  /** Where a call is: the statement it will execute next. */
  datatype Pc =
    | Reading | Writing | Linking | ReadingWinner | Replacing
    | Unlinking(result: Option<string>)
    | Done(result: Option<string>)

  /** The id file, the temporary files by the id in their name, and the calls under way. */
  datatype State = State(file: Option<string>, temps: map<string, string>, calls: map<Pid, Pc>)

  /** How a system call goes: as it should, or with an error other than EEXIST; a write can stop in the middle. */
  datatype Fault = Clean | Fails | Torn(written: string)

  datatype Action = Arrive(pid: Pid) | Execute(pid: Pid, fault: Fault)

  /** Each call draws an id of its own. */
  ghost predicate DistinctIds(ids: map<Pid, string>) {
    && (forall p :: p in ids ==> IsUuid(ids[p]))
    && forall p, q :: p in ids && q in ids && p != q ==> ids[p] != ids[q]
  }

  function Goto(s: State, p: Pid, pc: Pc): State { s.(calls := s.calls[p := pc]) }

  /**
   * One statement of one call. A read that fails counts as no id; the temporary file is written
   * before the `try` whose `finally` unlinks it, and an error of the unlink is dropped.
   */
  function Execution(id: string, s: State, p: Pid, fault: Fault): State
    requires p in s.calls
  {
    match s.calls[p]
    case Reading => if fault.Clean? && Stored(s.file).Some? then Goto(s, p, Done(Stored(s.file))) else Goto(s, p, Writing)
    case Writing =>
      if fault.Fails? || id in s.temps then Goto(s, p, Done(None))
      else if fault.Torn? then Goto(s.(temps := s.temps[id := fault.written]), p, Done(None))
      else Goto(s.(temps := s.temps[id := ContentOf(id)]), p, Linking)
    case Linking =>
      if !fault.Clean? || id !in s.temps then Goto(s, p, Unlinking(None))
      else if s.file.Some? then Goto(s, p, ReadingWinner)
      else Goto(s.(file := Some(s.temps[id])), p, Unlinking(Some(id)))
    case ReadingWinner =>
      if fault.Clean? && Stored(s.file).Some? then Goto(s, p, Unlinking(Stored(s.file))) else Goto(s, p, Replacing)
    case Replacing =>
      if fault.Clean? then Goto(s.(file := Some(ContentOf(id))), p, Unlinking(Some(id))) else Goto(s, p, Unlinking(None))
    case Unlinking(result) => Goto(if fault.Clean? then s.(temps := s.temps - {id}) else s, p, Done(result))
    case Done(_) => s
  }

  function Next(ids: map<Pid, string>, s: State, a: Action): State {
    match a
    case Arrive(p) => if p in s.calls || p !in ids then s else Goto(s, p, Reading)
    case Execute(p, fault) => if p in s.calls && p in ids then Execution(ids[p], s, p, fault) else s
  }

  function Run(ids: map<Pid, string>, file: Option<string>, schedule: seq<Action>): State {
    if schedule == [] then State(file, map[], map[])
    else Next(ids, Run(ids, file, schedule[..|schedule| - 1]), schedule[|schedule| - 1])
  }

  // ---------------------------------------------------------------------------
  // Temporary files
  // ---------------------------------------------------------------------------

  /** Whether the call has its temporary file. */
  predicate HoldsTemp(pc: Pc) { pc.Linking? || pc.ReadingWinner? || pc.Replacing? || pc.Unlinking? }

  /** A call that holds its temporary file has it complete; before its write there is none. */
  ghost predicate TempsHeld(ids: map<Pid, string>, s: State) {
    && (forall p :: p in s.calls ==> p in ids)
    && forall p :: p in ids ==> TempHeld(ids[p], s, p)
  }

  ghost predicate TempHeld(id: string, s: State, p: Pid) {
    if p !in s.calls || s.calls[p].Reading? || s.calls[p].Writing? then id !in s.temps
    else HoldsTemp(s.calls[p]) ==> id in s.temps && s.temps[id] == ContentOf(id)
  }

  lemma {:induction false} StepTemps(ids: map<Pid, string>, s: State, a: Action)
    requires DistinctIds(ids) && TempsHeld(ids, s)
    ensures TempsHeld(ids, Next(ids, s, a))
  {
    hide Trim, IsUuid, Stored, ContentOf, Execution, DistinctIds;
    match a {
      case Arrive(p) =>
        forall q | q in ids ensures TempHeld(ids[q], Next(ids, s, a), q) { assert TempHeld(ids[q], s, q); }
      case Execute(p, fault) =>
        if p in s.calls && p in ids { ExecutionTemps(ids, s, p, fault); }
    }
  }

  /** A statement of one call touches no other call and no other temporary file. */
  lemma {:induction false} ExecutionIsLocal(id: string, s: State, p: Pid, fault: Fault)
    requires p in s.calls
    ensures var s2 := Execution(id, s, p, fault);
            && s2.calls.Keys == s.calls.Keys
            && (forall q :: q in s.calls && q != p ==> s2.calls[q] == s.calls[q])
            && (forall other :: other != id ==> (other in s2.temps <==> other in s.temps))
            && (forall other :: other != id && other in s.temps ==> s2.temps[other] == s.temps[other])
  {
    hide Trim, IsUuid, Stored, ContentOf;
  }

  lemma {:induction false} ExecutionHeld(id: string, s: State, p: Pid, fault: Fault)
    requires p in s.calls && TempHeld(id, s, p)
    ensures TempHeld(id, Execution(id, s, p, fault), p)
  {
    hide Trim, IsUuid, Stored, ContentOf;
  }

  lemma {:induction false} ExecutionTemps(ids: map<Pid, string>, s: State, p: Pid, fault: Fault)
    requires DistinctIds(ids) && TempsHeld(ids, s) && p in s.calls && p in ids
    ensures TempsHeld(ids, Execution(ids[p], s, p, fault))
  {
    hide Execution, ContentOf, HoldsTemp;
    ExecutionIsLocal(ids[p], s, p, fault);
    ExecutionHeld(ids[p], s, p, fault);
    forall q | q in ids ensures TempHeld(ids[q], Execution(ids[p], s, p, fault), q) {
      assert TempHeld(ids[q], s, q);
      if q != p { assert ids[q] != ids[p]; }
    }
  }

  /** The step leaves the temporary file of `p` behind: its write stopped in the middle, or its unlink failed. */
  ghost predicate LeavesTemp(s: State, a: Action, p: Pid) {
    && a.Execute? && a.pid == p && p in s.calls
    && ((s.calls[p].Writing? && a.fault.Torn?) || (s.calls[p].Unlinking? && !a.fault.Clean?))
  }

  ghost predicate LeftTemp(ids: map<Pid, string>, file: Option<string>, schedule: seq<Action>, p: Pid) {
    schedule != [] &&
    var before := schedule[..|schedule| - 1];
    LeftTemp(ids, file, before, p) || LeavesTemp(Run(ids, file, before), schedule[|schedule| - 1], p)
  }

  lemma {:induction false} StepLeaves(ids: map<Pid, string>, s: State, a: Action, p: Pid, left: bool)
    requires DistinctIds(ids) && TempsHeld(ids, s) && p in ids
    requires if p in s.calls && s.calls[p].Done? then ids[p] in s.temps <==> left else !left
    ensures var s2 := Next(ids, s, a);
            var left2 := left || LeavesTemp(s, a, p);
            if p in s2.calls && s2.calls[p].Done? then ids[p] in s2.temps <==> left2 else !left2
  {
    hide Trim, IsUuid, Stored, ContentOf;
    assert TempHeld(ids[p], s, p);
  }

  lemma {:induction false} RunTemps(ids: map<Pid, string>, file: Option<string>, schedule: seq<Action>, p: Pid)
    requires DistinctIds(ids) && p in ids
    ensures var s := Run(ids, file, schedule);
            && TempsHeld(ids, s)
            && if p in s.calls && s.calls[p].Done? then ids[p] in s.temps <==> LeftTemp(ids, file, schedule, p)
               else !LeftTemp(ids, file, schedule, p)
    decreases |schedule|
  {
    hide DistinctIds, TempsHeld, Next, LeavesTemp;
    if schedule == [] {
      FreshTemps(ids, file);
    } else {
      var before := schedule[..|schedule| - 1];
      RunTemps(ids, file, before, p);
      StepTemps(ids, Run(ids, file, before), schedule[|schedule| - 1]);
      StepLeaves(ids, Run(ids, file, before), schedule[|schedule| - 1], p, LeftTemp(ids, file, before, p));
    }
  }

  lemma {:induction false} FreshTemps(ids: map<Pid, string>, file: Option<string>)
    ensures TempsHeld(ids, State(file, map[], map[]))
  {
  }

  /**
   * A temporary file outlives its call exactly when its write stopped in the middle or its unlink
   * failed, whatever else went wrong, and whatever the file held.
   */
  lemma {:induction false} TempOutlivesIff(ids: map<Pid, string>, file: Option<string>, schedule: seq<Action>, p: Pid)
    requires DistinctIds(ids)
    requires var s := Run(ids, file, schedule); p in s.calls && s.calls[p].Done?
    ensures p in ids && (ids[p] in Run(ids, file, schedule).temps <==> LeftTemp(ids, file, schedule, p))
  {
    CallsAreKnown(ids, file, schedule, p);
    RunTemps(ids, file, schedule, p);
  }

  lemma {:induction false} CallsAreKnown(ids: map<Pid, string>, file: Option<string>, schedule: seq<Action>, p: Pid)
    requires p in Run(ids, file, schedule).calls
    ensures p in ids
    decreases |schedule|
  {
    if schedule != [] {
      var before := schedule[..|schedule| - 1];
      if p in Run(ids, file, before).calls { CallsAreKnown(ids, file, before, p); }
    }
  }

  // ---------------------------------------------------------------------------
  // Agreement
  // ---------------------------------------------------------------------------

  lemma {:induction false} ContentHolds(id: string)
    requires IsUuid(id)
    ensures Stored(Some(ContentOf(id))) == Some(id)
  {
    var content := ContentOf(id);
    assert !IsSpace(id[0]) && !IsSpace(id[35]);
    assert content[..|content| - 1] == id;
    assert TrimEnd(content) == TrimEnd(id) == id;
  }

  /** The file holds an id once it is there, and every result is that id. */
  ghost predicate CallsAgree(s: State) {
    && (s.file.Some? ==> Stored(s.file).Some?)
    && forall p :: p in s.calls ==> CallAgrees(s.file, s.calls[p])
  }

  ghost predicate CallAgrees(file: Option<string>, pc: Pc) {
    && pc != Replacing
    && ((pc.Done? || pc.Unlinking?) && pc.result.Some? ==> file.Some? && pc.result == Stored(file))
    && (pc == ReadingWinner ==> file.Some?)
  }

  /** The read that looks for the winner's id, failing. */
  ghost predicate FailedReread(s: State, a: Action) {
    a.Execute? && a.pid in s.calls && s.calls[a.pid].ReadingWinner? && !a.fault.Clean?
  }

  /** In a whole schedule no such read fails. */
  ghost predicate RereadsWork(ids: map<Pid, string>, file: Option<string>, schedule: seq<Action>) {
    schedule == [] ||
    var before := schedule[..|schedule| - 1];
    RereadsWork(ids, file, before) && !FailedReread(Run(ids, file, before), schedule[|schedule| - 1])
  }

  lemma {:induction false} ExecutionAgrees(id: string, s: State, p: Pid, fault: Fault)
    requires CallsAgree(s) && p in s.calls && IsUuid(id) && TempHeld(id, s, p)
    requires s.calls[p].ReadingWinner? ==> fault.Clean?
    ensures var s2 := Execution(id, s, p, fault);
            CallsAgree(s2) && (s.file.Some? ==> s2.file == s.file)
  {
    hide Trim, IsUuid;
    ContentHolds(id);
    var s2 := Execution(id, s, p, fault);
    assert CallAgrees(s.file, s.calls[p]);
    forall q | q in s2.calls ensures CallAgrees(s2.file, s2.calls[q]) {
      if q != p { assert CallAgrees(s.file, s.calls[q]); }
    }
  }

  /** One step: the file is written at most once, and all agree on what it holds. */
  lemma {:induction false} StepAgrees(ids: map<Pid, string>, s: State, a: Action)
    requires DistinctIds(ids) && TempsHeld(ids, s) && CallsAgree(s) && !FailedReread(s, a)
    ensures var s2 := Next(ids, s, a);
            CallsAgree(s2) && (s.file.Some? ==> s2.file == s.file)
  {
    hide Trim, IsUuid, Stored, Execution, CallAgrees;
    if a.Execute? && a.pid in s.calls && a.pid in ids {
      ExecutionAgrees(ids[a.pid], s, a.pid, a.fault);
    } else if a.Arrive? {
      ArrivalAgrees(s, a.pid);
    }
  }

  lemma {:induction false} ArrivalAgrees(s: State, p: Pid)
    requires CallsAgree(s)
    ensures CallsAgree(Goto(s, p, Reading))
  {
    hide Trim, IsUuid;
  }

  lemma {:induction false} TempsAlways(ids: map<Pid, string>, file: Option<string>, schedule: seq<Action>)
    requires DistinctIds(ids)
    ensures TempsHeld(ids, Run(ids, file, schedule))
    decreases |schedule|
  {
    hide DistinctIds, TempsHeld, Next;
    if schedule == [] {
      FreshTemps(ids, file);
    } else {
      TempsAlways(ids, file, schedule[..|schedule| - 1]);
      StepTemps(ids, Run(ids, file, schedule[..|schedule| - 1]), schedule[|schedule| - 1]);
    }
  }

  /** Starting with no file or one that holds an id, every schedule keeps the agreement while the second reads work. */
  lemma {:induction false} RunAgrees(ids: map<Pid, string>, file: Option<string>, schedule: seq<Action>)
    requires DistinctIds(ids) && (file.Some? ==> Stored(file).Some?) && RereadsWork(ids, file, schedule)
    ensures CallsAgree(Run(ids, file, schedule))
    decreases |schedule|
  {
    hide DistinctIds, CallsAgree, Next, TempsHeld, FailedReread;
    if schedule == [] {
      FreshAgrees(file);
    } else {
      var before := schedule[..|schedule| - 1];
      RunAgrees(ids, file, before);
      TempsAlways(ids, file, before);
      StepAgrees(ids, Run(ids, file, before), schedule[|schedule| - 1]);
    }
  }

  lemma {:induction false} FreshAgrees(file: Option<string>)
    requires file.Some? ==> Stored(file).Some?
    ensures CallsAgree(State(file, map[], map[]))
  {
  }

  /** From the first link on, the file never changes. */
  lemma {:induction false} WrittenOnce(ids: map<Pid, string>, file: Option<string>, schedule: seq<Action>, more: seq<Action>)
    requires DistinctIds(ids) && (file.Some? ==> Stored(file).Some?) && RereadsWork(ids, file, schedule + more)
    requires Run(ids, file, schedule).file.Some?
    ensures Run(ids, file, schedule + more).file == Run(ids, file, schedule).file
    decreases |more|
  {
    hide DistinctIds, CallsAgree, Next, TempsHeld, FailedReread;
    if more == [] {
      assert schedule + more == schedule;
    } else {
      var n := |more| - 1;
      assert (schedule + more)[..|schedule + more| - 1] == schedule + more[..n];
      WrittenOnce(ids, file, schedule, more[..n]);
      RunAgrees(ids, file, schedule + more[..n]);
      TempsAlways(ids, file, schedule + more[..n]);
      StepAgrees(ids, Run(ids, file, schedule + more[..n]), more[n]);
    }
  }

  /** A file that is there is replaced only by a call that found no id in it, or could not read it. */
  lemma {:induction false} ReplacedIff(ids: map<Pid, string>, s: State, a: Action)
    requires s.file.Some?
    ensures Next(ids, s, a).file != s.file <==>
            && a.Execute? && a.pid in ids && a.pid in s.calls && s.calls[a.pid].Replacing? && a.fault.Clean?
            && s.file != Some(ContentOf(ids[a.pid]))
    ensures a.Execute? && a.pid in ids && a.pid in s.calls && s.calls[a.pid].ReadingWinner? ==>
              (Next(ids, s, a).calls[a.pid].Replacing? <==> !a.fault.Clean? || Stored(s.file).None?)
    ensures forall p :: p in s.calls && !s.calls[p].ReadingWinner? && !s.calls[p].Replacing? ==> !Next(ids, s, a).calls[p].Replacing?
  {
    hide Trim, IsUuid;
  }

  /** All calls that return an id return the same one, which is what the file holds. */
  lemma {:induction false} FirstRunAgreement(ids: map<Pid, string>, file: Option<string>, schedule: seq<Action>, p: Pid, q: Pid)
    requires DistinctIds(ids) && (file.Some? ==> Stored(file).Some?) && RereadsWork(ids, file, schedule)
    requires Returns(Run(ids, file, schedule), p).Some? && Returns(Run(ids, file, schedule), q).Some?
    ensures var s := Run(ids, file, schedule);
            Returns(s, p) == Returns(s, q) == Stored(s.file)
  {
    hide Stored, DistinctIds;
    RunAgrees(ids, file, schedule);
    var s := Run(ids, file, schedule);
    assert CallAgrees(s.file, s.calls[p]) && CallAgrees(s.file, s.calls[q]);
  }

  /** The id a call has returned. */
  function Returns(s: State, p: Pid): Option<string> {
    if p in s.calls && s.calls[p].Done? then s.calls[p].result else None
  }

  // ---------------------------------------------------------------------------
  // Schedules without agreement
  // ---------------------------------------------------------------------------

  lemma {:induction false} OneMore(ids: map<Pid, string>, file: Option<string>, schedule: seq<Action>, a: Action)
    returns (longer: seq<Action>)
    ensures longer == schedule + [a] && Run(ids, file, longer) == Next(ids, Run(ids, file, schedule), a)
    ensures RereadsWork(ids, file, schedule) && !FailedReread(Run(ids, file, schedule), a) ==> RereadsWork(ids, file, longer)
  {
    hide Next, FailedReread;
    longer := schedule + [a];
    assert longer[..|schedule|] == schedule;
  }

  lemma {:induction false} Nothing(ids: map<Pid, string>, file: Option<string>)
    ensures Run(ids, file, []) == State(file, map[], map[]) && RereadsWork(ids, file, [])
  {
  }

  /** A call that goes on after its first read, up to the link, which finds the file. */
  lemma {:induction false} UpToReread(ids: map<Pid, string>, file: Option<string>, schedule: seq<Action>, p: Pid, read: Fault)
    returns (longer: seq<Action>)
    requires p in ids && file.Some? && (read.Clean? ==> Stored(file).None?)
    requires var s := Run(ids, file, schedule); s.file == file && ids[p] !in s.temps && p !in s.calls
    ensures var s, s2 := Run(ids, file, schedule), Run(ids, file, longer);
            && s2.file == file && s2.calls == s.calls[p := ReadingWinner] && s2.temps == s.temps[ids[p] := ContentOf(ids[p])]
    ensures RereadsWork(ids, file, schedule) ==> RereadsWork(ids, file, longer)
  {
    hide Run, RereadsWork, Stored, ContentOf;
    longer := OneMore(ids, file, schedule, Arrive(p));
    longer := OneMore(ids, file, longer, Execute(p, read));
    longer := OneMore(ids, file, longer, Execute(p, Clean));
    longer := OneMore(ids, file, longer, Execute(p, Clean));
  }

  /** A call that has found nothing it can use replaces the file and returns its own id. */
  lemma {:induction false} Replaces(ids: map<Pid, string>, file: Option<string>, schedule: seq<Action>, p: Pid)
    returns (longer: seq<Action>)
    requires p in ids && p in Run(ids, file, schedule).calls && Run(ids, file, schedule).calls[p].Replacing?
    ensures var s, s2 := Run(ids, file, schedule), Run(ids, file, longer);
            && s2.file == Some(ContentOf(ids[p])) && s2.calls == s.calls[p := Done(Some(ids[p]))]
    ensures RereadsWork(ids, file, schedule) ==> RereadsWork(ids, file, longer)
  {
    hide Run, RereadsWork, Stored, ContentOf;
    longer := OneMore(ids, file, schedule, Execute(p, Clean));
    longer := OneMore(ids, file, longer, Execute(p, Clean));
  }

  /** Two calls disagree. */
  ghost predicate Disagree(ids: map<Pid, string>, file: Option<string>, schedule: seq<Action>, p: Pid, q: Pid) {
    var s := Run(ids, file, schedule);
    Returns(s, p).Some? && Returns(s, q).Some? && Returns(s, p) != Returns(s, q)
  }

  /** A file without an id: both calls find none in it, and each puts its own there. */
  lemma {:induction false} DisagreeOverNoId(ids: map<Pid, string>, file: Option<string>, a: Pid, b: Pid) returns (z: seq<Action>)
    requires DistinctIds(ids) && a in ids && b in ids && a != b && file.Some? && Stored(file).None?
    ensures RereadsWork(ids, file, z) && Disagree(ids, file, z, a, b)
  {
    hide Run, RereadsWork, Stored, ContentOf, IsUuid;
    Nothing(ids, file);
    z := UpToReread(ids, file, [], a, Clean);
    z := UpToReread(ids, file, z, b, Clean);
    z := OneMore(ids, file, z, Execute(a, Clean));
    z := OneMore(ids, file, z, Execute(b, Clean));
    z := Replaces(ids, file, z, a);
    z := Replaces(ids, file, z, b);
  }

  /** A file with an id, which one call reads and the other fails to read twice. */
  lemma {:induction false} DisagreeOverId(ids: map<Pid, string>, file: Option<string>, a: Pid, b: Pid) returns (z: seq<Action>)
    requires a in ids && b in ids && a != b && file.Some? && Stored(file).Some? && Some(ids[b]) != Stored(file)
    ensures Disagree(ids, file, z, a, b)
  {
    hide Run, RereadsWork, Stored, ContentOf, IsUuid;
    Nothing(ids, file);
    z := OneMore(ids, file, [], Arrive(a));
    z := OneMore(ids, file, z, Execute(a, Clean));
    z := UpToReread(ids, file, z, b, Fails);
    z := OneMore(ids, file, z, Execute(b, Fails));
    z := Replaces(ids, file, z, b);
  }

  /** No file: the loser of the link fails to read the winner's id. */
  lemma {:induction false} DisagreeOverNothing(ids: map<Pid, string>, a: Pid, b: Pid) returns (z: seq<Action>)
    requires DistinctIds(ids) && a in ids && b in ids && a != b
    ensures Disagree(ids, None, z, a, b)
  {
    hide Run, RereadsWork, ContentOf, IsUuid, Trim;
    z := WinnerLinks(ids, a, b);
    z := OneMore(ids, None, z, Execute(b, Clean));
    z := OneMore(ids, None, z, Execute(b, Clean));
    z := OneMore(ids, None, z, Execute(b, Fails));
    z := Replaces(ids, None, z, b);
  }

  /** Both calls find no file; the first one makes it and is over. */
  lemma {:induction false} WinnerLinks(ids: map<Pid, string>, a: Pid, b: Pid) returns (z: seq<Action>)
    requires DistinctIds(ids) && a in ids && b in ids && a != b
    ensures var s := Run(ids, None, z);
            s.file.Some? && s.calls == map[a := Done(Some(ids[a])), b := Writing] && ids[b] !in s.temps
  {
    hide Run, RereadsWork, ContentOf, IsUuid, Trim;
    Nothing(ids, None);
    z := OneMore(ids, None, [], Arrive(a));
    z := OneMore(ids, None, z, Arrive(b));
    z := OneMore(ids, None, z, Execute(a, Clean));
    z := OneMore(ids, None, z, Execute(b, Clean));
    assert Run(ids, None, z) == State(None, map[], map[a := Writing, b := Writing]);
    z := OneMore(ids, None, z, Execute(a, Clean));
    z := OneMore(ids, None, z, Execute(a, Clean));
    z := OneMore(ids, None, z, Execute(a, Clean));
  }

  /** In every schedule calls that return an id return the same; second reads work, unless `rereadsFail`. */
  ghost predicate AlwaysAgree(ids: map<Pid, string>, file: Option<string>, rereadsFail: bool) {
    forall schedule, p: Pid, q: Pid :: (rereadsFail || RereadsWork(ids, file, schedule)) ==> !Disagree(ids, file, schedule, p, q)
  }

  /**
   * Two or more first runs always agree exactly when the file starts absent or with an id, and the
   * read that looks for the winner's id never fails.
   */
  lemma {:induction false} AgreeIff(ids: map<Pid, string>, file: Option<string>, rereadsFail: bool, a: Pid, b: Pid)
    requires DistinctIds(ids) && a in ids && b in ids && a != b
    ensures AlwaysAgree(ids, file, rereadsFail) <==> !rereadsFail && (file.Some? ==> Stored(file).Some?)
  {
    hide RereadsWork, Stored, DistinctIds, Disagree;
    if file.Some? && Stored(file).None? {
      var z := DisagreeOverNoId(ids, file, a, b);
    } else if rereadsFail {
      SomeOtherId(ids, file, a, b);
      var z;
      if file.None? { z := DisagreeOverNothing(ids, a, b); }
      else if Some(ids[b]) != Stored(file) { z := DisagreeOverId(ids, file, a, b); }
      else { z := DisagreeOverId(ids, file, b, a); }
      assert Disagree(ids, file, z, a, b) || Disagree(ids, file, z, b, a);
    } else {
      forall schedule, p: Pid, q: Pid | RereadsWork(ids, file, schedule) ensures !Disagree(ids, file, schedule, p, q) {
        NeverDisagree(ids, file, schedule, p, q);
      }
    }
  }

  lemma {:induction false} SomeOtherId(ids: map<Pid, string>, file: Option<string>, a: Pid, b: Pid)
    requires DistinctIds(ids) && a in ids && b in ids && a != b
    ensures Some(ids[a]) != Stored(file) || Some(ids[b]) != Stored(file)
  {
    hide IsUuid, Stored;
  }

  lemma {:induction false} NeverDisagree(ids: map<Pid, string>, file: Option<string>, schedule: seq<Action>, p: Pid, q: Pid)
    requires DistinctIds(ids) && (file.Some? ==> Stored(file).Some?) && RereadsWork(ids, file, schedule)
    ensures !Disagree(ids, file, schedule, p, q)
  {
    hide DistinctIds, RereadsWork, Stored, Run;
    var s := Run(ids, file, schedule);
    if Returns(s, p).Some? && Returns(s, q).Some? { FirstRunAgreement(ids, file, schedule, p, q); }
  }

  // ---------------------------------------------------------------------------
  // One call on its own
  // ---------------------------------------------------------------------------

  /** How each system call of one call goes. */
  datatype Faults = Faults(read: Fault, write: Fault, link: Fault, reread: Fault, replace: Fault, unlink: Fault)

  class ConfigDir {
    var file: Option<string>
    var temps: map<string, string>

    constructor (file: Option<string>)
      ensures this.file == file && temps == map[]
    {
      this.file, temps := file, map[];
    }

    /** `getOrCreateAnonymousId` with no other call about: nothing in CI, the stored id, or a new one. */
    method GetOrCreate(id: string, ci: bool, faults: Faults) returns (r: Option<string>)
      requires IsUuid(id) && id !in temps
      modifies this
      ensures ci || (faults.read.Clean? && Stored(old(file)).Some?) ==> file == old(file) && temps == old(temps)
      ensures ci ==> r.None?
      ensures !ci && faults.read.Clean? && Stored(old(file)).Some? ==> r == Stored(old(file))
      ensures !ci && !(faults.read.Clean? && Stored(old(file)).Some?) ==>
                && (r.Some? <==> faults.write.Clean? && faults.link.Clean?
                                 && (old(file).None? || (faults.reread.Clean? && Stored(old(file)).Some?) || faults.replace.Clean?))
                && (r.Some? ==>
                      && r == Stored(file)
                      && r == if old(file).Some? && faults.reread.Clean? && Stored(old(file)).Some? then Stored(old(file)) else Some(id))
                && (file != old(file) ==> r == Some(id))
                && temps == if faults.write.Torn? then old(temps)[id := faults.write.written]
                            else if faults.write.Clean? && !faults.unlink.Clean? then old(temps)[id := ContentOf(id)]
                            else old(temps)
    {
      hide Trim, IsUuid;
      ContentHolds(id);
      if ci { return None; }
      var stored := if faults.read.Clean? then Stored(file) else None;
      if stored.Some? { return stored; }
      if faults.write.Torn? { temps := temps[id := faults.write.written]; }
      if !faults.write.Clean? { return None; }
      temps := temps[id := ContentOf(id)];
      if !faults.link.Clean? {
        r := None;
      } else if file.None? {
        file := Some(temps[id]);
        r := Some(id);
      } else {
        var winner := if faults.reread.Clean? then Stored(file) else None;
        if winner.Some? {
          r := winner;
        } else if faults.replace.Clean? {
          file := Some(ContentOf(id));
          r := Some(id);
        } else {
          r := None;
        }
      }
      if faults.unlink.Clean? { temps := temps - {id}; }
    }
  }
}

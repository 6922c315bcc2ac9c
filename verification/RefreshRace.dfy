/**
 * packages/cli/src/refresh_lock.ts with every system call a step of its own: between an EEXIST,
 * the look at the lock file and its removal, other processes go on. The lock then excludes only
 * in a few cases, which are given exactly.
 */
module RefreshRace {
  import opened Wrappers
  import Lock = RefreshLock

  type Pid = Lock.Pid

  /** A call: about to open the file, to look at it, or to remove it; running `fn`; or over. */
  datatype Phase = Waiting(retryAt: nat) | Looking | Clearing | Running(created: nat) | Over

  datatype Call = Call(phase: Phase, deadline: nat)

  datatype State = State(now: nat, file: Option<Lock.LockFile>, calls: map<Pid, Call>)

  datatype Action =
    | Arrive(pid: Pid) | Open(pid: Pid) | Look(pid: Pid) | Clear(pid: Pid) | End(pid: Pid, ending: Lock.Ending) | Pass(ms: nat)

  function Goto(s: State, p: Pid, phase: Phase): State
    requires p in s.calls
  {
    s.(calls := s.calls[p := s.calls[p].(phase := phase)])
  }

  predicate Is(s: State, p: Pid, phase: Phase) { p in s.calls && s.calls[p].phase == phase }

  /** `isStale`, and what is done about the answer: removing the file comes next, or the deadline, or a delay. */
  function LookAt(s: State, p: Pid): State
    requires p in s.calls
  {
    if Lock.IsStale(s.file, s.now) then Goto(s, p, Clearing)
    else if s.now >= s.calls[p].deadline then Goto(s, p, Over)
    else Goto(s, p, Waiting(s.now + Lock.RETRY_MS))
  }

  function Next(s: State, a: Action): State {
    match a
    case Arrive(p) => if p in s.calls then s else s.(calls := s.calls[p := Call(Waiting(s.now), s.now + Lock.WAIT_MS)])
    case Open(p) =>
      if !(p in s.calls && s.calls[p].phase.Waiting? && s.now >= s.calls[p].phase.retryAt) then s
      else if s.file.None? then Goto(s.(file := Some(Lock.LockFile(s.now, Some(p)))), p, Running(s.now))
      else Goto(s, p, Looking)
    case Look(p) => if Is(s, p, Looking) then LookAt(s, p) else s
    case Clear(p) => if Is(s, p, Clearing) then Goto(s.(file := None), p, Waiting(s.now)) else s
    case End(p, ending) =>
      if !Runs(s, p) then s
      else Goto(s.(file := None), p, if ending.ThrowsEexist? then Looking else Over)
    case Pass(ms) => s.(now := s.now + ms)
  }

  predicate Runs(s: State, p: Pid) { p in s.calls && s.calls[p].phase.Running? }

  ghost predicate InTime(s: State, d: nat) {
    forall p :: Runs(s, p) ==> s.now <= s.calls[p].phase.created + d
  }

  function Run(file: Option<Lock.LockFile>, now: nat, schedule: seq<Action>): State {
    if schedule == [] then State(now, file, map[])
    else Next(Run(file, now, schedule[..|schedule| - 1]), schedule[|schedule| - 1])
  }

  ghost predicate Prompt(file: Option<Lock.LockFile>, now: nat, schedule: seq<Action>, d: nat) {
    forall n :: 0 <= n <= |schedule| ==> InTime(Run(file, now, schedule[..n]), d)
  }

  /** No `fn` throws an EEXIST of its own. */
  predicate NoEexist(schedule: seq<Action>) {
    forall i :: 0 <= i < |schedule| ==> !(schedule[i].End? && schedule[i].ending.ThrowsEexist?)
  }

  // ---------------------------------------------------------------------------
  // The steps of an attempt, run together
  // ---------------------------------------------------------------------------

  function CallOf(call: Lock.Call): Call {
    Call(match call.phase
         case Waiting(retryAt) => Waiting(retryAt)
         case Running(created) => Running(created)
         case _ => Over, call.deadline)
  }

  function StateOf(s: Lock.State): State { State(s.now, s.file, map p | p in s.calls :: CallOf(s.calls[p])) }

  /** An attempt that no other process comes between is these steps one after the other. */
  function Together(s: State, p: Pid): State {
    Next(Next(Next(s, Open(p)), Look(p)), Clear(p))
  }

  lemma {:induction false} AttemptIsSteps(s: Lock.State, p: Pid)
    ensures StateOf(Lock.Next(s, Lock.Attempt(p))) == Together(StateOf(s), p)
  {
    if p in s.calls && s.calls[p].phase.Waiting? && s.now >= s.calls[p].phase.retryAt {
      assert StateOf(Lock.Next(s, Lock.Attempt(p))).calls == Together(StateOf(s), p).calls;
    }
  }

  /** The other steps of the coarser machine are steps here too. */
  lemma {:induction false} OthersAreSteps(s: Lock.State, p: Pid, ms: nat)
    ensures StateOf(Lock.Next(s, Lock.Arrive(p))) == Next(StateOf(s), Arrive(p))
    ensures StateOf(Lock.Next(s, Lock.Pass(ms))) == Next(StateOf(s), Pass(ms))
  {
    assert StateOf(Lock.Next(s, Lock.Arrive(p))).calls == Next(StateOf(s), Arrive(p)).calls;
  }

  /** A call whose `fn` threw EEXIST looks at the file and clears it before it tries again. */
  function Ended(s: State, p: Pid, ending: Lock.Ending): State {
    var ended := Next(s, End(p, ending));
    if Runs(s, p) && ending.ThrowsEexist? then Next(Next(ended, Look(p)), Clear(p)) else ended
  }

  lemma {:induction false} EndIsSteps(s: Lock.State, p: Pid, ending: Lock.Ending)
    ensures StateOf(Lock.Next(s, Lock.End(p, ending))) == Ended(StateOf(s), p, ending)
  {
    if Lock.Runs(s, p) {
      assert StateOf(Lock.Next(s, Lock.End(p, ending))).calls == Ended(StateOf(s), p, ending).calls;
    }
  }

  // ---------------------------------------------------------------------------
  // Two calls
  // ---------------------------------------------------------------------------

  /** What keeps two calls apart: whoever found a file has seen the other call run, and that one does not come back. */
  ghost predicate Apart(s: State) {
    && |s.calls| <= 2
    && (forall p :: Runs(s, p) ==> s.file == Some(Lock.LockFile(s.calls[p].phase.created, Some(p))))
    && (s.file.Some? ==> s.file.value.owner.Some? && Runs(s, s.file.value.owner.value))
    && forall p :: p in s.calls && (s.calls[p].phase.Looking? || s.calls[p].phase.Clearing?) ==> HasMet(s, p)
  }

  ghost predicate HasMet(s: State, p: Pid)
    requires p in s.calls
  {
    exists q :: q in s.calls && q != p && (s.calls[q].phase.Over? || (s.calls[q].phase.Running? && !s.calls[p].phase.Clearing?))
  }

  lemma {:induction false} OnlyTwo(calls: map<Pid, Call>, p: Pid, q: Pid, r: Pid)
    requires |calls| <= 2 && p in calls && q in calls && r in calls && p != q
    ensures r == p || r == q
  {
    assert {p, q} <= calls.Keys;
    if r != p && r != q {
      assert {p, q, r} <= calls.Keys;
      Bigger({p, q, r}, calls.Keys);
    }
  }

  lemma {:induction false} Bigger(a: set<Pid>, b: set<Pid>)
    requires a <= b
    ensures |a| <= |b|
    decreases a
  {
    if a != {} {
      var x :| x in a;
      Bigger(a - {x}, b - {x});
    }
  }

  lemma {:induction false} StepApart(s: State, a: Action)
    requires Apart(s) && InTime(s, Lock.STALE_MS) && |Next(s, a).calls| <= 2 && !(a.End? && a.ending.ThrowsEexist?)
    ensures Apart(Next(s, a))
  {
    var s2 := Next(s, a);
    forall p | p in s2.calls && (s2.calls[p].phase.Looking? || s2.calls[p].phase.Clearing?) ensures HasMet(s2, p) {
      StillMet(s, a, p);
    }
    if a.Clear? && Is(s, a.pid, Clearing) { ClearsNothing(s, a.pid); }
  }

  /** A call about to remove the file has no file to remove. */
  lemma {:induction false} ClearsNothing(s: State, p: Pid)
    requires Apart(s) && Is(s, p, Clearing)
    ensures s.file.None? && forall r :: !Runs(s, r)
  {
    assert HasMet(s, p);
    var q :| q in s.calls && q != p && s.calls[q].phase.Over?;
    forall r | Runs(s, r) ensures false { OnlyTwo(s.calls, p, q, r); }
  }

  lemma {:induction false} StillMet(s: State, a: Action, p: Pid)
    requires Apart(s) && InTime(s, Lock.STALE_MS) && |Next(s, a).calls| <= 2 && !(a.End? && a.ending.ThrowsEexist?)
    requires var s2 := Next(s, a); p in s2.calls && (s2.calls[p].phase.Looking? || s2.calls[p].phase.Clearing?)
    ensures HasMet(Next(s, a), p)
  {
    var s2 := Next(s, a);
    if a == Open(p) && s.calls[p].phase.Waiting? {
      var q := s.file.value.owner.value;
      assert Runs(s, q) && q != p && s2.calls[q] == s.calls[q];
    } else {
      assert HasMet(s, p);
      var q :| q in s.calls && q != p && (s.calls[q].phase.Over? || (s.calls[q].phase.Running? && !s.calls[p].phase.Clearing?));
      assert q in s2.calls && (s2.calls[q] == s.calls[q] || s2.calls[q].phase.Over?);
    }
  }

  lemma {:induction false} CallsStay(s: State, a: Action)
    ensures |s.calls| <= |Next(s, a).calls|
  {
    assert s.calls.Keys <= Next(s, a).calls.Keys;
    Bigger(s.calls.Keys, Next(s, a).calls.Keys);
  }

  lemma {:induction false} RunApart(now: nat, schedule: seq<Action>)
    requires Prompt(None, now, schedule, Lock.STALE_MS) && NoEexist(schedule) && |Run(None, now, schedule).calls| <= 2
    ensures Apart(Run(None, now, schedule))
    decreases |schedule|
  {
    hide Apart, Next, InTime;
    if schedule == [] {
      StartApart(now);
    } else {
      var before := schedule[..|schedule| - 1];
      forall n | 0 <= n <= |before| ensures InTime(Run(None, now, before[..n]), Lock.STALE_MS) { assert before[..n] == schedule[..n]; }
      CallsStay(Run(None, now, before), schedule[|schedule| - 1]);
      RunApart(now, before);
      assert InTime(Run(None, now, schedule[..|schedule| - 1]), Lock.STALE_MS);
      StepApart(Run(None, now, before), schedule[|schedule| - 1]);
    }
  }

  lemma {:induction false} StartApart(now: nat)
    ensures Apart(State(now, None, map[]))
  {
  }

  // ---------------------------------------------------------------------------
  // Schedules that break the lock
  // ---------------------------------------------------------------------------

  lemma {:induction false} OneMore(file: Option<Lock.LockFile>, now: nat, schedule: seq<Action>, a: Action, d: nat)
    returns (longer: seq<Action>)
    requires Prompt(file, now, schedule, d) && InTime(Next(Run(file, now, schedule), a), d)
    ensures longer == schedule + [a] && Prompt(file, now, longer, d) && Run(file, now, longer) == Next(Run(file, now, schedule), a)
    ensures NoEexist(schedule) && !(a.End? && a.ending.ThrowsEexist?) ==> NoEexist(longer)
  {
    hide Next, InTime;
    longer := schedule + [a];
    assert longer[..|schedule|] == schedule;
    forall n | 0 <= n <= |longer| ensures InTime(Run(file, now, longer[..n]), d) {
      if n <= |schedule| { assert longer[..n] == schedule[..n]; } else { assert longer[..n] == longer; }
    }
  }

  lemma {:induction false} Nothing(file: Option<Lock.LockFile>, now: nat, d: nat)
    ensures Prompt(file, now, [], d) && NoEexist([]) && Run(file, now, []) == State(now, file, map[])
  {
  }

  /** A schedule after which two `fn` run at once, with `n` calls. */
  ghost predicate Broken(file: Option<Lock.LockFile>, now: nat, schedule: seq<Action>, d: nat, n: nat, throws: bool) {
    && Prompt(file, now, schedule, d) && (throws || NoEexist(schedule)) && |Run(file, now, schedule).calls| <= n
    && Runs(Run(file, now, schedule), 0) && Runs(Run(file, now, schedule), 1)
  }

  /** A call that has waited since `now`. */
  function Since(now: nat, phase: Phase): Call { Call(phase, now + Lock.WAIT_MS) }

  /** Two calls, of which the first has the lock. */
  lemma {:induction false} FirstHolds(d: nat) returns (z: seq<Action>)
    ensures Prompt(None, 0, z, d) && NoEexist(z)
    ensures Run(None, 0, z) == State(0, Some(Lock.LockFile(0, Some(0))), map[0 := Since(0, Running(0)), 1 := Since(0, Waiting(0))])
  {
    hide Prompt, Run, NoEexist;
    Nothing(None, 0, d);
    z := OneMore(None, 0, [], Arrive(0), d);
    z := OneMore(None, 0, z, Arrive(1), d);
    z := OneMore(None, 0, z, Open(0), d);
    assert Run(None, 0, z).calls == map[0 := Since(0, Running(0)), 1 := Since(0, Waiting(0))];
  }

  /** `fn` outlasts the minute: the waiter finds its file stale. */
  lemma {:induction false} BrokenByOverrun(d: nat) returns (z: seq<Action>)
    requires d > Lock.STALE_MS
    ensures Broken(None, 0, z, d, 2, false)
  {
    hide Prompt, Run, NoEexist;
    z := FirstHolds(d);
    z := OneMore(None, 0, z, Pass(Lock.STALE_MS + 1), d);
    z := OneMore(None, 0, z, Open(1), d);
    z := OneMore(None, 0, z, Look(1), d);
    assert Run(None, 0, z).calls == map[0 := Since(0, Running(0)), 1 := Since(0, Clearing)];
    z := OneMore(None, 0, z, Clear(1), d);
    z := OneMore(None, 0, z, Open(1), d);
    assert Run(None, 0, z).calls == map[0 := Since(0, Running(0)), 1 := Since(0, Running(Lock.STALE_MS + 1))];
  }

  /** Two calls that have found the file of a dead process. */
  lemma {:induction false} BothOpened(f: Lock.LockFile, now: nat, d: nat) returns (z: seq<Action>)
    ensures Prompt(Some(f), now, z, d) && NoEexist(z)
    ensures Run(Some(f), now, z) == State(now, Some(f), map[0 := Since(now, Looking), 1 := Since(now, Looking)])
  {
    hide Prompt, Run, NoEexist;
    Nothing(Some(f), now, d);
    z := OneMore(Some(f), now, [], Arrive(0), d);
    z := OneMore(Some(f), now, z, Arrive(1), d);
    z := OneMore(Some(f), now, z, Open(0), d);
    z := OneMore(Some(f), now, z, Open(1), d);
    assert Run(Some(f), now, z).calls == map[0 := Since(now, Looking), 1 := Since(now, Looking)];
  }

  /** Both find it stale. */
  lemma {:induction false} BothClear(f: Lock.LockFile, now: nat, d: nat) returns (z: seq<Action>)
    requires now > f.created + Lock.STALE_MS
    ensures Prompt(Some(f), now, z, d) && NoEexist(z)
    ensures Run(Some(f), now, z) == State(now, Some(f), map[0 := Since(now, Clearing), 1 := Since(now, Clearing)])
  {
    hide Prompt, Run, NoEexist;
    z := BothOpened(f, now, d);
    z := OneMore(Some(f), now, z, Look(0), d);
    z := OneMore(Some(f), now, z, Look(1), d);
    assert Run(Some(f), now, z).calls == map[0 := Since(now, Clearing), 1 := Since(now, Clearing)];
  }

  /** The first removes it and makes its own. */
  lemma {:induction false} FirstTakesOver(f: Lock.LockFile, now: nat, d: nat) returns (z: seq<Action>)
    requires now > f.created + Lock.STALE_MS
    ensures Prompt(Some(f), now, z, d) && NoEexist(z)
    ensures Run(Some(f), now, z)
         == State(now, Some(Lock.LockFile(now, Some(0))), map[0 := Since(now, Running(now)), 1 := Since(now, Clearing)])
  {
    hide Prompt, Run, NoEexist;
    z := BothClear(f, now, d);
    z := OneMore(Some(f), now, z, Clear(0), d);
    z := OneMore(Some(f), now, z, Open(0), d);
    assert Run(Some(f), now, z).calls == map[0 := Since(now, Running(now)), 1 := Since(now, Clearing)];
  }

  /** Two calls find the file of a dead process stale: the second removes the lock the first has made. */
  lemma {:induction false} BrokenByDeadFile(f: Lock.LockFile, d: nat) returns (now: nat, z: seq<Action>)
    ensures Broken(Some(f), now, z, d, 2, false)
  {
    hide Prompt, Run, NoEexist;
    now := f.created + Lock.STALE_MS + 1;
    z := FirstTakesOver(f, now, d);
    z := OneMore(Some(f), now, z, Clear(1), d);
    z := OneMore(Some(f), now, z, Open(1), d);
    assert Run(Some(f), now, z).calls == map[0 := Since(now, Running(now)), 1 := Since(now, Running(now))];
  }

  lemma {:induction false} ThreeWait(d: nat) returns (z: seq<Action>)
    ensures Prompt(None, 0, z, d) && NoEexist(z)
    ensures Run(None, 0, z) == State(0, None, map[0 := Since(0, Waiting(0)), 1 := Since(0, Waiting(0)), 2 := Since(0, Waiting(0))])
  {
    hide Prompt, Run, NoEexist;
    Nothing(None, 0, d);
    z := OneMore(None, 0, [], Arrive(0), d);
    z := OneMore(None, 0, z, Arrive(1), d);
    z := OneMore(None, 0, z, Arrive(2), d);
    assert Run(None, 0, z).calls == map[0 := Since(0, Waiting(0)), 1 := Since(0, Waiting(0)), 2 := Since(0, Waiting(0))];
  }

  /** A call that found the file of one that has since released it. */
  lemma {:induction false} ThirdReleases(d: nat) returns (z: seq<Action>)
    ensures Prompt(None, 0, z, d) && NoEexist(z)
    ensures Run(None, 0, z) == State(0, None, map[0 := Since(0, Looking), 1 := Since(0, Waiting(0)), 2 := Since(0, Over)])
  {
    hide Prompt, Run, NoEexist;
    z := ThreeWait(d);
    z := OneMore(None, 0, z, Open(2), d);
    z := OneMore(None, 0, z, Open(0), d);
    assert Run(None, 0, z).calls == map[0 := Since(0, Looking), 1 := Since(0, Waiting(0)), 2 := Since(0, Running(0))];
    z := OneMore(None, 0, z, End(2, Lock.Returns), d);
    assert Run(None, 0, z).calls == map[0 := Since(0, Looking), 1 := Since(0, Waiting(0)), 2 := Since(0, Over)];
  }

  /** The first is about to remove the file of a third call, and the second has made it anew. */
  lemma {:induction false} SecondTakes(d: nat) returns (z: seq<Action>)
    ensures Prompt(None, 0, z, d) && NoEexist(z)
    ensures Run(None, 0, z) == State(0, Some(Lock.LockFile(0, Some(1))),
                                     map[0 := Since(0, Clearing), 1 := Since(0, Running(0)), 2 := Since(0, Over)])
  {
    hide Prompt, Run, NoEexist;
    z := ThirdReleases(d);
    z := OneMore(None, 0, z, Look(0), d);
    z := OneMore(None, 0, z, Open(1), d);
    assert Run(None, 0, z).calls == map[0 := Since(0, Clearing), 1 := Since(0, Running(0)), 2 := Since(0, Over)];
  }

  /** A missing file counts as stale: the lock released in between has been taken by another call. */
  lemma {:induction false} BrokenByThird(d: nat) returns (z: seq<Action>)
    ensures Broken(None, 0, z, d, 3, false)
  {
    hide Prompt, Run, NoEexist;
    z := SecondTakes(d);
    z := OneMore(None, 0, z, Clear(0), d);
    z := OneMore(None, 0, z, Open(0), d);
    assert Run(None, 0, z).calls == map[0 := Since(0, Running(0)), 1 := Since(0, Running(0)), 2 := Since(0, Over)];
  }

  /** An EEXIST of `fn` itself sends its call to remove a file it no longer owns. */
  lemma {:induction false} BrokenByEexist(d: nat) returns (z: seq<Action>)
    ensures Broken(None, 0, z, d, 2, true)
  {
    hide Prompt, Run, NoEexist;
    z := FirstHolds(d);
    z := OneMore(None, 0, z, End(0, Lock.ThrowsEexist), d);
    z := OneMore(None, 0, z, Look(0), d);
    z := OneMore(None, 0, z, Open(1), d);
    assert Run(None, 0, z).calls == map[0 := Since(0, Clearing), 1 := Since(0, Running(0))];
    z := OneMore(None, 0, z, Clear(0), d);
    z := OneMore(None, 0, z, Open(0), d);
    assert Run(None, 0, z).calls == map[0 := Since(0, Running(0)), 1 := Since(0, Running(0))];
  }

  // ---------------------------------------------------------------------------
  // Exactly when the lock excludes
  // ---------------------------------------------------------------------------

  /**
   * With at most `n` calls, each `fn` over within `d` and, unless `throws`, no EEXIST of its own,
   * no schedule has two `fn` running at once.
   */
  ghost predicate Exclusive(file: Option<Lock.LockFile>, n: nat, throws: bool, d: nat) {
    forall now: nat, schedule, p: Pid, q: Pid ::
      && Prompt(file, now, schedule, d) && (throws || NoEexist(schedule)) && |Run(file, now, schedule).calls| <= n
      && Runs(Run(file, now, schedule), p) && Runs(Run(file, now, schedule), q)
      ==> p == q
  }

  lemma {:induction false} BrokenIsNotExclusive(file: Option<Lock.LockFile>, now: nat, z: seq<Action>, d: nat, m: nat,
                                                n: nat, thrown: bool, throws: bool)
    requires Broken(file, now, z, d, m, thrown) && m <= n && (thrown ==> throws)
    ensures !Exclusive(file, n, throws, d)
  {
    hide Run, Prompt, Runs, NoEexist;
  }

  lemma {:induction false} AloneIsExclusive(file: Option<Lock.LockFile>, n: nat, throws: bool, d: nat)
    requires n <= 1
    ensures Exclusive(file, n, throws, d)
  {
    hide Run, Prompt, NoEexist;
    forall now: nat, schedule, p: Pid, q: Pid
      | && |Run(file, now, schedule).calls| <= n && Runs(Run(file, now, schedule), p) && Runs(Run(file, now, schedule), q)
      ensures p == q
    {
      var calls := Run(file, now, schedule).calls;
      if p != q { Bigger({p, q}, calls.Keys); }
    }
  }

  lemma {:induction false} TwoAreExclusive(d: nat)
    requires d <= Lock.STALE_MS
    ensures Exclusive(None, 2, false, d)
  {
    hide Run, NoEexist, Prompt;
    forall now: nat, schedule, p: Pid, q: Pid
      | && Prompt(None, now, schedule, d) && NoEexist(schedule) && |Run(None, now, schedule).calls| <= 2
        && Runs(Run(None, now, schedule), p) && Runs(Run(None, now, schedule), q)
      ensures p == q
    {
      PromptSooner(None, now, schedule, d);
      RunApart(now, schedule);
    }
  }

  lemma {:induction false} PromptSooner(file: Option<Lock.LockFile>, now: nat, schedule: seq<Action>, d: nat)
    requires Prompt(file, now, schedule, d) && d <= Lock.STALE_MS
    ensures Prompt(file, now, schedule, Lock.STALE_MS)
  {
    hide Run;
    forall n | 0 <= n <= |schedule| ensures InTime(Run(file, now, schedule[..n]), Lock.STALE_MS) {
      assert InTime(Run(file, now, schedule[..n]), d);
    }
  }

  /**
   * With its system calls apart, the lock excludes exactly when there is one call, or two that
   * start without a file, whose `fn` are over within a minute and throw no EEXIST.
   */
  lemma {:induction false} ExclusiveIff(file: Option<Lock.LockFile>, n: nat, throws: bool, d: nat)
    ensures Exclusive(file, n, throws, d) <==> n <= 1 || (n == 2 && file.None? && !throws && d <= Lock.STALE_MS)
  {
    hide Exclusive, Broken;
    if n <= 1 {
      AloneIsExclusive(file, n, throws, d);
    } else if file.Some? {
      var now, z := BrokenByDeadFile(file.value, d);
      BrokenIsNotExclusive(file, now, z, d, 2, n, false, throws);
    } else if throws {
      var z := BrokenByEexist(d);
      BrokenIsNotExclusive(file, 0, z, d, 2, n, true, throws);
    } else if d > Lock.STALE_MS {
      var z := BrokenByOverrun(d);
      BrokenIsNotExclusive(file, 0, z, d, 2, n, false, throws);
    } else if n == 2 {
      TwoAreExclusive(d);
    } else {
      var z := BrokenByThird(d);
      BrokenIsNotExclusive(file, 0, z, d, 3, n, false, throws);
    }
  }
}

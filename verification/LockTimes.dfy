/**
 * packages/cli/src/refresh_lock.ts by the clock: when a call gets the lock, removes a file, waits
 * on or gives up, in milliseconds since it arrived and since the lock file was made.
 */
module LockTimes {
  import opened Wrappers
  import opened RefreshLock

  /** The time after a schedule. */
  function Clock(now: nat, schedule: seq<Action>): nat {
    if schedule == [] then now
    else
      var n := |schedule| - 1;
      Clock(now, schedule[..n]) + (if schedule[n].Pass? then schedule[n].ms else 0)
  }

  /** When a call first arrived. */
  function ArrivedAt(now: nat, schedule: seq<Action>, p: Pid): Option<nat> {
    if schedule == [] then None
    else
      var n := |schedule| - 1;
      var earlier := ArrivedAt(now, schedule[..n], p);
      if earlier.None? && schedule[n] == Arrive(p) then Some(Clock(now, schedule[..n])) else earlier
  }

  /** Every call has a deadline of its own, twenty seconds after it arrived. */
  lemma {:induction false} DeadlineIs(file: Option<LockFile>, now: nat, schedule: seq<Action>, p: Pid)
    ensures var s := Run(file, now, schedule);
            && s.now == Clock(now, schedule)
            && (p in s.calls <==> ArrivedAt(now, schedule, p).Some?)
            && (p in s.calls ==> s.calls[p].deadline == ArrivedAt(now, schedule, p).value + 20_000)
    decreases |schedule|
  {
    if schedule != [] {
      var n := |schedule| - 1;
      DeadlineIs(file, now, schedule[..n], p);
      StepKeeps(Run(file, now, schedule[..n]), schedule[n], p);
    }
  }

  lemma {:induction false} StepKeeps(s: State, a: Action, p: Pid)
    ensures var s2 := Next(s, a);
            && s2.now == s.now + (if a.Pass? then a.ms else 0)
            && (p in s2.calls <==> p in s.calls || a == Arrive(p))
            && (p in s.calls ==> s2.calls[p].deadline == s.calls[p].deadline)
            && (p !in s.calls && a == Arrive(p) ==> s2.calls[p] == Call(Waiting(s.now), s.now + 20_000, 0, 0))
  {
  }

  /** A call that may try now. */
  predicate IsDue(s: State, p: Pid) { p in s.calls && s.calls[p].phase.Waiting? && s.now >= s.calls[p].phase.retryAt }

  /** The lock file is there and not older than a minute. */
  predicate IsLive(s: State) { s.file.Some? && s.now <= s.file.value.created + 60_000 }

  /** How an attempt leaves the call: its phase, and how often it has run `fn`. */
  predicate Leaves(s: State, s2: State, p: Pid, phase: Phase, runs: nat) {
    p in s.calls && s2.calls == s.calls[p := s.calls[p].(phase := phase, runs := s.calls[p].runs + runs)] && s2.now == s.now
  }

  /**
   * An attempt that is due: without a file the call makes one and runs `fn`; a file older than a
   * minute is removed, and the call tries again at once; a live one makes it wait fifty
   * milliseconds, or give up when it arrived twenty seconds ago. One that is not due does nothing.
   */
  lemma {:induction false} AttemptIs(file: Option<LockFile>, now: nat, schedule: seq<Action>, p: Pid)
    ensures var s, s2 := Run(file, now, schedule), Run(file, now, schedule + [Attempt(p)]);
            if !IsDue(s, p) then s2 == s
            else if s.file.None? then s2.file == Some(LockFile(s.now, Some(p))) && Leaves(s, s2, p, Running(s.now), 1)
            else if !IsLive(s) then s2.file == None && Leaves(s, s2, p, Waiting(s.now), 0)
            else
              && s2.file == s.file && ArrivedAt(now, schedule, p).Some?
              && if Clock(now, schedule) >= ArrivedAt(now, schedule, p).value + 20_000 then Leaves(s, s2, p, TimedOut, 0)
                 else Leaves(s, s2, p, Waiting(s.now + 50), 0)
  {
    hide Run, Clock, ArrivedAt;
    DeadlineIs(file, now, schedule, p);
    RunStep(file, now, schedule, Attempt(p));
  }

  /**
   * The end of a `fn` removes the file; the call is over, or, when `fn` threw EEXIST, may try
   * again at once, however late it is.
   */
  lemma {:induction false} EndIs(file: Option<LockFile>, now: nat, schedule: seq<Action>, p: Pid, ending: Ending)
    requires Runs(Run(file, now, schedule), p)
    ensures var s, s2 := Run(file, now, schedule), Run(file, now, schedule + [End(p, ending)]);
            && s2.file == None
            && match ending
               case Returns => Leaves(s, s2, p, Returned, 0)
               case ThrowsOther => Leaves(s, s2, p, Rejected, 0)
               case ThrowsEexist =>
                 && s2.calls == s.calls[p := s.calls[p].(phase := Waiting(s.now), eexists := s.calls[p].eexists + 1)]
                 && s2.now == s.now
  {
    hide Run;
    RunStep(file, now, schedule, End(p, ending));
  }

  /**
   * A call gives up in a step exactly when that is an attempt that is due, the lock file is there
   * and at most a minute old, and the call arrived twenty seconds ago or earlier.
   */
  lemma {:induction false} TimesOutIff(file: Option<LockFile>, now: nat, schedule: seq<Action>, a: Action, p: Pid)
    ensures var s, s2 := Run(file, now, schedule), Run(file, now, schedule + [a]);
            p in s2.calls && s2.calls[p].phase == TimedOut <==>
              || (p in s.calls && s.calls[p].phase == TimedOut)
              || (&& a == Attempt(p) && IsDue(s, p) && IsLive(s) && ArrivedAt(now, schedule, p).Some?
                  && Clock(now, schedule) >= ArrivedAt(now, schedule, p).value + 20_000)
  {
    hide Run, Clock, ArrivedAt;
    DeadlineIs(file, now, schedule, p);
    RunStep(file, now, schedule, a);
  }
}

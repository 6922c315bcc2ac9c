/**
 * packages/cli/src/refresh_lock.ts: any number of waiters serialized by one lock file, which is
 * taken over when it is older than a minute. An acquisition attempt is one atomic step.
 */
module RefreshLock {
  import opened Wrappers

  type Pid = nat

  const WAIT_MS: nat := 20_000
  const RETRY_MS: nat := 50
  const STALE_MS: nat := 60_000

  /** The lock file: when it was created, and by which call; none for one left by a dead process. */
  datatype LockFile = LockFile(created: nat, owner: Option<Pid>)

  /** A call: waiting for its next attempt, running `fn`, or over. */
  datatype Phase =
    | Waiting(retryAt: nat)
    | Running(created: nat)
    | Returned
    | Rejected
    | TimedOut

  /** A call, with how often it has run `fn`, and how often that threw EEXIST. */
  datatype Call = Call(phase: Phase, deadline: nat, runs: nat, eexists: nat)

  datatype State = State(now: nat, file: Option<LockFile>, calls: map<Pid, Call>)

  datatype Ending = Returns | ThrowsEexist | ThrowsOther

  datatype Action = Arrive(pid: Pid) | Attempt(pid: Pid) | End(pid: Pid, ending: Ending) | Pass(ms: nat)

  function Set(s: State, p: Pid, call: Call): State { s.(calls := s.calls[p := call]) }

  predicate IsStale(file: Option<LockFile>, now: nat) { file.None? || now > file.value.created + STALE_MS }

  /** An EEXIST caught: a stale file is removed and the loop goes on; else the deadline, or a delay. */
  function Caught(s: State, p: Pid, call: Call): State {
    if IsStale(s.file, s.now) then Set(s.(file := None), p, call.(phase := Waiting(s.now)))
    else if s.now >= call.deadline then Set(s, p, call.(phase := TimedOut))
    else Set(s, p, call.(phase := Waiting(s.now + RETRY_MS)))
  }

  /** `openSync(lockPath, "wx")`, and what follows when the file exists. */
  function AttemptOf(s: State, p: Pid): State
    requires p in s.calls && s.calls[p].phase.Waiting?
  {
    var call := s.calls[p];
    if s.file.None? then
      Set(s.(file := Some(LockFile(s.now, Some(p)))), p, call.(phase := Running(s.now), runs := call.runs + 1))
    else Caught(s, p, call)
  }

  /** `fn` ends and the lock file is unlinked, whoever's it is; an EEXIST it threw is caught like the lock's own. */
  function EndOf(s: State, p: Pid, ending: Ending): State
    requires p in s.calls && s.calls[p].phase.Running?
  {
    var call := s.calls[p];
    var released := s.(file := None);
    match ending
    case Returns => Set(released, p, call.(phase := Returned))
    case ThrowsOther => Set(released, p, call.(phase := Rejected))
    case ThrowsEexist => Caught(released, p, call.(eexists := call.eexists + 1))
  }

  function Next(s: State, a: Action): State {
    match a
    case Arrive(p) => if p in s.calls then s else Set(s, p, Call(Waiting(s.now), s.now + WAIT_MS, 0, 0))
    case Attempt(p) =>
      if p in s.calls && s.calls[p].phase.Waiting? && s.now >= s.calls[p].phase.retryAt then AttemptOf(s, p) else s
    case End(p, ending) =>
      if p in s.calls && s.calls[p].phase.Running? then EndOf(s, p, ending) else s
    case Pass(ms) => s.(now := s.now + ms)
  }

  /** No `fn` that is running has had its lock file for longer than `d`. */
  ghost predicate InTime(s: State, d: nat) {
    forall p :: p in s.calls && s.calls[p].phase.Running? ==> s.now <= s.calls[p].phase.created + d
  }

  function Run(file: Option<LockFile>, now: nat, schedule: seq<Action>): State {
    if schedule == [] then State(now, file, map[])
    else Next(Run(file, now, schedule[..|schedule| - 1]), schedule[|schedule| - 1])
  }

  /** All along the schedule, every `fn` is over within `d` of the creation of its lock file. */
  ghost predicate Prompt(file: Option<LockFile>, now: nat, schedule: seq<Action>, d: nat) {
    forall n :: 0 <= n <= |schedule| ==> InTime(Run(file, now, schedule[..n]), d)
  }

  // ---------------------------------------------------------------------------
  // Safety
  // ---------------------------------------------------------------------------

  predicate Runs(s: State, p: Pid) { p in s.calls && s.calls[p].phase.Running? }

  /** A running call holds the lock file, which is its own; each call's runs are accounted for. */
  ghost predicate Safe(s: State) {
    && (forall p :: Runs(s, p) ==> s.file == Some(LockFile(s.calls[p].phase.created, Some(p))))
    && forall p :: p in s.calls ==> Accounted(s.calls[p])
  }

  predicate Accounted(call: Call) {
    match call.phase
    case Running(_) | Returned | Rejected => call.runs == call.eexists + 1
    case Waiting(_) | TimedOut => call.runs == call.eexists
  }

  lemma {:induction false} StepSafe(s: State, a: Action)
    requires Safe(s) && InTime(s, STALE_MS)
    ensures Safe(Next(s, a))
    ensures forall p :: Runs(s, p) && Runs(Next(s, a), p) ==> Next(s, a).file == s.file
  {
    forall p, q | Runs(s, p) && Runs(s, q) ensures p == q {
      assert s.file == Some(LockFile(s.calls[p].phase.created, Some(p)));
    }
  }

  lemma {:induction false} RunSafe(file: Option<LockFile>, now: nat, schedule: seq<Action>)
    requires Prompt(file, now, schedule, STALE_MS)
    ensures Safe(Run(file, now, schedule))
    decreases |schedule|
  {
    hide Safe, Next, InTime;
    if schedule == [] {
      StartSafe(file, now);
    } else {
      var before := schedule[..|schedule| - 1];
      forall n | 0 <= n <= |before| ensures InTime(Run(file, now, before[..n]), STALE_MS) { assert before[..n] == schedule[..n]; }
      RunSafe(file, now, before);
      assert InTime(Run(file, now, schedule[..|schedule| - 1]), STALE_MS);
      StepSafe(Run(file, now, before), schedule[|schedule| - 1]);
    }
  }

  lemma {:induction false} StartSafe(file: Option<LockFile>, now: nat)
    ensures Safe(State(now, file, map[]))
  {
  }

  /**
   * Whatever file was left before, for any number of calls: at most one `fn` runs at a time, the
   * lock file is then its own, and a call that returned ran `fn` once, plus once for each EEXIST
   * that `fn` itself threw; a call that timed out did not run it otherwise.
   */
  lemma {:induction false} LockSafety(file: Option<LockFile>, now: nat, schedule: seq<Action>, p: Pid, q: Pid)
    requires Prompt(file, now, schedule, STALE_MS)
    ensures var s := Run(file, now, schedule);
            && (Runs(s, p) && Runs(s, q) ==> p == q)
            && (Runs(s, p) ==> s.file.Some? && s.file.value.owner == Some(p))
            && (p in s.calls && s.calls[p].phase == Returned ==> s.calls[p].runs == s.calls[p].eexists + 1)
            && (p in s.calls && s.calls[p].phase == TimedOut ==> s.calls[p].runs == s.calls[p].eexists)
  {
    RunSafe(file, now, schedule);
  }

  /** No step but a holder's own end removes or replaces its lock file. */
  lemma {:induction false} LiveFileStays(file: Option<LockFile>, now: nat, schedule: seq<Action>, a: Action, p: Pid)
    requires Prompt(file, now, schedule, STALE_MS) && Runs(Run(file, now, schedule), p)
    requires !(a.End? && a.pid == p)
    ensures var s := Run(file, now, schedule);
            Next(s, a).file == s.file && Runs(Next(s, a), p)
  {
    hide Prompt;
    RunSafe(file, now, schedule);
    InTimeAtEnd(file, now, schedule, STALE_MS);
    var s := Run(file, now, schedule);
  }

  lemma {:induction false} InTimeAtEnd(file: Option<LockFile>, now: nat, schedule: seq<Action>, d: nat)
    requires Prompt(file, now, schedule, d)
    ensures InTime(Run(file, now, schedule), d)
  {
    assert schedule[..|schedule|] == schedule;
  }

  // ---------------------------------------------------------------------------
  // How long `fn` may run
  // ---------------------------------------------------------------------------

  lemma {:induction false} RunStep(file: Option<LockFile>, now: nat, schedule: seq<Action>, a: Action)
    ensures Run(file, now, schedule + [a]) == Next(Run(file, now, schedule), a)
  {
    hide Next;
    assert (schedule + [a])[..|schedule|] == schedule;
  }

  lemma {:induction false} PromptStep(file: Option<LockFile>, now: nat, schedule: seq<Action>, a: Action, d: nat)
    requires Prompt(file, now, schedule, d) && InTime(Next(Run(file, now, schedule), a), d)
    ensures Prompt(file, now, schedule + [a], d) && Run(file, now, schedule + [a]) == Next(Run(file, now, schedule), a)
  {
    hide Next, InTime;
    RunStep(file, now, schedule, a);
    var longer := schedule + [a];
    forall n | 0 <= n <= |longer| ensures InTime(Run(file, now, longer[..n]), d) {
      if n <= |schedule| { assert longer[..n] == schedule[..n]; } else { assert longer[..n] == longer; }
    }
  }

  lemma {:induction false} NothingIsPrompt(file: Option<LockFile>, now: nat, d: nat)
    ensures Prompt(file, now, [], d)
  {
  }

  /** When `fn` may outlast the minute, a waiter can take the lock over while it runs. */
  lemma {:induction false} Overrun(d: nat) returns (schedule: seq<Action>)
    requires d > STALE_MS
    ensures Prompt(None, 0, schedule, d) && Runs(Run(None, 0, schedule), 0) && Runs(Run(None, 0, schedule), 1)
  {
    hide Prompt, Run;
    schedule := [];
    NothingIsPrompt(None, 0, d);
    assert Run(None, 0, []) == State(0, None, map[]) by { Nothing(None, 0); }
    PromptStep(None, 0, schedule, Arrive(0), d);
    schedule := schedule + [Arrive(0)];
    PromptStep(None, 0, schedule, Arrive(1), d);
    schedule := schedule + [Arrive(1)];
    PromptStep(None, 0, schedule, Attempt(0), d);
    schedule := schedule + [Attempt(0)];
    PromptStep(None, 0, schedule, Pass(STALE_MS + 1), d);
    schedule := schedule + [Pass(STALE_MS + 1)];
    PromptStep(None, 0, schedule, Attempt(1), d);
    schedule := schedule + [Attempt(1)];
    PromptStep(None, 0, schedule, Attempt(1), d);
    schedule := schedule + [Attempt(1)];
  }

  lemma {:induction false} Nothing(file: Option<LockFile>, now: nat)
    ensures Run(file, now, []) == State(now, file, map[])
  {
  }

  /** However the calls are scheduled, while each `fn` is over within `d`, at most one runs at a time. */
  ghost predicate Exclusive(d: nat) {
    forall file, now: nat, schedule, p: Pid, q: Pid ::
      Prompt(file, now, schedule, d) && Runs(Run(file, now, schedule), p) && Runs(Run(file, now, schedule), q) ==> p == q
  }

  /** A minute is exactly what `fn` may take. */
  lemma {:induction false} ExclusiveIffInTime(d: nat)
    ensures Exclusive(d) <==> d <= STALE_MS
  {
    hide Run, Prompt, Runs;
    if d <= STALE_MS {
      forall file, now: nat, schedule, p: Pid, q: Pid
        | Prompt(file, now, schedule, d) && Runs(Run(file, now, schedule), p) && Runs(Run(file, now, schedule), q)
        ensures p == q
      {
        PromptSooner(file, now, schedule, d);
        LockSafety(file, now, schedule, p, q);
      }
    } else {
      var schedule := Overrun(d);
    }
  }

  lemma {:induction false} PromptSooner(file: Option<LockFile>, now: nat, schedule: seq<Action>, d: nat)
    requires Prompt(file, now, schedule, d) && d <= STALE_MS
    ensures Prompt(file, now, schedule, STALE_MS)
  {
    hide Run;
    forall n | 0 <= n <= |schedule| ensures InTime(Run(file, now, schedule[..n]), STALE_MS) {
      assert InTime(Run(file, now, schedule[..n]), d);
    }
  }
}

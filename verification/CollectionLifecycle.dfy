/** The calls the adapter makes to its host follow one lifecycle, under any order of events. */
module CollectionLifecycle {
  import opened Wrappers
  import opened CollectionSync

  /** Where a collection is in its life; `next` is the least error object not yet reported. */
  datatype Phase = Starting | Healthy(next: nat) | Broken(error: nat) | Ended

  /**
   * `markReady` comes once and before any report; an error is reported only when healthy, a new
   * object each time; health is reported for the same object; nothing follows the failure.
   */
  function Allowed<Row, Key>(phase: Phase, call: HostCall<Row, Key>): Option<Phase> {
    match (phase, call)
    case (Ended, _) => None
    case (_, Fail) => Some(Ended)
    case (_, Begin(_)) => Some(phase)
    case (_, Wrote(_)) => Some(phase)
    case (_, Commit) => Some(phase)
    case (Starting, MarkReady) => Some(Healthy(0))
    case (Healthy(next), ReportError(error)) => if error >= next then Some(Broken(error)) else None
    case (Broken(error), ReportHealthy(same)) => if same == error then Some(Healthy(error + 1)) else None
    case _ => None
  }

  /** The phase after a run of calls; none once the lifecycle was broken. */
  function Monitor<Row, Key>(calls: seq<HostCall<Row, Key>>): Option<Phase> {
    if calls == [] then Some(Starting)
    else
      match Monitor(calls[..|calls| - 1])
      case None => None
      case Some(phase) => Allowed(phase, calls[|calls| - 1])
  }

  lemma {:induction false} MonitorMore<Row, Key>(calls: seq<HostCall<Row, Key>>, call: HostCall<Row, Key>)
    ensures Monitor(calls + [call]) == match Monitor(calls) case None => None case Some(phase) => Allowed(phase, call)
  {
    hide Allowed;
    assert (calls + [call])[..|calls|] == calls;
  }

  /** The adapter's state says which phase its calls have reached. */
  ghost predicate Tracks<Row, Key>(s: Sync<Row, Key>) {
    && (s.detached <==> s.stopped || s.cleaned)
    && (s.interrupted.Some? ==> s.interrupted.value.error < s.errors && s.interrupted.value.reported == s.ready)
    && Monitor(s.trace).Some?
    && InPhase(s, Monitor(s.trace).value)
  }

  ghost predicate InPhase<Row, Key>(s: Sync<Row, Key>, phase: Phase) {
    if s.stopped then phase == Ended
    else if !s.ready then phase == Starting
    else if s.interrupted.Some? then phase == Broken(s.interrupted.value.error)
    else phase.Healthy? && phase.next <= s.errors
  }

  lemma {:induction false} TracksCall<Row, Key>(s: Sync<Row, Key>, call: HostCall<Row, Key>)
    requires Tracks(s) && !s.stopped && (call.Begin? || call.Wrote? || call.Commit?)
    ensures Tracks(Call(s, call))
  {
    MonitorMore(s.trace, call);
  }

  lemma {:induction false} TracksWrites<Row, Key>(s: Sync<Row, Key>, writes: seq<Write<Row, Key>>)
    requires Tracks(s) && !s.stopped
    ensures Tracks(s.(trace := s.trace + AllWrote(writes)))
    decreases |writes|
  {
    hide Tracks;
    if writes == [] {
      assert s.trace + AllWrote(writes) == s.trace;
    } else {
      var before := writes[..|writes| - 1];
      TracksWrites(s, before);
      var s1 := s.(trace := s.trace + AllWrote(before));
      TracksCall(s1, Wrote(writes[|writes| - 1]));
      assert AllWrote(writes) == AllWrote(before) + [Wrote(writes[|writes| - 1])];
      assert s.trace + AllWrote(writes) == s1.trace + [Wrote(writes[|writes| - 1])];
    }
  }

  lemma {:induction false} TracksStop<Row, Key>(s: Sync<Row, Key>)
    requires Tracks(s)
    ensures Tracks(Stop(s))
  {
    MonitorMore(s.trace, Fail);
  }

  lemma {:induction false} TracksReady<Row, Key>(s: Sync<Row, Key>)
    requires Tracks(s) && !s.stopped
    ensures Tracks(MarkSynchronized(s))
  {
    MonitorMore(s.trace, MarkReady);
    if s.interrupted.Some? {
      MonitorMore(s.trace + [MarkReady], ReportError(s.interrupted.value.error));
    }
  }

  lemma {:induction false} TracksInterruption<Row, Key>(s: Sync<Row, Key>)
    requires Tracks(s) && !s.stopped
    ensures Tracks(ReportInterruption(s)) && Tracks(ReportRecovered(s))
  {
    MonitorMore(s.trace, ReportError(s.errors));
    if s.interrupted.Some? { MonitorMore(s.trace, ReportHealthy(s.interrupted.value.error)); }
  }

  lemma {:induction false} TracksTransact<Row, Key>(s: Sync<Row, Key>, snapshot: bool, writes: seq<Write<Row, Key>>,
                                                    m: Maps<Key>, reply: CommitReply)
    requires Tracks(s) && !s.detached
    ensures Tracks(Transact(s, snapshot, writes, m, reply))
  {
    hide Tracks, Monitor, Stop, MarkSynchronized;
    TracksParts(s);
    TracksCall(s, Begin(snapshot));
    TracksWrites(Call(s, Begin(snapshot)), writes);
    var written := s.(trace := s.trace + [Begin(snapshot)] + AllWrote(writes));
    TracksStop(written);
    TracksCall(written, Commit);
    var committed := Call(written, Commit).(rowIds := m.rowIds, keys := m.keys);
    TracksSame(Call(written, Commit), committed);
    TracksReady(committed);
    if reply.Pending? { TracksSame(committed, ObserveReceipt(committed, reply, snapshot)); }
  }

  lemma {:induction false} TracksParts<Row, Key>(s: Sync<Row, Key>)
    requires Tracks(s)
    ensures s.detached <==> s.stopped || s.cleaned
  {
  }

  /** The maps and the receipts do not matter to the lifecycle. */
  lemma {:induction false} TracksSame<Row, Key>(s: Sync<Row, Key>, s2: Sync<Row, Key>)
    requires Tracks(s) && s2 == s.(rowIds := s2.rowIds, keys := s2.keys, pending := s2.pending)
    ensures Tracks(s2)
  {
  }

  lemma {:induction false} TracksCleanup<Row, Key>(s: Sync<Row, Key>)
    requires Tracks(s)
    ensures Tracks(s.(cleaned := true, detached := true, rowIds := map[], keys := map[]))
  {
  }

  lemma {:induction false} HandleTracks<Row, Key>(getKey: Row -> Option<Key>, s: Sync<Row, Key>, e: Event<Row>)
    requires Tracks(s)
    ensures Tracks(Handle(getKey, s, e))
  {
    hide Tracks, Transact, Stop, MarkSynchronized, ReportInterruption, ReportRecovered, ResetMaps, StageBatch;
    TracksParts(s);
    TracksStop(s);
    match e {
      case Reset(rows, reply) =>
        if !s.detached && ResetMaps(getKey, rows).Some? {
          TracksTransact(s, true, Inserts(rows), ResetMaps(getKey, rows).value, reply);
        }
      case Batch(changes, reply) =>
        var staged := StageBatch(getKey, Maps(s.rowIds, s.keys), changes);
        if !s.detached && staged.Some? { TracksTransact(s, false, staged.value.writes, staged.value.maps, reply); }
      case StateChanged(status) => if !s.detached { TracksInterruption(s); }
      case ReceiptApplied(receipt) => TracksReceipt(s, receipt, true);
      case ReceiptRejected(receipt) => TracksReceipt(s, receipt, false);
      case RefreshExhausted =>
      case Cleanup => TracksCleanup(s);
    }
  }

  lemma {:induction false} TracksReceipt<Row, Key>(s: Sync<Row, Key>, receipt: nat, applied: bool)
    requires Tracks(s)
    ensures Tracks(OnReceipt(s, receipt, applied))
  {
    hide Tracks, Stop, MarkSynchronized;
    var s1 := s.(pending := s.pending - {receipt});
    TracksSame(s, s1);
    TracksStop(s1);
    if !s.stopped { TracksReady(s1); }
  }

  /** Under any events in any order, the calls to the host follow the lifecycle. */
  lemma {:induction false} RunFollowsLifecycle<Row, Key>(getKey: Row -> Option<Key>, events: seq<Event<Row>>)
    ensures Tracks(Run(getKey, events)) && Monitor(Run(getKey, events).trace).Some?
    decreases |events|
  {
    hide Handle;
    if events != [] {
      RunFollowsLifecycle(getKey, events[..|events| - 1]);
      HandleTracks(getKey, Run(getKey, events[..|events| - 1]), events[|events| - 1]);
    }
  }

  lemma {:induction false} EndedIsSilent<Row, Key>(getKey: Row -> Option<Key>, s: Sync<Row, Key>, e: Event<Row>)
    requires s.detached && (s.stopped || s.cleaned)
    ensures var s2 := Handle(getKey, s, e); s2.trace == s.trace && s2.detached && (s2.stopped || s2.cleaned)
  {
    hide Transact, MarkSynchronized, ReportInterruption, ReportRecovered;
  }

  /** No call to the host follows a failure or a cleanup, whatever comes afterwards. */
  lemma {:induction false} NothingAfterTheEnd<Row, Key>(getKey: Row -> Option<Key>, events: seq<Event<Row>>, more: seq<Event<Row>>)
    requires Run(getKey, events).stopped || Run(getKey, events).cleaned
    ensures var s := Run(getKey, events + more);
            s.trace == Run(getKey, events).trace && s.detached && (s.stopped || s.cleaned)
    decreases |more|
  {
    hide Handle;
    if more == [] {
      assert events + more == events;
      RunFollowsLifecycle(getKey, events);
    } else {
      var before, last := more[..|more| - 1], more[|more| - 1];
      NothingAfterTheEnd(getKey, events, before);
      assert (events + more)[..|events + more| - 1] == events + before;
      EndedIsSilent(getKey, Run(getKey, events + before), last);
    }
  }
}

/**
 * The whole trace of the adapter, told by the events alone: when a run is over, when the collection
 * is synchronized, which interruption is open, and which calls each event brings to the host.
 */
module CollectionReports {
  import opened Wrappers
  import opened CollectionSync
  import opened CollectionRefinement

  // ---------------------------------------------------------------------------
  // What the events say
  // ---------------------------------------------------------------------------

  function Before<Row>(events: seq<Event<Row>>): seq<Event<Row>>
    requires events != []
  {
    events[..|events| - 1]
  }

  function Last<Row>(events: seq<Event<Row>>): Event<Row>
    requires events != []
  {
    events[|events| - 1]
  }

  /** The rows sent make no sense: a duplicate, a missing row, a key that is taken or cannot be had. */
  ghost predicate Senseless<Row, Key(!new)>(getKey: Row -> Option<Key>, events: seq<Event<Row>>, e: Event<Row>) {
    match e
    case Reset(rows, _) => ServerRows(getKey, rows).None?
    case Batch(changes, _) => ServerRun(getKey, events).None? || ServerBatch(getKey, ServerRun(getKey, events).value, changes).None?
    case _ => false
  }

  /** The event is rows that make sense, and the host takes them with this reply. */
  ghost predicate Taken<Row, Key(!new)>(getKey: Row -> Option<Key>, events: seq<Event<Row>>, e: Event<Row>, reply: CommitReply)
    decreases |events|, 3
  {
    && (e.Reset? || e.Batch?) && e.reply == reply && reply != Throws && !Senseless(getKey, events, e) && !Over(getKey, events)
  }

  /** The receipt of a commit is still open; `full` says that it was for a full set of rows. */
  ghost predicate Awaits<Row, Key(!new)>(getKey: Row -> Option<Key>, events: seq<Event<Row>>, receipt: nat, full: bool)
    decreases |events|, 1
  {
    exists n {:trigger events[n]} :: 0 <= n < |events| && Taken(getKey, events[..n], events[n], Pending(receipt)) && events[n].Reset? == full
      && forall m {:trigger events[m]} :: n < m < |events| ==> !Settles(getKey, events[..m], events[m], receipt)
  }

  /** The receipt is answered, or given out anew. */
  ghost predicate Settles<Row, Key(!new)>(getKey: Row -> Option<Key>, events: seq<Event<Row>>, e: Event<Row>, receipt: nat)
    decreases |events|, 4
  {
    e == ReceiptApplied(receipt) || e == ReceiptRejected(receipt) || Taken(getKey, events, e, Pending(receipt))
  }

  /** The event ends the run: a cleanup, a failure of the connection or its refresh, or rows that are not taken. */
  ghost predicate Ends<Row, Key(!new)>(getKey: Row -> Option<Key>, events: seq<Event<Row>>, e: Event<Row>)
    decreases |events|, 5
  {
    match e
    case Cleanup | RefreshExhausted => true
    case StateChanged(status) => status == Errored || status == Closed
    case Reset(_, reply) => Senseless(getKey, events, e) || reply == Throws
    case Batch(_, reply) => Senseless(getKey, events, e) || reply == Throws
    case ReceiptRejected(receipt) => Awaits(getKey, events, receipt, true) || Awaits(getKey, events, receipt, false)
    case ReceiptApplied(_) => false
  }

  ghost predicate Over<Row, Key(!new)>(getKey: Row -> Option<Key>, events: seq<Event<Row>>)
    decreases |events|, 0
  {
    exists n {:trigger events[n]} :: 0 <= n < |events| && Ends(getKey, events[..n], events[n])
  }

  /** A full set of rows is applied: at once, or by its receipt. */
  ghost predicate Synchronizes<Row, Key(!new)>(getKey: Row -> Option<Key>, events: seq<Event<Row>>, e: Event<Row>) {
    || (e.Reset? && Taken(getKey, events, e, Applied))
    || (e.ReceiptApplied? && Awaits(getKey, events, e.receipt, true) && !Over(getKey, events))
  }

  ghost predicate Synced<Row, Key(!new)>(getKey: Row -> Option<Key>, events: seq<Event<Row>>) {
    exists n {:trigger events[n]} :: 0 <= n < |events| && Synchronizes(getKey, events[..n], events[n])
  }

  predicate Interrupts<Row>(e: Event<Row>) { e == StateChanged(Connecting) || e == StateChanged(Stale) }

  /** An interruption has come, and the connection has not been live since. */
  ghost predicate Open<Row>(events: seq<Event<Row>>) {
    exists n {:trigger events[n]} ::
      && 0 <= n < |events| && Interrupts(events[n])
      && forall m {:trigger events[m]} :: n < m < |events| ==> events[m] != StateChanged(Live)
  }

  /** How many interruptions were opened, each with an error of its own. */
  ghost function Opened<Row>(events: seq<Event<Row>>): nat {
    if events == [] then 0
    else Opened(Before(events)) + if Interrupts(Last(events)) && !Open(Before(events)) then 1 else 0
  }

  // ---------------------------------------------------------------------------
  // One event more
  // ---------------------------------------------------------------------------

  lemma {:induction false} Prefixes<Row>(events: seq<Event<Row>>)
    requires events != []
    ensures forall n :: 0 <= n < |events| ==> events[..n] == Before(events)[..n]
    ensures events[..|events| - 1] == Before(events)
    ensures forall n :: 0 <= n < |events| - 1 ==> events[n] == Before(events)[n]
  {
    forall n | 0 <= n < |events| ensures events[..n] == Before(events)[..n] {
      assert events[..n] == events[..|events| - 1][..n];
    }
  }

  lemma {:induction false} OverMore<Row, Key(!new)>(getKey: Row -> Option<Key>, events: seq<Event<Row>>)
    requires events != []
    ensures Over(getKey, events) <==> Over(getKey, Before(events)) || Ends(getKey, Before(events), Last(events))
  {
    hide Ends;
    Prefixes(events);
  }

  lemma {:induction false} SyncedMore<Row, Key(!new)>(getKey: Row -> Option<Key>, events: seq<Event<Row>>)
    requires events != []
    ensures Synced(getKey, events) <==> Synced(getKey, Before(events)) || Synchronizes(getKey, Before(events), Last(events))
  {
    hide Synchronizes;
    Prefixes(events);
  }

  lemma {:induction false} OpenMore<Row>(events: seq<Event<Row>>)
    requires events != []
    ensures Open(events) <==> Interrupts(Last(events)) || (Open(Before(events)) && Last(events) != StateChanged(Live))
  {
    Prefixes(events);
  }

  lemma {:induction false} AwaitsMore<Row, Key(!new)>(getKey: Row -> Option<Key>, events: seq<Event<Row>>, receipt: nat, full: bool)
    requires events != []
    ensures Awaits(getKey, events, receipt, full) <==>
            if Taken(getKey, Before(events), Last(events), Pending(receipt)) then Last(events).Reset? == full
            else Awaits(getKey, Before(events), receipt, full) && !Settles(getKey, Before(events), Last(events), receipt)
  {
    hide Taken, Settles;
    Prefixes(events);
    var before, last := Before(events), Last(events);
    assert Taken(getKey, before, last, Pending(receipt)) ==> Settles(getKey, before, last, receipt) by {
      TakenSettles(getKey, before, last, receipt);
    }
  }

  lemma {:induction false} TakenSettles<Row, Key(!new)>(getKey: Row -> Option<Key>, events: seq<Event<Row>>, e: Event<Row>, receipt: nat)
    ensures Taken(getKey, events, e, Pending(receipt)) ==> Settles(getKey, events, e, receipt)
  {
    hide Taken;
  }

  // ---------------------------------------------------------------------------
  // The calls an event brings
  // ---------------------------------------------------------------------------

  /** What one change writes, on the server's rows: a row with a new key is deleted and inserted. */
  ghost function ChangeWrites<Row, Key(!new)>(getKey: Row -> Option<Key>, rows: map<RowId, Row>, change: Change<Row>): seq<Write<Row, Key>> {
    match change
    case Moved(_) => []
    case Remove(rowId) => if rowId in rows && getKey(rows[rowId]).Some? then [Delete(getKey(rows[rowId]).value)] else []
    case Upsert(rowId, row) =>
      if rowId !in rows then [Insert(row)]
      else if getKey(rows[rowId]) == getKey(row) then [Update(row)]
      else if getKey(rows[rowId]).Some? then [Delete(getKey(rows[rowId]).value), Insert(row)]
      else []
  }

  ghost function BatchWrites<Row, Key(!new)>(getKey: Row -> Option<Key>, rows: map<RowId, Row>, changes: seq<Change<Row>>): seq<Write<Row, Key>> {
    if changes == [] then []
    else
      var before := changes[..|changes| - 1];
      BatchWrites(getKey, rows, before)
      + match ServerBatch(getKey, rows, before)
        case None => []
        case Some(r) => ChangeWrites(getKey, r, changes[|changes| - 1])
  }

  /** The collection becomes ready, and is told of the interruption that is open. */
  ghost function ReadyCalls<Row, Key(!new)>(getKey: Row -> Option<Key>, events: seq<Event<Row>>): seq<HostCall<Row, Key>> {
    if Synced(getKey, events) then []
    else if Open(events) && Opened(events) > 0 then [MarkReady, ReportError(Opened(events) - 1)]
    else [MarkReady]
  }

  /** One transaction with its writes, as far as the host takes it. */
  ghost function Transaction<Row, Key(!new)>(snapshot: bool, writes: seq<Write<Row, Key>>, reply: CommitReply): seq<HostCall<Row, Key>> {
    [Begin(snapshot)] + seq(|writes|, i requires 0 <= i < |writes| => Wrote(writes[i])) + [if reply == Throws then Fail else Commit]
  }

  ghost function Calls<Row, Key(!new)>(getKey: Row -> Option<Key>, events: seq<Event<Row>>, e: Event<Row>): seq<HostCall<Row, Key>> {
    if Over(getKey, events) then []
    else
      match e
      case Reset(rows, reply) =>
        if Senseless(getKey, events, e) then [Fail]
        else
          Transaction(true, seq(|rows|, i requires 0 <= i < |rows| => Insert(rows[i].row)), reply)
          + if reply == Applied then ReadyCalls(getKey, events) else []
      case Batch(changes, reply) =>
        if Senseless(getKey, events, e) then [Fail]
        else Transaction(false, BatchWrites(getKey, ServerRun(getKey, events).value, changes), reply)
      case StateChanged(Connecting) => InterruptCalls(getKey, events)
      case StateChanged(Stale) => InterruptCalls(getKey, events)
      case StateChanged(Live) =>
        if Synced(getKey, events) && Open(events) && Opened(events) > 0 then [ReportHealthy(Opened(events) - 1)] else []
      case StateChanged(Errored) => [Fail]
      case StateChanged(Closed) => [Fail]
      case StateChanged(Loading) => []
      case ReceiptApplied(receipt) => if Awaits(getKey, events, receipt, true) then ReadyCalls(getKey, events) else []
      case ReceiptRejected(receipt) =>
        if Awaits(getKey, events, receipt, true) || Awaits(getKey, events, receipt, false) then [Fail] else []
      case RefreshExhausted => [Fail]
      case Cleanup => []
  }

  ghost function InterruptCalls<Row, Key(!new)>(getKey: Row -> Option<Key>, events: seq<Event<Row>>): seq<HostCall<Row, Key>> {
    if Synced(getKey, events) && !Open(events) then [ReportError(Opened(events))] else []
  }

  /** The calls of a whole run. */
  ghost function AllCalls<Row, Key(!new)>(getKey: Row -> Option<Key>, events: seq<Event<Row>>): seq<HostCall<Row, Key>> {
    if events == [] then [] else AllCalls(getKey, Before(events)) + Calls(getKey, Before(events), Last(events))
  }

  // ---------------------------------------------------------------------------
  // The state and the events
  // ---------------------------------------------------------------------------

  /** The adapter's state is what the events say. */
  ghost predicate Tells<Row, Key(!new)>(getKey: Row -> Option<Key>, events: seq<Event<Row>>, s: Sync<Row, Key>) {
    && (s.detached <==> s.stopped || s.cleaned) && (s.detached <==> Over(getKey, events))
    && (s.ready <==> Synced(getKey, events))
    && (!s.detached ==> TellsOpen(events, s) && TellsPending(getKey, events, s))
  }

  ghost predicate TellsOpen<Row, Key(!new)>(events: seq<Event<Row>>, s: Sync<Row, Key>) {
    && s.errors == Opened(events) && (s.interrupted.Some? <==> Open(events))
    && (s.interrupted.Some? ==> s.errors > 0 && s.interrupted.value == Interruption(s.errors - 1, s.ready))
  }

  ghost predicate TellsPending<Row, Key(!new)>(getKey: Row -> Option<Key>, events: seq<Event<Row>>, s: Sync<Row, Key>) {
    forall receipt, full :: receipt in s.pending && s.pending[receipt] == full <==> Awaits(getKey, events, receipt, full)
  }

  /** What one handled event has to leave: the state the events say, and their calls. */
  ghost predicate Handled<Row, Key(!new)>(getKey: Row -> Option<Key>, events: seq<Event<Row>>, s: Sync<Row, Key>, s2: Sync<Row, Key>) {
    && Tells(getKey, events, s2)
    && (events != [] ==> s2.trace == s.trace + Calls(getKey, Before(events), Last(events)))
  }

  /** An event that opens no receipt and answers none leaves the receipts. */
  lemma {:induction false} PendingKept<Row, Key(!new)>(getKey: Row -> Option<Key>, events: seq<Event<Row>>, s: Sync<Row, Key>, s2: Sync<Row, Key>)
    requires events != [] && TellsPending(getKey, Before(events), s) && s2.pending == s.pending
    requires forall receipt :: !Settles(getKey, Before(events), Last(events), receipt)
    ensures TellsPending(getKey, events, s2)
  {
    hide Awaits, Settles, Taken;
    forall receipt, full ensures receipt in s2.pending && s2.pending[receipt] == full <==> Awaits(getKey, events, receipt, full) {
      AwaitsMore(getKey, events, receipt, full);
      TakenSettles(getKey, Before(events), Last(events), receipt);
    }
  }

  lemma {:induction false} NotSettling<Row, Key(!new)>(getKey: Row -> Option<Key>, events: seq<Event<Row>>, e: Event<Row>)
    requires !e.ReceiptApplied? && !e.ReceiptRejected? && ((e.Reset? || e.Batch?) ==> !e.reply.Pending?)
    ensures forall receipt :: !Settles(getKey, events, e, receipt)
  {
    hide Over, Senseless;
  }

  /** A handled event after the end. */
  lemma {:induction false} OverIsSilent<Row, Key(!new)>(getKey: Row -> Option<Key>, events: seq<Event<Row>>, s: Sync<Row, Key>)
    requires events != [] && Tells(getKey, Before(events), s) && s.detached
    ensures Handled(getKey, events, s, Handle(getKey, s, Last(events)))
  {
    hide Over, Synced, Ends, Awaits, Senseless, Transact, MarkSynchronized, ReportInterruption, ReportRecovered, TellsOpen, TellsPending;
    OverMore(getKey, events);
    SyncedMore(getKey, events);
    assert s.trace + [] == s.trace;
  }

  lemma {:induction false} EndHandled<Row, Key(!new)>(getKey: Row -> Option<Key>, events: seq<Event<Row>>, s: Sync<Row, Key>, s2: Sync<Row, Key>)
    requires events != [] && Tells(getKey, Before(events), s) && Ends(getKey, Before(events), Last(events))
    requires s2.detached && (s2.stopped || s2.cleaned) && s2.ready == s.ready
    requires s2.trace == s.trace + Calls(getKey, Before(events), Last(events))
    ensures Handled(getKey, events, s, s2)
  {
    hide Over, Synced, Ends, Synchronizes, Calls, TellsOpen, TellsPending;
    OverMore(getKey, events);
    SyncedMore(getKey, events);
    EndIsNoSync(getKey, Before(events), Last(events));
  }

  lemma {:induction false} EndIsNoSync<Row, Key(!new)>(getKey: Row -> Option<Key>, events: seq<Event<Row>>, e: Event<Row>)
    requires Ends(getKey, events, e)
    ensures !Synchronizes(getKey, events, e)
  {
    hide Over, Senseless, Awaits;
  }

  lemma {:induction false} GoesOn<Row, Key(!new)>(getKey: Row -> Option<Key>, events: seq<Event<Row>>, s: Sync<Row, Key>, s2: Sync<Row, Key>)
    requires events != [] && Tells(getKey, Before(events), s) && !s.detached && !Ends(getKey, Before(events), Last(events))
    requires !s2.detached && !s2.stopped && !s2.cleaned
    requires s2.ready <==> s.ready || Synchronizes(getKey, Before(events), Last(events))
    requires TellsOpen(events, s2) && TellsPending(getKey, events, s2)
    requires s2.trace == s.trace + Calls(getKey, Before(events), Last(events))
    ensures Handled(getKey, events, s, s2)
  {
    hide Over, Synced, Ends, Synchronizes, Calls, TellsOpen, TellsPending;
    OverMore(getKey, events);
    SyncedMore(getKey, events);
  }

  lemma {:induction false} OpenKept<Row, Key(!new)>(events: seq<Event<Row>>, s: Sync<Row, Key>, s2: Sync<Row, Key>)
    requires events != [] && TellsOpen(Before(events), s) && !Interrupts(Last(events)) && Last(events) != StateChanged(Live)
    requires s2.errors == s.errors
    requires s2.interrupted == match s.interrupted case None => None case Some(i) => Some(Interruption(i.error, s2.ready))
    ensures TellsOpen(events, s2)
  {
    hide Open;
    OpenMore(events);
  }

  lemma {:induction false} NoCalls<Row, Key(!new)>(s: Sync<Row, Key>)
    ensures s.trace + [] == s.trace
  {
  }

  lemma {:induction false} StateHandled<Row, Key(!new)>(getKey: Row -> Option<Key>, events: seq<Event<Row>>, s: Sync<Row, Key>)
    requires events != [] && Tells(getKey, Before(events), s) && !s.detached && Last(events).StateChanged?
    ensures Handled(getKey, events, s, Handle(getKey, s, Last(events)))
  {
    hide Over, Synced, Open, TellsPending, Handled, Awaits, Settles;
    var s2 := Handle(getKey, s, Last(events));
    NoCalls(s);
    if Last(events).status == Errored || Last(events).status == Closed {
      EndHandled(getKey, events, s, s2);
    } else {
      NotSettling(getKey, Before(events), Last(events));
      PendingKept(getKey, events, s, s2);
      OpenMore(events);
      GoesOn(getKey, events, s, s2);
    }
  }

  /** Becoming ready, or being told again that it is. */
  lemma {:induction false} SynchronizedTells<Row, Key(!new)>(getKey: Row -> Option<Key>, events: seq<Event<Row>>, s: Sync<Row, Key>)
    requires TellsOpen(events, s) && (s.ready <==> Synced(getKey, events))
    ensures var s2 := MarkSynchronized(s);
            && s2.trace == s.trace + ReadyCalls(getKey, events) && s2.ready && s2.errors == s.errors && s2.pending == s.pending
            && s2.interrupted == (match s.interrupted case None => None case Some(i) => Some(Interruption(i.error, true)))
            && s2.detached == s.detached && s2.stopped == s.stopped && s2.cleaned == s.cleaned
  {
    hide Synced, Open;
    NoCalls(s);
    var n := Opened(events) - 1;
    if s.interrupted.Some? {
      assert s.trace + [MarkReady] + [ReportError(n)] == s.trace + [MarkReady, ReportError(n)];
    }
  }

  lemma {:induction false} ReceiptHandled<Row, Key(!new)>(getKey: Row -> Option<Key>, events: seq<Event<Row>>, s: Sync<Row, Key>)
    requires events != [] && Tells(getKey, Before(events), s) && !s.detached
    requires Last(events).ReceiptApplied? || Last(events).ReceiptRejected?
    ensures Handled(getKey, events, s, Handle(getKey, s, Last(events)))
  {
    hide Over, Synced, Open, Handled, Awaits, MarkSynchronized, TellsOpen, Settles, ReadyCalls;
    var s2 := Handle(getKey, s, Last(events));
    var before, receipt := Before(events), Last(events).receipt;
    NoCalls(s);
    if Last(events).ReceiptRejected? && receipt in s.pending {
      EndHandled(getKey, events, s, s2);
    } else {
      var s1 := s.(pending := s.pending - {receipt});
      ReceiptClosed(getKey, events, s, s1);
      if Last(events).ReceiptApplied? && receipt in s.pending && s.pending[receipt] {
        SameOpen(before, s, s1);
        SynchronizedTells(getKey, before, s1);
      }
      ReportedIs(before, s);
      SamePending(getKey, events, s1, s2);
      ReceiptOpen(events, s, s2);
      GoesOn(getKey, events, s, s2);
    }
  }

  lemma {:induction false} ReportedIs<Row, Key(!new)>(events: seq<Event<Row>>, s: Sync<Row, Key>)
    requires TellsOpen(events, s)
    ensures s.interrupted == match s.interrupted case None => None case Some(i) => Some(Interruption(i.error, s.ready))
  {
    hide Open;
  }

  lemma {:induction false} SameOpen<Row, Key(!new)>(events: seq<Event<Row>>, s: Sync<Row, Key>, s1: Sync<Row, Key>)
    requires TellsOpen(events, s) && s1 == s.(pending := s1.pending)
    ensures TellsOpen(events, s1)
  {
    hide Open;
  }

  lemma {:induction false} SamePending<Row, Key(!new)>(getKey: Row -> Option<Key>, events: seq<Event<Row>>, s: Sync<Row, Key>, s2: Sync<Row, Key>)
    requires TellsPending(getKey, events, s) && s2.pending == s.pending
    ensures TellsPending(getKey, events, s2)
  {
    hide Awaits;
  }

  lemma {:induction false} ReceiptOpen<Row, Key(!new)>(events: seq<Event<Row>>, s: Sync<Row, Key>, s2: Sync<Row, Key>)
    requires events != [] && TellsOpen(Before(events), s) && (Last(events).ReceiptApplied? || Last(events).ReceiptRejected?)
    requires s2.errors == s.errors
    requires s2.interrupted == match s.interrupted case None => None case Some(i) => Some(Interruption(i.error, s2.ready))
    ensures TellsOpen(events, s2)
  {
    OpenKept(events, s, s2);
  }

  /** An answered receipt is no longer open; the others are as before. */
  lemma {:induction false} ReceiptClosed<Row, Key(!new)>(getKey: Row -> Option<Key>, events: seq<Event<Row>>, s: Sync<Row, Key>, s1: Sync<Row, Key>)
    requires events != [] && TellsPending(getKey, Before(events), s) && (Last(events).ReceiptApplied? || Last(events).ReceiptRejected?)
    requires s1.pending == s.pending - {Last(events).receipt}
    ensures TellsPending(getKey, events, s1)
  {
    hide Awaits, Over, Senseless;
    forall receipt, full ensures receipt in s1.pending && s1.pending[receipt] == full <==> Awaits(getKey, events, receipt, full) {
      AwaitsMore(getKey, events, receipt, full);
    }
  }

  // ---------------------------------------------------------------------------
  // Rows
  // ---------------------------------------------------------------------------

  /** The writes of one staged change are those the server's rows call for. */
  lemma {:induction false} ChangeWritten<Row, Key(!new)>(getKey: Row -> Option<Key>, server: map<RowId, Row>, so: Staged<Row, Key>,
                                                  rows: map<Key, Row>, change: Change<Row>)
    requires Agrees(getKey, server, so.maps, rows) && StageChange(getKey, so, change).Some?
    ensures StageChange(getKey, so, change).value.writes == so.writes + ChangeWrites(getKey, server, change)
  {
    AgreesIds(getKey, server, so.maps, rows);
    assert so.writes + [] == so.writes;
  }

  lemma {:induction false} BatchWritten<Row, Key(!new)>(getKey: Row -> Option<Key>, server: map<RowId, Row>, m: Maps<Key>,
                                                 rows: map<Key, Row>, changes: seq<Change<Row>>)
    requires Agrees(getKey, server, m, rows) && StageBatch(getKey, m, changes).Some?
    ensures StageBatch(getKey, m, changes).value.writes == BatchWrites(getKey, server, changes)
    decreases |changes|
  {
    hide Agrees, StageChange, ServerChange, ChangeWrites;
    if changes != [] {
      var before := changes[..|changes| - 1];
      var rows1 := BatchAgrees(getKey, server, m, rows, before);
      BatchWritten(getKey, server, m, rows, before);
      ChangeWritten(getKey, ServerBatch(getKey, server, before).value, StageBatch(getKey, m, before).value, rows1, changes[|changes| - 1]);
    }
  }

  /** An attached adapter is in step with the server. */
  ghost predicate Attached<Row, Key(!new)>(getKey: Row -> Option<Key>, events: seq<Event<Row>>, s: Sync<Row, Key>, rows: map<Key, Row>) {
    ServerRun(getKey, events).Some? && Agrees(getKey, ServerRun(getKey, events).value, Maps(s.rowIds, s.keys), rows)
  }

  lemma {:induction false} TransactionIs<Row, Key(!new)>(s: Sync<Row, Key>, snapshot: bool, writes: seq<Write<Row, Key>>)
    ensures s.trace + [Begin(snapshot)] + AllWrote(writes) + [Commit] == s.trace + Transaction(snapshot, writes, Applied)
    ensures s.trace + [Begin(snapshot)] + AllWrote(writes) + [Fail] == s.trace + Transaction(snapshot, writes, Throws)
    ensures forall reply :: reply != Throws ==> Transaction(snapshot, writes, reply) == Transaction(snapshot, writes, Applied)
  {
    assert AllWrote(writes) == seq(|writes|, i requires 0 <= i < |writes| => Wrote(writes[i]));
  }

  /** Rows that make sense, put to the host. */
  lemma {:induction false} TransactHandled<Row, Key(!new)>(getKey: Row -> Option<Key>, events: seq<Event<Row>>, s: Sync<Row, Key>,
                                                    snapshot: bool, writes: seq<Write<Row, Key>>, m: Maps<Key>, reply: CommitReply)
    requires events != [] && Tells(getKey, Before(events), s) && !s.detached && !Senseless(getKey, Before(events), Last(events))
    requires (Last(events).Reset? || Last(events).Batch?) && Last(events).reply == reply && snapshot == Last(events).Reset?
    requires Calls(getKey, Before(events), Last(events))
          == Transaction(snapshot, writes, reply) + if snapshot && reply == Applied then ReadyCalls(getKey, Before(events)) else []
    ensures Handled(getKey, events, s, Transact(s, snapshot, writes, m, reply))
  {
    hide Over, Synced, Open, Handled, Awaits, MarkSynchronized, TellsOpen, TellsPending, Settles, ReadyCalls, Senseless, Calls, Transaction;
    var before := Before(events);
    var s2 := Transact(s, snapshot, writes, m, reply);
    TransactionIs(s, snapshot, writes);
    ReportedIs(before, s);
    if reply == Throws {
      NoCalls(s2);
      assert s2.trace == s.trace + Transaction(snapshot, writes, reply);
      assert Transaction(snapshot, writes, reply) + [] == Transaction(snapshot, writes, reply);
      EndHandled(getKey, events, s, s2);
    } else {
      var written := s.(trace := s.trace + [Begin(snapshot)] + AllWrote(writes));
      var committed := Call(written, Commit).(rowIds := m.rowIds, keys := m.keys);
      CommitHandled(getKey, events, s, committed, snapshot, reply, Transaction(snapshot, writes, reply));
    }
  }

  lemma {:induction false} CommitHandled<Row, Key(!new)>(getKey: Row -> Option<Key>, events: seq<Event<Row>>, s: Sync<Row, Key>,
                                                  committed: Sync<Row, Key>, snapshot: bool, reply: CommitReply,
                                                  calls: seq<HostCall<Row, Key>>)
    requires events != [] && Tells(getKey, Before(events), s) && !s.detached && !Senseless(getKey, Before(events), Last(events))
    requires (Last(events).Reset? || Last(events).Batch?) && Last(events).reply == reply && snapshot == Last(events).Reset? && reply != Throws
    requires committed == s.(rowIds := committed.rowIds, keys := committed.keys, trace := s.trace + calls)
    requires Calls(getKey, Before(events), Last(events)) == calls + if snapshot && reply == Applied then ReadyCalls(getKey, Before(events)) else []
    ensures Handled(getKey, events, s, ObserveReceipt(committed, reply, snapshot))
  {
    hide Over, Synced, Open, Handled, Awaits, MarkSynchronized, TellsOpen, TellsPending, Settles, ReadyCalls, Senseless, Calls;
    var before := Before(events);
    var s2 := ObserveReceipt(committed, reply, snapshot);
    ReportedIs(before, s);
    OpenOf(before, s, committed);
    SynchronizedTells(getKey, before, committed);
    assert s.trace + calls + ReadyCalls(getKey, before) == s.trace + (calls + ReadyCalls(getKey, before));
    assert calls + [] == calls;
    if reply.Pending? {
      ReceiptGiven(getKey, events, s, s2, reply.receipt);
    } else {
      NotSettling(getKey, before, Last(events));
      PendingKept(getKey, events, s, s2);
    }
    OpenKept(events, s, s2);
    GoesOn(getKey, events, s, s2);
  }

  lemma {:induction false} OpenOf<Row, Key(!new)>(events: seq<Event<Row>>, s: Sync<Row, Key>, s1: Sync<Row, Key>)
    requires TellsOpen(events, s) && s1.errors == s.errors && s1.interrupted == s.interrupted && s1.ready == s.ready
    ensures TellsOpen(events, s1)
  {
    hide Open;
  }

  /** A receipt that is given out is open; the others are as before. */
  lemma {:induction false} ReceiptGiven<Row, Key(!new)>(getKey: Row -> Option<Key>, events: seq<Event<Row>>, s: Sync<Row, Key>, s2: Sync<Row, Key>,
                                                 receipt: nat)
    requires events != [] && TellsPending(getKey, Before(events), s) && Taken(getKey, Before(events), Last(events), Pending(receipt))
    requires s2.pending == s.pending[receipt := Last(events).Reset?]
    ensures TellsPending(getKey, events, s2)
  {
    hide Awaits, Over, Senseless;
    forall r, full ensures r in s2.pending && s2.pending[r] == full <==> Awaits(getKey, events, r, full) {
      AwaitsMore(getKey, events, r, full);
    }
  }

  lemma {:induction false} RejectedHandled<Row, Key(!new)>(getKey: Row -> Option<Key>, events: seq<Event<Row>>, s: Sync<Row, Key>)
    requires events != [] && Tells(getKey, Before(events), s) && !s.detached && Senseless(getKey, Before(events), Last(events))
    requires Last(events).Reset? || Last(events).Batch?
    ensures Handled(getKey, events, s, Stop(s))
  {
    hide Over, Synced, Open, Handled, Awaits, TellsOpen, TellsPending, Senseless;
    EndHandled(getKey, events, s, Stop(s));
  }

  lemma {:induction false} RowsHandled<Row, Key(!new)>(getKey: Row -> Option<Key>, events: seq<Event<Row>>, s: Sync<Row, Key>, rows: map<Key, Row>)
    requires events != [] && Tells(getKey, Before(events), s) && !s.detached && Attached(getKey, Before(events), s, rows)
    requires Last(events).Reset? || Last(events).Batch?
    ensures Handled(getKey, events, s, Handle(getKey, s, Last(events)))
  {
    hide Over, Synced, Open, Handled, Awaits, TellsOpen, TellsPending, Transact, ReadyCalls, Transaction, Stop, Agrees, StageBatch, ResetMaps,
      ServerBatch, ServerRows, ServerRun, BatchWrites, Tells;
    var before := Before(events);
    AttachedIsNotOver(getKey, before, s);
    match Last(events) {
      case Reset(sent, reply) =>
        var held := ResetAgrees(getKey, sent);
        if ResetMaps(getKey, sent).Some? {
          InsertsAre<Row, Key>(sent);
          TransactHandled(getKey, events, s, true, Inserts(sent), ResetMaps(getKey, sent).value, reply);
        } else {
          RejectedHandled(getKey, events, s);
        }
      case Batch(changes, reply) =>
        var m, server := Maps(s.rowIds, s.keys), ServerRun(getKey, before).value;
        var held := BatchAgrees(getKey, server, m, rows, changes);
        if StageBatch(getKey, m, changes).Some? {
          BatchWritten(getKey, server, m, rows, changes);
          var so := StageBatch(getKey, m, changes).value;
          assert Transaction(false, so.writes, reply) + [] == Transaction(false, so.writes, reply);
          TransactHandled(getKey, events, s, false, so.writes, so.maps, reply);
        } else {
          RejectedHandled(getKey, events, s);
        }
    }
  }

  lemma {:induction false} AttachedIsNotOver<Row, Key(!new)>(getKey: Row -> Option<Key>, events: seq<Event<Row>>, s: Sync<Row, Key>)
    requires Tells(getKey, events, s) && !s.detached
    ensures !Over(getKey, events)
  {
    hide Over, Synced;
  }

  lemma {:induction false} InsertsAre<Row, Key(!new)>(rows: seq<RawRow<Row>>)
    ensures Inserts<Row, Key>(rows) == seq(|rows|, i requires 0 <= i < |rows| => Insert(rows[i].row))
  {
  }

  // ---------------------------------------------------------------------------
  // Every run
  // ---------------------------------------------------------------------------

  lemma {:induction false} EventHandled<Row, Key(!new)>(getKey: Row -> Option<Key>, events: seq<Event<Row>>, s: Sync<Row, Key>, rows: map<Key, Row>)
    requires events != [] && Tells(getKey, Before(events), s) && (!s.detached ==> Attached(getKey, Before(events), s, rows))
    ensures Handled(getKey, events, s, Handle(getKey, s, Last(events)))
  {
    hide Over, Synced, Open, Handled, Awaits, TellsOpen, TellsPending, Agrees, ServerRun, ResetMaps, StageBatch, Calls, Attached, Transact;
    if s.detached {
      OverIsSilent(getKey, events, s);
    } else {
      var s2 := Handle(getKey, s, Last(events));
      match Last(events) {
        case Reset(_, _) => RowsHandled(getKey, events, s, rows);
        case Batch(_, _) => RowsHandled(getKey, events, s, rows);
        case StateChanged(_) => StateHandled(getKey, events, s);
        case ReceiptApplied(_) => ReceiptHandled(getKey, events, s);
        case ReceiptRejected(_) => ReceiptHandled(getKey, events, s);
        case RefreshExhausted => LastHandled(getKey, events, s);
        case Cleanup => LastHandled(getKey, events, s);
      }
    }
  }

  lemma {:induction false} LastHandled<Row, Key(!new)>(getKey: Row -> Option<Key>, events: seq<Event<Row>>, s: Sync<Row, Key>)
    requires events != [] && Tells(getKey, Before(events), s) && !s.detached && (Last(events) == RefreshExhausted || Last(events) == Cleanup)
    ensures Handled(getKey, events, s, Handle(getKey, s, Last(events)))
  {
    hide Over, Synced, Open, Handled, Awaits, TellsOpen, TellsPending;
    NoCalls(s);
    EndHandled(getKey, events, s, Handle(getKey, s, Last(events)));
  }

  lemma {:induction false} NothingTells<Row, Key(!new)>(getKey: Row -> Option<Key>)
    ensures Tells(getKey, [], Init<Row, Key>())
  {
  }

  lemma {:induction false} StepIn<Row, Key(!new)>(getKey: Row -> Option<Key>, events: seq<Event<Row>>)
    requires events != [] && Tells(getKey, Before(events), Run(getKey, Before(events)))
    ensures Handled(getKey, events, Run(getKey, Before(events)), Run(getKey, events))
  {
    hide Replay, Agrees, Handle, Tells, Handled;
    var before := Before(events);
    var s := Run(getKey, before);
    RunInStep(getKey, before);
    InStepParts(getKey, ServerRun(getKey, before), s);
    EventHandled(getKey, events, s, Replay(getKey, s.trace).value.rows);
  }

  /**
   * After any events in any order: the calls to the host are exactly those the events bring, one
   * after another, and the adapter is over, ready, interrupted and waiting just as the events say.
   */
  lemma {:induction false} RunTells<Row, Key(!new)>(getKey: Row -> Option<Key>, events: seq<Event<Row>>)
    ensures Tells(getKey, events, Run(getKey, events))
    ensures Run(getKey, events).trace == AllCalls(getKey, events)
    decreases |events|
  {
    hide Handle, Tells, Calls;
    if events == [] {
      NothingTells(getKey);
    } else {
      RunTells(getKey, Before(events));
      StepIn(getKey, events);
    }
  }

  lemma {:induction false} ReadyInCalls<Row, Key(!new)>(getKey: Row -> Option<Key>, events: seq<Event<Row>>, e: Event<Row>)
    ensures MarkReady in Calls(getKey, events, e) <==> !Synced(getKey, events) && Synchronizes(getKey, events, e)
  {
    hide Over, Synced, Open, Awaits, Senseless, BatchWrites;
    if e.Reset? || e.Batch? {
      var writes: seq<Write<Row, Key>> :=
        if e.Reset? then seq(|e.rows|, i requires 0 <= i < |e.rows| => Insert(e.rows[i].row))
        else if ServerRun(getKey, events).Some? then BatchWrites(getKey, ServerRun(getKey, events).value, e.changes) else [];
      NotInTransaction(e.Reset?, writes, e.reply);
    }
  }

  lemma {:induction false} NotInTransaction<Row, Key(!new)>(snapshot: bool, writes: seq<Write<Row, Key>>, reply: CommitReply)
    ensures MarkReady !in Transaction(snapshot, writes, reply)
  {
  }

  /**
   * The collection is marked ready exactly when, before any end, a full set of rows that makes sense
   * was applied at once, or the open receipt of one was.
   */
  lemma {:induction false} ReadyIff<Row, Key(!new)>(getKey: Row -> Option<Key>, events: seq<Event<Row>>)
    ensures MarkReady in Run(getKey, events).trace <==> Synced(getKey, events)
    decreases |events|
  {
    hide Synced, Calls, Synchronizes, Handle, Run;
    RunTells(getKey, events);
    if events != [] {
      ReadyIff(getKey, Before(events));
      RunTells(getKey, Before(events));
      SyncedMore(getKey, events);
      ReadyInCalls(getKey, Before(events), Last(events));
    } else {
      NeverSynced(getKey);
    }
  }

  lemma {:induction false} NeverSynced<Row, Key(!new)>(getKey: Row -> Option<Key>)
    ensures !Synced(getKey, [])
  {
  }
}

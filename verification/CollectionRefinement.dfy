/** The keyed collection is the server's rows, re-keyed, after any run that has not stopped. */
module CollectionRefinement {
  import opened Wrappers
  import opened CollectionSync

  /** The maps are mutual inverses, and `rows` is the server's rows under their keys. */
  ghost predicate Agrees<Row, Key(!new)>(getKey: Row -> Option<Key>, server: map<RowId, Row>, m: Maps<Key>, rows: map<Key, Row>) {
    && (forall id :: id in m.rowIds <==> id in server)
    && (forall id :: id in server ==> getKey(server[id]) == Some(m.rowIds[id]))
    && (forall id :: id in m.rowIds ==> m.rowIds[id] in m.keys && m.keys[m.rowIds[id]] == id)
    && (forall key :: key in m.keys ==> m.keys[key] in m.rowIds && m.rowIds[m.keys[key]] == key)
    && (forall key :: key in m.keys <==> key in rows)
    && (forall key :: key in rows ==> m.keys[key] in server && rows[key] == server[m.keys[key]])
  }

  /** Writes applied one after another. */
  ghost function WriteAll<Row, Key(!new)>(getKey: Row -> Option<Key>, rows: map<Key, Row>, writes: seq<Write<Row, Key>>): Option<map<Key, Row>> {
    if writes == [] then Some(rows)
    else
      match WriteAll(getKey, rows, writes[..|writes| - 1])
      case None => None
      case Some(r) => WriteTo(getKey, r, writes[|writes| - 1])
  }

  lemma {:induction false} WriteMore<Row, Key(!new)>(getKey: Row -> Option<Key>, rows: map<Key, Row>,
                                              writes: seq<Write<Row, Key>>, write: Write<Row, Key>)
    ensures WriteAll(getKey, rows, writes + [write])
            == match WriteAll(getKey, rows, writes) case None => None case Some(r) => WriteTo(getKey, r, write)
  {
    hide WriteTo;
    assert (writes + [write])[..|writes|] == writes;
  }

  lemma {:induction false} TakenIff<Row, Key(!new)>(getKey: Row -> Option<Key>, server: map<RowId, Row>, m: Maps<Key>, rows: map<Key, Row>,
                                              rowId: RowId, key: Key)
    requires Agrees(getKey, server, m, rows)
    ensures KeyTaken(getKey, server, rowId, key) <==> key in m.keys && m.keys[key] != rowId
  {
    if key in m.keys && m.keys[key] != rowId {
      var other := m.keys[key];
      assert other in server && getKey(server[other]) == Some(key);
    }
  }

  lemma {:induction false} RemoveAgrees<Row, Key(!new)>(getKey: Row -> Option<Key>, server: map<RowId, Row>,
                                                 m: Maps<Key>, rows: map<Key, Row>, rowId: RowId)
    requires Agrees(getKey, server, m, rows) && rowId in m.rowIds
    ensures m.rowIds[rowId] in rows
    ensures var key := m.rowIds[rowId];
            Agrees(getKey, server - {rowId}, Maps(m.rowIds - {rowId}, m.keys - {key}), rows - {key})
  {
  }

  lemma {:induction false} InsertAgrees<Row, Key(!new)>(getKey: Row -> Option<Key>, server: map<RowId, Row>,
                                                 m: Maps<Key>, rows: map<Key, Row>,
                                                  rowId: RowId, row: Row, key: Key)
    requires Agrees(getKey, server, m, rows) && rowId !in m.rowIds && key !in m.keys && getKey(row) == Some(key)
    ensures WriteTo(getKey, rows, Insert(row)) == Some(rows[key := row])
    ensures Agrees(getKey, server[rowId := row], Maps(m.rowIds[rowId := key], m.keys[key := rowId]), rows[key := row])
  {
  }

  lemma {:induction false} UpdateAgrees<Row, Key(!new)>(getKey: Row -> Option<Key>, server: map<RowId, Row>,
                                                 m: Maps<Key>, rows: map<Key, Row>,
                                                  rowId: RowId, row: Row)
    requires Agrees(getKey, server, m, rows) && rowId in m.rowIds && getKey(row) == Some(m.rowIds[rowId])
    ensures WriteTo(getKey, rows, Update(row)) == Some(rows[m.rowIds[rowId] := row])
    ensures Agrees(getKey, server[rowId := row], m, rows[m.rowIds[rowId] := row])
  {
  }

  /** One change: rejected just when it makes no sense on the server's rows, and else in step with them. */
  lemma {:induction false} ChangeAgrees<Row, Key(!new)>(getKey: Row -> Option<Key>, server: map<RowId, Row>, so: Staged<Row, Key>,
                                                  base: map<Key, Row>, rows: map<Key, Row>, change: Change<Row>)
    returns (rows2: map<Key, Row>)
    requires Agrees(getKey, server, so.maps, rows) && WriteAll(getKey, base, so.writes) == Some(rows)
    ensures StageChange(getKey, so, change).None? <==> ServerChange(getKey, server, change).None?
    ensures StageChange(getKey, so, change).Some? ==>
              var so2 := StageChange(getKey, so, change).value;
              && Agrees(getKey, ServerChange(getKey, server, change).value, so2.maps, rows2)
              && WriteAll(getKey, base, so2.writes) == Some(rows2)
  {
    hide Agrees, WriteAll, KeyTaken;
    rows2 := rows;
    var m := so.maps;
    AgreesIds(getKey, server, m, rows);
    match change {
      case Moved(_) =>
      case Remove(rowId) =>
        if rowId in m.rowIds {
          RemoveAgrees(getKey, server, m, rows, rowId);
          WriteMore(getKey, base, so.writes, Delete(m.rowIds[rowId]));
          rows2 := rows - {m.rowIds[rowId]};
        }
      case Upsert(rowId, row) =>
        if getKey(row).Some? {
          var key := getKey(row).value;
          TakenIff(getKey, server, m, rows, rowId, key);
          if !(key in m.keys && m.keys[key] != rowId) {
            rows2 := UpsertAgrees(getKey, server, so, base, rows, rowId, row, key);
          }
        }
    }
  }

  lemma {:induction false} AgreesIds<Row, Key(!new)>(getKey: Row -> Option<Key>, server: map<RowId, Row>, m: Maps<Key>, rows: map<Key, Row>)
    requires Agrees(getKey, server, m, rows)
    ensures forall id :: id in m.rowIds <==> id in server
    ensures forall id :: id in m.rowIds ==> m.rowIds[id] in m.keys && m.keys[m.rowIds[id]] == id
    ensures forall key :: key in m.keys ==> m.keys[key] in m.rowIds && m.rowIds[m.keys[key]] == key
  {
  }

  lemma {:induction false} UpsertAgrees<Row, Key(!new)>(getKey: Row -> Option<Key>, server: map<RowId, Row>, so: Staged<Row, Key>,
                                                  base: map<Key, Row>, rows: map<Key, Row>, rowId: RowId, row: Row, key: Key)
    returns (rows2: map<Key, Row>)
    requires Agrees(getKey, server, so.maps, rows) && WriteAll(getKey, base, so.writes) == Some(rows)
    requires getKey(row) == Some(key) && (key in so.maps.keys ==> so.maps.keys[key] == rowId)
    ensures StageChange(getKey, so, Upsert(rowId, row)).Some?
    ensures var so2 := StageChange(getKey, so, Upsert(rowId, row)).value;
            && Agrees(getKey, server[rowId := row], so2.maps, rows2) && WriteAll(getKey, base, so2.writes) == Some(rows2)
  {
    hide Agrees, WriteAll;
    var m := so.maps;
    AgreesIds(getKey, server, m, rows);
    if rowId !in m.rowIds {
      InsertAgrees(getKey, server, m, rows, rowId, row, key);
      WriteMore(getKey, base, so.writes, Insert(row));
      rows2 := rows[key := row];
    } else if key == m.rowIds[rowId] {
      UpdateAgrees(getKey, server, m, rows, rowId, row);
      WriteMore(getKey, base, so.writes, Update(row));
      rows2 := rows[key := row];
    } else {
      var previous := m.rowIds[rowId];
      RemoveAgrees(getKey, server, m, rows, rowId);
      var m1 := Maps(m.rowIds - {rowId}, m.keys - {previous});
      InsertAgrees(getKey, server - {rowId}, m1, rows - {previous}, rowId, row, key);
      rows2 := (rows - {previous})[key := row];
      WriteMore(getKey, base, so.writes, Delete(previous));
      WriteMore(getKey, base, so.writes + [Delete(previous)], Insert(row));
      assert so.writes + [Delete(previous)] + [Insert(row)] == so.writes + [Delete(previous), Insert(row)];
      assert (server - {rowId})[rowId := row] == server[rowId := row];
      assert (m.rowIds - {rowId})[rowId := key] == m.rowIds[rowId := key];
    }
  }

  /**
   * A batch is rejected exactly when it makes no sense on the server's rows; otherwise each of its
   * writes is allowed where it comes, and together they leave the server's new rows, re-keyed.
   */
  lemma {:induction false} BatchAgrees<Row, Key(!new)>(getKey: Row -> Option<Key>, server: map<RowId, Row>,
                                                m: Maps<Key>, rows: map<Key, Row>,
                                                 changes: seq<Change<Row>>) returns (rows2: map<Key, Row>)
    requires Agrees(getKey, server, m, rows)
    ensures StageBatch(getKey, m, changes).None? <==> ServerBatch(getKey, server, changes).None?
    ensures StageBatch(getKey, m, changes).Some? ==>
              var so := StageBatch(getKey, m, changes).value;
              && Agrees(getKey, ServerBatch(getKey, server, changes).value, so.maps, rows2)
              && WriteAll(getKey, rows, so.writes) == Some(rows2)
    decreases |changes|
  {
    hide Agrees, StageChange, ServerChange;
    rows2 := rows;
    if changes != [] {
      var before := changes[..|changes| - 1];
      var rows1 := BatchAgrees(getKey, server, m, rows, before);
      if StageBatch(getKey, m, before).Some? {
        rows2 := ChangeAgrees(getKey, ServerBatch(getKey, server, before).value, StageBatch(getKey, m, before).value, rows, rows1,
                              changes[|changes| - 1]);
      }
    }
  }

  /** The same for a full set of rows, written to an empty collection. */
  lemma {:induction false} ResetAgrees<Row, Key(!new)>(getKey: Row -> Option<Key>, rows: seq<RawRow<Row>>) returns (held: map<Key, Row>)
    ensures ResetMaps(getKey, rows).None? <==> ServerRows(getKey, rows).None?
    ensures ResetMaps(getKey, rows).Some? ==>
              && Agrees(getKey, ServerRows(getKey, rows).value, ResetMaps(getKey, rows).value, held)
              && WriteAll(getKey, map[], Inserts(rows)) == Some(held)
    decreases |rows|
  {
    hide Agrees, KeyTaken, WriteTo;
    held := map[];
    if rows == [] {
      assert Inserts<Row, Key>(rows) == [];
      EmptyAgrees(getKey);
    } else {
      var before, last := rows[..|rows| - 1], rows[|rows| - 1];
      var held1 := ResetAgrees(getKey, before);
      if ResetMaps(getKey, before).Some? {
        var m, server := ResetMaps(getKey, before).value, ServerRows(getKey, before).value;
        AgreesIds(getKey, server, m, held1);
        if last.rowId !in m.rowIds && getKey(last.row).Some? {
          var key := getKey(last.row).value;
          TakenIff(getKey, server, m, held1, last.rowId, key);
          if key !in m.keys {
            InsertAgrees(getKey, server, m, held1, last.rowId, last.row, key);
            WriteMore(getKey, map[], Inserts(before), Insert(last.row));
            assert Inserts<Row, Key>(rows) == Inserts(before) + [Insert(last.row)];
            held := held1[key := last.row];
          }
        }
      }
    }
  }

  lemma {:induction false} EmptyAgrees<Row, Key(!new)>(getKey: Row -> Option<Key>)
    ensures Agrees(getKey, map[], Maps(map[], map[]), map[])
  {
  }

  // ---------------------------------------------------------------------------
  // Calls to the host
  // ---------------------------------------------------------------------------

  lemma {:induction false} ReplayMore<Row, Key(!new)>(getKey: Row -> Option<Key>, calls: seq<HostCall<Row, Key>>, call: HostCall<Row, Key>)
    ensures Replay(getKey, calls + [call])
            == match Replay(getKey, calls) case None => None case Some(h) => HostCalled(getKey, h, call)
  {
    hide HostCalled;
    assert (calls + [call])[..|calls|] == calls;
  }

  /** Writes of an open transaction, call by call. */
  lemma {:induction false} ReplayWrites<Row, Key(!new)>(getKey: Row -> Option<Key>, calls: seq<HostCall<Row, Key>>, h: Host<Row, Key>,
                                                        writes: seq<Write<Row, Key>>)
    requires Replay(getKey, calls) == Some(h) && h.open.Some? && WriteAll(getKey, h.open.value, writes).Some?
    ensures Replay(getKey, calls + AllWrote(writes)) == Some(h.(open := WriteAll(getKey, h.open.value, writes)))
    decreases |writes|
  {
    hide WriteTo, Replay;
    if writes == [] {
      assert calls + AllWrote(writes) == calls;
    } else {
      var before, last := writes[..|writes| - 1], writes[|writes| - 1];
      ReplayWrites(getKey, calls, h, before);
      assert AllWrote(writes) == AllWrote(before) + [Wrote(last)];
      assert calls + AllWrote(before) + [Wrote(last)] == calls + AllWrote(writes);
      ReplayMore(getKey, calls + AllWrote(before), Wrote(last));
    }
  }

  /** A whole transaction leaves its rows committed. */
  lemma {:induction false} ReplayTransaction<Row, Key(!new)>(getKey: Row -> Option<Key>, calls: seq<HostCall<Row, Key>>, h: Host<Row, Key>,
                                                             snapshot: bool, writes: seq<Write<Row, Key>>, rows: map<Key, Row>)
    requires Replay(getKey, calls) == Some(h) && h.open.None?
    requires WriteAll(getKey, if snapshot then map[] else h.rows, writes) == Some(rows)
    ensures Replay(getKey, calls + [Begin(snapshot)] + AllWrote(writes)).Some?
    ensures Replay(getKey, calls + [Begin(snapshot)] + AllWrote(writes) + [Commit]) == Some(Host(rows, None))
  {
    hide WriteTo, Replay, WriteAll;
    ReplayMore(getKey, calls, Begin(snapshot));
    ReplayWrites(getKey, calls + [Begin(snapshot)], h.(open := Some(if snapshot then map[] else h.rows)), writes);
    ReplayMore(getKey, calls + [Begin(snapshot)] + AllWrote(writes), Commit);
  }

  /** Calls outside transactions leave the host's rows alone. */
  ghost predicate Plain<Row, Key>(calls: seq<HostCall<Row, Key>>) {
    forall i :: 0 <= i < |calls| ==> !calls[i].Begin? && !calls[i].Wrote? && !calls[i].Commit?
  }

  lemma {:induction false} ReplayPlain<Row, Key(!new)>(getKey: Row -> Option<Key>, calls: seq<HostCall<Row, Key>>,
                                                more: seq<HostCall<Row, Key>>)
    requires Plain(more)
    ensures Replay(getKey, calls + more) == Replay(getKey, calls)
    decreases |more|
  {
    hide WriteTo;
    if more == [] {
      assert calls + more == calls;
    } else {
      ReplayPlain(getKey, calls, more[..|more| - 1]);
      ReplayMore(getKey, calls + more[..|more| - 1], more[|more| - 1]);
      assert calls + more[..|more| - 1] + [more[|more| - 1]] == calls + more;
    }
  }

  // ---------------------------------------------------------------------------
  // Every run
  // ---------------------------------------------------------------------------

  /** The host is in step with the server, while the adapter is attached. */
  ghost predicate InStep<Row, Key(!new)>(getKey: Row -> Option<Key>, server: Option<map<RowId, Row>>, s: Sync<Row, Key>) {
    && Replay(getKey, s.trace).Some?
    && (s.detached <==> s.stopped || s.cleaned)
    && (!s.detached ==>
          && Replay(getKey, s.trace).value.open.None? && server.Some?
          && Agrees(getKey, server.value, Maps(s.rowIds, s.keys), Replay(getKey, s.trace).value.rows))
  }

  /** A step that only reports to the host: same maps, and no transaction. */
  ghost predicate Reports<Row, Key(!new)>(s: Sync<Row, Key>, s2: Sync<Row, Key>) {
    && (s2.detached <==> s2.stopped || s2.cleaned) && (s.detached ==> s2.detached)
    && |s.trace| <= |s2.trace| && s2.trace[..|s.trace|] == s.trace && Plain(s2.trace[|s.trace|..])
    && (!s2.detached ==> s2.rowIds == s.rowIds && s2.keys == s.keys)
  }

  lemma {:induction false} ReportsInStep<Row, Key(!new)>(getKey: Row -> Option<Key>, server: Option<map<RowId, Row>>,
                                                  s: Sync<Row, Key>, s2: Sync<Row, Key>)
    requires InStep(getKey, server, s) && Reports(s, s2)
    ensures InStep(getKey, server, s2)
  {
    hide Replay, Agrees, Plain;
    assert s2.trace == s.trace + s2.trace[|s.trace|..];
    ReplayPlain(getKey, s.trace, s2.trace[|s.trace|..]);
  }

  lemma {:induction false} ReportsMore<Row, Key(!new)>(s: Sync<Row, Key>, s2: Sync<Row, Key>, more: seq<HostCall<Row, Key>>)
    requires s2.trace == s.trace + more && Plain(more)
    requires (s2.detached <==> s2.stopped || s2.cleaned) && (s.detached ==> s2.detached)
    requires !s2.detached ==> s2.rowIds == s.rowIds && s2.keys == s.keys
    ensures Reports(s, s2)
  {
    assert s2.trace[|s.trace|..] == more;
  }

  lemma {:induction false} StopReports<Row, Key(!new)>(s: Sync<Row, Key>, s2: Sync<Row, Key>)
    requires (s.detached <==> s.stopped || s.cleaned) && s2 == Stop(s)
    ensures Reports(s, s2)
  {
    hide Reports;
    ReportsMore(s, s2, if s.cleaned || s.stopped then [] else [Fail]);
  }

  lemma {:induction false} SynchronizedReports<Row, Key(!new)>(s: Sync<Row, Key>, s2: Sync<Row, Key>)
    requires (s.detached <==> s.stopped || s.cleaned) && s2 == MarkSynchronized(s)
    ensures Reports(s, s2)
  {
    hide Reports;
    var ready: seq<HostCall<Row, Key>> := if s.ready then [] else [MarkReady];
    var told: seq<HostCall<Row, Key>> :=
      if s.interrupted.Some? && !s.interrupted.value.reported then [ReportError(s.interrupted.value.error)] else [];
    assert s.trace + ready + told == s.trace + (ready + told);
    ReportsMore(s, s2, ready + told);
  }

  lemma {:induction false} InterruptionReports<Row, Key(!new)>(s: Sync<Row, Key>)
    requires s.detached <==> s.stopped || s.cleaned
    ensures Reports(s, ReportInterruption(s))
  {
    hide Reports;
    ReportsMore(s, ReportInterruption(s), if s.interrupted.None? && s.ready then [ReportError(s.errors)] else []);
  }

  lemma {:induction false} RecoveryReports<Row, Key(!new)>(s: Sync<Row, Key>)
    requires s.detached <==> s.stopped || s.cleaned
    ensures Reports(s, ReportRecovered(s))
  {
    hide Reports;
    ReportsMore(s, ReportRecovered(s), if s.interrupted.Some? && s.ready && s.interrupted.value.reported
                                       then [ReportHealthy(s.interrupted.value.error)] else []);
  }

  lemma {:induction false} StateReports<Row, Key(!new)>(s: Sync<Row, Key>, status: Status)
    requires s.detached <==> s.stopped || s.cleaned
    ensures Reports(s, OnState(s, status))
  {
    hide Reports, Stop, ReportInterruption, ReportRecovered;
    var s2 := OnState(s, status);
    match status {
      case Errored | Closed => StopReports(s, s2);
      case Connecting | Stale => InterruptionReports(s);
      case Live => RecoveryReports(s);
      case Loading => ReportsMore(s, s2, []);
    }
  }

  lemma {:induction false} ReceiptReports<Row, Key(!new)>(s: Sync<Row, Key>, receipt: nat, applied: bool)
    requires s.detached <==> s.stopped || s.cleaned
    ensures Reports(s, OnReceipt(s, receipt, applied))
  {
    hide Reports, Stop, MarkSynchronized;
    var s2 := OnReceipt(s, receipt, applied);
    var s1 := s.(pending := s.pending - {receipt});
    if s2 == s || s2 == s1 {
      ReportsMore(s, s2, []);
    } else {
      if applied { SynchronizedReports(s1, s2); } else { StopReports(s1, s2); }
      SameBase(s, s1, s2);
    }
  }

  lemma {:induction false} SameBase<Row, Key(!new)>(s: Sync<Row, Key>, s1: Sync<Row, Key>, s2: Sync<Row, Key>)
    requires s1 == s.(pending := s1.pending) && Reports(s1, s2)
    ensures Reports(s, s2)
  {
    hide Plain;
  }

  lemma {:induction false} ControlReports<Row, Key(!new)>(getKey: Row -> Option<Key>, s: Sync<Row, Key>, e: Event<Row>)
    requires (s.detached <==> s.stopped || s.cleaned) && !e.Reset? && !e.Batch?
    ensures Reports(s, Handle(getKey, s, e))
  {
    hide Reports, OnState, OnReceipt, Stop;
    var s2 := Handle(getKey, s, e);
    match e {
      case StateChanged(status) => if s.detached { ReportsMore(s, s2, []); } else { StateReports(s, status); }
      case ReceiptApplied(receipt) => ReceiptReports(s, receipt, true);
      case ReceiptRejected(receipt) => ReceiptReports(s, receipt, false);
      case RefreshExhausted => StopReports(s, s2);
      case Cleanup => ReportsMore(s, s2, []);
    }
  }

  lemma {:induction false} ObserveReports<Row, Key(!new)>(s: Sync<Row, Key>, reply: CommitReply, synchronizes: bool)
    requires s.detached <==> s.stopped || s.cleaned
    ensures Reports(s, ObserveReceipt(s, reply, synchronizes))
  {
    hide Reports, MarkSynchronized;
    var s2 := ObserveReceipt(s, reply, synchronizes);
    if reply == Applied && synchronizes { SynchronizedReports(s, s2); } else { ReportsMore(s, s2, []); }
  }

  /** A transaction keeps the host in step, or stops the adapter. */
  lemma {:induction false} TransactInStep<Row, Key(!new)>(getKey: Row -> Option<Key>,
                                                   earlier: Option<map<RowId, Row>>, server: map<RowId, Row>,
                                                          s: Sync<Row, Key>, snapshot: bool, writes: seq<Write<Row, Key>>, m: Maps<Key>,
                                                          reply: CommitReply, rows: map<Key, Row>)
    requires InStep(getKey, earlier, s) && !s.detached && Agrees(getKey, server, m, rows)
    requires WriteAll(getKey, if snapshot then map[] else Replay(getKey, s.trace).value.rows, writes) == Some(rows)
    ensures InStep(getKey, Some(server), Transact(s, snapshot, writes, m, reply))
  {
    hide Replay, Agrees, WriteAll, MarkSynchronized, ObserveReceipt, Stop;
    ReplayTransaction(getKey, s.trace, Replay(getKey, s.trace).value, snapshot, writes, rows);
    var written := s.(trace := s.trace + [Begin(snapshot)] + AllWrote(writes));
    if reply == Throws {
      StopInStep(getKey, Some(server), written);
    } else {
      var committed := Call(written, Commit).(rowIds := m.rowIds, keys := m.keys);
      assert committed.trace == s.trace + [Begin(snapshot)] + AllWrote(writes) + [Commit];
      assert Maps(m.rowIds, m.keys) == m;
      ObserveReports(committed, reply, snapshot);
      ReportsInStep(getKey, Some(server), committed, ObserveReceipt(committed, reply, snapshot));
    }
  }

  lemma {:induction false} StopInStep<Row, Key(!new)>(getKey: Row -> Option<Key>, server: Option<map<RowId, Row>>, s: Sync<Row, Key>)
    requires Replay(getKey, s.trace).Some? && (s.detached <==> s.stopped || s.cleaned)
    ensures InStep(getKey, server, Stop(s))
  {
    hide Replay, Agrees;
    ReplayPlain(getKey, s.trace, [Fail]);
  }

  lemma {:induction false} InStepParts<Row, Key(!new)>(getKey: Row -> Option<Key>, server: Option<map<RowId, Row>>, s: Sync<Row, Key>)
    requires InStep(getKey, server, s)
    ensures Replay(getKey, s.trace).Some? && (s.detached <==> s.stopped || s.cleaned)
    ensures !s.detached ==> server.Some? && Agrees(getKey, server.value, Maps(s.rowIds, s.keys), Replay(getKey, s.trace).value.rows)
  {
    hide Replay, Agrees;
  }

  lemma {:induction false} HandleInStep<Row, Key(!new)>(getKey: Row -> Option<Key>, server: Option<map<RowId, Row>>,
                                                 s: Sync<Row, Key>, e: Event<Row>,
                                                        next: Option<map<RowId, Row>>)
    requires InStep(getKey, server, s)
    requires !s.detached ==>
               next == match e
                       case Reset(rows, _) => ServerRows(getKey, rows)
                       case Batch(changes, _) => ServerBatch(getKey, server.value, changes)
                       case _ => server
    ensures InStep(getKey, next, Handle(getKey, s, e))
  {
    hide Replay, Agrees, Transact, InStep, ResetMaps, StageBatch, ServerRows, ServerBatch, OnReceipt, OnState, Stop, WriteAll;
    InStepParts(getKey, server, s);
    if s.detached {
      DetachedStays(getKey, server, s, e, next);
    } else {
      match e {
        case Reset(rows, reply) =>
          var held := ResetAgrees(getKey, rows);
          if ResetMaps(getKey, rows).Some? {
            TransactInStep(getKey, server, next.value, s, true, Inserts(rows), ResetMaps(getKey, rows).value, reply, held);
          } else {
            StopInStep(getKey, next, s);
          }
        case Batch(changes, reply) =>
          var m := Maps(s.rowIds, s.keys);
          var held := BatchAgrees(getKey, server.value, m, Replay(getKey, s.trace).value.rows, changes);
          if StageBatch(getKey, m, changes).Some? {
            var so := StageBatch(getKey, m, changes).value;
            TransactInStep(getKey, server, next.value, s, false, so.writes, so.maps, reply, held);
          } else {
            StopInStep(getKey, next, s);
          }
        case _ =>
          ControlReports(getKey, s, e);
          ReportsInStep(getKey, server, s, Handle(getKey, s, e));
      }
    }
  }

  lemma {:induction false} DetachedStays<Row, Key(!new)>(getKey: Row -> Option<Key>, server: Option<map<RowId, Row>>,
                                                  s: Sync<Row, Key>, e: Event<Row>,
                                                         next: Option<map<RowId, Row>>)
    requires InStep(getKey, server, s) && s.detached
    ensures InStep(getKey, next, Handle(getKey, s, e))
  {
    hide Replay, Agrees, Plain, InstallReset, ApplyBatch, OnState;
    if !e.Reset? && !e.Batch? {
      ControlReports(getKey, s, e);
      ReportsInStep(getKey, server, s, Handle(getKey, s, e));
    }
  }

  /**
   * After any run, every call to the host was allowed where it came; and while the adapter is
   * attached, its maps are mutual inverses and the host holds the server's rows, re-keyed.
   */
  lemma {:induction false} RunInStep<Row, Key(!new)>(getKey: Row -> Option<Key>, events: seq<Event<Row>>)
    ensures InStep(getKey, ServerRun(getKey, events), Run(getKey, events))
    decreases |events|
  {
    hide Replay, Agrees, Handle, InStep, ServerRows, ServerBatch;
    if events == [] {
      EmptyAgrees(getKey);
      InitInStep(getKey);
    } else {
      var before := events[..|events| - 1];
      RunInStep(getKey, before);
      InStepParts(getKey, ServerRun(getKey, before), Run(getKey, before));
      HandleInStep(getKey, ServerRun(getKey, before), Run(getKey, before), events[|events| - 1], ServerRun(getKey, events));
    }
  }

  lemma {:induction false} InitInStep<Row, Key(!new)>(getKey: Row -> Option<Key>)
    ensures InStep(getKey, Some(map[]), Init())
  {
    EmptyAgrees(getKey);
  }

  /** A rejected reset or batch sends the host no write: only the failure. */
  lemma {:induction false} RejectedIsSilent<Row, Key(!new)>(getKey: Row -> Option<Key>, events: seq<Event<Row>>, e: Event<Row>)
    requires var s := Run(getKey, events); !s.detached
    requires match e
             case Reset(rows, _) => ServerRows(getKey, rows).None?
             case Batch(changes, _) => ServerRun(getKey, events).Some? ==> ServerBatch(getKey, ServerRun(getKey, events).value, changes).None?
             case _ => false
    ensures var s := Run(getKey, events); Handle(getKey, s, e) == Stop(s) && Stop(s).trace == s.trace + [Fail]
  {
    hide Replay, Agrees, Run, ServerRows, ServerBatch, ResetMaps, StageBatch, ServerRun;
    var s := Run(getKey, events);
    RunInStep(getKey, events);
    if e.Reset? {
      var held := ResetAgrees(getKey, e.rows);
    } else {
      var held := BatchAgrees(getKey, ServerRun(getKey, events).value, Maps(s.rowIds, s.keys), Replay(getKey, s.trace).value.rows, e.changes);
    }
  }
}

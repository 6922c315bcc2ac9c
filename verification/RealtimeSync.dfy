/** The sync closure of collection-options.ts as an object that its handlers update in place. */
module RealtimeSync {
  import opened Wrappers
  import opened CollectionSync

  class Adapter<Row, Key(==)> {
    const getKey: Row -> Option<Key>
    var cleaned: bool
    var stopped: bool
    var ready: bool
    var detached: bool
    var interrupted: Option<Interruption>
    var rowIds: map<RowId, Key>
    var keys: map<Key, RowId>
    var pending: map<nat, bool>
    var errors: nat
    var trace: seq<HostCall<Row, Key>>

    function State(): Sync<Row, Key>
      reads this
    {
      Sync(cleaned, stopped, ready, detached, interrupted, rowIds, keys, pending, errors, trace)
    }

    constructor (getKey: Row -> Option<Key>)
      ensures State() == Init() && this.getKey == getKey
    {
      this.getKey := getKey;
      cleaned, stopped, ready, detached := false, false, false, false;
      interrupted, rowIds, keys, pending := None, map[], map[], map[];
      errors, trace := 0, [];
    }

    method Say(call: HostCall<Row, Key>)
      modifies this`trace
      ensures trace == old(trace) + [call]
    {
      trace := trace + [call];
    }

    method Stop()
      modifies this
      ensures State() == CollectionSync.Stop(old(State()))
    {
      if cleaned || stopped { return; }
      stopped := true;
      detached := true;
      rowIds, keys := map[], map[];
      Say(Fail);
    }

    method MarkSynchronized()
      modifies this
      ensures State() == CollectionSync.MarkSynchronized(old(State()))
    {
      if !ready {
        ready := true;
        Say(MarkReady);
      }
      if interrupted.Some? && !interrupted.value.reported {
        Say(ReportError(interrupted.value.error));
        interrupted := Some(interrupted.value.(reported := true));
      }
    }

    method ReportInterruption()
      modifies this
      ensures State() == CollectionSync.ReportInterruption(old(State()))
    {
      if interrupted.Some? { return; }
      var error := errors;
      errors := errors + 1;
      interrupted := Some(Interruption(error, false));
      if ready {
        Say(ReportError(error));
        interrupted := Some(Interruption(error, true));
      }
    }

    method ReportRecovered()
      modifies this
      ensures State() == CollectionSync.ReportRecovered(old(State()))
    {
      if interrupted.None? { return; }
      var recovered := interrupted.value;
      interrupted := None;
      if ready && recovered.reported { Say(ReportHealthy(recovered.error)); }
    }

    method ObserveReceipt(reply: CommitReply, synchronizes: bool)
      modifies this
      ensures State() == CollectionSync.ObserveReceipt(old(State()), reply, synchronizes)
    {
      match reply {
        case Applied => if synchronizes { MarkSynchronized(); }
        case Pending(receipt) => pending := pending[receipt := synchronizes];
        case Throws =>
      }
    }

    method ReceiptSettled(receipt: nat, applied: bool)
      modifies this
      ensures State() == OnReceipt(old(State()), receipt, applied)
    {
      if receipt !in pending { return; }
      var synchronizes := pending[receipt];
      pending := pending - {receipt};
      if !applied {
        Stop();
      } else if !cleaned && !stopped && synchronizes {
        MarkSynchronized();
      }
    }

    method SayWrites(writes: seq<Write<Row, Key>>)
      modifies this`trace
      ensures trace == old(trace) + AllWrote(writes)
    {
      for i := 0 to |writes|
        invariant trace == old(trace) + AllWrote(writes[..i])
      {
        assert AllWrote(writes[..i + 1]) == AllWrote(writes[..i]) + [Wrote(writes[i])];
        Say(Wrote(writes[i]));
      }
      assert writes[..|writes|] == writes;
    }

    /** `begin`, the writes one by one, `commit`; then the new maps are installed. */
    method Transact(snapshot: bool, writes: seq<Write<Row, Key>>, nextRowIds: map<RowId, Key>, nextKeys: map<Key, RowId>, reply: CommitReply)
      modifies this
      ensures State() == CollectionSync.Transact(old(State()), snapshot, writes, Maps(nextRowIds, nextKeys), reply)
    {
      Say(Begin(snapshot));
      SayWrites(writes);
      if reply == Throws {
        Stop();
        return;
      }
      Say(Commit);
      rowIds, keys := nextRowIds, nextKeys;
      ObserveReceipt(reply, snapshot);
    }

    method InstallReset(rows: seq<RawRow<Row>>, reply: CommitReply)
      modifies this
      ensures State() == CollectionSync.InstallReset(getKey, old(State()), rows, reply)
    {
      hide CollectionSync.Transact, CollectionSync.Stop;
      var nextRowIds: map<RowId, Key>, nextKeys: map<Key, RowId> := map[], map[];
      assert rows[..0] == [];
      for i := 0 to |rows|
        invariant State() == old(State())
        invariant ResetMaps(getKey, rows[..i]) == Some(Maps(nextRowIds, nextKeys))
      {
        assert rows[..i + 1][..i] == rows[..i];
        var key := getKey(rows[i].row);
        if key.None? || rows[i].rowId in nextRowIds || key.value in nextKeys {
          RejectedEarly(getKey, rows, i + 1);
          Stop();
          return;
        }
        nextRowIds := nextRowIds[rows[i].rowId := key.value];
        nextKeys := nextKeys[key.value := rows[i].rowId];
      }
      assert rows[..|rows|] == rows;
      Transact(true, Inserts(rows), nextRowIds, nextKeys, reply);
    }

    method ApplyBatch(changes: seq<Change<Row>>, reply: CommitReply)
      modifies this
      ensures State() == CollectionSync.ApplyBatch(getKey, old(State()), changes, reply)
    {
      hide CollectionSync.Transact, CollectionSync.Stop, StageChange;
      var so := Staged(Maps(rowIds, keys), []);
      assert changes[..0] == [];
      for i := 0 to |changes|
        invariant State() == old(State())
        invariant StageBatch(getKey, Maps(rowIds, keys), changes[..i]) == Some(so)
      {
        assert changes[..i + 1][..i] == changes[..i];
        var next := Stage(so, changes[i]);
        if next.None? {
          BatchRejectedEarly(getKey, Maps(rowIds, keys), changes, i + 1);
          Stop();
          return;
        }
        so := next.value;
      }
      assert changes[..|changes|] == changes;
      Transact(false, so.writes, so.maps.rowIds, so.maps.keys, reply);
    }

    /** The branches for one change: the maps are copied, the writes pushed. */
    method Stage(so: Staged<Row, Key>, change: Change<Row>) returns (r: Option<Staged<Row, Key>>)
      ensures r == StageChange(getKey, so, change)
    {
      var nextRowIds, nextKeys, writes := so.maps.rowIds, so.maps.keys, so.writes;
      match change {
        case Moved(_) =>
        case Upsert(rowId, row) =>
          var key := getKey(row);
          if key.None? { return None; }
          if key.value in nextKeys && nextKeys[key.value] != rowId { return None; }
          if rowId !in nextRowIds {
            nextRowIds := nextRowIds[rowId := key.value];
            nextKeys := nextKeys[key.value := rowId];
            writes := writes + [Insert(row)];
          } else if key.value != nextRowIds[rowId] {
            var previous := nextRowIds[rowId];
            nextKeys := nextKeys - {previous};
            nextKeys := nextKeys[key.value := rowId];
            nextRowIds := nextRowIds[rowId := key.value];
            writes := writes + [Delete(previous)] + [Insert(row)];
            assert writes == so.writes + [Delete(previous), Insert(row)];
          } else {
            writes := writes + [Update(row)];
          }
        case Remove(rowId) =>
          if rowId !in nextRowIds { return None; }
          var key := nextRowIds[rowId];
          nextRowIds := nextRowIds - {rowId};
          nextKeys := nextKeys - {key};
          writes := writes + [Delete(key)];
      }
      return Some(Staged(Maps(nextRowIds, nextKeys), writes));
    }

    method StateChanged(status: Status)
      modifies this
      ensures State() == OnState(old(State()), status)
    {
      match status {
        case Errored | Closed => Stop();
        case Connecting | Stale => ReportInterruption();
        case Live => ReportRecovered();
        case Loading =>
      }
    }

    method CleanUp()
      modifies this
      ensures State() == Handle(getKey, old(State()), Cleanup)
    {
      cleaned := true;
      detached := true;
      rowIds, keys := map[], map[];
    }

    /** Any event; updates and states reach only an attached adapter. */
    method Receive(e: Event<Row>)
      modifies this
      ensures State() == Handle(getKey, old(State()), e)
    {
      match e {
        case Reset(rows, reply) => if !detached { InstallReset(rows, reply); }
        case Batch(changes, reply) => if !detached { ApplyBatch(changes, reply); }
        case StateChanged(status) => if !detached { StateChanged(status); }
        case ReceiptApplied(receipt) => ReceiptSettled(receipt, true);
        case ReceiptRejected(receipt) => ReceiptSettled(receipt, false);
        case RefreshExhausted => Stop();
        case Cleanup => CleanUp();
      }
    }
  }

  lemma {:induction false} RejectedEarly<Row, Key>(getKey: Row -> Option<Key>, rows: seq<RawRow<Row>>, i: nat)
    requires i <= |rows| && ResetMaps(getKey, rows[..i]).None?
    ensures ResetMaps(getKey, rows).None?
    decreases |rows| - i
  {
    if i < |rows| {
      assert rows[..i + 1][..i] == rows[..i];
      RejectedEarly(getKey, rows, i + 1);
    } else {
      assert rows[..i] == rows;
    }
  }

  lemma {:induction false} BatchRejectedEarly<Row, Key>(getKey: Row -> Option<Key>, m: Maps<Key>, changes: seq<Change<Row>>, i: nat)
    requires i <= |changes| && StageBatch(getKey, m, changes[..i]).None?
    ensures StageBatch(getKey, m, changes).None?
    decreases |changes| - i
  {
    hide StageChange;
    if i < |changes| {
      assert changes[..i + 1][..i] == changes[..i];
      BatchRejectedEarly(getKey, m, changes, i + 1);
    } else {
      assert changes[..i] == changes;
    }
  }
}

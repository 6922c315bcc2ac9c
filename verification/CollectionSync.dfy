/**
 * packages/realtime-tanstack/src/collection-options.ts: a live query's rows kept in a keyed
 * collection, as a state machine over the events the adapter receives.
 */
module CollectionSync {
  import opened Wrappers

  type RowId = string

  datatype RawRow<Row> = RawRow(rowId: RowId, row: Row)

  datatype Change<Row> = Moved(rowId: RowId) | Upsert(rowId: RowId, row: Row) | Remove(rowId: RowId)

  datatype Write<Row, Key> = Insert(row: Row) | Update(row: Row) | Delete(key: Key)

  /** What the host's `commit` does: it is applied, it returns a receipt, or it throws. */
  datatype CommitReply = Applied | Pending(receipt: nat) | Throws

  datatype Status = Loading | Connecting | Stale | Live | Errored | Closed

  datatype Event<Row> =
    | Reset(rows: seq<RawRow<Row>>, reply: CommitReply)
    | Batch(changes: seq<Change<Row>>, reply: CommitReply)
    | StateChanged(status: Status)
    | ReceiptApplied(receipt: nat)
    | ReceiptRejected(receipt: nat)
    | RefreshExhausted
    | Cleanup

  datatype HostCall<Row, Key> =
    | Begin(snapshot: bool) | Wrote(write: Write<Row, Key>) | Commit
    | MarkReady | ReportError(error: nat) | ReportHealthy(error: nat) | Fail

  /** An interruption: its error object, and whether the host was told. */
  datatype Interruption = Interruption(error: nat, reported: bool)

  datatype Sync<Row, Key> = Sync(
    cleaned: bool,
    stopped: bool,
    ready: bool,
    detached: bool,
    interrupted: Option<Interruption>,
    rowIds: map<RowId, Key>,
    keys: map<Key, RowId>,
    pending: map<nat, bool>,
    errors: nat,
    trace: seq<HostCall<Row, Key>>)

  function Init<Row, Key>(): Sync<Row, Key> {
    Sync(false, false, false, false, None, map[], map[], map[], 0, [])
  }

  // ---------------------------------------------------------------------------
  // The two maps
  // ---------------------------------------------------------------------------

  datatype Maps<Key> = Maps(rowIds: map<RowId, Key>, keys: map<Key, RowId>)

  /** The maps of a full set of rows; none for a duplicate row id or key, or when `getKey` throws. */
  function ResetMaps<Row, Key>(getKey: Row -> Option<Key>, rows: seq<RawRow<Row>>): Option<Maps<Key>> {
    if rows == [] then Some(Maps(map[], map[]))
    else
      var last := rows[|rows| - 1];
      match (ResetMaps(getKey, rows[..|rows| - 1]), getKey(last.row))
      case (Some(m), Some(key)) =>
        if last.rowId in m.rowIds || key in m.keys then None
        else Some(Maps(m.rowIds[last.rowId := key], m.keys[key := last.rowId]))
      case _ => None
  }

  datatype Staged<Row, Key> = Staged(maps: Maps<Key>, writes: seq<Write<Row, Key>>)

  /** One change of a batch. */
  function StageChange<Row, Key>(getKey: Row -> Option<Key>, so: Staged<Row, Key>, change: Change<Row>): Option<Staged<Row, Key>> {
    var m := so.maps;
    match change
    case Moved(_) => Some(so)
    case Remove(rowId) =>
      if rowId !in m.rowIds then None
      else
        var key := m.rowIds[rowId];
        Some(Staged(Maps(m.rowIds - {rowId}, m.keys - {key}), so.writes + [Delete(key)]))
    case Upsert(rowId, row) =>
      match getKey(row)
      case None => None
      case Some(key) =>
        if key in m.keys && m.keys[key] != rowId then None
        else if rowId !in m.rowIds then
          Some(Staged(Maps(m.rowIds[rowId := key], m.keys[key := rowId]), so.writes + [Insert(row)]))
        else if key != m.rowIds[rowId] then
          Some(Staged(Maps(m.rowIds[rowId := key], (m.keys - {m.rowIds[rowId]})[key := rowId]),
                      so.writes + [Delete(m.rowIds[rowId]), Insert(row)]))
        else Some(Staged(m, so.writes + [Update(row)]))
  }

  /** A batch of changes; none when it is rejected. */
  function StageBatch<Row, Key>(getKey: Row -> Option<Key>, m: Maps<Key>, changes: seq<Change<Row>>): Option<Staged<Row, Key>> {
    if changes == [] then Some(Staged(m, []))
    else
      match StageBatch(getKey, m, changes[..|changes| - 1])
      case None => None
      case Some(so) => StageChange(getKey, so, changes[|changes| - 1])
  }

  // ---------------------------------------------------------------------------
  // Handlers
  // ---------------------------------------------------------------------------

  function Call<Row, Key>(s: Sync<Row, Key>, call: HostCall<Row, Key>): Sync<Row, Key> { s.(trace := s.trace + [call]) }

  function AllWrote<Row, Key>(writes: seq<Write<Row, Key>>): (r: seq<HostCall<Row, Key>>)
    ensures |r| == |writes| && forall i :: 0 <= i < |r| ==> r[i] == Wrote(writes[i])
  {
    seq(|writes|, i requires 0 <= i < |writes| => Wrote(writes[i]))
  }

  function Stop<Row, Key>(s: Sync<Row, Key>): Sync<Row, Key> {
    if s.cleaned || s.stopped then s
    else Call(s.(stopped := true, detached := true, rowIds := map[], keys := map[]), Fail)
  }

  function MarkSynchronized<Row, Key>(s: Sync<Row, Key>): Sync<Row, Key> {
    var s1 := if s.ready then s else Call(s.(ready := true), MarkReady);
    match s1.interrupted
    case Some(i) =>
      if i.reported then s1 else Call(s1, ReportError(i.error)).(interrupted := Some(i.(reported := true)))
    case None => s1
  }

  function ReportInterruption<Row, Key>(s: Sync<Row, Key>): Sync<Row, Key> {
    if s.interrupted.Some? then s
    else
      var s1 := s.(errors := s.errors + 1, interrupted := Some(Interruption(s.errors, s.ready)));
      if s.ready then Call(s1, ReportError(s.errors)) else s1
  }

  function ReportRecovered<Row, Key>(s: Sync<Row, Key>): Sync<Row, Key> {
    match s.interrupted
    case None => s
    case Some(i) =>
      var s1 := s.(interrupted := None);
      if s.ready && i.reported then Call(s1, ReportHealthy(i.error)) else s1
  }

  /** `observeReceipt`: `synchronizes` says whether being applied marks the collection synchronized. */
  function ObserveReceipt<Row, Key>(s: Sync<Row, Key>, reply: CommitReply, synchronizes: bool): Sync<Row, Key> {
    match reply
    case Applied => if synchronizes then MarkSynchronized(s) else s
    case Pending(receipt) => s.(pending := s.pending[receipt := synchronizes])
    case Throws => s
  }

  /** `begin`, the writes, `commit`, and the new maps; or a stop when `commit` throws. */
  function Transact<Row, Key>(s: Sync<Row, Key>, snapshot: bool, writes: seq<Write<Row, Key>>, m: Maps<Key>, reply: CommitReply):
    Sync<Row, Key>
  {
    var written := s.(trace := s.trace + [Begin(snapshot)] + AllWrote(writes));
    if reply == Throws then Stop(written)
    else ObserveReceipt(Call(written, Commit).(rowIds := m.rowIds, keys := m.keys), reply, snapshot)
  }

  function Inserts<Row, Key>(rows: seq<RawRow<Row>>): (r: seq<Write<Row, Key>>)
    ensures |r| == |rows| && forall i :: 0 <= i < |r| ==> r[i] == Insert(rows[i].row)
  {
    seq(|rows|, i requires 0 <= i < |rows| => Insert(rows[i].row))
  }

  function InstallReset<Row, Key>(getKey: Row -> Option<Key>, s: Sync<Row, Key>, rows: seq<RawRow<Row>>, reply: CommitReply): Sync<Row, Key> {
    match ResetMaps(getKey, rows)
    case None => Stop(s)
    case Some(m) => Transact(s, true, Inserts(rows), m, reply)
  }

  function ApplyBatch<Row, Key>(getKey: Row -> Option<Key>, s: Sync<Row, Key>, changes: seq<Change<Row>>, reply: CommitReply): Sync<Row, Key> {
    match StageBatch(getKey, Maps(s.rowIds, s.keys), changes)
    case None => Stop(s)
    case Some(so) => Transact(s, false, so.writes, so.maps, reply)
  }

  function OnState<Row, Key>(s: Sync<Row, Key>, status: Status): Sync<Row, Key> {
    match status
    case Errored | Closed => Stop(s)
    case Connecting | Stale => ReportInterruption(s)
    case Live => ReportRecovered(s)
    case Loading => s
  }

  function OnReceipt<Row, Key>(s: Sync<Row, Key>, receipt: nat, applied: bool): Sync<Row, Key> {
    if receipt !in s.pending then s
    else
      var s1 := s.(pending := s.pending - {receipt});
      if !applied then Stop(s1)
      else if !s.cleaned && !s.stopped && s.pending[receipt] then MarkSynchronized(s1)
      else s1
  }

  /** One event; a detached adapter receives no more updates and states. */
  function Handle<Row, Key>(getKey: Row -> Option<Key>, s: Sync<Row, Key>, e: Event<Row>): Sync<Row, Key> {
    match e
    case Reset(rows, reply) => if s.detached then s else InstallReset(getKey, s, rows, reply)
    case Batch(changes, reply) => if s.detached then s else ApplyBatch(getKey, s, changes, reply)
    case StateChanged(status) => if s.detached then s else OnState(s, status)
    case ReceiptApplied(receipt) => OnReceipt(s, receipt, true)
    case ReceiptRejected(receipt) => OnReceipt(s, receipt, false)
    case RefreshExhausted => Stop(s)
    case Cleanup => s.(cleaned := true, detached := true, rowIds := map[], keys := map[])
  }

  function Run<Row, Key>(getKey: Row -> Option<Key>, events: seq<Event<Row>>): Sync<Row, Key> {
    if events == [] then Init() else Handle(getKey, Run(getKey, events[..|events| - 1]), events[|events| - 1])
  }

  // ---------------------------------------------------------------------------
  // The server's rows, and the host's collection
  // ---------------------------------------------------------------------------

  /** Whether a row other than `rowId` has `key`. */
  ghost predicate KeyTaken<Row, Key>(getKey: Row -> Option<Key>, rows: map<RowId, Row>, rowId: RowId, key: Key) {
    exists other :: other in rows && other != rowId && getKey(rows[other]) == Some(key)
  }

  /** A change on the server's own rows; none where it makes no sense there. */
  ghost function ServerChange<Row, Key>(getKey: Row -> Option<Key>, rows: map<RowId, Row>, change: Change<Row>): Option<map<RowId, Row>> {
    match change
    case Moved(_) => Some(rows)
    case Remove(rowId) => if rowId in rows then Some(rows - {rowId}) else None
    case Upsert(rowId, row) =>
      if getKey(row).None? || KeyTaken(getKey, rows, rowId, getKey(row).value) then None else Some(rows[rowId := row])
  }

  ghost function ServerBatch<Row, Key>(getKey: Row -> Option<Key>, rows: map<RowId, Row>, changes: seq<Change<Row>>): Option<map<RowId, Row>> {
    if changes == [] then Some(rows)
    else
      match ServerBatch(getKey, rows, changes[..|changes| - 1])
      case None => None
      case Some(r) => ServerChange(getKey, r, changes[|changes| - 1])
  }

  ghost function ServerRows<Row, Key>(getKey: Row -> Option<Key>, rows: seq<RawRow<Row>>): Option<map<RowId, Row>> {
    if rows == [] then Some(map[])
    else
      var last := rows[|rows| - 1];
      match ServerRows(getKey, rows[..|rows| - 1])
      case None => None
      case Some(m) =>
        if last.rowId in m then None else ServerChange(getKey, m, Upsert(last.rowId, last.row))
  }

  /** The rows the server has sent, over a run. */
  ghost function ServerRun<Row, Key>(getKey: Row -> Option<Key>, events: seq<Event<Row>>): Option<map<RowId, Row>> {
    if events == [] then Some(map[])
    else
      match ServerRun(getKey, events[..|events| - 1])
      case None => None
      case Some(rows) =>
        match events[|events| - 1]
        case Reset(sent, _) => ServerRows(getKey, sent)
        case Batch(changes, _) => ServerBatch(getKey, rows, changes)
        case _ => Some(rows)
  }

  /** The host: its committed rows by key, and the open transaction. */
  datatype Host<Row, Key> = Host(rows: map<Key, Row>, open: Option<map<Key, Row>>)

  /** A write inside a transaction: an insert needs its key absent, an update or a delete present. */
  ghost function WriteTo<Row, Key>(getKey: Row -> Option<Key>, rows: map<Key, Row>, write: Write<Row, Key>): Option<map<Key, Row>> {
    match write
    case Insert(row) => if getKey(row).None? || getKey(row).value in rows then None else Some(rows[getKey(row).value := row])
    case Update(row) => if getKey(row).None? || getKey(row).value !in rows then None else Some(rows[getKey(row).value := row])
    case Delete(key) => if key in rows then Some(rows - {key}) else None
  }

  ghost function HostCalled<Row, Key>(getKey: Row -> Option<Key>, h: Host<Row, Key>, call: HostCall<Row, Key>): Option<Host<Row, Key>> {
    match call
    case Begin(snapshot) => if h.open.Some? then None else Some(h.(open := Some(if snapshot then map[] else h.rows)))
    case Wrote(write) =>
      (match h.open
       case None => None
       case Some(rows) =>
         match WriteTo(getKey, rows, write) case None => None case Some(r) => Some(h.(open := Some(r))))
    case Commit => (match h.open case None => None case Some(rows) => Some(Host(rows, None)))
    case _ => Some(h)
  }

  /** What the host holds after a run of calls; none once a call was not allowed. */
  ghost function Replay<Row, Key>(getKey: Row -> Option<Key>, calls: seq<HostCall<Row, Key>>): Option<Host<Row, Key>> {
    if calls == [] then Some(Host(map[], None))
    else
      match Replay(getKey, calls[..|calls| - 1])
      case None => None
      case Some(h) => HostCalled(getKey, h, calls[|calls| - 1])
  }
}

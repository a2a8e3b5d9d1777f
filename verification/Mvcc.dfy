/**
 MVCC garbage collection: the two loops of the MVCC delete plugin, interleaved step by step with
 transactions.  One table; the state is a value and every atomic action of the code is a `Step`.
 */
module Mvcc {

  /** Commit ids at or above this value mean "not committed" (MvccData::MAX_COMMIT_ID). */
  const MAX_COMMIT_ID: nat := 0xFFFF_FFFE

  datatype RowId = RowId(chunk: nat, offset: nat)

  /** One row: its contents, its begin and end commit ids, and the transaction that holds it (0 for none). */
  datatype Row = Row(data: int, begin: nat, end: nat, tid: nat)

  /** One entry of the table's chunk list; `cleanup` is the cleanup commit id, 0 while unset. */
  datatype Slot = Present(size: nat, cleanup: nat) | Removed

  datatype Phase = Unregistered | Active | RollingBack | Committing(cid: nat) | Committed(cid: nat)

  datatype Stage = Chosen | Validated | Stamped | Queued

  /** What a transaction is for: a client's work, or the logical delete of one chunk. */
  datatype Job = Client | Cleaner(chunk: nat, stage: Stage, todo: set<RowId>, copies: map<RowId, RowId>)

  datatype Txn = Txn(snapshot: nat, phase: Phase, deletes: set<RowId>, inserts: set<RowId>, job: Job)

  datatype Physical = Idle | Cleared(chunk: nat)

  datatype State = State(
    slots: seq<Slot>,            // the chunk list of the table
    rows: map<RowId, Row>,       // the rows of the chunks that are present
    txns: map<nat, Txn>,         // transaction contexts that exist, by transaction id
    nextTid: nat,
    last: nat,                   // the last published commit id
    issued: nat,                 // the last commit id handed out
    committer: map<nat, nat>,    // who holds the commit ids that are not published yet
    queue: seq<nat>,             // the physical delete queue
    log: seq<nat>,               // every chunk ever put into the queue
    physical: Physical,
    cleaned: map<nat, nat>)      // history: the snapshot at which a stamped chunk was validated

  datatype Step =
    | Begin                                      // new_transaction_context reads the last commit id ...
    | BeginCleaner(chunk: nat)
    | Register(t: nat)                           // ... and the context's constructor registers it
    | LockRow(t: nat, r: RowId)                  // Delete: compare-and-swap of the row's transaction id
    | Conflict(t: nat, r: RowId)                 // Delete: the compare-and-swap fails
    | Abort(t: nat)
    | InsertRow(t: nat, data: int, newChunk: bool)
    | ValidateChunk(t: nat)                      // logical delete: GetTable and Validate on one chunk
    | CopyRow(t: nat, r: RowId, newChunk: bool)  // logical delete: Insert of a validated row
    | PrepareCommit(t: nat)
    | CommitDelete(t: nat, r: RowId)
    | CommitInsert(t: nat, r: RowId)
    | Publish(t: nat)
    | UndoLock(t: nat, r: RowId)
    | UndoInsertEnd(t: nat, r: RowId)
    | UndoInsertBegin(t: nat, r: RowId)
    | Deregister(t: nat)
    | Stamp(t: nat)                              // set_cleanup_commit_id
    | Enqueue(t: nat)
    | CheckQueue                                 // physical delete: no older snapshot is active
    | RemoveChunk
    | Stop

  // ---------------------------------------------------------------- visibility

  /** Validate::is_row_visible. */
  predicate IsRowVisible(tid: nat, snapshot: nat, row: Row) {
    snapshot < row.end && ((snapshot >= row.begin) != (row.tid == tid))
  }

  /** Committed by the time of the snapshot, and not yet deleted then. */
  predicate VisibleAt(row: Row, snapshot: nat) {
    row.begin <= snapshot < row.end
  }

  /** The table as of a snapshot: the visible rows, by position. */
  function View(s: State, snapshot: nat): map<RowId, int> {
    map r | r in s.rows && VisibleAt(s.rows[r], snapshot) :: s.rows[r].data
  }

  /** GetTable leaves out chunks whose cleanup commit id the snapshot has reached. */
  predicate Skipped(s: State, chunk: nat, snapshot: nat) {
    chunk < |s.slots| && s.slots[chunk].Present? && s.slots[chunk].cleanup != 0 && s.slots[chunk].cleanup <= snapshot
  }

  /** What GetTable and Validate hand to a transaction. */
  function Read(s: State, t: nat): map<RowId, int>
    requires t in s.txns
  {
    map r | r in s.rows && !Skipped(s, r.chunk, s.txns[t].snapshot) && IsRowVisible(t, s.txns[t].snapshot, s.rows[r])
      :: s.rows[r].data
  }

  // ---------------------------------------------------------------- the steps

  predicate IsPresent(s: State, chunk: nat) {
    chunk < |s.slots| && s.slots[chunk].Present?
  }

  predicate Registered(x: Txn) {
    !x.phase.Unregistered?
  }

  predicate Runs(s: State, t: nat, phase: Phase) {
    t in s.txns && s.txns[t].phase == phase
  }

  predicate IsCleaner(s: State, t: nat) {
    t in s.txns && s.txns[t].job.Cleaner?
  }

  predicate Enabled(s: State, step: Step) {
    match step
    case Begin => true
    case BeginCleaner(c) =>
      // one logical delete thread, which skips the last chunk and chunks that are cleaned already; by the
      // time the transaction begins, the metrics that led to it may have changed
      && (forall t :: t in s.txns ==> s.txns[t].job.Client?)
      && c + 1 < |s.slots| && IsPresent(s, c) && s.slots[c].cleanup == 0
    case Register(t) => Runs(s, t, Unregistered)
    case LockRow(t, r) =>
      && Runs(s, t, Active) && r in s.rows && IsRowVisible(t, s.txns[t].snapshot, s.rows[r]) && s.rows[r].tid == 0
      && (IsCleaner(s, t) ==> r in s.txns[t].job.todo)
    case Conflict(t, r) =>
      && Runs(s, t, Active) && r in s.rows && s.rows[r].tid != 0 && s.rows[r].tid != t
      && (IsCleaner(s, t) ==> r in s.txns[t].job.todo && s.txns[t].job.copies == map[])
    case Abort(t) => Runs(s, t, Active) && !IsCleaner(s, t)
    case InsertRow(t, data, newChunk) => Runs(s, t, Active) && !IsCleaner(s, t) && CanAppend(s, newChunk)
    case ValidateChunk(t) => Runs(s, t, Active) && IsCleaner(s, t) && s.txns[t].job.stage.Chosen?
    case CopyRow(t, r, newChunk) =>
      && Runs(s, t, Active) && IsCleaner(s, t) && s.txns[t].job.stage.Validated?
      && s.txns[t].deletes == s.txns[t].job.todo
      && r in s.txns[t].job.todo && r !in s.txns[t].job.copies && r in s.rows && CanAppend(s, newChunk)
    case PrepareCommit(t) =>
      && Runs(s, t, Active) && s.issued + 1 < MAX_COMMIT_ID
      && (IsCleaner(s, t) ==> var job := s.txns[t].job;
            job.stage.Validated? && s.txns[t].deletes == job.todo && job.copies.Keys == job.todo)
    case CommitDelete(t, r) =>
      && t in s.txns && s.txns[t].phase.Committing? && r in s.txns[t].deletes && r in s.rows
    case CommitInsert(t, r) =>
      && t in s.txns && s.txns[t].phase.Committing? && r in s.txns[t].inserts && r in s.rows
    case Publish(t) =>
      && t in s.txns && s.txns[t].phase == Committing(s.last + 1)
      && (forall r :: r in s.txns[t].deletes ==> r in s.rows && s.rows[r].end == s.last + 1)
      && (forall r :: r in s.txns[t].inserts ==> r in s.rows && s.rows[r].begin == s.last + 1)
    case UndoLock(t, r) => Runs(s, t, RollingBack) && r in s.txns[t].deletes && r in s.rows
    case UndoInsertEnd(t, r) => Runs(s, t, RollingBack) && r in s.txns[t].inserts && r in s.rows
    case UndoInsertBegin(t, r) =>
      && Runs(s, t, RollingBack) && r in s.txns[t].inserts
      && forall r' :: r' in s.txns[t].inserts ==> r' in s.rows && s.rows[r'].end == 0
    case Deregister(t) =>
      && t in s.txns
      && match s.txns[t].phase {
           case Active => !IsCleaner(s, t) && s.txns[t].deletes == {} && s.txns[t].inserts == {}
           case RollingBack => s.txns[t].deletes == {} && s.txns[t].inserts == {}
           case Committed(_) => IsCleaner(s, t) ==> s.txns[t].job.stage.Queued?
           case _ => false
         }
    case Stamp(t) =>
      && IsCleaner(s, t) && s.txns[t].phase.Committed? && s.txns[t].job.stage.Validated?
      && IsPresent(s, s.txns[t].job.chunk)
    case Enqueue(t) => IsCleaner(s, t) && s.txns[t].job.stage.Stamped? && s.physical.Idle?
    case CheckQueue =>
      // get_lowest_active_snapshot_commit_id looks at the registered transactions only
      && s.physical.Idle? && |s.queue| > 0 && IsPresent(s, s.queue[0]) && s.slots[s.queue[0]].cleanup != 0
      && forall t :: t in s.txns && Registered(s.txns[t]) ==> s.slots[s.queue[0]].cleanup <= s.txns[t].snapshot
    case RemoveChunk => s.physical.Cleared? && |s.queue| > 0 && s.physical.chunk < |s.slots|
    case Stop => s.physical.Idle? && forall t :: t in s.txns ==> s.txns[t].job.Client?
  }

  function SetRow(s: State, r: RowId, row: Row): State {
    s.(rows := s.rows[r := row])
  }

  function SetTxn(s: State, t: nat, x: Txn): State {
    s.(txns := s.txns[t := x])
  }

  /** Is there a chunk to append to? */
  predicate CanAppend(s: State, newChunk: bool) {
    newChunk || (|s.slots| != 0 && IsPresent(s, |s.slots| - 1))
  }

  /** The position that an insert appends to. */
  function NewRowId(s: State, newChunk: bool): RowId
    requires CanAppend(s, newChunk)
  {
    if newChunk then RowId(|s.slots|, 0) else RowId(|s.slots| - 1, s.slots[|s.slots| - 1].size)
  }

  function Append(s: State, t: nat, data: int, newChunk: bool): State
    requires CanAppend(s, newChunk)
  {
    var r := NewRowId(s, newChunk);
    var row := Row(data, MAX_COMMIT_ID, MAX_COMMIT_ID, t);
    var slots :=
      if newChunk then s.slots + [Present(1, 0)] else s.slots[r.chunk := s.slots[r.chunk].(size := r.offset + 1)];
    s.(slots := slots, rows := s.rows[r := row])
  }

  /** The rows of the chunk that the cleaner's transaction sees. */
  function ChunkView(s: State, t: nat, chunk: nat): set<RowId>
    requires t in s.txns
  {
    set r | r in s.rows && r.chunk == chunk && IsRowVisible(t, s.txns[t].snapshot, s.rows[r])
  }

  function NewTxn(s: State, job: Job): State {
    s.(txns := s.txns[s.nextTid := Txn(s.last, Unregistered, {}, {}, job)], nextTid := s.nextTid + 1)
  }

  function Apply(s: State, step: Step): State
    requires Enabled(s, step)
  {
    match step
    case Begin => NewTxn(s, Client)
    case BeginCleaner(c) => NewTxn(s, Cleaner(c, Chosen, {}, map[]))
    case Register(t) => SetTxn(s, t, s.txns[t].(phase := Active))
    case LockRow(t, r) =>
      SetTxn(SetRow(s, r, s.rows[r].(tid := t)), t, s.txns[t].(deletes := s.txns[t].deletes + {r}))
    case Conflict(t, r) => SetTxn(s, t, s.txns[t].(phase := RollingBack))
    case Abort(t) => SetTxn(s, t, s.txns[t].(phase := RollingBack))
    case InsertRow(t, data, newChunk) =>
      SetTxn(Append(s, t, data, newChunk), t, s.txns[t].(inserts := s.txns[t].inserts + {NewRowId(s, newChunk)}))
    case ValidateChunk(t) =>
      var job := s.txns[t].job;
      SetTxn(s, t, s.txns[t].(job := job.(stage := Validated, todo := ChunkView(s, t, job.chunk))))
    case CopyRow(t, r, newChunk) =>
      var job := s.txns[t].job;
      var r' := NewRowId(s, newChunk);
      SetTxn(Append(s, t, s.rows[r].data, newChunk), t,
             s.txns[t].(inserts := s.txns[t].inserts + {r'}, job := job.(copies := job.copies[r := r'])))
    case PrepareCommit(t) =>
      var c := s.issued + 1;
      SetTxn(s, t, s.txns[t].(phase := Committing(c))).(issued := c, committer := s.committer[c := t])
    case CommitDelete(t, r) => SetRow(s, r, s.rows[r].(end := s.txns[t].phase.cid))
    case CommitInsert(t, r) => SetRow(s, r, s.rows[r].(begin := s.txns[t].phase.cid, tid := 0))
    case Publish(t) => SetTxn(s, t, s.txns[t].(phase := Committed(s.last + 1))).(last := s.last + 1)
    case UndoLock(t, r) =>
      SetTxn(SetRow(s, r, s.rows[r].(tid := 0)), t, s.txns[t].(deletes := s.txns[t].deletes - {r}))
    case UndoInsertEnd(t, r) => SetRow(s, r, s.rows[r].(end := 0))
    case UndoInsertBegin(t, r) =>
      SetTxn(SetRow(s, r, s.rows[r].(begin := 0, tid := 0)), t, s.txns[t].(inserts := s.txns[t].inserts - {r}))
    case Deregister(t) => s.(txns := s.txns - {t})
    case Stamp(t) =>
      var job := s.txns[t].job;
      SetTxn(s, t, s.txns[t].(job := job.(stage := Stamped)))
        .(slots := s.slots[job.chunk := s.slots[job.chunk].(cleanup := s.txns[t].phase.cid)],
          cleaned := s.cleaned[job.chunk := s.txns[t].snapshot])
    case Enqueue(t) =>
      var job := s.txns[t].job;
      SetTxn(s, t, s.txns[t].(job := job.(stage := Queued))).(queue := s.queue + [job.chunk],
                                                              log := s.log + [job.chunk])
    case CheckQueue => s.(physical := Cleared(s.queue[0]))
    case RemoveChunk =>
      var c := s.physical.chunk;
      s.(slots := s.slots[c := Removed], rows := map r | r in s.rows && r.chunk != c :: s.rows[r],
         queue := s.queue[1..], physical := Idle)
    case Stop => s.(queue := [])
  }
}

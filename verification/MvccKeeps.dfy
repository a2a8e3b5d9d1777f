/** Every steady step keeps the invariant: one lemma for each part of it. */
module MvccKeeps {
  import opened Mvcc
  import opened MvccQueue
  import opened MvccInvariant

  ghost predicate Ready(s: State, step: Step) {
    Inv(s) && Enabled(s, step) && Steady(s, step)
  }

  /** What the steps say about rows and transactions. */
  ghost predicate RowInv(s: State) {
    CountersOk(s) && TxnsOk(s) && LocksOk(s) && InsertsOk(s) && RowsOk(s)
  }

  /** Nobody can see or touch the chunk that the physical delete is about to remove. */
  ghost predicate ClearedOk(s: State) {
    s.physical.Cleared? ==> var c := s.physical.chunk;
      && |s.queue| > 0 && s.queue[0] == c && c in s.log
      && Queueable(s, c) && s.slots[c].cleanup <= s.last && c + 1 < |s.slots| && NoOlderSnapshot(s, c) && AllEnded(s, c)
  }

  lemma ClearedChunk(s: State)
    requires Inv(s)
    ensures ClearedOk(s)
  {
    if s.physical.Cleared? {
      assert s.queue[0] in s.queue;
      SlotIsOk(s, s.physical.chunk);
    }
  }

  lemma NewRowIsNew(s: State, newChunk: bool)
    requires RowsOk(s) && CanAppend(s, newChunk)
    ensures NewRowId(s, newChunk) !in s.rows
  {
    forall r | r in s.rows ensures r != NewRowId(s, newChunk) {
      RowIsOk(s, r);
    }
  }

  /** Published commit ids of a row never change, nor do its contents. */
  ghost predicate Fixed(s: State, s': State, r: RowId)
    requires r in s.rows
  {
    && r in s'.rows && s'.rows[r].data == s.rows[r].data
    && (s.rows[r].begin <= s.last ==> s'.rows[r].begin == s.rows[r].begin)
    && (s.rows[r].end <= s.last ==> s'.rows[r].end == s.rows[r].end)
    && (s.rows[r].end > s.last ==> s'.rows[r].end > s.last || (s.rows[r].begin > s.last && s'.rows[r].end == 0))
    && (s.rows[r].begin > s.last ==> s'.rows[r].begin > s.last || s'.rows[r].end == 0)
  }

  lemma WrittenRowFixed(s: State, step: Step, r: RowId)
    requires Enabled(s, step) && RowInv(s) && WritesRow(step) && r in s.rows
    ensures Fixed(s, Apply(s, step), r)
  {
    if step.r == r {
      WrittenRow(s, step);
    }
  }

  lemma RowFixed(s: State, step: Step, r: RowId)
    requires Enabled(s, step) && RowInv(s)
    requires r in s.rows && (step.RemoveChunk? ==> r.chunk != s.physical.chunk)
    ensures Fixed(s, Apply(s, step), r)
  {
    if WritesRow(step) {
      WrittenRowFixed(s, step, r);
    } else {
      UnwrittenRow(s, step, r);
    }
  }

  lemma UnwrittenRow(s: State, step: Step, r: RowId)
    requires Enabled(s, step) && RowsOk(s) && !WritesRow(step)
    requires r in s.rows && (step.RemoveChunk? ==> r.chunk != s.physical.chunk)
    ensures r in Apply(s, step).rows && Apply(s, step).rows[r] == s.rows[r]
  {
    if Appends(step) {
      NewRowIsNew(s, step.newChunk);
    }
  }

  // ---------------------------------------------------------------- transactions and rows

  lemma KeepTxnPlugin(s: State, step: Step, t: nat)
    requires OfPlugin(step)
    requires Enabled(s, step) && CountersOk(s) && TxnsOk(s) && t in Apply(s, step).txns
    ensures TxnOk(Apply(s, step), t)
  {
    if t in s.txns {
      TxnIsOk(s, t);
    }
  }

  /** The steps that issue a commit id or publish it. */
  ghost predicate Commits(step: Step) {
    step.PrepareCommit? || step.Publish?
  }

  lemma KeepTxnCommit(s: State, step: Step, t: nat)
    requires Commits(step)
    requires Enabled(s, step) && CountersOk(s) && TxnsOk(s) && t in s.txns
    ensures t in Apply(s, step).txns && TxnOk(Apply(s, step), t)
  {
    TxnIsOk(s, t);
    TxnIsOk(s, step.t);
  }

  lemma KeepTxn(s: State, step: Step, t: nat)
    requires !OfPlugin(step) && !Commits(step)
    requires Enabled(s, step) && CountersOk(s) && TxnsOk(s) && t in Apply(s, step).txns
    ensures TxnOk(Apply(s, step), t)
  {
    if t in s.txns {
      TxnIsOk(s, t);
    }
  }

  /** The steps that change one row. */
  ghost predicate WritesRow(step: Step) {
    step.LockRow? || step.CommitDelete? || step.CommitInsert? || step.UndoLock? || step.UndoInsertEnd? ||
    step.UndoInsertBegin?
  }

  /** Those of them that change a row that the transaction deletes. */
  ghost predicate WritesDeleted(step: Step) {
    step.LockRow? || step.CommitDelete? || step.UndoLock?
  }

  ghost predicate Appends(step: Step) {
    step.InsertRow? || step.CopyRow?
  }

  /** The steps of the plugin that are not steps of its transaction. */
  ghost predicate OfPlugin(step: Step) {
    step.ValidateChunk? || step.Stamp? || step.Enqueue? || step.CheckQueue? || step.RemoveChunk? || step.Stop?
  }

  /** The row that such a step changes, and its transaction, before the step. */
  lemma WrittenRow(s: State, step: Step)
    requires Enabled(s, step) && WritesRow(step) && RowInv(s)
    ensures step.r in s.rows && RowOk(s, step.r) && TxnOk(s, step.t) && !s.txns[step.t].phase.Committed?
    ensures step.CommitDelete? || step.UndoLock? ==> LockOk(s, step.t, step.r)
    ensures step.CommitInsert? || step.UndoInsertEnd? || step.UndoInsertBegin? ==> InsertOk(s, step.t, step.r)
  {
  }

  lemma KeepLockWritten(s: State, step: Step, t: nat, r: RowId)
    requires Enabled(s, step) && RowInv(s) && WritesRow(step)
    requires t in Apply(s, step).txns && r in Apply(s, step).txns[t].deletes
    requires !Apply(s, step).txns[t].phase.Committed?
    ensures LockOk(Apply(s, step), t, r)
  {
    TxnIsOk(s, t);
    if r in s.txns[t].deletes {
      assert LockOk(s, t, r);
    }
    WrittenRow(s, step);
  }

  lemma KeepLockPlugin(s: State, step: Step, t: nat, r: RowId)
    requires Enabled(s, step) && RowInv(s) && ClearedOk(s) && OfPlugin(step)
    requires t in Apply(s, step).txns && r in Apply(s, step).txns[t].deletes
    requires !Apply(s, step).txns[t].phase.Committed?
    ensures LockOk(Apply(s, step), t, r)
  {
    TxnIsOk(s, t);
    if r in s.txns[t].deletes {
      assert LockOk(s, t, r);
    }
  }

  lemma KeepLockCommit(s: State, step: Step, t: nat, r: RowId)
    requires Enabled(s, step) && RowInv(s) && (step.PrepareCommit? || step.Publish?)
    requires t in Apply(s, step).txns && r in Apply(s, step).txns[t].deletes
    requires !Apply(s, step).txns[t].phase.Committed?
    ensures LockOk(Apply(s, step), t, r)
  {
    assert TxnOk(s, t) && LockOk(s, t, r);
  }

  lemma KeepLock(s: State, step: Step, t: nat, r: RowId)
    requires Enabled(s, step) && RowInv(s)
    requires !WritesRow(step) && !OfPlugin(step) && !step.PrepareCommit? && !step.Publish?
    requires t in Apply(s, step).txns && r in Apply(s, step).txns[t].deletes
    requires !Apply(s, step).txns[t].phase.Committed?
    ensures LockOk(Apply(s, step), t, r)
  {
    assert t in s.txns && r in s.txns[t].deletes;
    assert LockOk(s, t, r);
  }

  lemma KeepInsertWritten(s: State, step: Step, t: nat, r: RowId)
    requires Enabled(s, step) && RowInv(s) && WritesRow(step) && !WritesDeleted(step)
    requires t in Apply(s, step).txns && r in Apply(s, step).txns[t].inserts
    requires !Apply(s, step).txns[t].phase.Committed?
    ensures InsertOk(Apply(s, step), t, r)
  {
    assert TxnOk(s, t) && InsertOk(s, t, r);
    WrittenRow(s, step);
  }

  lemma KeepInsertDeleted(s: State, step: Step, t: nat, r: RowId)
    requires Enabled(s, step) && RowInv(s) && WritesDeleted(step)
    requires t in Apply(s, step).txns && r in Apply(s, step).txns[t].inserts
    requires !Apply(s, step).txns[t].phase.Committed?
    ensures InsertOk(Apply(s, step), t, r)
  {
    assert TxnOk(s, t) && InsertOk(s, t, r);
    WrittenRow(s, step);
  }

  lemma KeepInsertStamp(s: State, stamper: nat, t: nat, r: RowId)
    requires Enabled(s, Stamp(stamper)) && RowInv(s) && CleanersOk(s)
    requires t in s.txns && r in s.txns[t].inserts && !s.txns[t].phase.Committed?
    ensures InsertOk(Apply(s, Stamp(stamper)), t, r)
  {
    assert InsertOk(s, t, r);
    CleanerIsOk(s, stamper);
    TxnIsOk(s, stamper);
  }

  lemma KeepInsertPlugin(s: State, step: Step, t: nat, r: RowId)
    requires Enabled(s, step) && RowInv(s) && ClearedOk(s) && OfPlugin(step) && !step.Stamp?
    requires t in Apply(s, step).txns && r in Apply(s, step).txns[t].inserts
    requires !Apply(s, step).txns[t].phase.Committed?
    ensures InsertOk(Apply(s, step), t, r)
  {
    assert TxnOk(s, t) && InsertOk(s, t, r);
  }

  lemma KeepInsertAppend(s: State, step: Step, t: nat, r: RowId)
    requires Enabled(s, step) && RowInv(s) && SlotsOk(s) && Appends(step)
    requires t in Apply(s, step).txns && r in Apply(s, step).txns[t].inserts
    requires !Apply(s, step).txns[t].phase.Committed?
    ensures InsertOk(Apply(s, step), t, r)
  {
    if r in s.txns[t].inserts {
      assert InsertOk(s, t, r);
    }
    if !step.newChunk {
      SlotIsOk(s, |s.slots| - 1);
    }
  }

  lemma KeepInsert(s: State, step: Step, t: nat, r: RowId)
    requires Enabled(s, step) && RowInv(s) && !WritesRow(step) && !Appends(step) && !OfPlugin(step)
    requires t in Apply(s, step).txns && r in Apply(s, step).txns[t].inserts
    requires !Apply(s, step).txns[t].phase.Committed?
    ensures InsertOk(Apply(s, step), t, r)
  {
    assert t in s.txns && r in s.txns[t].inserts;
    assert InsertOk(s, t, r);
  }

  lemma KeepAnyInsert(s: State, step: Step, t: nat, r: RowId)
    requires Ready(s, step) && ClearedOk(s)
    requires t in Apply(s, step).txns && r in Apply(s, step).txns[t].inserts
    requires !Apply(s, step).txns[t].phase.Committed?
    ensures InsertOk(Apply(s, step), t, r)
  {
    if WritesDeleted(step) {
      KeepInsertDeleted(s, step, t, r);
    } else if WritesRow(step) {
      KeepInsertWritten(s, step, t, r);
    } else if step.Stamp? {
      KeepInsertStamp(s, step.t, t, r);
    } else if OfPlugin(step) {
      KeepInsertPlugin(s, step, t, r);
    } else if Appends(step) {
      KeepInsertAppend(s, step, t, r);
    } else {
      KeepInsert(s, step, t, r);
    }
  }

  lemma KeepAnyLock(s: State, step: Step, t: nat, r: RowId)
    requires Ready(s, step) && ClearedOk(s)
    requires t in Apply(s, step).txns && r in Apply(s, step).txns[t].deletes
    requires !Apply(s, step).txns[t].phase.Committed?
    ensures LockOk(Apply(s, step), t, r)
  {
    if WritesRow(step) {
      KeepLockWritten(s, step, t, r);
    } else if OfPlugin(step) {
      KeepLockPlugin(s, step, t, r);
    } else if step.PrepareCommit? || step.Publish? {
      KeepLockCommit(s, step, t, r);
    } else {
      KeepLock(s, step, t, r);
    }
  }

  lemma KeepDeletedRow(s: State, step: Step, r: RowId)
    requires Enabled(s, step) && RowInv(s) && CommittersOk(s) && SlotsOk(s) && WritesDeleted(step) && r in s.rows
    ensures RowOk(Apply(s, step), r)
  {
    RowIsOk(s, r);
    SlotIsOk(s, r.chunk);
    WrittenRow(s, step);
  }

  lemma KeepCommittedInsert(s: State, t: nat, x: RowId, r: RowId)
    requires Enabled(s, CommitInsert(t, x)) && RowInv(s) && CommittersOk(s) && SlotsOk(s) && r in s.rows
    ensures RowOk(Apply(s, CommitInsert(t, x)), r)
  {
    RowIsOk(s, r);
    SlotIsOk(s, r.chunk);
    WrittenRow(s, CommitInsert(t, x));
  }

  lemma KeepUndoneInsert(s: State, step: Step, r: RowId)
    requires Enabled(s, step) && RowInv(s) && CommittersOk(s) && SlotsOk(s) && r in s.rows
    requires step.UndoInsertEnd? || step.UndoInsertBegin?
    ensures RowOk(Apply(s, step), r)
  {
    RowIsOk(s, r);
    SlotIsOk(s, r.chunk);
    WrittenRow(s, step);
  }

  lemma KeepRowInsert(s: State, t: nat, data: int, newChunk: bool, r: RowId)
    requires Enabled(s, InsertRow(t, data, newChunk)) && RowInv(s) && SlotsOk(s) && r in s.rows
    ensures RowOk(Apply(s, InsertRow(t, data, newChunk)), r)
  {
    RowIsOk(s, r);
    NewRowIsNew(s, newChunk);
    if !newChunk {
      SlotIsOk(s, |s.slots| - 1);
    }
  }

  lemma KeepRowCopy(s: State, t: nat, x: RowId, newChunk: bool, r: RowId)
    requires Enabled(s, CopyRow(t, x, newChunk)) && RowInv(s) && SlotsOk(s) && r in s.rows
    ensures RowOk(Apply(s, CopyRow(t, x, newChunk)), r)
  {
    RowIsOk(s, r);
    NewRowIsNew(s, newChunk);
    if !newChunk {
      SlotIsOk(s, |s.slots| - 1);
    }
  }

  lemma KeepNewRow(s: State, step: Step, r: RowId)
    requires Enabled(s, step) && RowInv(s) && SlotsOk(s) && Appends(step) && r in Apply(s, step).rows && r !in s.rows
    ensures RowOk(Apply(s, step), r)
  {
    TxnIsOk(s, step.t);
    if !step.newChunk {
      SlotIsOk(s, |s.slots| - 1);
    }
  }

  lemma KeepRowStamp(s: State, t: nat, r: RowId)
    requires Enabled(s, Stamp(t)) && RowInv(s) && CleanersOk(s) && r in s.rows
    ensures RowOk(Apply(s, Stamp(t)), r)
  {
    RowIsOk(s, r);
    CleanerIsOk(s, t);
    TxnIsOk(s, t);
  }

  lemma KeepRowRemove(s: State, r: RowId)
    requires Enabled(s, RemoveChunk) && RowInv(s) && CommittersOk(s) && r in Apply(s, RemoveChunk).rows
    ensures RowOk(Apply(s, RemoveChunk), r)
  {
    RowIsOk(s, r);
  }

  lemma KeepRowPlugin(s: State, step: Step, r: RowId)
    requires Enabled(s, step) && RowInv(s) && CommittersOk(s) && r in s.rows && (step.ValidateChunk? || step.Enqueue?)
    ensures RowOk(Apply(s, step), r)
  {
    RowIsOk(s, r);
  }

  lemma KeepRowQueue(s: State, step: Step, r: RowId)
    requires Enabled(s, step) && RowInv(s) && CommittersOk(s) && r in s.rows && (step.CheckQueue? || step.Stop?)
    ensures RowOk(Apply(s, step), r)
  {
    RowIsOk(s, r);
  }

  lemma KeepRowPublish(s: State, t: nat, r: RowId)
    requires Enabled(s, Publish(t)) && RowInv(s) && CommittersOk(s) && r in s.rows
    ensures RowOk(Apply(s, Publish(t)), r)
  {
    RowIsOk(s, r);
  }

  lemma KeepRowPrepare(s: State, t: nat, r: RowId)
    requires Enabled(s, PrepareCommit(t)) && RowInv(s) && CommittersOk(s) && r in s.rows
    ensures RowOk(Apply(s, PrepareCommit(t)), r)
  {
    RowIsOk(s, r);
  }

  lemma KeepRowCommit(s: State, step: Step, r: RowId)
    requires Enabled(s, step) && RowInv(s) && CommittersOk(s)
    requires (step.Publish? || step.PrepareCommit?) && r in Apply(s, step).rows
    ensures RowOk(Apply(s, step), r)
  {
    if step.Publish? {
      KeepRowPublish(s, step.t, r);
    } else {
      KeepRowPrepare(s, step.t, r);
    }
  }

  lemma KeepRowDeregister(s: State, t: nat, r: RowId)
    requires Enabled(s, Deregister(t)) && RowInv(s) && CommittersOk(s) && r in s.rows
    ensures RowOk(Apply(s, Deregister(t)), r)
  {
    RowIsOk(s, r);
  }

  lemma KeepRowBegin(s: State, step: Step, r: RowId)
    requires Enabled(s, step) && RowInv(s) && CommittersOk(s) && r in s.rows && (step.Begin? || step.BeginCleaner?)
    ensures RowOk(Apply(s, step), r)
  {
    RowIsOk(s, r);
  }

  lemma KeepRow(s: State, step: Step, r: RowId)
    requires Enabled(s, step) && RowInv(s) && CommittersOk(s) && r in s.rows
    requires step.Register? || step.Conflict? || step.Abort?
    ensures RowOk(Apply(s, step), r)
  {
    RowIsOk(s, r);
  }

  lemma KeepCommitter(s: State, step: Step, s': State, c: nat)
    requires Enabled(s, step) && s' == Apply(s, step) && CommittersOk(s) && TxnsOk(s)
    requires s.last < c <= s.issued && s'.last < c && !Commits(step)
    ensures CommitterOk(s', c)
  {
    CommitterIsOk(s, c);
  }

  lemma KeepCommitterCommit(s: State, step: Step, c: nat)
    requires Enabled(s, step) && CommittersOk(s) && s.last < c <= s.issued && Commits(step)
    requires Apply(s, step).last < c
    ensures CommitterOk(Apply(s, step), c)
  {
    CommitterIsOk(s, c);
  }

  lemma NewCommitter(s: State, step: Step)
    requires Enabled(s, step) && Apply(s, step).issued != s.issued
    ensures Apply(s, step).issued == s.issued + 1 && CommitterOk(Apply(s, step), s.issued + 1)
  {
  }

  // ---------------------------------------------------------------- chunks and the queue

  lemma KeepSlotPlugin(s: State, step: Step, c: nat)
    requires Enabled(s, step) && TxnsOk(s) && ClearedOk(s) && CleanersOk(s) && SlotsOk(s)
    requires OfPlugin(step) && c < |Apply(s, step).slots|
    ensures SlotOk(Apply(s, step), c)
  {
    if c < |s.slots| {
      SlotIsOk(s, c);
    }
    if step.Stamp? {
      CleanerIsOk(s, step.t);
      TxnIsOk(s, step.t);
    }
  }

  lemma KeepSlot(s: State, step: Step, c: nat)
    requires Enabled(s, step) && SlotsOk(s)
    requires !OfPlugin(step) && c < |Apply(s, step).slots|
    ensures SlotOk(Apply(s, step), c)
  {
    if c < |s.slots| {
      SlotIsOk(s, c);
    }
  }

  /** A chunk that is about to be removed stays without readers and without valid rows. */
  lemma KeepPhysical(s: State, step: Step)
    requires Ready(s, step) && ClearedOk(s)
    ensures PhysicalOk(Apply(s, step))
  {
    if s.physical.Cleared? && !step.RemoveChunk? {
      ClearedStays(s, step);
      ClearedRowsStay(s, step);
    } else {
      ClearedByCheck(s, step);
    }
  }

  lemma ClearedByCheck(s: State, step: Step)
    requires Enabled(s, step) && Steady(s, step) && (!s.physical.Cleared? || step.RemoveChunk?)
    ensures PhysicalOk(Apply(s, step))
  {
  }

  /** While a chunk is about to be removed, nothing else happens to the queue and the chunk. */
  lemma ClearedStays(s: State, step: Step)
    requires Enabled(s, step) && Orderly(s) && ClearedOk(s) && s.physical.Cleared? && !step.RemoveChunk?
    ensures var c, s' := s.physical.chunk, Apply(s, step);
      s'.physical == s.physical && s'.queue == s.queue && IsPresent(s', c) && s'.slots[c].cleanup == s.slots[c].cleanup
      && NoOlderSnapshot(s', c)
  {
    if step.Stamp? {
      assert JobOk(s, step.t);
    }
  }

  lemma ClearedRowsStay(s: State, step: Step)
    requires Enabled(s, step) && RowInv(s) && ClearedOk(s) && s.physical.Cleared? && !step.RemoveChunk?
    ensures forall r :: r in Apply(s, step).rows && r.chunk == s.physical.chunk ==>
      Apply(s, step).rows[r].end <= s.slots[r.chunk].cleanup
  {
    forall r | r in Apply(s, step).rows && r.chunk == s.physical.chunk
      ensures Apply(s, step).rows[r].end <= s.slots[r.chunk].cleanup
    {
      ClearedRowStays(s, step, r);
    }
  }

  lemma ClearedRowStays(s: State, step: Step, r: RowId)
    requires Enabled(s, step) && RowInv(s) && ClearedOk(s) && s.physical.Cleared? && !step.RemoveChunk?
    requires r in Apply(s, step).rows && r.chunk == s.physical.chunk
    ensures Apply(s, step).rows[r].end <= s.slots[r.chunk].cleanup
  {
    if WritesRow(step) && step.r == r {
      WrittenRow(s, step);
    }
  }

  // ---------------------------------------------------------------- logical deletes

  /** The chunk of a logical delete is not removed, and stamped by nobody else. */
  lemma ChunkStays(s: State, step: Step, t: nat)
    requires Enabled(s, step) && IsCleaner(s, t) && ChunkOk(s, t) && step != Stamp(t)
    requires step.RemoveChunk? ==> s.txns[t].job.chunk != s.physical.chunk
    ensures var c, s' := s.txns[t].job.chunk, Apply(s, step);
      c + 1 < |s'.slots| && IsPresent(s', c) && s'.slots[c] == s.slots[c]
  {
  }

  lemma JobNotCleared(s: State, t: nat)
    requires ClearedOk(s) && TxnsOk(s) && CleanersOk(s) && IsCleaner(s, t)
    ensures s.physical.Cleared? ==> s.txns[t].job.chunk != s.physical.chunk
  {
    CleanerIsOk(s, t);
    TxnIsOk(s, t);
  }

  /** Who inserts does so into the last chunk, or a new one; who begins has the newest snapshot. */
  lemma KeepInserters(s: State, step: Step, c: nat, snapshot: nat)
    requires Enabled(s, step) && c + 1 < |s.slots| && InsertersOlder(s, c, snapshot)
    ensures InsertersOlder(Apply(s, step), c, snapshot)
  {
  }

  lemma KeepChunk(s: State, step: Step, t: nat)
    requires Enabled(s, step) && ClearedOk(s) && TxnsOk(s) && CleanersOk(s)
    requires IsCleaner(s, t) && IsCleaner(Apply(s, step), t) && step != Stamp(t)
    ensures ChunkOk(Apply(s, step), t)
    ensures var c := s.txns[t].job.chunk; Apply(s, step).txns[t].job.chunk == c && Apply(s, step).slots[c] == s.slots[c]
  {
    CleanerIsOk(s, t);
    JobNotCleared(s, t);
    ChunkStays(s, step, t);
    KeepInserters(s, step, s.txns[t].job.chunk, s.txns[t].snapshot);
    CleanerStays(s, step, Apply(s, step), t);
    CleanerKeepsChunk(s, step, t);
  }

  lemma CleanerStays(s: State, step: Step, s': State, t: nat)
    requires Enabled(s, step) && s' == Apply(s, step) && IsCleaner(s, t) && OnlyCleaner(s, t) && IsCleaner(s', t)
    ensures OnlyCleaner(s', t)
  {
    assert !step.BeginCleaner?;
    forall u | IsCleaner(s', u) ensures u == t {
      CleanerBefore(s, step, u);
    }
  }

  lemma CleanerKeepsChunk(s: State, step: Step, t: nat)
    requires Enabled(s, step) && IsCleaner(s, t) && IsCleaner(Apply(s, step), t)
    ensures Apply(s, step).txns[t].job.chunk == s.txns[t].job.chunk
    ensures Apply(s, step).txns[t].snapshot == s.txns[t].snapshot
  {
  }

  // ---------------------------------------------------------------- the rows of a logical delete

  /** From one state to the next: no row comes into the chunk, and published commit ids stay. */
  ghost predicate ChunkFixed(s: State, s': State, c: nat) {
    && (forall r :: r in s.rows && r.chunk == c ==> Fixed(s, s', r))
    && (forall r :: r in s'.rows && r.chunk == c ==> r in s.rows)
  }

  ghost predicate InsertsFixed(s: State, s': State, inserts: set<RowId>) {
    forall r :: r in inserts && r in s.rows ==> Fixed(s, s', r)
  }

  lemma NewRowsElsewhere(s: State, step: Step, c: nat)
    requires Enabled(s, step) && c + 1 < |s.slots|
    ensures forall r :: r in Apply(s, step).rows && r.chunk == c ==> r in s.rows
  {
  }

  lemma ChunkRows(s: State, step: Step, t: nat)
    requires Enabled(s, step) && RowInv(s) && ClearedOk(s) && CleanersOk(s) && IsValidated(s, t)
    ensures ChunkFixed(s, Apply(s, step), s.txns[t].job.chunk)
  {
    var c, s' := s.txns[t].job.chunk, Apply(s, step);
    CleanerIsOk(s, t);
    forall r | r in s.rows && r.chunk == c ensures Fixed(s, s', r) {
      RowFixed(s, step, r);
    }
    NewRowsElsewhere(s, step, c);
  }

  /** Rows that a logical delete has inserted are not removed while it runs. */
  lemma InsertsStay(s: State, step: Step, t: nat)
    requires Enabled(s, step) && RowInv(s) && ClearedOk(s) && CleanersOk(s) && IsValidated(s, t)
    ensures InsertsFixed(s, Apply(s, step), s.txns[t].inserts)
  {
    forall r | r in s.txns[t].inserts && r in s.rows ensures Fixed(s, Apply(s, step), r) {
      InsertNotRemoved(s, t, r);
      RowFixed(s, step, r);
    }
  }

  lemma InsertNotRemoved(s: State, t: nat, r: RowId)
    requires RowInv(s) && ClearedOk(s) && CleanersOk(s) && IsValidated(s, t) && r in s.txns[t].inserts && r in s.rows
    ensures s.physical.Cleared? ==> r.chunk != s.physical.chunk
  {
    CleanerIsOk(s, t);
    TxnIsOk(s, t);
    RowIsOk(s, r);
    if !s.txns[t].phase.Committed? {
      assert InsertOk(s, t, r);
    }
  }

  lemma ChunkCovered(s: State, s': State, c: nat, todo: set<RowId>, snapshot: nat)
    requires ChunkFixed(s, s', c) && snapshot <= s.last
    requires InChunk(s, todo, c) && Covered(s, c, todo, snapshot)
    ensures InChunk(s', todo, c) && Covered(s', c, todo, snapshot)
  {
    forall r | r in s'.rows && r.chunk == c && s'.rows[r].begin <= snapshot
      ensures r in todo || s'.rows[r].end <= snapshot
    {
      assert r in s.rows && Fixed(s, s', r);
    }
    forall r | r in todo ensures r in s'.rows {
      assert Fixed(s, s', r);
    }
  }

  lemma CommittedRowsStay(s: State, s': State, x: Txn)
    requires x.job.Cleaner? && x.phase.Committed? && CommittedRows(s, x) && 0 < x.phase.cid <= s.last
    requires ChunkFixed(s, s', x.job.chunk) && InsertsFixed(s, s', x.inserts) && InChunk(s, x.job.todo, x.job.chunk)
    requires x.snapshot <= s.last
    ensures CommittedRows(s', x)
  {
    forall r | r in x.job.todo ensures r in s'.rows && s'.rows[r].end == x.phase.cid {
      assert Fixed(s, s', r);
    }
    forall r | r in x.inserts ensures r in s'.rows && s'.rows[r].begin == x.phase.cid {
      assert Fixed(s, s', r);
    }
    forall r | r in s'.rows && r.chunk == x.job.chunk && s'.rows[r].end == x.phase.cid
      ensures s'.rows[r].begin <= x.snapshot
    {
      assert r in s.rows && Fixed(s, s', r);
    }
  }

  lemma CopiesStay(s: State, s': State, t: nat)
    requires t in s.txns && s.txns[t].job.Cleaner? && CopiesOk(s, t) &&
      InChunk(s, s.txns[t].job.todo, s.txns[t].job.chunk)
    requires t in s'.txns && s'.txns[t].job == s.txns[t].job && s'.txns[t].inserts == s.txns[t].inserts
    requires ChunkFixed(s, s', s.txns[t].job.chunk) && InsertsFixed(s, s', s.txns[t].inserts)
    ensures CopiesOk(s', t)
  {
    forall r | r in s.txns[t].job.copies ensures CopyOk(s', t, r) {
      assert CopyOk(s, t, r);
      assert Fixed(s, s', r) && Fixed(s, s', s.txns[t].job.copies[r]);
    }
  }

  /** A state whose transaction has the same job and rows, and is not just published. */
  lemma JobRowsStay(s: State, s': State, t: nat)
    requires t in s.txns && s.txns[t].job.Cleaner? && TxnOk(s, t) && JobRows(s, t)
    requires t in s'.txns && s'.txns[t].job == s.txns[t].job && s'.txns[t].inserts == s.txns[t].inserts
    requires s'.txns[t].snapshot == s.txns[t].snapshot
    requires s.txns[t].phase.RollingBack? ==> s'.txns[t].phase.RollingBack?
    requires s'.txns[t].phase.Committed? ==> s'.txns[t] == s.txns[t]
    requires ChunkFixed(s, s', s.txns[t].job.chunk) && InsertsFixed(s, s', s.txns[t].inserts)
    ensures JobRows(s', t)
  {
    var x := s.txns[t];
    ChunkCovered(s, s', x.job.chunk, x.job.todo, x.snapshot);
    if !x.phase.RollingBack? {
      CopiesStay(s, s', t);
    }
    if s'.txns[t].phase.Committed? {
      CommittedRowsStay(s, s', x);
    }
  }

  /** Which steps change a validated logical delete. */
  predicate OwnStep(step: Step, t: nat) {
    (step.LockRow? || step.Conflict? || step.PrepareCommit? || step.UndoLock?) && step.t == t
  }

  lemma OwnSteps(s: State, step: Step, t: nat)
    requires Enabled(s, step) && CleanersOk(s) && IsValidated(s, t) && IsValidated(Apply(s, step), t)
    ensures Apply(s, step).txns[t] == s.txns[t] || OwnStep(step, t) || step == Publish(t) ||
      (step.CopyRow? && step.t == t)
  {
    CleanerIsOk(s, t);
  }

  lemma OwnShape(s: State, step: Step, t: nat)
    requires Enabled(s, step) && IsValidated(s, t) && ValidatedShape(s.txns[t]) && OwnStep(step, t)
    requires s.txns[t].phase.RollingBack? || s.txns[t].inserts <= s.txns[t].job.copies.Values
    ensures var x, x' := s.txns[t], Apply(s, step).txns[t];
      && x'.job == x.job && x'.inserts == x.inserts && x'.snapshot == x.snapshot && !x'.phase.Committed?
      && (x.phase.RollingBack? ==> x'.phase.RollingBack?) && ValidatedShape(x')
  {
  }

  lemma KeepSameJob(s: State, step: Step, t: nat)
    requires Enabled(s, step) && RowInv(s) && ClearedOk(s) && CleanersOk(s) && IsValidated(s, t)
    requires IsValidated(Apply(s, step), t) && (Apply(s, step).txns[t] == s.txns[t] || OwnStep(step, t))
    ensures JobRows(Apply(s, step), t) && ValidatedShape(Apply(s, step).txns[t])
  {
    CleanerIsOk(s, t);
    TxnIsOk(s, t);
    ChunkRows(s, step, t);
    InsertsStay(s, step, t);
    if OwnStep(step, t) {
      OwnShape(s, step, t);
    }
    JobRowsStay(s, Apply(s, step), t);
  }

  lemma ValuesExtended(copies: map<RowId, RowId>, r: RowId, n: RowId, inserts: set<RowId>)
    requires r !in copies && inserts <= copies.Values
    ensures inserts + {n} <= copies[r := n].Values
  {
    var copies' := copies[r := n];
    assert copies'[r] == n;
    forall x | x in inserts ensures x in copies'.Values {
      var y :| y in copies && copies[y] == x;
      assert copies'[y] == x;
    }
  }

  /** CopyRow keeps the copies a faithful, one-to-one image of the copied rows. */
  lemma KeepCopies(s: State, t: nat, r: RowId, newChunk: bool)
    requires Enabled(s, CopyRow(t, r, newChunk)) && RowsOk(s) && CopiesOk(s, t)
    ensures CopiesOk(Apply(s, CopyRow(t, r, newChunk)), t)
  {
    var job, s', n := s.txns[t].job, Apply(s, CopyRow(t, r, newChunk)), NewRowId(s, newChunk);
    NewRowIsNew(s, newChunk);
    forall x | x in job.copies ensures CopyOk(s', t, x) {
      KeepOldCopy(s, t, r, newChunk, x);
    }
    assert CopyOk(s', t, r);
    ValuesExtended(job.copies, r, n, s.txns[t].inserts);
  }

  lemma KeepOldCopy(s: State, t: nat, r: RowId, newChunk: bool, x: RowId)
    requires Enabled(s, CopyRow(t, r, newChunk)) && RowsOk(s) && CopiesOk(s, t) && x in s.txns[t].job.copies
    ensures x in Apply(s, CopyRow(t, r, newChunk)).txns[t].job.copies && CopyOk(Apply(s, CopyRow(t, r, newChunk)), t, x)
  {
    NewRowIsNew(s, newChunk);
    assert CopyOk(s, t, x);
  }

  lemma KeepOwnCopy(s: State, t: nat, r: RowId, newChunk: bool)
    requires Enabled(s, CopyRow(t, r, newChunk)) && RowInv(s) && ClearedOk(s) && CleanersOk(s) && IsValidated(s, t)
    ensures var s' := Apply(s, CopyRow(t, r, newChunk)); JobRows(s', t) && ValidatedShape(s'.txns[t])
  {
    var s' := Apply(s, CopyRow(t, r, newChunk));
    CleanerIsOk(s, t);
    TxnIsOk(s, t);
    ChunkRows(s, CopyRow(t, r, newChunk), t);
    ChunkCovered(s, s', s.txns[t].job.chunk, s.txns[t].job.todo, s.txns[t].snapshot);
    KeepCopies(s, t, r, newChunk);
  }

  /** At the commit of a logical delete the rows with its commit id are those it deleted and inserted. */
  lemma KeepOwnPublish(s: State, t: nat)
    requires Inv(s) && Enabled(s, Publish(t)) && IsValidated(s, t)
    ensures var s' := Apply(s, Publish(t)); JobRows(s', t) && ValidatedShape(s'.txns[t])
  {
    CleanerIsOk(s, t);
    TxnIsOk(s, t);
    forall r | r in s.rows && s.rows[r].end == s.last + 1 ensures s.rows[r].begin <= s.txns[t].snapshot {
      assert RowOk(s, r) && LockOk(s, t, r);
    }
    var s' := Apply(s, Publish(t));
    forall r | r in s'.txns[t].job.copies ensures CopyOk(s', t, r) {
      assert CopyOk(s, t, r);
    }
  }

  /** The rows that Validate leaves out of the chunk were deleted by the snapshot, or not committed by then. */
  lemma KeepValidation(s: State, t: nat)
    requires Ready(s, ValidateChunk(t)) && IsCleaner(s, t)
    ensures var s' := Apply(s, ValidateChunk(t)); JobRows(s', t) && ValidatedShape(s'.txns[t])
  {
    CleanerIsOk(s, t);
    TxnIsOk(s, t);
    forall r | r in s.rows ensures RowOk(s, r) {
    }
  }

  lemma KeepValidated(s: State, step: Step, t: nat)
    requires Ready(s, step) && ClearedOk(s) && IsValidated(s, t) && IsValidated(Apply(s, step), t)
    ensures JobRows(Apply(s, step), t) && ValidatedShape(Apply(s, step).txns[t])
  {
    OwnSteps(s, step, t);
    if step == Publish(t) {
      KeepOwnPublish(s, t);
    } else if step.CopyRow? && step.t == t {
      KeepOwnCopy(s, t, step.r, step.newChunk);
    } else {
      KeepSameJob(s, step, t);
    }
  }

  /** Before its validation and after its stamp. */
  lemma KeepUnvalidated(s: State, step: Step, t: nat)
    requires Enabled(s, step) && CleanersOk(s) && IsCleaner(s, t) && IsCleaner(Apply(s, step), t) && step != Stamp(t)
    requires !IsValidated(Apply(s, step), t)
    ensures var x, x' := s.txns[t], Apply(s, step).txns[t];
      x'.job.stage.Chosen? ==> x.job.stage.Chosen? && ChosenShape(x')
  {
    CleanerIsOk(s, t);
  }

  lemma KeepFinished(s: State, step: Step, t: nat)
    requires Enabled(s, step) && CleanersOk(s) && IsCleaner(s, t) && IsCleaner(Apply(s, step), t) && step != Stamp(t)
    requires !IsValidated(Apply(s, step), t)
    ensures var x, x' := s.txns[t], Apply(s, step).txns[t];
      !x'.job.stage.Chosen? ==> !x.job.stage.Chosen? && !x.job.stage.Validated? && x'.phase == x.phase
  {
    CleanerIsOk(s, t);
  }

  lemma KeepStamped(s: State, t: nat)
    requires Enabled(s, Stamp(t)) && CleanersOk(s)
    ensures CleanerOk(Apply(s, Stamp(t)), t)
  {
    CleanerIsOk(s, t);
  }

  lemma KeepNewCleaner(s: State, c: nat)
    requires Enabled(s, BeginCleaner(c)) && CountersOk(s) && TxnsOk(s)
    ensures CleanerOk(Apply(s, BeginCleaner(c)), s.nextTid)
  {
    forall t | t in s.txns ensures TxnOk(s, t) {
    }
  }

  lemma CleanerBefore(s: State, step: Step, t: nat)
    requires Enabled(s, step) && IsCleaner(Apply(s, step), t) && !step.BeginCleaner?
    ensures IsCleaner(s, t)
  {
  }

  lemma NewCleaner(s: State, c: nat, t: nat)
    requires Enabled(s, BeginCleaner(c)) && IsCleaner(Apply(s, BeginCleaner(c)), t)
    ensures t == s.nextTid
  {
  }

  lemma KeepCleaner(s: State, step: Step, t: nat)
    requires Ready(s, step) && ClearedOk(s) && IsCleaner(Apply(s, step), t)
    ensures CleanerOk(Apply(s, step), t)
  {
    if step.BeginCleaner? {
      NewCleaner(s, step.chunk, t);
      KeepNewCleaner(s, step.chunk);
    } else {
      CleanerBefore(s, step, t);
      if step == Stamp(t) {
        KeepStamped(s, t);
      } else {
        KeepOldCleaner(s, step, t);
      }
    }
  }

  lemma KeepOldCleaner(s: State, step: Step, t: nat)
    requires Ready(s, step) && ClearedOk(s) && IsCleaner(s, t) && IsCleaner(Apply(s, step), t) && step != Stamp(t)
    ensures CleanerOk(Apply(s, step), t)
  {
    CleanerIsOk(s, t);
    KeepChunk(s, step, t);
    if IsValidated(Apply(s, step), t) {
      KeepNowValidated(s, step, t);
    } else {
      KeepUnvalidated(s, step, t);
      KeepFinished(s, step, t);
    }
  }

  lemma KeepNowValidated(s: State, step: Step, t: nat)
    requires Ready(s, step) && ClearedOk(s) && IsCleaner(s, t) && IsValidated(Apply(s, step), t)
    ensures JobRows(Apply(s, step), t) && ValidatedShape(Apply(s, step).txns[t])
    ensures s.slots[s.txns[t].job.chunk].cleanup == 0
  {
    CleanerIsOk(s, t);
    if IsValidated(s, t) {
      KeepValidated(s, step, t);
    } else {
      ValidatedByStep(s, step, t);
      KeepValidation(s, t);
    }
  }

  lemma ValidatedByStep(s: State, step: Step, t: nat)
    requires Enabled(s, step) && IsCleaner(s, t) && !IsValidated(s, t) && IsValidated(Apply(s, step), t)
    ensures step == ValidateChunk(t) && s.txns[t].job.stage.Chosen?
  {
  }

  lemma KeepAnyRow(s: State, step: Step, r: RowId)
    requires Ready(s, step) && r in Apply(s, step).rows
    ensures RowOk(Apply(s, step), r)
  {
    if WritesRow(step) || Appends(step) {
      KeepAnyRowWritten(s, step, r);
    } else if OfPlugin(step) {
      KeepAnyRowPlugin(s, step, r);
    } else {
      KeepAnyRowOther(s, step, r);
    }
  }

  lemma KeepAnyRowWritten(s: State, step: Step, r: RowId)
    requires Ready(s, step) && (WritesRow(step) || Appends(step)) && r in Apply(s, step).rows
    ensures RowOk(Apply(s, step), r)
  {
    if WritesDeleted(step) {
      KeepDeletedRow(s, step, r);
    } else if step.CommitInsert? {
      KeepCommittedInsert(s, step.t, step.r, r);
    } else if WritesRow(step) {
      KeepUndoneInsert(s, step, r);
    } else if r !in s.rows {
      KeepNewRow(s, step, r);
    } else if step.InsertRow? {
      KeepRowInsert(s, step.t, step.data, step.newChunk, r);
    } else {
      KeepRowCopy(s, step.t, step.r, step.newChunk, r);
    }
  }

  lemma KeepAnyRowOther(s: State, step: Step, r: RowId)
    requires Ready(s, step) && !WritesRow(step) && !Appends(step) && !OfPlugin(step) && r in Apply(s, step).rows
    ensures RowOk(Apply(s, step), r)
  {
    if step.Publish? || step.PrepareCommit? {
      KeepRowCommit(s, step, r);
    } else if step.Deregister? {
      KeepRowDeregister(s, step.t, r);
    } else if step.Begin? || step.BeginCleaner? {
      KeepRowBegin(s, step, r);
    } else {
      KeepRow(s, step, r);
    }
  }

  lemma KeepAnyRowPlugin(s: State, step: Step, r: RowId)
    requires Ready(s, step) && OfPlugin(step) && r in Apply(s, step).rows
    ensures RowOk(Apply(s, step), r)
  {
    if step.Stamp? {
      KeepRowStamp(s, step.t, r);
    } else if step.RemoveChunk? {
      KeepRowRemove(s, r);
    } else if step.CheckQueue? || step.Stop? {
      KeepRowQueue(s, step, r);
    } else {
      KeepRowPlugin(s, step, r);
    }
  }

  lemma KeepTxns(s: State, step: Step)
    requires Enabled(s, step) && CountersOk(s) && TxnsOk(s)
    ensures TxnsOk(Apply(s, step))
  {
    forall t | t in Apply(s, step).txns ensures TxnOk(Apply(s, step), t) {
      if OfPlugin(step) {
        KeepTxnPlugin(s, step, t);
      } else if Commits(step) {
        KeepTxnCommit(s, step, t);
      } else {
        KeepTxn(s, step, t);
      }
    }
  }

  lemma KeepSlots(s: State, step: Step)
    requires Ready(s, step)
    ensures SlotsOk(Apply(s, step))
  {
    forall c | 0 <= c < |Apply(s, step).slots| ensures SlotOk(Apply(s, step), c) {
      if OfPlugin(step) {
        KeepSlotPlugin(s, step, c);
      } else {
        KeepSlot(s, step, c);
      }
    }
  }

  lemma KeepCommitters(s: State, step: Step)
    requires Enabled(s, step) && CountersOk(s) && TxnsOk(s) && CommittersOk(s)
    ensures CommittersOk(Apply(s, step))
  {
    forall c | Apply(s, step).last < c <= Apply(s, step).issued ensures CommitterOk(Apply(s, step), c) {
      if c > s.issued {
        NewCommitter(s, step);
      } else if Commits(step) {
        KeepCommitterCommit(s, step, c);
      } else {
        KeepCommitter(s, step, Apply(s, step), c);
      }
    }
  }

  lemma KeepCounters(s: State, step: Step)
    requires Enabled(s, step) && CountersOk(s) && TxnsOk(s)
    ensures CountersOk(Apply(s, step))
  {
    if step.Publish? {
      TxnIsOk(s, step.t);
    }
  }

  /** Every steady step keeps the invariant. */
  lemma KeepInv(s: State, step: Step)
    requires Ready(s, step)
    ensures Inv(Apply(s, step))
  {
    var s' := Apply(s, step);
    ClearedChunk(s);
    KeepOrderly(s, step);
    KeepPhysical(s, step);
    KeepCounters(s, step);
    KeepTxns(s, step);
    KeepSlots(s, step);
    KeepCommitters(s, step);
    forall t, r | t in s'.txns && r in s'.txns[t].deletes && !s'.txns[t].phase.Committed? ensures LockOk(s', t, r) {
      KeepAnyLock(s, step, t, r);
    }
    forall t, r | t in s'.txns && r in s'.txns[t].inserts && !s'.txns[t].phase.Committed? ensures InsertOk(s', t, r) {
      KeepAnyInsert(s, step, t, r);
    }
    forall r | r in s'.rows ensures RowOk(s', r) {
      KeepAnyRow(s, step, r);
    }
    forall t | t in s'.txns && s'.txns[t].job.Cleaner? ensures CleanerOk(s', t) {
      KeepCleaner(s, step, t);
    }
  }
}

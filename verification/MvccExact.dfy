/** When exactly a reader misses rows that its snapshot shows: after a logical delete, and after a removal. */
module MvccExact {
  import opened Mvcc
  import opened MvccQueue
  import opened MvccInvariant
  import opened MvccKeeps
  import opened MvccSafety

  // ---------------------------------------------------------------- reading past stamped chunks

  /** What GetTable and Validate give at a snapshot to a transaction that has written nothing. */
  function ReadAt(s: State, snapshot: nat): map<RowId, int> {
    map r | r in s.rows && !Skipped(s, r.chunk, snapshot) && VisibleAt(s.rows[r], snapshot) :: s.rows[r].data
  }

  /** The rows at the positions `rows`. */
  function RowsAt(s: State, rows: set<RowId>): map<RowId, int> {
    map r | r in rows && r in s.rows :: s.rows[r].data
  }

  /** The transaction may read: it has not begun to commit or to roll back. */
  predicate MayRead(s: State, t: nat) {
    t in s.txns && (s.txns[t].phase.Active? || s.txns[t].phase.Unregistered?)
  }

  /** A row that the transaction has locked was there for its snapshot, and is hidden now. */
  lemma DeletedIsHidden(s: State, t: nat, r: RowId)
    requires LocksOk(s) && TxnsOk(s) && CountersOk(s) && MayRead(s, t) && r in s.txns[t].deletes
    ensures r in View(s, s.txns[t].snapshot) && r !in Read(s, t)
  {
    TxnIsOk(s, t);
    LockIsOk(s, t, r);
  }

  /** A row that the transaction has inserted is not part of its snapshot, and is shown. */
  lemma InsertIsShown(s: State, t: nat, r: RowId)
    requires InsertsOk(s) && TxnsOk(s) && CountersOk(s) && MayRead(s, t) && r in s.txns[t].inserts
    ensures r in s.rows && !VisibleAt(s.rows[r], s.txns[t].snapshot) && r in Read(s, t)
  {
    TxnIsOk(s, t);
    InsertIsOk(s, t, r);
  }

  /** Every other row is shown as its snapshot shows it. */
  lemma OtherIsShown(s: State, t: nat, r: RowId)
    requires RowsOk(s) && MayRead(s, t) && r in s.rows && r !in s.txns[t].deletes && r !in s.txns[t].inserts
    ensures r in Read(s, t) <==> r in ReadAt(s, s.txns[t].snapshot)
  {
    RowIsOk(s, r);
  }

  lemma WritesAreRead(s: State, t: nat)
    requires LocksOk(s) && InsertsOk(s) && TxnsOk(s) && CountersOk(s) && MayRead(s, t)
    ensures forall r :: r in s.txns[t].inserts ==> r in s.rows && r in Read(s, t)
    ensures forall r :: r in s.txns[t].deletes ==> r !in Read(s, t)
  {
    forall r | r in s.txns[t].inserts ensures r in s.rows && r in Read(s, t) {
      InsertIsShown(s, t, r);
    }
    forall r | r in s.txns[t].deletes ensures r !in Read(s, t) {
      DeletedIsHidden(s, t, r);
    }
  }

  /** A transaction reads at its snapshot, without the rows that it has deleted and with those it has inserted. */
  lemma ReadIsReadAt(s: State, t: nat)
    requires Inv(s) && MayRead(s, t)
    ensures s.txns[t].inserts <= s.rows.Keys
    ensures Read(s, t) == ReadAt(s, s.txns[t].snapshot) - s.txns[t].deletes + RowsAt(s, s.txns[t].inserts)
  {
    var x := s.txns[t];
    WritesAreRead(s, t);
    forall r | r in s.rows && r !in x.deletes && r !in x.inserts
      ensures r in Read(s, t) <==> r in ReadAt(s, x.snapshot)
    {
      OtherIsShown(s, t, r);
    }
  }

  /** A row of a stamped chunk that was committed after the chunk was validated, and is still valid at its cleanup. */
  ghost predicate LateRow(s: State, r: RowId)
    requires r in s.rows
  {
    && Queueable(s, r.chunk) && r.chunk in s.cleaned
    && s.cleaned[r.chunk] < s.rows[r].begin <= s.last && s.slots[r.chunk].cleanup < s.rows[r].end
  }

  /**
   A row that is visible at a snapshot but left out, because the snapshot has reached the cleanup of its
   chunk, is late.
   */
  lemma LeftOutIsLate(s: State, r: RowId, snapshot: nat)
    requires Inv(s) && r in s.rows && snapshot <= s.last
    requires Skipped(s, r.chunk, snapshot) && VisibleAt(s.rows[r], snapshot)
    ensures LateRow(s, r)
  {
    RowIsOk(s, r);
    SlotIsOk(s, r.chunk);
  }

  /** A late row is left out of the read at the snapshot of its cleanup, or of its own commit if that was later. */
  lemma LateIsLeftOut(s: State, r: RowId) returns (snapshot: nat)
    requires Inv(s) && r in s.rows && LateRow(s, r)
    ensures snapshot <= s.last && r in View(s, snapshot) && r !in ReadAt(s, snapshot)
  {
    RowIsOk(s, r);
    SlotIsOk(s, r.chunk);
    var cleanup := s.slots[r.chunk].cleanup;
    snapshot := if s.rows[r].begin < cleanup then cleanup else s.rows[r].begin;
  }

  /** Every snapshot is read completely exactly when no row is late: leaving out stamped chunks loses nothing else. */
  lemma ReadsCompleteIff(s: State)
    requires Inv(s)
    ensures (forall snapshot: nat :: snapshot <= s.last ==> ReadAt(s, snapshot) == View(s, snapshot)) <==>
      forall r :: r in s.rows ==> !LateRow(s, r)
  {
    if r :| r in s.rows && LateRow(s, r) {
      var snapshot := LateIsLeftOut(s, r);
      assert ReadAt(s, snapshot) != View(s, snapshot);
    } else {
      forall snapshot: nat | snapshot <= s.last ensures ReadAt(s, snapshot) == View(s, snapshot) {
        forall r | r in s.rows ensures r in ReadAt(s, snapshot) <==> r in View(s, snapshot) {
          if Skipped(s, r.chunk, snapshot) && VisibleAt(s.rows[r], snapshot) {
            LeftOutIsLate(s, r, snapshot);
          }
        }
      }
    }
  }

  /**
   In calm runs nothing is late: a transaction reads what its snapshot shows, without the rows that it has
   deleted and together with all rows that it has inserted.
   */
  lemma ReadIsView(s: State, t: nat)
    requires Inv(s) && Tight(s) && MayRead(s, t)
    ensures s.txns[t].inserts <= s.rows.Keys
    ensures Read(s, t) == View(s, s.txns[t].snapshot) - s.txns[t].deletes + RowsAt(s, s.txns[t].inserts)
  {
    ReadIsReadAt(s, t);
    TxnIsOk(s, t);
    forall r | r in s.rows ensures !LateRow(s, r) {
      assert StampedFinished(s, r.chunk);
    }
    ReadsCompleteIff(s);
  }

  /** Rows leave a table with their chunk only, and do not come back. */
  lemma RowLeaves(s: State, step: Step, r: RowId)
    requires Enabled(s, step) && r in s.rows && r !in Apply(s, step).rows
    ensures step.RemoveChunk? && r.chunk == s.physical.chunk
    ensures r.chunk < |Apply(s, step).slots| && Apply(s, step).slots[r.chunk].Removed?
  {
  }

  lemma GoneAfterStep(s: State, step: Step, r: RowId)
    requires Enabled(s, step) && r.chunk < |s.slots| && s.slots[r.chunk].Removed? && r !in s.rows
    ensures var s' := Apply(s, step); r.chunk < |s'.slots| && s'.slots[r.chunk].Removed? && r !in s'.rows
  {
  }

  lemma {:induction false} GoneStaysGone(s: State, steps: seq<Step>, r: RowId)
    requires CanRun(s, steps) && r.chunk < |s.slots| && s.slots[r.chunk].Removed? && r !in s.rows
    ensures r !in Run(s, steps).rows
    decreases |steps|
  {
    if |steps| != 0 {
      GoneAfterStep(s, steps[0], r);
      GoneStaysGone(Apply(s, steps[0]), steps[1..], r);
    }
  }

  lemma StaysAfterStep(s: State, step: Step, rest: seq<Step>, r: RowId)
    requires Enabled(s, step) && CanRun(Apply(s, step), rest) && r in s.rows && r in Run(Apply(s, step), rest).rows
    ensures r in Apply(s, step).rows
  {
    if r !in Apply(s, step).rows {
      RowLeaves(s, step, r);
      GoneStaysGone(Apply(s, step), rest, r);
    }
  }

  /** A row that was not committed by a snapshot is committed after it, or undone. */
  ghost predicate Unbegun(row: Row, snapshot: nat) {
    row.begin > snapshot || row.end == 0
  }

  lemma UnbegunAfterStep(s: State, step: Step, r: RowId, snapshot: nat)
    requires Ready(s, step) && snapshot <= s.last && r in s.rows && r in Apply(s, step).rows &&
      Unbegun(s.rows[r], snapshot)
    ensures Unbegun(Apply(s, step).rows[r], snapshot)
  {
    if step.RemoveChunk? {
      assert r.chunk != s.physical.chunk;
    }
    RowFixed(s, step, r);
    RowIsOk(s, r);
  }

  lemma LastGrows(s: State, step: Step)
    requires Enabled(s, step)
    ensures s.last <= Apply(s, step).last
  {
  }

  lemma {:induction false} NotCommittedYet(s: State, steps: seq<Step>, r: RowId, snapshot: nat)
    requires Inv(s) && CanRun(s, steps) && SteadyRun(s, steps)
    requires snapshot <= s.last && r in s.rows && r in Run(s, steps).rows && Unbegun(s.rows[r], snapshot)
    ensures Unbegun(Run(s, steps).rows[r], snapshot)
    decreases |steps|
  {
    if |steps| != 0 {
      StaysAfterStep(s, steps[0], steps[1..], r);
      UnbegunAfterStep(s, steps[0], r, snapshot);
      LastGrows(s, steps[0]);
      KeepInv(s, steps[0]);
      NotCommittedYet(Apply(s, steps[0]), steps[1..], r, snapshot);
    }
  }

  /**
   The fate of an insert that is not committed when its chunk is validated: once the chunk is stamped,
   the row is late exactly when it has been committed and not been deleted by the cleanup.
   */
  lemma UnfinishedInsertFate(s: State, steps: seq<Step>, t: nat, r: RowId)
    requires Inv(s) && CanRun(s, steps) && SteadyRun(s, steps) && |steps| > 0 && steps[0] == ValidateChunk(t)
    requires r in s.rows && r.chunk == s.txns[t].job.chunk && s.rows[r].begin > s.txns[t].snapshot
    requires var s' := Run(s, steps);
      r in s'.rows && Queueable(s', r.chunk) && r.chunk in s'.cleaned && s'.cleaned[r.chunk] == s.txns[t].snapshot
    ensures var s' := Run(s, steps);
      LateRow(s', r) <==> s'.rows[r].begin <= s'.last && s'.slots[r.chunk].cleanup < s'.rows[r].end
  {
    TxnIsOk(s, t);
    NotCommittedYet(s, steps, r, s.txns[t].snapshot);
  }

  // ---------------------------------------------------------------- removing a chunk

  /** The state after the physical delete has looked at the queue and removed the chunk at its front. */
  function Removed(s: State): State
    requires Enabled(s, CheckQueue)
  {
    Apply(Apply(s, CheckQueue), RemoveChunk)
  }

  /** Did the logical delete of the chunk move rows? */
  ghost predicate MovedRows(s: State, c: nat)
    requires IsPresent(s, c)
  {
    exists r :: r in s.rows && r.chunk == c && s.rows[r].end == s.slots[c].cleanup
  }

  /** A row of the chunk was valid at a snapshot. */
  ghost predicate HadRows(s: State, c: nat, snapshot: nat) {
    exists r :: r in s.rows && r.chunk == c && VisibleAt(s.rows[r], snapshot)
  }

  lemma ViewWithoutChunk(s: State, snapshot: nat)
    requires Enabled(s, CheckQueue)
    ensures View(Removed(s), snapshot) == View(s, snapshot) <==> !HadRows(s, s.queue[0], snapshot)
  {
    var v, v' := View(s, snapshot), View(Removed(s), snapshot);
    forall r ensures r in v' <==> r in v && r.chunk != s.queue[0] {
    }
    if r :| r in s.rows && r.chunk == s.queue[0] && VisibleAt(s.rows[r], snapshot) {
      assert r in v && r !in v';
    }
  }

  /** A row of the chunk that was committed after the chunk was validated, and is valid at a snapshot. */
  ghost predicate LateAt(s: State, c: nat, snapshot: nat)
    requires c in s.cleaned
  {
    exists r :: r in s.rows && r.chunk == c && s.cleaned[c] < s.rows[r].begin && VisibleAt(s.rows[r], snapshot)
  }

  /** Which snapshots from its validation on a stamped chunk shows rows to: before its cleanup those that were moved. */
  lemma SnapshotsOfChunk(s: State, c: nat, snapshot: nat)
    requires RowsOk(s) && SlotsOk(s) && Queueable(s, c) && c in s.cleaned && s.cleaned[c] <= snapshot
    ensures HadRows(s, c, snapshot) <==> (snapshot < s.slots[c].cleanup && MovedRows(s, c)) || LateAt(s, c, snapshot)
  {
    SlotIsOk(s, c);
    forall r | r in s.rows && r.chunk == c ensures CleanedRow(s.rows[r], s.cleaned[c], s.slots[c].cleanup) {
      RowIsOk(s, r);
    }
    if MovedRows(s, c) && snapshot < s.slots[c].cleanup {
      var r :| r in s.rows && r.chunk == c && s.rows[r].end == s.slots[c].cleanup;
      assert VisibleAt(s.rows[r], snapshot);
    }
  }

  /** The snapshot is one that the removal of a chunk takes rows away from. */
  ghost predicate Needs(s: State, c: nat, snapshot: nat)
    requires Queueable(s, c) && c in s.cleaned
  {
    if snapshot < s.cleaned[c] then HadRows(s, c, snapshot)
    else (snapshot < s.slots[c].cleanup && MovedRows(s, c)) || LateAt(s, c, snapshot)
  }

  /**
   Whatever snapshots there are when the physical delete looks, and whatever inserts were unfinished when
   the chunk was validated: the removal takes rows away from a snapshot exactly when it is older than the
   validation and some row was valid then, or older than the cleanup and rows were moved, or shows a row
   that was committed after the validation.
   */
  lemma RemovalKeepsViewIff(s: State, snapshot: nat)
    requires Inv(s) && Enabled(s, CheckQueue) && s.queue[0] in s.cleaned
    ensures View(Removed(s), snapshot) == View(s, snapshot) <==> !Needs(s, s.queue[0], snapshot)
  {
    assert s.queue[0] in s.queue;
    ViewWithoutChunk(s, snapshot);
    if s.cleaned[s.queue[0]] <= snapshot {
      SnapshotsOfChunk(s, s.queue[0], snapshot);
    }
  }

  lemma NeededByOlder(s: State, snapshot: nat)
    requires Queued(s) && InsertsFinished(s, s.queue[0], s.cleaned[s.queue[0]]) && Needs(s, s.queue[0], snapshot)
    ensures snapshot < s.slots[s.queue[0]].cleanup
  {
  }

  /** There is a chunk in the queue, and its validation is known. */
  ghost predicate Queued(s: State) {
    |s.queue| > 0 && Queueable(s, s.queue[0]) && s.queue[0] in s.cleaned &&
    s.cleaned[s.queue[0]] < s.slots[s.queue[0]].cleanup
  }

  /**
   All existing transactions keep their views exactly when none of them needs the chunk.  If all inserts
   were finished when it was validated, the check of the code covers the transactions that are registered;
   it misses those that are not.
   */
  lemma RemovalKeepsAllViewsIff(s: State)
    requires Inv(s) && Enabled(s, CheckQueue) && s.queue[0] in s.cleaned
    ensures (forall t :: t in s.txns ==> View(Removed(s), s.txns[t].snapshot) == View(s, s.txns[t].snapshot)) <==>
      forall t :: t in s.txns ==> !Needs(s, s.queue[0], s.txns[t].snapshot)
    ensures InsertsFinished(s, s.queue[0], s.cleaned[s.queue[0]]) ==>
      forall t :: t in s.txns && Registered(s.txns[t]) ==> !Needs(s, s.queue[0], s.txns[t].snapshot)
  {
    assert s.queue[0] in s.queue;
    SlotIsOk(s, s.queue[0]);
    forall t | t in s.txns
      ensures View(Removed(s), s.txns[t].snapshot) == View(s, s.txns[t].snapshot) <==>
        !Needs(s, s.queue[0], s.txns[t].snapshot)
    {
      RemovalKeepsViewIff(s, s.txns[t].snapshot);
    }
    if InsertsFinished(s, s.queue[0], s.cleaned[s.queue[0]]) {
      forall t | t in s.txns && Registered(s.txns[t]) ensures !Needs(s, s.queue[0], s.txns[t].snapshot) {
        if Needs(s, s.queue[0], s.txns[t].snapshot) {
          NeededByOlder(s, s.txns[t].snapshot);
        }
      }
    }
  }

  /** When the logical delete moved rows and no transaction is older than its snapshot, that is its whole condition. */
  lemma RemovalIsSafeIff(s: State)
    requires Inv(s) && Enabled(s, CheckQueue) && s.queue[0] in s.cleaned
    requires InsertsFinished(s, s.queue[0], s.cleaned[s.queue[0]])
    requires forall t :: t in s.txns ==> s.cleaned[s.queue[0]] <= s.txns[t].snapshot
    ensures (forall t :: t in s.txns ==> View(Removed(s), s.txns[t].snapshot) == View(s, s.txns[t].snapshot)) <==>
      !MovedRows(s, s.queue[0]) || NoOlderSnapshot(s, s.queue[0])
  {
    RemovalKeepsAllViewsIff(s);
  }
}

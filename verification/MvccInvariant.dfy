/**
 What interleavings of transactions, logical deletes and physical deletes keep: all those in which a
 chunk is removed only when nobody needs it (`Steady`), and more when no unfinished insert is validated
 either (`Calm`).
 */
module MvccInvariant {
  import opened Mvcc
  import opened MvccQueue

  ghost predicate TxnOk(s: State, t: nat)
    requires t in s.txns
  {
    var x := s.txns[t];
    && 0 < t < s.nextTid && x.snapshot <= s.last
    && (x.phase.Unregistered? ==> x.deletes == {} && x.inserts == {})
    && (x.phase.Committing? ==>
          s.last < x.phase.cid <= s.issued && x.phase.cid in s.committer && s.committer[x.phase.cid] == t)
    && (x.phase.Committed? ==> x.snapshot < x.phase.cid <= s.last)
  }

  /** A row that a running transaction has locked for deletion. */
  ghost predicate LockOk(s: State, t: nat, r: RowId)
    requires t in s.txns
  {
    var x := s.txns[t];
    && r in s.rows && s.rows[r].tid == t && s.rows[r].begin <= x.snapshot
    && (s.rows[r].end == MAX_COMMIT_ID || (x.phase.Committing? && s.rows[r].end == x.phase.cid))
  }

  /** A row that a running transaction has inserted; in a cleaned chunk only one with an older snapshot can have. */
  ghost predicate InsertOk(s: State, t: nat, r: RowId)
    requires t in s.txns
  {
    var x := s.txns[t];
    && r in s.rows && IsPresent(s, r.chunk)
    && (s.slots[r.chunk].cleanup != 0 ==> x.snapshot < s.slots[r.chunk].cleanup)
    && var row := s.rows[r];
       if x.phase.Committing? && row.begin == x.phase.cid then row.tid == 0 && row.end == MAX_COMMIT_ID
       else
         && row.begin == MAX_COMMIT_ID && row.tid == t
         && (row.end == MAX_COMMIT_ID || (x.phase.RollingBack? && row.end == 0))
  }

  ghost predicate Deleting(s: State, cid: nat, r: RowId) {
    cid in s.committer && s.committer[cid] in s.txns && r in s.txns[s.committer[cid]].deletes
  }

  ghost predicate Inserting(s: State, cid: nat, r: RowId) {
    cid in s.committer && s.committer[cid] in s.txns && r in s.txns[s.committer[cid]].inserts
  }

  ghost predicate RowOk(s: State, r: RowId)
    requires r in s.rows
  {
    var row := s.rows[r];
    && IsPresent(s, r.chunk) && r.offset < s.slots[r.chunk].size
    && (s.slots[r.chunk].cleanup != 0 ==>
          r.chunk in s.cleaned && CleanedRow(row, s.cleaned[r.chunk], s.slots[r.chunk].cleanup))
    && (row.begin == MAX_COMMIT_ID || row.begin < row.end || row.begin == row.end == 0)
    && (row.tid == 0 ==> row.end == MAX_COMMIT_ID || row.end == 0)
    && (row.begin <= s.last || row.begin == MAX_COMMIT_ID || (row.begin <= s.issued && Inserting(s, row.begin, r)))
    && (row.end <= s.last || row.end == MAX_COMMIT_ID || (row.end <= s.issued && Deleting(s, row.end, r)))
    && row.tid < s.nextTid
    && (row.tid in s.txns ==> r in s.txns[row.tid].deletes || r in s.txns[row.tid].inserts)
  }

  /** A row of a chunk validated at `snapshot` and stamped with `cleanup`: moved, deleted before, or begun later. */
  ghost predicate CleanedRow(row: Row, snapshot: nat, cleanup: nat) {
    && (row.begin <= snapshot ==> row.end == cleanup || row.end <= snapshot)
    && (row.end == cleanup ==> row.begin <= snapshot)
  }

  ghost predicate SlotOk(s: State, c: nat)
    requires c < |s.slots|
  {
    match s.slots[c]
    case Present(size, cleanup) =>
      && (cleanup != 0 ==> c in s.cleaned && s.cleaned[c] < cleanup <= s.last && c + 1 < |s.slots|)
      && forall o: nat :: o < size ==> RowId(c, o) in s.rows
    case Removed => c + 1 < |s.slots|
  }

  /** The commit ids that are handed out and not yet published belong to committing transactions. */
  ghost predicate CommitterOk(s: State, c: nat) {
    c in s.committer && s.committer[c] in s.txns && s.txns[s.committer[c]].phase == Committing(c)
  }

  /** Every row of the chunk that was committed by the snapshot is validated or was deleted by then. */
  ghost predicate Covered(s: State, c: nat, todo: set<RowId>, snapshot: nat) {
    forall r :: r in s.rows && r.chunk == c && s.rows[r].begin <= snapshot ==> r in todo || s.rows[r].end <= snapshot
  }

  /** Who has inserted into the chunk of a logical delete and is not done has an older snapshot. */
  ghost predicate InsertersOlder(s: State, c: nat, snapshot: nat) {
    forall t, r :: t in s.txns && r in s.txns[t].inserts && r.chunk == c ==> s.txns[t].snapshot <= snapshot
  }

  /** The rows deleted with the commit id of the logical delete are those it saw. */
  ghost predicate DeletedRowsBegan(s: State, c: nat, cid: nat, snapshot: nat) {
    forall r :: r in s.rows && r.chunk == c && s.rows[r].end == cid ==> s.rows[r].begin <= snapshot
  }

  /** A row of the chunk and its copy. */
  ghost predicate CopyOk(s: State, t: nat, r: RowId)
    requires t in s.txns && s.txns[t].job.Cleaner? && r in s.txns[t].job.copies
  {
    var x := s.txns[t];
    && r in x.job.todo && r in s.rows && x.job.copies[r] in s.rows && x.job.copies[r] in x.inserts
    && s.rows[x.job.copies[r]].data == s.rows[r].data
  }

  ghost predicate CopiesOk(s: State, t: nat)
    requires t in s.txns && s.txns[t].job.Cleaner?
  {
    && (forall r :: r in s.txns[t].job.copies ==> CopyOk(s, t, r))
    && CopiesInjective(s.txns[t].job.copies)
    && s.txns[t].inserts <= s.txns[t].job.copies.Values
  }

  ghost predicate CopiesInjective(copies: map<RowId, RowId>) {
    forall r, r' :: r in copies && r' in copies && copies[r] == copies[r'] ==> r == r'
  }

  ghost predicate InChunk(s: State, rows: set<RowId>, c: nat) {
    forall r :: r in rows ==> r in s.rows && r.chunk == c
  }

  ghost predicate EndedAt(s: State, rows: set<RowId>, cid: nat) {
    forall r :: r in rows ==> r in s.rows && s.rows[r].end == cid
  }

  ghost predicate BegunAt(s: State, rows: set<RowId>, cid: nat) {
    forall r :: r in rows ==> r in s.rows && s.rows[r].begin == cid
  }

  /** The chunk of a logical delete, and who else has rows in it. */
  ghost predicate ChunkOk(s: State, t: nat)
    requires t in s.txns && s.txns[t].job.Cleaner?
  {
    var x := s.txns[t];
    && x.job.chunk + 1 < |s.slots| && IsPresent(s, x.job.chunk)
    && OnlyCleaner(s, t) && InsertersOlder(s, x.job.chunk, x.snapshot)
  }

  /** How far a logical delete is that has not validated its chunk yet. */
  ghost predicate ChosenShape(x: Txn)
    requires x.job.Cleaner?
  {
    && !x.phase.Committing? && !x.phase.Committed?
    && x.deletes == {} && x.inserts == {} && x.job.todo == {} && x.job.copies == map[]
  }

  /** How far one is that has: it deletes, then copies, then commits; a conflict can only come before the copies. */
  ghost predicate ValidatedShape(x: Txn)
    requires x.job.Cleaner?
  {
    && !x.phase.Unregistered? && x.deletes <= x.job.todo
    && (x.phase.RollingBack? ==> x.job.copies == map[] && x.inserts == {})
    && (x.job.copies != map[] ==> x.deletes == x.job.todo)
    && (x.phase.Committing? || x.phase.Committed? ==> x.deletes == x.job.todo == x.job.copies.Keys)
  }

  ghost predicate CommittedRows(s: State, x: Txn)
    requires x.job.Cleaner? && x.phase.Committed?
  {
    && EndedAt(s, x.job.todo, x.phase.cid) && BegunAt(s, x.inserts, x.phase.cid)
    && DeletedRowsBegan(s, x.job.chunk, x.phase.cid, x.snapshot)
  }

  /** The rows of a validated chunk and their copies. */
  ghost predicate JobRows(s: State, t: nat)
    requires t in s.txns && s.txns[t].job.Cleaner?
  {
    var x := s.txns[t];
    && InChunk(s, x.job.todo, x.job.chunk) && Covered(s, x.job.chunk, x.job.todo, x.snapshot)
    && (x.phase.RollingBack? || CopiesOk(s, t))
    && (x.phase.Committed? ==> CommittedRows(s, x))
  }

  /** A logical delete under way. */
  ghost predicate CleanerOk(s: State, t: nat)
    requires t in s.txns && s.txns[t].job.Cleaner?
  {
    var x := s.txns[t];
    && ChunkOk(s, t)
    && match x.job.stage {
         case Chosen => ChosenShape(x) && s.slots[x.job.chunk].cleanup == 0
         case Validated => ValidatedShape(x) && s.slots[x.job.chunk].cleanup == 0 && JobRows(s, t)
         case _ => x.phase.Committed? && s.slots[x.job.chunk].cleanup == x.phase.cid
       }
  }

  /** No transaction that exists has a snapshot older than the cleanup of chunk `c`. */
  ghost predicate NoOlderSnapshot(s: State, c: nat)
    requires IsPresent(s, c)
  {
    forall t :: t in s.txns ==> s.slots[c].cleanup <= s.txns[t].snapshot
  }

  /** Every row of the chunk is invalid, with a commit id up to the cleanup. */
  ghost predicate AllEnded(s: State, c: nat)
    requires IsPresent(s, c)
  {
    forall r :: r in s.rows && r.chunk == c ==> s.rows[r].end <= s.slots[c].cleanup
  }

  ghost predicate PhysicalOk(s: State) {
    s.physical.Cleared? ==>
      && |s.queue| > 0 && s.queue[0] == s.physical.chunk
      && IsPresent(s, s.queue[0]) && NoOlderSnapshot(s, s.queue[0]) && AllEnded(s, s.queue[0])
  }

  ghost predicate CountersOk(s: State) {
    0 < s.last <= s.issued < MAX_COMMIT_ID && 0 < s.nextTid
  }

  ghost predicate TxnsOk(s: State) {
    forall t :: t in s.txns ==> TxnOk(s, t)
  }

  ghost predicate LocksOk(s: State) {
    forall t, r :: t in s.txns && r in s.txns[t].deletes && !s.txns[t].phase.Committed? ==> LockOk(s, t, r)
  }

  ghost predicate InsertsOk(s: State) {
    forall t, r :: t in s.txns && r in s.txns[t].inserts && !s.txns[t].phase.Committed? ==> InsertOk(s, t, r)
  }

  ghost predicate RowsOk(s: State) {
    forall r :: r in s.rows ==> RowOk(s, r)
  }

  ghost predicate SlotsOk(s: State) {
    forall c {:trigger s.slots[c]} :: 0 <= c < |s.slots| ==> SlotOk(s, c)
  }

  ghost predicate CommittersOk(s: State) {
    forall c {:trigger c in s.committer} :: s.last < c <= s.issued ==> CommitterOk(s, c)
  }

  ghost predicate CleanersOk(s: State) {
    forall t :: t in s.txns && s.txns[t].job.Cleaner? ==> CleanerOk(s, t)
  }

  ghost predicate Inv(s: State) {
    && CountersOk(s) && Orderly(s) && PhysicalOk(s) && TxnsOk(s) && LocksOk(s) && InsertsOk(s)
    && RowsOk(s) && SlotsOk(s) && CommittersOk(s) && CleanersOk(s)
  }

  /** A chunk is removed only when no existing transaction has an older snapshot and all its rows are invalid. */
  ghost predicate Steady(s: State, step: Step)
    requires Enabled(s, step)
  {
    step.CheckQueue? ==> NoOlderSnapshot(s, s.queue[0]) && AllEnded(s, s.queue[0])
  }

  // ---------------------------------------------------------------- no unfinished inserts

  ghost predicate InsertsFinished(s: State, c: nat, snapshot: nat) {
    forall r :: r in s.rows && r.chunk == c ==> s.rows[r].begin <= snapshot
  }

  ghost predicate StampedFinished(s: State, c: nat) {
    Queueable(s, c) && c in s.cleaned ==> InsertsFinished(s, c, s.cleaned[c])
  }

  ghost predicate IsValidated(s: State, t: nat) {
    t in s.txns && s.txns[t].job.Cleaner? && s.txns[t].job.stage.Validated?
  }

  ghost predicate ValidatedFinished(s: State, t: nat) {
    IsValidated(s, t) ==> InsertsFinished(s, s.txns[t].job.chunk, s.txns[t].snapshot)
  }

  /** Every row of a stamped or validated chunk was committed or undone when the chunk was validated. */
  ghost predicate Tight(s: State) {
    (forall c: nat :: StampedFinished(s, c)) && forall t: nat :: ValidatedFinished(s, t)
  }

  /**
   The two conditions under which the plugin is safe.  When a chunk is validated, every insert into
   it has been committed by the snapshot or undone; and when the physical delete looks for older
   snapshots, no transaction has read one without being registered yet.
   */
  ghost predicate Calm(s: State, step: Step)
    requires Enabled(s, step)
  {
    match step
    case ValidateChunk(t) => InsertsFinished(s, s.txns[t].job.chunk, s.txns[t].snapshot)
    case CheckQueue => NoOlderSnapshot(s, s.queue[0])
    case _ => true
  }

  // ---------------------------------------------------------------- what the invariant says of one of them

  lemma TxnIsOk(s: State, t: nat)
    requires TxnsOk(s) && t in s.txns
    ensures TxnOk(s, t)
  {
  }

  lemma RowIsOk(s: State, r: RowId)
    requires RowsOk(s) && r in s.rows
    ensures RowOk(s, r)
  {
  }

  lemma CleanerIsOk(s: State, t: nat)
    requires CleanersOk(s) && t in s.txns && s.txns[t].job.Cleaner?
    ensures CleanerOk(s, t)
  {
  }

  lemma SlotIsOk(s: State, c: nat)
    requires SlotsOk(s) && c < |s.slots|
    ensures SlotOk(s, c)
  {
  }

  lemma LockIsOk(s: State, t: nat, r: RowId)
    requires LocksOk(s) && t in s.txns && r in s.txns[t].deletes && !s.txns[t].phase.Committed?
    ensures LockOk(s, t, r)
  {
  }

  lemma InsertIsOk(s: State, t: nat, r: RowId)
    requires InsertsOk(s) && t in s.txns && r in s.txns[t].inserts && !s.txns[t].phase.Committed?
    ensures InsertOk(s, t, r)
  {
  }

  lemma CommitterIsOk(s: State, c: nat)
    requires CommittersOk(s) && s.last < c <= s.issued
    ensures CommitterOk(s, c)
  {
    assert c in s.committer || c !in s.committer;
  }
}

/** What commits and rollbacks come to, and what the physical delete waits for. */
module MvccFinish {
  import opened Basics
  import opened Mvcc
  import opened MvccQueue
  import opened MvccInvariant
  import opened MvccSafety
  import opened MvccReach
  import opened MvccExact

  /** Some calm steps lead from `s` to `s'`. */
  ghost predicate Leads(s: State, s': State) {
    exists steps :: Follows(s, steps, s') && CalmRun(s, steps)
  }

  lemma LeadsThere(s: State)
    ensures Leads(s, s)
  {
    var none: seq<Step> := [];
    assert Follows(s, none, s) && CalmRun(s, none);
  }

  lemma LeadsAfter(s: State, step: Step, s': State)
    requires Enabled(s, step) && Calm(s, step) && Leads(Apply(s, step), s')
    ensures Leads(s, s')
  {
    var rest :| Follows(Apply(s, step), rest, s') && CalmRun(Apply(s, step), rest);
    var steps := [step] + rest;
    assert steps[1..] == rest;
    assert Follows(s, steps, s') && CalmRun(s, steps);
  }

  /** The rows that the transaction has written exist. */
  ghost predicate RowsExist(s: State, t: nat)
    requires t in s.txns
  {
    s.txns[t].deletes <= s.rows.Keys && s.txns[t].inserts <= s.rows.Keys
  }

  lemma WrittenRowsExist(s: State, t: nat)
    requires LocksOk(s) && InsertsOk(s) && t in s.txns && !s.txns[t].phase.Committed?
    ensures RowsExist(s, t)
  {
    forall r | r in s.txns[t].deletes ensures r in s.rows {
      LockIsOk(s, t, r);
    }
    forall r | r in s.txns[t].inserts ensures r in s.rows {
      InsertIsOk(s, t, r);
    }
  }

  // ---------------------------------------------------------------- rollback

  /** A row after a rollback: an insert is dead, a lock is released. */
  function UndoneRow(row: Row, inserted: bool, locked: bool): Row {
    if inserted then Row(row.data, 0, 0, 0) else if locked then row.(tid := 0) else row
  }

  /** The state without the transaction and what it wrote. */
  function RolledBack(s: State, t: nat): State
    requires t in s.txns
  {
    s.(txns := s.txns - {t},
       rows := map r | r in s.rows :: UndoneRow(s.rows[r], r in s.txns[t].inserts, r in s.txns[t].deletes))
  }

  ghost function Unended(s: State, t: nat): set<RowId>
    requires t in s.txns
  {
    set r | r in s.txns[t].inserts && r in s.rows && s.rows[r].end != 0
  }

  lemma UnlockStep(s: State, t: nat, r: RowId)
    requires Runs(s, t, RollingBack) && RowsExist(s, t) && r in s.txns[t].deletes
    ensures Enabled(s, UndoLock(t, r))
    ensures var s' := Apply(s, UndoLock(t, r));
      Runs(s', t, RollingBack) && RowsExist(s', t) && RolledBack(s', t) == RolledBack(s, t) &&
      s'.txns[t].deletes == s.txns[t].deletes - {r}
  {
    var s' := Apply(s, UndoLock(t, r));
    assert RolledBack(s', t).rows == RolledBack(s, t).rows;
  }

  lemma EndStep(s: State, t: nat, r: RowId)
    requires Runs(s, t, RollingBack) && RowsExist(s, t) && r in Unended(s, t)
    ensures Enabled(s, UndoInsertEnd(t, r))
    ensures var s' := Apply(s, UndoInsertEnd(t, r));
      s'.txns == s.txns && RowsExist(s', t) && RolledBack(s', t) == RolledBack(s, t) &&
      Unended(s', t) == Unended(s, t) - {r}
  {
    var s' := Apply(s, UndoInsertEnd(t, r));
    assert RolledBack(s', t).rows == RolledBack(s, t).rows;
  }

  lemma BeginStep(s: State, t: nat, r: RowId)
    requires Runs(s, t, RollingBack) && RowsExist(s, t) && r in s.txns[t].inserts
    requires Unended(s, t) == {} && s.txns[t].deletes == {}
    ensures Enabled(s, UndoInsertBegin(t, r))
    ensures var s' := Apply(s, UndoInsertBegin(t, r));
      Runs(s', t, RollingBack) && RowsExist(s', t) && RolledBack(s', t) == RolledBack(s, t) &&
      Unended(s', t) == {} && s'.txns[t].deletes == {} && s'.txns[t].inserts == s.txns[t].inserts - {r}
  {
    forall r' | r' in s.txns[t].inserts ensures r' in s.rows && s.rows[r'].end == 0 {
      assert r' !in Unended(s, t);
    }
    var s' := Apply(s, UndoInsertBegin(t, r));
    assert RolledBack(s', t).rows == RolledBack(s, t).rows;
  }

  lemma {:induction false} UndoInserts(s: State, t: nat, end: State)
    requires Runs(s, t, RollingBack) && RowsExist(s, t) && s.txns[t].deletes == {} && Unended(s, t) == {}
    requires end == RolledBack(s, t)
    ensures Leads(s, end)
    decreases |s.txns[t].inserts|
  {
    if r :| r in s.txns[t].inserts {
      BeginStep(s, t, r);
      UndoInserts(Apply(s, UndoInsertBegin(t, r)), t, end);
      LeadsAfter(s, UndoInsertBegin(t, r), end);
    } else {
      assert end == Apply(s, Deregister(t));
      LeadsThere(end);
      LeadsAfter(s, Deregister(t), end);
    }
  }

  /** A rollback that has begun can be carried through, and nothing is left of it but dead rows. */
  lemma {:induction false} RollbackCompletes(s: State, t: nat, end: State)
    requires Runs(s, t, RollingBack) && RowsExist(s, t) && end == RolledBack(s, t)
    ensures Leads(s, end)
    decreases |s.txns[t].deletes|, |Unended(s, t)|
  {
    if r :| r in s.txns[t].deletes {
      UnlockStep(s, t, r);
      RollbackCompletes(Apply(s, UndoLock(t, r)), t, end);
      LeadsAfter(s, UndoLock(t, r), end);
    } else if r :| r in Unended(s, t) {
      EndStep(s, t, r);
      RollbackCompletes(Apply(s, UndoInsertEnd(t, r)), t, end);
      LeadsAfter(s, UndoInsertEnd(t, r), end);
    } else {
      UndoInserts(s, t, end);
    }
  }

  lemma UndoneViews(s: State, t: nat)
    requires t in s.txns && RowsExist(s, t)
    requires forall r :: r in s.txns[t].inserts ==> s.rows[r].begin > s.last
    ensures forall snapshot: nat :: snapshot <= s.last ==> View(RolledBack(s, t), snapshot) == View(s, snapshot)
  {
    forall snapshot: nat | snapshot <= s.last ensures View(RolledBack(s, t), snapshot) == View(s, snapshot) {
      forall r | r in s.rows ensures r in View(RolledBack(s, t), snapshot) <==> r in View(s, snapshot) {
      }
    }
  }

  /** A rollback can be carried through; then every lock is free again and every snapshot shows what it showed. */
  lemma RollbackUndoes(s: State, t: nat)
    requires Inv(s) && Runs(s, t, RollingBack)
    ensures Leads(s, RolledBack(s, t))
    ensures forall snapshot: nat :: snapshot <= s.last ==> View(RolledBack(s, t), snapshot) == View(s, snapshot)
    ensures forall r :: r in s.txns[t].deletes ==> r in RolledBack(s, t).rows && RolledBack(s, t).rows[r].tid == 0
  {
    WrittenRowsExist(s, t);
    RollbackCompletes(s, t, RolledBack(s, t));
    forall r | r in s.txns[t].inserts ensures s.rows[r].begin > s.last {
      InsertIsOk(s, t, r);
    }
    UndoneViews(s, t);
  }

  /** A transaction that ends without a commit leaves no row behind that it holds. */
  lemma EndsWithoutLocks(s: State, t: nat)
    requires Inv(s) && Enabled(s, Deregister(t)) && !s.txns[t].phase.Committed?
    ensures forall r :: r in s.rows ==> Apply(s, Deregister(t)).rows[r].tid != t
  {
    forall r | r in s.rows ensures s.rows[r].tid != t {
      RowIsOk(s, r);
    }
  }

  // ---------------------------------------------------------------- commit

  /** A row after a commit: an insert begins with the commit id, a deleted row ends with it and stays locked. */
  function CommittedRow(row: Row, cid: nat, inserted: bool, deleted: bool): Row {
    var ended := if deleted then row.(end := cid) else row;
    if inserted then ended.(begin := cid, tid := 0) else ended
  }

  /** The state in which the transaction has written and published its commit id. */
  function Published(s: State, t: nat): State
    requires t in s.txns && s.txns[t].phase.Committing?
  {
    var x, cid := s.txns[t], s.txns[t].phase.cid;
    s.(txns := s.txns[t := x.(phase := Committed(cid))], last := cid,
       rows := map r | r in s.rows :: CommittedRow(s.rows[r], cid, r in x.inserts, r in x.deletes))
  }

  ghost function UnwrittenDeletes(s: State, t: nat): set<RowId>
    requires t in s.txns && s.txns[t].phase.Committing?
  {
    set r | r in s.txns[t].deletes && r in s.rows && s.rows[r].end != s.txns[t].phase.cid
  }

  ghost function UnwrittenInserts(s: State, t: nat): set<RowId>
    requires t in s.txns && s.txns[t].phase.Committing?
  {
    set r | r in s.txns[t].inserts && r in s.rows && s.rows[r].begin != s.txns[t].phase.cid
  }

  /** The transaction has the next commit id to be published, and what it has written is unlocked. */
  ghost predicate CanPublish(s: State, t: nat) {
    t in s.txns && s.txns[t].phase == Committing(s.last + 1) && RowsExist(s, t) &&
    forall r :: r in s.txns[t].inserts && s.rows[r].begin == s.last + 1 ==> s.rows[r].tid == 0
  }

  lemma CommitDeleteStep(s: State, t: nat, r: RowId)
    requires CanPublish(s, t) && r in UnwrittenDeletes(s, t)
    ensures Enabled(s, CommitDelete(t, r))
    ensures var s' := Apply(s, CommitDelete(t, r));
      CanPublish(s', t) && Published(s', t) == Published(s, t) &&
      UnwrittenDeletes(s', t) == UnwrittenDeletes(s, t) - {r}
  {
    var s' := Apply(s, CommitDelete(t, r));
    assert Published(s', t).rows == Published(s, t).rows;
  }

  lemma CommitInsertStep(s: State, t: nat, r: RowId)
    requires CanPublish(s, t) && r in UnwrittenInserts(s, t) && UnwrittenDeletes(s, t) == {}
    ensures Enabled(s, CommitInsert(t, r))
    ensures var s' := Apply(s, CommitInsert(t, r));
      CanPublish(s', t) && Published(s', t) == Published(s, t) && UnwrittenDeletes(s', t) == {} &&
      UnwrittenInserts(s', t) == UnwrittenInserts(s, t) - {r}
  {
    var s' := Apply(s, CommitInsert(t, r));
    assert Published(s', t).rows == Published(s, t).rows;
  }

  lemma PublishStep(s: State, t: nat)
    requires CanPublish(s, t) && UnwrittenDeletes(s, t) == {} && UnwrittenInserts(s, t) == {}
    ensures Enabled(s, Publish(t)) && Apply(s, Publish(t)) == Published(s, t)
  {
    forall r | r in s.txns[t].deletes ensures r in s.rows && s.rows[r].end == s.last + 1 {
      assert r !in UnwrittenDeletes(s, t);
    }
    forall r | r in s.txns[t].inserts ensures r in s.rows && s.rows[r].begin == s.last + 1 {
      assert r !in UnwrittenInserts(s, t);
    }
    assert Published(s, t).rows == s.rows;
  }

  /** A commit whose turn it is can be carried through. */
  lemma {:induction false} CommitCompletes(s: State, t: nat)
    requires CanPublish(s, t)
    ensures Leads(s, Published(s, t))
    decreases |UnwrittenDeletes(s, t)|, |UnwrittenInserts(s, t)|
  {
    if r :| r in UnwrittenDeletes(s, t) {
      CommitDeleteStep(s, t, r);
      CommitCompletes(Apply(s, CommitDelete(t, r)), t);
      LeadsAfter(s, CommitDelete(t, r), Published(s, t));
    } else if r :| r in UnwrittenInserts(s, t) {
      CommitInsertStep(s, t, r);
      CommitCompletes(Apply(s, CommitInsert(t, r)), t);
      LeadsAfter(s, CommitInsert(t, r), Published(s, t));
    } else {
      PublishStep(s, t);
      LeadsThere(Published(s, t));
      LeadsAfter(s, Publish(t), Published(s, t));
    }
  }

  lemma CanPublishNext(s: State, t: nat)
    requires LocksOk(s) && InsertsOk(s) && t in s.txns && s.txns[t].phase == Committing(s.last + 1)
    ensures CanPublish(s, t)
  {
    WrittenRowsExist(s, t);
    forall r | r in s.txns[t].inserts && s.rows[r].begin == s.last + 1 ensures s.rows[r].tid == 0 {
      InsertIsOk(s, t, r);
    }
  }

  /** What becomes of a row at the commit with the id after `last`. */
  ghost predicate Changes(row: Row, last: nat, inserted: bool, deleted: bool) {
    var row' := CommittedRow(row, last + 1, inserted, deleted);
    VisibleAt(row', last + 1) == ((VisibleAt(row, last) && !deleted) || inserted) && row'.data == row.data &&
    forall snapshot: nat :: snapshot <= last ==> VisibleAt(row', snapshot) == VisibleAt(row, snapshot)
  }

  lemma RowChanges(s: State, t: nat, r: RowId)
    requires CountersOk(s) && TxnsOk(s) && LocksOk(s) && InsertsOk(s) && RowsOk(s)
    requires t in s.txns && s.txns[t].phase == Committing(s.last + 1) && r in s.rows
    ensures Changes(s.rows[r], s.last, r in s.txns[t].inserts, r in s.txns[t].deletes)
  {
    TxnIsOk(s, t);
    RowsOfCommit(s, t);
    if r in s.txns[t].deletes {
      LockIsOk(s, t, r);
    }
    if r in s.txns[t].inserts {
      InsertIsOk(s, t, r);
    }
  }

  lemma PublishedViews(s: State, t: nat)
    requires CanPublish(s, t)
    requires forall r :: r in s.rows ==> Changes(s.rows[r], s.last, r in s.txns[t].inserts, r in s.txns[t].deletes)
    ensures View(Published(s, t), s.last + 1) ==
      View(s, s.last) - s.txns[t].deletes + RowsAt(s, s.txns[t].inserts)
    ensures forall snapshot: nat :: snapshot <= s.last ==> View(Published(s, t), snapshot) == View(s, snapshot)
  {
    forall snapshot: nat | snapshot <= s.last ensures View(Published(s, t), snapshot) == View(s, snapshot) {
      forall r | r in s.rows ensures r in View(Published(s, t), snapshot) <==> r in View(s, snapshot) {
        assert Changes(s.rows[r], s.last, r in s.txns[t].inserts, r in s.txns[t].deletes);
      }
    }
  }

  /**
   A commit whose turn it is can be carried through; then its commit id shows the rows of the last one, without
   those that the transaction deleted and with those that it inserted, and older snapshots what they showed.
   */
  lemma CommitPublishes(s: State, t: nat)
    requires Inv(s) && t in s.txns && s.txns[t].phase == Committing(s.last + 1)
    ensures Leads(s, Published(s, t)) && Published(s, t).last == s.last + 1
    ensures View(Published(s, t), s.last + 1) ==
      View(s, s.last) - s.txns[t].deletes + RowsAt(s, s.txns[t].inserts)
    ensures forall snapshot: nat :: snapshot <= s.last ==> View(Published(s, t), snapshot) == View(s, snapshot)
  {
    CanPublishNext(s, t);
    CommitCompletes(s, t);
    forall r | r in s.rows ensures Changes(s.rows[r], s.last, r in s.txns[t].inserts, r in s.txns[t].deletes) {
      RowChanges(s, t, r);
    }
    PublishedViews(s, t);
  }

  // ---------------------------------------------------------------- what the physical delete waits for

  /** get_lowest_active_snapshot_commit_id: the least snapshot of a registered transaction, if there is one. */
  ghost predicate IsLowestActive(s: State, lowest: Option<nat>) {
    match lowest
    case None => forall t :: t in s.txns ==> !Registered(s.txns[t])
    case Some(v) =>
      (exists t :: t in s.txns && Registered(s.txns[t]) && s.txns[t].snapshot == v) &&
      forall t :: t in s.txns && Registered(s.txns[t]) ==> v <= s.txns[t].snapshot
  }

  /** An idle physical delete takes the front of the queue unless the lowest active snapshot is below its cleanup. */
  lemma ChecksLowestSnapshot(s: State, lowest: Option<nat>)
    requires Orderly(s) && |s.queue| > 0 && s.physical.Idle? && IsLowestActive(s, lowest)
    ensures Queueable(s, s.queue[0])
    ensures Enabled(s, CheckQueue) <==> !(lowest.Some? && s.slots[s.queue[0]].cleanup > lowest.value)
  {
    assert s.queue[0] in s.queue;
  }
}

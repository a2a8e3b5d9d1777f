/** What a transaction reads from step to step: its own writes at once, those of others after their commit. */
module MvccReads {
  import opened Mvcc
  import opened MvccInvariant
  import opened MvccKeeps
  import opened MvccSafety
  import opened MvccExact
  import opened MvccReach
  import opened MvccQueue
  import opened MvccFinish

  /** The invariant of calm runs, and a calm step. */
  ghost predicate CalmStep(s: State, step: Step) {
    Inv(s) && Tight(s) && Enabled(s, step) && Calm(s, step)
  }

  lemma CalmKeeps(s: State, step: Step)
    requires CalmStep(s, step)
    ensures Steady(s, step) && Inv(Apply(s, step)) && Tight(Apply(s, step))
  {
    CalmIsSteady(s, step);
    KeepInv(s, step);
    KeepTight(s, step);
  }

  // ---------------------------------------------------------------- steps of others

  /** The step leaves the transaction alone. */
  ghost predicate LeavesAlone(s: State, step: Step, t: nat)
    requires Enabled(s, step)
  {
    t in s.txns && t in Apply(s, step).txns && Apply(s, step).txns[t] == s.txns[t]
  }

  lemma SameData(s: State, step: Step, r: RowId)
    requires Enabled(s, step) && RowInv(s) && r in s.rows && r in Apply(s, step).rows
    ensures Apply(s, step).rows[r].data == s.rows[r].data
  {
    if !step.RemoveChunk? {
      RowFixed(s, step, r);
    }
  }

  lemma RowsKeepData(s: State, step: Step, rows: set<RowId>)
    requires Enabled(s, step) && RowInv(s) && rows <= s.rows.Keys && rows <= Apply(s, step).rows.Keys
    ensures RowsAt(Apply(s, step), rows) == RowsAt(s, rows)
  {
    forall r | r in rows ensures Apply(s, step).rows[r].data == s.rows[r].data {
      SameData(s, step, r);
    }
  }

  /** What a transaction reads before and after a calm step at which it may read. */
  lemma ReadsAround(s: State, step: Step, t: nat)
    requires CalmStep(s, step) && MayRead(s, t) && MayRead(Apply(s, step), t)
    ensures var s' := Apply(s, step); var v := View(s, s.txns[t].snapshot);
      s.txns[t].inserts <= s.rows.Keys && s'.txns[t].inserts <= s'.rows.Keys &&
      Read(s, t) == v - s.txns[t].deletes + RowsAt(s, s.txns[t].inserts) &&
      Read(s', t) == v - s'.txns[t].deletes + RowsAt(s', s'.txns[t].inserts)
  {
    CalmKeeps(s, step);
    ReadIsView(s, t);
    ReadIsView(Apply(s, step), t);
    StepKeepsTxnView(s, step, t);
  }

  /** No step of others changes what a transaction reads. */
  lemma StepKeepsRead(s: State, step: Step, t: nat)
    requires CalmStep(s, step) && MayRead(s, t) && LeavesAlone(s, step, t)
    ensures Read(Apply(s, step), t) == Read(s, t)
  {
    ReadsAround(s, step, t);
    RowsKeepData(s, step, s.txns[t].inserts);
  }

  /** No step of the run is one of the transaction. */
  ghost predicate Rests(s: State, steps: seq<Step>, t: nat)
    requires CanRun(s, steps)
    decreases |steps|
  {
    |steps| == 0 || (LeavesAlone(s, steps[0], t) && Rests(Apply(s, steps[0]), steps[1..], t))
  }

  /** Between its own writes a transaction reads the same rows, whatever others and both loops of the plugin do. */
  lemma {:induction false} ReadsRepeat(s: State, steps: seq<Step>, t: nat)
    requires Inv(s) && Tight(s) && CanRun(s, steps) && CalmRun(s, steps) && MayRead(s, t) && Rests(s, steps, t)
    ensures t in Run(s, steps).txns && Read(Run(s, steps), t) == Read(s, t)
    decreases |steps|
  {
    if |steps| != 0 {
      StepKeepsRead(s, steps[0], t);
      CalmKeeps(s, steps[0]);
      ReadsRepeat(Apply(s, steps[0]), steps[1..], t);
    }
  }

  // ---------------------------------------------------------------- own writes

  lemma InsertedRows(s: State, t: nat, data: int, newChunk: bool)
    requires RowsOk(s) && Enabled(s, InsertRow(t, data, newChunk)) && s.txns[t].inserts <= s.rows.Keys
    ensures var s', r := Apply(s, InsertRow(t, data, newChunk)), NewRowId(s, newChunk);
      r !in s.rows && MayRead(s', t) && s'.txns[t].deletes == s.txns[t].deletes &&
      RowsAt(s', s'.txns[t].inserts) == RowsAt(s, s.txns[t].inserts)[r := data]
  {
    NewRowIsNew(s, newChunk);
  }

  lemma OneMore(v: map<RowId, int>, deletes: set<RowId>, own: map<RowId, int>, r: RowId, data: int)
    ensures v - deletes + own[r := data] == (v - deletes + own)[r := data]
  {
  }

  lemma OneLess(v: map<RowId, int>, deletes: set<RowId>, own: map<RowId, int>, r: RowId)
    requires r !in own
    ensures v - (deletes + {r}) + own == v - deletes + own - {r}
  {
  }

  /** A step that adds a row to the inserts of a transaction adds it to what it reads. */
  lemma ReadsOneMore(s: State, step: Step, t: nat, r: RowId, data: int)
    requires CalmStep(s, step) && MayRead(s, t) && MayRead(Apply(s, step), t)
    requires Apply(s, step).txns[t].deletes == s.txns[t].deletes
    requires RowsAt(Apply(s, step), Apply(s, step).txns[t].inserts) == RowsAt(s, s.txns[t].inserts)[r := data]
    ensures Read(Apply(s, step), t) == Read(s, t)[r := data]
  {
    ReadsAround(s, step, t);
    OneMore(View(s, s.txns[t].snapshot), s.txns[t].deletes, RowsAt(s, s.txns[t].inserts), r, data);
  }

  /** A step that adds a row to the deletes of a transaction takes it from what it reads. */
  lemma ReadsOneLess(s: State, step: Step, t: nat, r: RowId)
    requires CalmStep(s, step) && MayRead(s, t) && MayRead(Apply(s, step), t)
    requires Apply(s, step).txns[t].deletes == s.txns[t].deletes + {r}
    requires Apply(s, step).txns[t].inserts == s.txns[t].inserts && r !in s.txns[t].inserts
    ensures Read(Apply(s, step), t) == Read(s, t) - {r}
  {
    ReadsAround(s, step, t);
    RowsKeepData(s, step, s.txns[t].inserts);
    OneLess(View(s, s.txns[t].snapshot), s.txns[t].deletes, RowsAt(s, s.txns[t].inserts), r);
  }

  /** An inserted row is read from then on, with its data. */
  lemma InsertIsRead(s: State, t: nat, data: int, newChunk: bool)
    requires CalmStep(s, InsertRow(t, data, newChunk))
    ensures NewRowId(s, newChunk) !in Read(s, t)
    ensures Read(Apply(s, InsertRow(t, data, newChunk)), t) == Read(s, t)[NewRowId(s, newChunk) := data]
  {
    WrittenRowsExist(s, t);
    InsertedRows(s, t, data, newChunk);
    ReadsOneMore(s, InsertRow(t, data, newChunk), t, NewRowId(s, newChunk), data);
  }

  /** A row that a transaction can lock is one that its snapshot shows, and not one that it has written. */
  lemma LockedRow(s: State, t: nat, r: RowId)
    requires TxnsOk(s) && LocksOk(s) && InsertsOk(s) && CountersOk(s) && Enabled(s, LockRow(t, r))
    ensures var s' := Apply(s, LockRow(t, r));
      MayRead(s', t) && s'.txns[t].deletes == s.txns[t].deletes + {r} && s'.txns[t].inserts == s.txns[t].inserts
    ensures r in View(s, s.txns[t].snapshot) && r !in s.txns[t].deletes && r !in s.txns[t].inserts
  {
    TxnIsOk(s, t);
    if r in s.txns[t].deletes {
      LockIsOk(s, t, r);
    }
    if r in s.txns[t].inserts {
      InsertIsOk(s, t, r);
    }
  }

  /** A deleted row was read until then, and is not read from then on. */
  lemma DeleteIsRead(s: State, t: nat, r: RowId)
    requires CalmStep(s, LockRow(t, r))
    ensures r in Read(s, t) && Read(Apply(s, LockRow(t, r)), t) == Read(s, t) - {r}
  {
    LockedRow(s, t, r);
    ReadIsView(s, t);
    ReadsOneLess(s, LockRow(t, r), t, r);
  }

  // ---------------------------------------------------------------- write conflicts

  /** The row is held by a running transaction other than `t`. */
  ghost predicate HeldByOther(s: State, t: nat, r: RowId) {
    exists u :: u in s.txns && u != t && !s.txns[u].phase.Committed? && r in s.txns[u].deletes
  }

  /** A commit that is published has deleted the row. */
  ghost predicate DeletedByCommit(s: State, r: RowId)
    requires r in s.rows
  {
    0 < s.rows[r].end <= s.last
  }

  /**
   Of two transactions that want to delete a row the first one wins: while it runs and after its commit the other,
   whose snapshot may still show the row, cannot lock it and runs into the conflict.
   */
  lemma FirstDeleteWins(s: State, t: nat, r: RowId)
    requires Inv(s) && Runs(s, t, Active) && !IsCleaner(s, t) && r in s.rows
    requires HeldByOther(s, t, r) || DeletedByCommit(s, r)
    ensures !Enabled(s, LockRow(t, r)) && Enabled(s, Conflict(t, r))
  {
    RowIsOk(s, r);
    if u :| u in s.txns && u != t && !s.txns[u].phase.Committed? && r in s.txns[u].deletes {
      LockIsOk(s, u, r);
      TxnIsOk(s, u);
    }
    if r in s.txns[t].deletes {
      LockIsOk(s, t, r);
    }
    if r in s.txns[t].inserts {
      InsertIsOk(s, t, r);
    }
  }

  /** A row that is visible to an active transaction, and that nobody holds, can be locked, and is no conflict. */
  lemma FreeRowCanBeLocked(s: State, t: nat, r: RowId)
    requires Inv(s) && Tight(s) && Runs(s, t, Active) && !IsCleaner(s, t)
    requires r in Read(s, t) && r !in s.txns[t].inserts && s.rows[r].tid == 0
    ensures Enabled(s, LockRow(t, r)) && !Enabled(s, Conflict(t, r))
  {
    ReadIsView(s, t);
  }

  // ---------------------------------------------------------------- what is committed

  lemma BeginsWithoutWrites(s: State)
    requires TxnsOk(s)
    ensures s.nextTid !in s.txns && MayRead(Apply(s, Begin), s.nextTid)
    ensures Apply(s, Begin).txns[s.nextTid] == Txn(s.last, Unregistered, {}, {}, Client)
    ensures View(Apply(s, Begin), s.last) == View(s, s.last)
  {
    if s.nextTid in s.txns {
      TxnIsOk(s, s.nextTid);
    }
  }

  /** A transaction that begins reads everything that is committed by then. */
  lemma BeginReadsLast(s: State)
    requires Inv(s) && Tight(s)
    ensures s.nextTid !in s.txns && Read(Apply(s, Begin), s.nextTid) == View(s, s.last)
  {
    CalmKeeps(s, Begin);
    BeginsWithoutWrites(s);
    ReadIsView(Apply(s, Begin), s.nextTid);
  }

  /** Once a commit is carried through, who begins then reads the rows without those deleted and with those inserted. */
  lemma CommitIsRead(s: State, t: nat)
    requires Inv(s) && Tight(s) && t in s.txns && s.txns[t].phase == Committing(s.last + 1)
    ensures Leads(s, Published(s, t))
    ensures Read(Apply(Published(s, t), Begin), s.nextTid) ==
      View(s, s.last) - s.txns[t].deletes + RowsAt(s, s.txns[t].inserts)
  {
    CommitPublishes(s, t);
    var steps :| Follows(s, steps, Published(s, t)) && CalmRun(s, steps);
    CalmRunIsSteady(s, steps);
    BeginReadsLast(Published(s, t));
  }
}

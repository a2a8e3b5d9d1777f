/** Calm runs from a loaded table, step by step. */
module MvccReach {
  import opened Mvcc
  import opened MvccQueue
  import opened MvccInvariant
  import opened MvccSafety

  // ---------------------------------------------------------------- runs from a loaded table

  ghost predicate Follows(s: State, steps: seq<Step>, s': State) {
    CanRun(s, steps) && Run(s, steps) == s'
  }

  /** A calm run leads from a loaded table to the state. */
  ghost predicate Reached(s: State) {
    exists s0, steps :: Initial(s0) && Follows(s0, steps, s) && CalmRun(s0, steps)
  }

  lemma {:induction false} RunAppend(s: State, steps: seq<Step>, step: Step)
    requires CanRun(s, steps) && Enabled(Run(s, steps), step)
    ensures Follows(s, steps + [step], Apply(Run(s, steps), step))
    ensures CalmRun(s, steps) && Calm(Run(s, steps), step) ==> CalmRun(s, steps + [step])
    decreases |steps|
  {
    if |steps| == 0 {
      assert steps + [step] == [step];
    } else {
      RunAppend(Apply(s, steps[0]), steps[1..], step);
      assert (steps + [step])[1..] == steps[1..] + [step];
    }
  }

  lemma FollowsNext(s: State, steps: seq<Step>, s1: State, step: Step, s2: State)
    requires Follows(s, steps, s1) && Enabled(s1, step) && Apply(s1, step) == s2
    ensures Follows(s, steps + [step], s2)
  {
    RunAppend(s, steps, step);
  }

  lemma ReachedNext(s: State, step: Step, s': State)
    requires Reached(s) && Enabled(s, step) && Calm(s, step) && Apply(s, step) == s'
    ensures Reached(s')
  {
    var s0, steps :| Initial(s0) && Follows(s0, steps, s) && CalmRun(s0, steps);
    RunAppend(s0, steps, step);
  }

  lemma InitialReached(s: State)
    requires Initial(s)
    ensures Reached(s)
  {
    var none: seq<Step> := [];
    assert Follows(s, none, s) && CalmRun(s, none);
  }

  lemma ReachedInv(s: State)
    requires Reached(s)
    ensures Inv(s) && Tight(s)
  {
    var s0, steps :| Initial(s0) && Follows(s0, steps, s) && CalmRun(s0, steps);
    InitialInv(s0);
    CalmRunIsSteady(s0, steps);
  }

  // ---------------------------------------------------------------- single calm steps

  lemma DoBegin(s: State, txns: map<nat, Txn>)
    requires Reached(s) && txns == s.txns[s.nextTid := Txn(s.last, Unregistered, {}, {}, Client)]
    ensures Reached(s.(txns := txns, nextTid := s.nextTid + 1))
  {
    ReachedNext(s, Begin, s.(txns := txns, nextTid := s.nextTid + 1));
  }

  lemma DoBeginCleaner(s: State, c: nat, txns: map<nat, Txn>)
    requires Reached(s) && (forall t :: t in s.txns ==> s.txns[t].job.Client?)
    requires c + 1 < |s.slots| && IsPresent(s, c) && s.slots[c].cleanup == 0
    requires txns == s.txns[s.nextTid := Txn(s.last, Unregistered, {}, {}, Cleaner(c, Chosen, {}, map[]))]
    ensures Reached(s.(txns := txns, nextTid := s.nextTid + 1))
  {
    ReachedNext(s, BeginCleaner(c), s.(txns := txns, nextTid := s.nextTid + 1));
  }

  lemma DoRegister(s: State, t: nat, txns: map<nat, Txn>)
    requires Reached(s) && Runs(s, t, Unregistered) && txns == s.txns[t := s.txns[t].(phase := Active)]
    ensures Reached(s.(txns := txns))
  {
    ReachedNext(s, Register(t), s.(txns := txns));
  }

  lemma DoLock(s: State, t: nat, r: RowId, rows: map<RowId, Row>, txns: map<nat, Txn>)
    requires Reached(s) && Runs(s, t, Active) && r in s.rows && s.rows[r].tid == 0
    requires IsRowVisible(t, s.txns[t].snapshot, s.rows[r]) && (IsCleaner(s, t) ==> r in s.txns[t].job.todo)
    requires rows == s.rows[r := s.rows[r].(tid := t)]
    requires txns == s.txns[t := s.txns[t].(deletes := s.txns[t].deletes + {r})]
    ensures Reached(s.(rows := rows, txns := txns))
  {
    ReachedNext(s, LockRow(t, r), s.(rows := rows, txns := txns));
  }

  lemma DoInsert(s: State, t: nat, data: int, newChunk: bool, slots: seq<Slot>, rows: map<RowId, Row>,
                 txns: map<nat, Txn>)
    requires Reached(s) && Runs(s, t, Active) && !IsCleaner(s, t) && CanAppend(s, newChunk)
    requires var s' := Append(s, t, data, newChunk); slots == s'.slots && rows == s'.rows
    requires txns == s.txns[t := s.txns[t].(inserts := s.txns[t].inserts + {NewRowId(s, newChunk)})]
    ensures Reached(s.(slots := slots, rows := rows, txns := txns))
  {
    ReachedNext(s, InsertRow(t, data, newChunk), s.(slots := slots, rows := rows, txns := txns));
  }

  lemma DoValidate(s: State, t: nat, txns: map<nat, Txn>)
    requires Reached(s) && Runs(s, t, Active) && IsCleaner(s, t) && s.txns[t].job.stage.Chosen?
    requires InsertsFinished(s, s.txns[t].job.chunk, s.txns[t].snapshot)
    requires var job := s.txns[t].job;
      txns == s.txns[t := s.txns[t].(job := job.(stage := Validated, todo := ChunkView(s, t, job.chunk)))]
    ensures Reached(s.(txns := txns))
  {
    ReachedNext(s, ValidateChunk(t), s.(txns := txns));
  }

  lemma DoCopy(s: State, t: nat, r: RowId, newChunk: bool, slots: seq<Slot>, rows: map<RowId, Row>, txns: map<nat, Txn>)
    requires Reached(s) && Runs(s, t, Active) && IsCleaner(s, t) && s.txns[t].job.stage.Validated?
    requires s.txns[t].deletes == s.txns[t].job.todo && r in s.txns[t].job.todo && r !in s.txns[t].job.copies
    requires r in s.rows && CanAppend(s, newChunk)
    requires var s' := Append(s, t, s.rows[r].data, newChunk); slots == s'.slots && rows == s'.rows
    requires var job, n := s.txns[t].job, NewRowId(s, newChunk);
      txns == s.txns[t := s.txns[t].(inserts := s.txns[t].inserts + {n}, job := job.(copies := job.copies[r := n]))]
    ensures Reached(s.(slots := slots, rows := rows, txns := txns))
  {
    ReachedNext(s, CopyRow(t, r, newChunk), s.(slots := slots, rows := rows, txns := txns));
  }

  lemma DoPrepare(s: State, t: nat, txns: map<nat, Txn>, committer: map<nat, nat>)
    requires Reached(s) && Runs(s, t, Active) && s.issued + 1 < MAX_COMMIT_ID
    requires IsCleaner(s, t) ==> var job := s.txns[t].job;
      job.stage.Validated? && s.txns[t].deletes == job.todo && job.copies.Keys == job.todo
    requires txns == s.txns[t := s.txns[t].(phase := Committing(s.issued + 1))] &&
      committer == s.committer[s.issued + 1 := t]
    ensures Reached(s.(txns := txns, issued := s.issued + 1, committer := committer))
  {
    ReachedNext(s, PrepareCommit(t), s.(txns := txns, issued := s.issued + 1, committer := committer));
  }

  lemma DoCommitDelete(s: State, t: nat, r: RowId, rows: map<RowId, Row>)
    requires Reached(s) && t in s.txns && s.txns[t].phase.Committing? && r in s.txns[t].deletes && r in s.rows
    requires rows == s.rows[r := s.rows[r].(end := s.txns[t].phase.cid)]
    ensures Reached(s.(rows := rows))
  {
    ReachedNext(s, CommitDelete(t, r), s.(rows := rows));
  }

  lemma DoCommitInsert(s: State, t: nat, r: RowId, rows: map<RowId, Row>)
    requires Reached(s) && t in s.txns && s.txns[t].phase.Committing? && r in s.txns[t].inserts && r in s.rows
    requires rows == s.rows[r := s.rows[r].(begin := s.txns[t].phase.cid, tid := 0)]
    ensures Reached(s.(rows := rows))
  {
    ReachedNext(s, CommitInsert(t, r), s.(rows := rows));
  }

  lemma DoPublish(s: State, t: nat, txns: map<nat, Txn>)
    requires Reached(s) && t in s.txns && s.txns[t].phase == Committing(s.last + 1)
    requires forall r :: r in s.txns[t].deletes ==> r in s.rows && s.rows[r].end == s.last + 1
    requires forall r :: r in s.txns[t].inserts ==> r in s.rows && s.rows[r].begin == s.last + 1
    requires txns == s.txns[t := s.txns[t].(phase := Committed(s.last + 1))]
    ensures Reached(s.(txns := txns, last := s.last + 1))
  {
    ReachedNext(s, Publish(t), s.(txns := txns, last := s.last + 1));
  }

  lemma DoDeregister(s: State, t: nat, txns: map<nat, Txn>)
    requires Reached(s) && t in s.txns && s.txns[t].phase.Committed?
    requires IsCleaner(s, t) ==> s.txns[t].job.stage.Queued?
    requires txns == s.txns - {t}
    ensures Reached(s.(txns := txns))
  {
    ReachedNext(s, Deregister(t), s.(txns := txns));
  }

  lemma DoStamp(s: State, t: nat, slots: seq<Slot>, txns: map<nat, Txn>, cleaned: map<nat, nat>)
    requires Reached(s) && IsCleaner(s, t) && s.txns[t].phase.Committed? && s.txns[t].job.stage.Validated?
    requires IsPresent(s, s.txns[t].job.chunk)
    requires var c := s.txns[t].job.chunk;
      slots == s.slots[c := s.slots[c].(cleanup := s.txns[t].phase.cid)] &&
      cleaned == s.cleaned[c := s.txns[t].snapshot]
    requires txns == s.txns[t := s.txns[t].(job := s.txns[t].job.(stage := Stamped))]
    ensures Reached(s.(slots := slots, txns := txns, cleaned := cleaned))
  {
    ReachedNext(s, Stamp(t), s.(slots := slots, txns := txns, cleaned := cleaned));
  }

  lemma DoEnqueue(s: State, t: nat, txns: map<nat, Txn>, queue: seq<nat>, log: seq<nat>)
    requires Reached(s) && IsCleaner(s, t) && s.txns[t].job.stage.Stamped? && s.physical.Idle?
    requires queue == s.queue + [s.txns[t].job.chunk] && log == s.log + [s.txns[t].job.chunk]
    requires txns == s.txns[t := s.txns[t].(job := s.txns[t].job.(stage := Queued))]
    ensures Reached(s.(txns := txns, queue := queue, log := log))
  {
    ReachedNext(s, Enqueue(t), s.(txns := txns, queue := queue, log := log));
  }

  /** A transaction begins and is registered. */
  lemma DoOpen(s: State, txns: map<nat, Txn>)
    requires Reached(s) && txns == s.txns[s.nextTid := Txn(s.last, Active, {}, {}, Client)]
    ensures Reached(s.(txns := txns, nextTid := s.nextTid + 1))
  {
    var t, x := s.nextTid, Txn(s.last, Unregistered, {}, {}, Client);
    DoBegin(s, s.txns[t := x]);
    assert s.txns[t := x][t := x.(phase := Active)] == txns;
    DoRegister(s.(txns := s.txns[t := x], nextTid := t + 1), t, txns);
  }

  /** A transaction whose rows carry its commit id is published and ends. */
  lemma DoClose(s: State, t: nat, txns: map<nat, Txn>)
    requires Reached(s) && t in s.txns && s.txns[t].phase == Committing(s.last + 1) && s.txns[t].job.Client?
    requires forall r :: r in s.txns[t].deletes ==> r in s.rows && s.rows[r].end == s.last + 1
    requires forall r :: r in s.txns[t].inserts ==> r in s.rows && s.rows[r].begin == s.last + 1
    requires txns == s.txns - {t}
    ensures Reached(s.(txns := txns, last := s.last + 1))
  {
    var x := s.txns[t].(phase := Committed(s.last + 1));
    DoPublish(s, t, s.txns[t := x]);
    assert s.txns[t := x] - {t} == txns;
    DoDeregister(s.(txns := s.txns[t := x], last := s.last + 1), t, txns);
  }

  // ---------------------------------------------------------------- commits that pass

  /** `n` transactions have come and gone that changed no row: their operators matched none. */
  function Later(s: State, n: nat, committer: map<nat, nat>): State {
    s.(nextTid := s.nextTid + n, last := s.last + n, issued := s.issued + n, committer := committer)
  }

  ghost predicate MayCommit(s: State, n: nat) {
    s.issued == s.last && s.last + n < MAX_COMMIT_ID && s.nextTid !in s.txns &&
    forall t :: t in s.txns ==> t < s.nextTid
  }

  lemma OneCommit(s: State) returns (committer: map<nat, nat>)
    requires Reached(s) && MayCommit(s, 1)
    ensures Reached(Later(s, 1, committer))
  {
    committer := s.committer[s.last + 1 := s.nextTid];
    DoOpen(s, s.txns[s.nextTid := Txn(s.last, Active, {}, {}, Client)]);
    CommitNothing(s, committer);
  }

  lemma CommitNothing(s: State, committer: map<nat, nat>)
    requires MayCommit(s, 1) && committer == s.committer[s.last + 1 := s.nextTid]
    requires Reached(s.(txns := s.txns[s.nextTid := Txn(s.last, Active, {}, {}, Client)], nextTid := s.nextTid + 1))
    ensures Reached(Later(s, 1, committer))
  {
    var t, x := s.nextTid, Txn(s.last, Active, {}, {}, Client);
    var s1 := s.(txns := s.txns[t := x], nextTid := t + 1);
    var txns := s1.txns[t := x.(phase := Committing(s.last + 1))];
    DoPrepare(s1, t, txns, committer);
    assert txns - {t} == s.txns;
    DoClose(s1.(txns := txns, issued := s.last + 1, committer := committer), t, s.txns);
  }

  lemma {:induction false} Commits(s: State, n: nat) returns (committer: map<nat, nat>)
    requires Reached(s) && MayCommit(s, n)
    ensures Reached(Later(s, n, committer))
  {
    if n == 0 {
      committer := s.committer;
      assert Later(s, 0, committer) == s;
    } else {
      var before := Commits(s, n - 1);
      committer := OneCommit(Later(s, n - 1, before));
      assert Later(Later(s, n - 1, before), 1, committer) == Later(s, n, committer);
    }
  }
}

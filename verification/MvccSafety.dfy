/** Safety of the MVCC delete plugin over whole runs. */
module MvccSafety {
  import opened Mvcc
  import opened MvccQueue
  import opened MvccInvariant
  import opened MvccKeeps
  import opened MvccMetrics

  // ---------------------------------------------------------------- runs

  lemma InitialInv(s: State)
    requires Initial(s)
    ensures Inv(s) && Tight(s)
  {
    forall c | 0 <= c < |s.slots| ensures SlotOk(s, c) {
    }
  }

  ghost predicate SteadyRun(s: State, steps: seq<Step>)
    requires CanRun(s, steps)
    decreases |steps|
  {
    |steps| == 0 || (Steady(s, steps[0]) && SteadyRun(Apply(s, steps[0]), steps[1..]))
  }

  ghost predicate CalmRun(s: State, steps: seq<Step>)
    requires CanRun(s, steps)
    decreases |steps|
  {
    |steps| == 0 || (Calm(s, steps[0]) && CalmRun(Apply(s, steps[0]), steps[1..]))
  }

  lemma {:induction false} RunKeepsInv(s: State, steps: seq<Step>)
    requires Inv(s) && CanRun(s, steps) && SteadyRun(s, steps)
    ensures Inv(Run(s, steps))
    decreases |steps|
  {
    if |steps| != 0 {
      KeepInv(s, steps[0]);
      RunKeepsInv(Apply(s, steps[0]), steps[1..]);
    }
  }

  /** In a calm run all rows of a stamped chunk are invalid when it is to be removed: calm runs are steady. */
  lemma CalmIsSteady(s: State, step: Step)
    requires Inv(s) && Tight(s) && Enabled(s, step) && Calm(s, step)
    ensures Steady(s, step)
  {
    if step.CheckQueue? {
      var c := s.queue[0];
      assert c in s.queue && SlotOk(s, c) && StampedFinished(s, c);
      forall r | r in s.rows && r.chunk == c ensures s.rows[r].end <= s.slots[c].cleanup {
        RowIsOk(s, r);
      }
    }
  }

  /** A calm step keeps the rows of stamped and validated chunks finished. */
  lemma KeepTight(s: State, step: Step)
    requires Inv(s) && Tight(s) && Enabled(s, step) && Calm(s, step)
    ensures Tight(Apply(s, step))
  {
    forall c: nat ensures StampedFinished(Apply(s, step), c) {
      KeepStampedFinished(s, step, c);
    }
    forall t: nat ensures ValidatedFinished(Apply(s, step), t) {
      KeepValidatedFinished(s, step, t);
    }
  }

  /** Rows that are committed or undone stay so, and no rows come into a chunk that is not the last. */
  lemma RowsStayFinished(s: State, step: Step, c: nat, snapshot: nat)
    requires Enabled(s, step) && RowInv(s) && InsertsFinished(s, c, snapshot) && snapshot <= s.last && c + 1 < |s.slots|
    ensures InsertsFinished(Apply(s, step), c, snapshot)
  {
    var s' := Apply(s, step);
    forall r | r in s'.rows && r.chunk == c ensures s'.rows[r].begin <= snapshot {
      if WritesRow(step) && step.r == r {
        WrittenRow(s, step);
      }
    }
  }

  lemma KeepStampedFinished(s: State, step: Step, c: nat)
    requires Inv(s) && Tight(s) && Enabled(s, step)
    ensures StampedFinished(Apply(s, step), c)
  {
    var s' := Apply(s, step);
    if Queueable(s', c) && c in s'.cleaned {
      if step.Stamp? && s.txns[step.t].job.chunk == c {
        assert ValidatedFinished(s, step.t);
      } else {
        StampedBefore(s, step, c);
        assert StampedFinished(s, c);
        RowsStayFinished(s, step, c, s.cleaned[c]);
      }
    }
  }

  lemma StampedBefore(s: State, step: Step, c: nat)
    requires SlotsOk(s) && JobsOk(s) && Enabled(s, step) && Queueable(Apply(s, step), c)
    requires !(step.Stamp? && s.txns[step.t].job.chunk == c)
    ensures Queueable(s, c) && c in s.cleaned && c in Apply(s, step).cleaned
    ensures Apply(s, step).cleaned[c] == s.cleaned[c] <= s.last && c + 1 < |s.slots|
  {
    if c < |s.slots| {
      SlotIsOk(s, c);
    }
  }

  lemma KeepValidatedFinished(s: State, step: Step, t: nat)
    requires Inv(s) && Tight(s) && Enabled(s, step) && Calm(s, step)
    ensures ValidatedFinished(Apply(s, step), t)
  {
    if IsValidated(Apply(s, step), t) && step != ValidateChunk(t) {
      ValidatedBefore(s, step, t);
      TxnIsOk(s, t);
      JobIsOk(s, t);
      CleanerKeepsChunk(s, step, t);
      assert ValidatedFinished(s, t);
      RowsStayFinished(s, step, s.txns[t].job.chunk, s.txns[t].snapshot);
    }
  }

  lemma ValidatedBefore(s: State, step: Step, t: nat)
    requires TxnsOk(s) && JobsOk(s) && Enabled(s, step) && IsValidated(Apply(s, step), t) && step != ValidateChunk(t)
    ensures IsValidated(s, t)
  {
  }

  lemma {:induction false} CalmRunIsSteady(s: State, steps: seq<Step>)
    requires Inv(s) && Tight(s) && CanRun(s, steps) && CalmRun(s, steps)
    ensures SteadyRun(s, steps) && Inv(Run(s, steps)) && Tight(Run(s, steps))
    decreases |steps|
  {
    if |steps| != 0 {
      CalmIsSteady(s, steps[0]);
      KeepInv(s, steps[0]);
      KeepTight(s, steps[0]);
      CalmRunIsSteady(Apply(s, steps[0]), steps[1..]);
    }
  }

  // ---------------------------------------------------------------- what transactions see

  /** Row by row: published rows stay as they are, rows that go were invisible, rows that come are not committed. */
  ghost predicate KeepsRow(s: State, s': State, snapshot: nat, r: RowId)
    requires r in s.rows
  {
    if r in s'.rows then Fixed(s, s', r) else !VisibleAt(s.rows[r], snapshot)
  }

  lemma ViewByRows(s: State, s': State, snapshot: nat)
    requires snapshot <= s.last
    requires forall r :: r in s.rows ==> KeepsRow(s, s', snapshot, r)
    requires forall r :: r in s'.rows && r !in s.rows ==> s'.rows[r].begin > snapshot
    ensures View(s', snapshot) == View(s, snapshot)
  {
    forall r | r in s.rows ensures r in View(s', snapshot) <==> r in View(s, snapshot) {
      assert KeepsRow(s, s', snapshot, r);
    }
  }

  lemma StepKeepsRow(s: State, step: Step, snapshot: nat, r: RowId)
    requires Ready(s, step) && snapshot <= s.last && r in s.rows
    requires step.RemoveChunk? ==> IsPresent(s, s.physical.chunk) && s.slots[s.physical.chunk].cleanup <= snapshot
    ensures KeepsRow(s, Apply(s, step), snapshot, r)
  {
    if step.RemoveChunk? && r.chunk == s.physical.chunk {
      ClearedChunk(s);
    } else {
      RowFixed(s, step, r);
    }
  }

  lemma NewRowInvisible(s: State, step: Step, r: RowId)
    requires Enabled(s, step) && CountersOk(s) && r in Apply(s, step).rows && r !in s.rows
    ensures Apply(s, step).rows[r].begin > s.last
  {
  }

  /** No step changes what a published snapshot shows, except the removal of a chunk cleaned after it. */
  lemma StepKeepsView(s: State, step: Step, snapshot: nat)
    requires Ready(s, step) && snapshot <= s.last
    requires step.RemoveChunk? ==> IsPresent(s, s.physical.chunk) && s.slots[s.physical.chunk].cleanup <= snapshot
    ensures View(Apply(s, step), snapshot) == View(s, snapshot)
  {
    forall r | r in s.rows ensures KeepsRow(s, Apply(s, step), snapshot, r) {
      StepKeepsRow(s, step, snapshot, r);
    }
    forall r | r in Apply(s, step).rows && r !in s.rows ensures Apply(s, step).rows[r].begin > snapshot {
      NewRowInvisible(s, step, r);
    }
    ViewByRows(s, Apply(s, step), snapshot);
  }

  /** A removed chunk shows nothing to any transaction, whether it runs already or begins later. */
  lemma RemovedChunkIsInvisible(s: State, t: nat, r: RowId)
    requires Ready(s, RemoveChunk) && r in s.rows && r.chunk == s.physical.chunk
    ensures t in s.txns ==> !VisibleAt(s.rows[r], s.txns[t].snapshot)
    ensures forall snapshot: nat :: s.last <= snapshot ==> !VisibleAt(s.rows[r], snapshot)
  {
    ClearedChunk(s);
  }

  lemma StepKeepsSnapshot(s: State, step: Step, t: nat)
    requires Enabled(s, step) && t < s.nextTid && t in s.txns && t in Apply(s, step).txns
    ensures Apply(s, step).txns[t].snapshot == s.txns[t].snapshot
  {
  }

  lemma RemovalFollowsSnapshot(s: State, t: nat)
    requires Ready(s, RemoveChunk) && t in s.txns
    ensures IsPresent(s, s.physical.chunk) && s.slots[s.physical.chunk].cleanup <= s.txns[t].snapshot
  {
    ClearedChunk(s);
  }

  lemma StepKeepsTxnView(s: State, step: Step, t: nat)
    requires Ready(s, step) && t in s.txns && t in Apply(s, step).txns
    ensures var snapshot := s.txns[t].snapshot;
      Apply(s, step).txns[t].snapshot == snapshot && View(Apply(s, step), snapshot) == View(s, snapshot)
  {
    TxnIsOk(s, t);
    StepKeepsSnapshot(s, step, t);
    if step == RemoveChunk {
      RemovalFollowsSnapshot(s, t);
    }
    StepKeepsView(s, step, s.txns[t].snapshot);
  }

  lemma EndedAfterStep(s: State, step: Step, t: nat)
    requires Enabled(s, step) && t < s.nextTid && t !in s.txns
    ensures t < Apply(s, step).nextTid && t !in Apply(s, step).txns
  {
  }

  /** A transaction that has ended does not come back: transaction ids are not used twice. */
  lemma {:induction false} EndedStaysEnded(s: State, steps: seq<Step>, t: nat)
    requires CanRun(s, steps) && t < s.nextTid && t !in s.txns
    ensures t !in Run(s, steps).txns
    decreases |steps|
  {
    if |steps| != 0 {
      EndedAfterStep(s, steps[0], t);
      EndedStaysEnded(Apply(s, steps[0]), steps[1..], t);
    }
  }

  /** The first step of a run at whose end the transaction still exists. */
  lemma StillThere(s: State, step: Step, rest: seq<Step>, t: nat)
    requires TxnsOk(s) && Enabled(s, step) && CanRun(Apply(s, step), rest) && t in s.txns
    requires t in Run(Apply(s, step), rest).txns
    ensures t in Apply(s, step).txns
  {
    TxnIsOk(s, t);
    if t !in Apply(s, step).txns {
      TidsGrow(s, step);
      EndedStaysEnded(Apply(s, step), rest, t);
    }
  }

  lemma TidsGrow(s: State, step: Step)
    requires Enabled(s, step)
    ensures s.nextTid <= Apply(s, step).nextTid
  {
  }

  /**
   Repeatable reads over whole runs: while a transaction exists, what its snapshot shows does not
   change, whatever other transactions and both loops of the plugin do.
   */
  lemma {:induction false} RepeatableRead(s: State, steps: seq<Step>, t: nat)
    requires Inv(s) && CanRun(s, steps) && SteadyRun(s, steps)
    requires t in s.txns && t in Run(s, steps).txns
    ensures var snapshot := s.txns[t].snapshot;
      Run(s, steps).txns[t].snapshot == snapshot && View(Run(s, steps), snapshot) == View(s, snapshot)
    decreases |steps|
  {
    if |steps| != 0 {
      StillThere(s, steps[0], steps[1..], t);
      StepKeepsTxnView(s, steps[0], t);
      KeepInv(s, steps[0]);
      RepeatableRead(Apply(s, steps[0]), steps[1..], t);
    }
  }

  // ---------------------------------------------------------------- logical deletes keep the contents

  /** The contents of a view, without the positions. */
  ghost function Contents(v: map<RowId, int>): multiset<int>
    decreases |v|
  {
    if |v| == 0 then multiset{} else
      var r :| r in v;
      multiset{v[r]} + Contents(v - {r})
  }

  lemma {:induction false} ContentsWithout(v: map<RowId, int>, r: RowId)
    requires r in v
    ensures Contents(v) == multiset{v[r]} + Contents(v - {r})
    decreases |v|
  {
    var x :| x in v && Contents(v) == multiset{v[x]} + Contents(v - {x});
    if x != r {
      var withoutX, withoutR := v - {x}, v - {r};
      assert withoutX - {r} == withoutR - {x};
      ContentsWithout(withoutX, r);
      ContentsWithout(withoutR, x);
    }
  }

  /** `v'` is `v` with the rows in `moved` at new places. */
  ghost predicate Relocated(v: map<RowId, int>, v': map<RowId, int>, moved: map<RowId, RowId>) {
    && CopiesInjective(moved)
    && (forall r :: r in moved ==> r in v && moved[r] !in v && moved[r] in v' && v'[moved[r]] == v[r])
    && (forall r :: r in v && r !in moved ==> r in v' && v'[r] == v[r])
    && (forall r :: r in v' ==> (r in v && r !in moved) || r in moved.Values)
  }

  /** `v` with one row moved. */
  ghost function MoveRow(v: map<RowId, int>, r: RowId, n: RowId): map<RowId, int>
    requires r in v
  {
    (v - {r})[n := v[r]]
  }

  lemma MoveRowContents(v: map<RowId, int>, r: RowId, n: RowId)
    requires r in v && n !in v
    ensures Contents(MoveRow(v, r, n)) == Contents(v)
  {
    ContentsWithout(v, r);
    ContentsWithout(MoveRow(v, r, n), n);
    assert MoveRow(v, r, n) - {n} == v - {r};
  }

  lemma MoveRowRelocated(v: map<RowId, int>, v': map<RowId, int>, moved: map<RowId, RowId>, r: RowId)
    requires Relocated(v, v', moved) && r in moved
    ensures Relocated(MoveRow(v, r, moved[r]), v', moved - {r})
  {
    var v1, moved1 := MoveRow(v, r, moved[r]), moved - {r};
    forall x | x in v' ensures (x in v1 && x !in moved1) || x in moved1.Values {
      if x != moved[r] && !(x in v && x !in moved) {
        var y :| y in moved && moved[y] == x;
        assert moved1[y] == x;
      }
    }
  }

  lemma {:induction false} RelocatedContents(v: map<RowId, int>, v': map<RowId, int>, moved: map<RowId, RowId>)
    requires Relocated(v, v', moved)
    ensures Contents(v') == Contents(v)
    decreases |moved|
  {
    if r :| r in moved {
      MoveRowContents(v, r, moved[r]);
      MoveRowRelocated(v, v', moved, r);
      RelocatedContents(MoveRow(v, r, moved[r]), v', moved - {r});
    } else {
      assert v' == v;
    }
  }

  /** What a logical delete has done when it commits: every validated row is deleted and has its copy, and no more. */
  lemma CleanerCommits(s: State, t: nat)
    requires CleanersOk(s) && IsCleaner(s, t) && s.txns[t].phase.Committing?
    ensures var x := s.txns[t];
      x.deletes == x.job.copies.Keys && CopiesInjective(x.job.copies) && x.inserts <= x.job.copies.Values
    ensures forall r :: r in s.txns[t].job.copies ==> CopyOk(s, t, r)
  {
    assert CleanerOk(s, t) && CopiesOk(s, t);
  }

  /** At the commit of a logical delete, the table at the new commit id is the old one with rows moved. */
  lemma LogicalDeleteRelocates(s: State, t: nat)
    requires Ready(s, Publish(t)) && IsCleaner(s, t)
    ensures Relocated(View(s, s.last), View(Apply(s, Publish(t)), s.last + 1), s.txns[t].job.copies)
  {
    CleanerCommits(s, t);
    CopiesTakePlace(s, t);
    AllOthersStay(s, t);
  }

  lemma CopiesTakePlace(s: State, t: nat)
    requires Ready(s, Publish(t)) && IsCleaner(s, t)
    ensures var copies := s.txns[t].job.copies; var v, v' := View(s, s.last), View(Apply(s, Publish(t)), s.last + 1);
      forall r :: r in copies ==> r in v && copies[r] !in v && copies[r] in v' && v'[copies[r]] == v[r]
  {
    forall r | r in s.txns[t].job.copies
      ensures var copies := s.txns[t].job.copies; var v, v' := View(s, s.last), View(Apply(s, Publish(t)), s.last + 1);
        r in v && copies[r] !in v && copies[r] in v' && v'[copies[r]] == v[r]
    {
      CopyTakesPlace(s, t, r);
    }
  }

  /** A row that is neither copied nor a copy is visible at the new commit id if it was before. */
  ghost predicate StaysPut(v: map<RowId, int>, v': map<RowId, int>, copies: map<RowId, RowId>, r: RowId) {
    && (r in v && r !in copies ==> r in v' && v'[r] == v[r])
    && (r in v' ==> (r in v && r !in copies) || r in copies.Values)
  }

  lemma AllOthersStay(s: State, t: nat)
    requires Ready(s, Publish(t)) && IsCleaner(s, t)
    ensures forall r :: r in s.rows ==>
      StaysPut(View(s, s.last), View(Apply(s, Publish(t)), s.last + 1), s.txns[t].job.copies, r)
  {
    CleanerRows(s, t);
    PublishKeepsRows(s, t);
    forall r | r in s.rows
      ensures StaysPut(View(s, s.last), View(Apply(s, Publish(t)), s.last + 1), s.txns[t].job.copies, r)
    {
      OthersStay(s, s.txns[t].job.copies, s.txns[t].inserts, r);
    }
  }

  /** The rows that carry the commit id of a logical delete are those that it moves and their copies. */
  lemma CleanerRows(s: State, t: nat)
    requires Ready(s, Publish(t)) && IsCleaner(s, t)
    ensures var x := s.txns[t];
      x.inserts <= x.job.copies.Values &&
      (forall r :: r in s.rows ==> OfCommit(s.rows[r], s.last + 1, r in x.inserts, r in x.job.copies)) &&
      forall r :: r in x.job.copies ==> r in s.rows && s.rows[r].end == s.last + 1
  {
    CleanerCommits(s, t);
    RowsOfCommit(s, t);
    PublishesWritten(s, t);
  }

  /** A transaction publishes its commit id when all rows that it deletes carry it. */
  lemma PublishesWritten(s: State, t: nat)
    requires LocksOk(s) && Enabled(s, Publish(t))
    ensures forall r :: r in s.txns[t].deletes ==> r in s.rows && s.rows[r].end == s.last + 1
  {
    forall r | r in s.txns[t].deletes ensures r in s.rows && s.rows[r].end == s.last + 1 {
      assert LockOk(s, t, r);
    }
  }

  ghost predicate OfCommit(row: Row, cid: nat, inserted: bool, moved: bool) {
    (row.begin == cid ==> inserted) && (row.end == cid ==> moved)
  }

  lemma PublishKeepsRows(s: State, t: nat)
    requires Enabled(s, Publish(t))
    ensures forall snapshot: nat :: View(Apply(s, Publish(t)), snapshot) == View(s, snapshot)
  {
  }

  lemma OthersStay(s: State, copies: map<RowId, RowId>, inserts: set<RowId>, r: RowId)
    requires r in s.rows && inserts <= copies.Values
    requires OfCommit(s.rows[r], s.last + 1, r in inserts, r in copies)
    requires forall x :: x in copies ==> x in s.rows && s.rows[x].end == s.last + 1
    ensures StaysPut(View(s, s.last), View(s, s.last + 1), copies, r)
  {
  }

  /** At its commit the copy of a row becomes visible, and the row was visible until then. */
  lemma CopyTakesPlace(s: State, t: nat, r: RowId)
    requires Ready(s, Publish(t)) && IsCleaner(s, t) && r in s.txns[t].job.copies
    ensures var n := s.txns[t].job.copies[r]; var v, v' := View(s, s.last), View(Apply(s, Publish(t)), s.last + 1);
      r in v && n !in v && n in v' && v'[n] == v[r]
  {
    CleanerRows(s, t);
    MovedRow(s, t, r);
    PublishKeepsRows(s, t);
  }

  /** A moved row and its copy at the commit of a logical delete. */
  lemma MovedRow(s: State, t: nat, r: RowId)
    requires CleanersOk(s) && TxnsOk(s) && LocksOk(s) && InsertsOk(s) && Enabled(s, Publish(t)) && IsCleaner(s, t)
    requires CountersOk(s) && r in s.txns[t].job.copies
    ensures var n := s.txns[t].job.copies[r];
      r in s.rows && n in s.rows && s.rows[n].data == s.rows[r].data &&
      s.rows[r].begin <= s.last && s.rows[n].begin == s.last + 1 < s.rows[n].end
  {
    CleanerCommits(s, t);
    TxnIsOk(s, t);
    LockIsOk(s, t, r);
    InsertIsOk(s, t, s.txns[t].job.copies[r]);
  }

  /** The rows that carry the commit id to be published are those of the transaction that publishes it. */
  lemma RowsOfCommit(s: State, t: nat)
    requires CountersOk(s) && TxnsOk(s) && RowsOk(s) && t in s.txns && s.txns[t].phase == Committing(s.last + 1)
    ensures forall r :: r in s.rows && s.rows[r].begin == s.last + 1 ==> r in s.txns[t].inserts
    ensures forall r :: r in s.rows && s.rows[r].end == s.last + 1 ==> r in s.txns[t].deletes
  {
    TxnIsOk(s, t);
    forall r | r in s.rows ensures RowOk(s, r) {
    }
  }

  /**
   A logical delete leaves the contents of the table unchanged at every snapshot: snapshots before
   its commit id show the rows at their old places, the one of its commit id shows the same rows.
   */
  lemma LogicalDeleteKeepsContents(s: State, t: nat)
    requires Ready(s, Publish(t)) && IsCleaner(s, t)
    ensures var s' := Apply(s, Publish(t));
      && s'.last == s.last + 1
      && Contents(View(s', s'.last)) == Contents(View(s, s.last))
      && forall snapshot: nat :: snapshot <= s.last ==> View(s', snapshot) == View(s, snapshot)
  {
    LogicalDeleteRelocates(s, t);
    RelocatedContents(View(s, s.last), View(Apply(s, Publish(t)), s.last + 1), s.txns[t].job.copies);
    forall snapshot: nat | snapshot <= s.last
      ensures View(Apply(s, Publish(t)), snapshot) == View(s, snapshot)
    {
      StepKeepsView(s, Publish(t), snapshot);
    }
  }

  // ---------------------------------------------------------------- the assertions of the code

  ghost function Offsets(c: nat, size: nat): (rows: set<RowId>)
    ensures |rows| == size
    ensures forall r :: r in rows <==> r.chunk == c && r.offset < size
  {
    if size == 0 then {} else Offsets(c, size - 1) + {RowId(c, size - 1)}
  }

  /** Table::remove_chunk asserts that every row of the chunk is invalid. */
  lemma RemovedChunkIsInvalid(s: State)
    requires Ready(s, RemoveChunk)
    ensures IsPresent(s, s.physical.chunk) && |InvalidRows(s, s.physical.chunk)| == s.slots[s.physical.chunk].size
  {
    ClearedChunk(s);
    var c := s.physical.chunk;
    SlotIsOk(s, c);
    forall r ensures r in InvalidRows(s, c) <==> r in Offsets(c, s.slots[c].size) {
      if r in s.rows {
        RowIsOk(s, r);
      }
      assert r == RowId(r.chunk, r.offset);
    }
    assert InvalidRows(s, c) == Offsets(c, s.slots[c].size);
  }

  /**
   Commit and rollback of a running transaction find every row they go back to; a chunk is stamped
   for the first time; and there is always a chunk to append to in a table that has chunks.
   */
  lemma StepsFindTheirRows(s: State, t: nat)
    requires Inv(s) && t in s.txns
    ensures !s.txns[t].phase.Committed? ==>
      forall r :: r in s.txns[t].deletes || r in s.txns[t].inserts ==> r in s.rows && IsPresent(s, r.chunk)
    ensures IsValidated(s, t) ==> IsPresent(s, s.txns[t].job.chunk) && s.slots[s.txns[t].job.chunk].cleanup == 0
    ensures |s.slots| > 0 ==> IsPresent(s, |s.slots| - 1)
  {
    if IsValidated(s, t) {
      CleanerIsOk(s, t);
    }
    if |s.slots| > 0 {
      SlotIsOk(s, |s.slots| - 1);
    }
    forall r | !s.txns[t].phase.Committed? && (r in s.txns[t].deletes || r in s.txns[t].inserts)
      ensures r in s.rows && IsPresent(s, r.chunk)
    {
      assert (r in s.txns[t].deletes && LockOk(s, t, r)) || (r in s.txns[t].inserts && InsertOk(s, t, r));
      RowIsOk(s, r);
    }
  }
}

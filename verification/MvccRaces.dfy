/**
 Runs of the plugin that lose rows.  Both start from a loaded table and are calm up to one step, which
 breaks one of the two conditions of `Calm`.
 */
module MvccRaces {
  import opened Mvcc
  import opened MvccInvariant
  import opened MvccExact
  import opened MvccMetrics
  import opened MvccReach

  const A := RowId(0, 0)
  const B := RowId(0, 1)
  const C := RowId(0, 2)

  /** A row that is valid, deleted or locked. */
  function Valid(data: int, begin: nat): Row {
    Row(data, begin, MAX_COMMIT_ID, 0)
  }

  function Deleted(data: int, end: nat, tid: nat): Row {
    Row(data, 1, end, tid)
  }

  function Locked(data: int, tid: nat): Row {
    Row(data, 1, MAX_COMMIT_ID, tid)
  }

  /** A table in which no chunk has been cleaned yet. */
  function Table(slots: seq<Slot>, rows: map<RowId, Row>, txns: map<nat, Txn>, nextTid: nat, last: nat, issued: nat,
                 m: map<nat, nat>): State {
    State(slots, rows, txns, nextTid, last, issued, m, [], [], Idle, map[])
  }

  function Two(rows: map<RowId, Row>, txns: map<nat, Txn>, nextTid: nat, last: nat, issued: nat,
               m: map<nat, nat>): State {
    Table(TWO_CHUNKS, rows, txns, nextTid, last, issued, m)
  }

  function One(rows: map<RowId, Row>, txns: map<nat, Txn>, nextTid: nat, last: nat, issued: nat,
               m: map<nat, nat>): State {
    Table(ONE_CHUNK, rows, txns, nextTid, last, issued, m)
  }

  function Opened(txns: map<nat, Txn>, nextTid: nat, last: nat, issued: nat, m: map<nat, nat>): State {
    Table(OPENED, OPENED_ROWS, txns, nextTid, last, issued, m)
  }

  lemma Single(r: RowId)
    ensures {} + {r} == {r}
  {
  }

  // ---------------------------------------------------------------- an unregistered snapshot

  const D := RowId(1, 0)
  const N := RowId(1, 1)
  const TWO_CHUNKS := [Present(3, 0), Present(1, 0)]
  const TWO_DELETED := FirstRows(Deleted(5, 2, 1), Deleted(6, 2, 1))

  /** Two rows of chunk 0 locked by transaction 1, or deleted by it. */
  function FirstRows(a: Row, b: Row): map<RowId, Row> {
    map[A := a, B := b, C := Valid(7, 1), D := Valid(8, 1)]
  }

  /** The loaded table, and transaction 1. */
  lemma FirstOpened()
    ensures Reached(Two(FirstRows(Valid(5, 1), Valid(6, 1)), map[1 := Txn(1, Active, {}, {}, Client)], 2, 1, 1, map[]))
  {
    var s := Two(FirstRows(Valid(5, 1), Valid(6, 1)), map[], 1, 1, 1, map[]);
    InitialReached(s);
    DoOpen(s, map[1 := Txn(1, Active, {}, {}, Client)]);
  }

  lemma FirstLocked()
    ensures Reached(Two(FirstRows(Locked(5, 1), Valid(6, 1)), map[1 := Txn(1, Active, {A}, {}, Client)],
                          2, 1, 1, map[]))
  {
    var rows, txns := FirstRows(Valid(5, 1), Valid(6, 1)), map[1 := Txn(1, Active, {}, {}, Client)];
    FirstOpened();
    Single(A);
    DoLock(Two(rows, txns, 2, 1, 1, map[]), 1, A, FirstRows(Locked(5, 1), Valid(6, 1)),
           map[1 := Txn(1, Active, {A}, {}, Client)]);
  }

  lemma SecondLocked()
    ensures Reached(Two(FirstRows(Locked(5, 1), Locked(6, 1)), map[1 := Txn(1, Active, {A, B}, {}, Client)],
                          2, 1, 1, map[]))
  {
    FirstLocked();
    assert {A} + {B} == {A, B};
    DoLock(Two(FirstRows(Locked(5, 1), Valid(6, 1)), map[1 := Txn(1, Active, {A}, {}, Client)], 2, 1, 1, map[]),
           1, B, FirstRows(Locked(5, 1), Locked(6, 1)), map[1 := Txn(1, Active, {A, B}, {}, Client)]);
  }

  const FIRST := Txn(1, Committing(2), {A, B}, {}, Client)

  lemma FirstCommitting()
    ensures Reached(Two(FirstRows(Locked(5, 1), Locked(6, 1)), map[1 := FIRST], 2, 1, 2, map[2 := 1]))
  {
    SecondLocked();
    DoPrepare(Two(FirstRows(Locked(5, 1), Locked(6, 1)), map[1 := Txn(1, Active, {A, B}, {}, Client)], 2, 1, 1, map[]),
              1,
              map[1 := FIRST], map[2 := 1]);
  }

  lemma FirstDeleted()
    ensures Reached(Two(FirstRows(Deleted(5, 2, 1), Locked(6, 1)), map[1 := FIRST], 2, 1, 2, map[2 := 1]))
  {
    FirstCommitting();
    DoCommitDelete(Two(FirstRows(Locked(5, 1), Locked(6, 1)), map[1 := FIRST], 2, 1, 2, map[2 := 1]), 1, A,
                   FirstRows(Deleted(5, 2, 1), Locked(6, 1)));
  }

  lemma SecondDeleted()
    ensures Reached(Two(TWO_DELETED, map[1 := FIRST], 2, 1, 2, map[2 := 1]))
  {
    FirstDeleted();
    DoCommitDelete(Two(FirstRows(Deleted(5, 2, 1), Locked(6, 1)), map[1 := FIRST], 2, 1, 2, map[2 := 1]), 1, B,
                   TWO_DELETED);
  }

  /** Transaction 1 has deleted two of the three rows in chunk 0. */
  lemma TwoRowsDeleted()
    ensures Reached(Two(TWO_DELETED, map[], 2, 2, 2, map[2 := 1]))
  {
    SecondDeleted();
    DoClose(Two(TWO_DELETED, map[1 := FIRST], 2, 1, 2, map[2 := 1]), 1, map[]);
  }

  /** A hundred commits later chunk 0 meets both criteria for cleaning. */
  lemma OneRowLeft() returns (m: map<nat, nat>)
    ensures var s := Two(TWO_DELETED, map[], 102, 102, 102, m); Reached(s) && WorthCleaning(s, 0)
  {
    TwoRowsDeleted();
    m := Commits(Two(TWO_DELETED, map[], 2, 2, 2, map[2 := 1]), 100);
    OneRowLeftIsWorth(m);
  }

  lemma OneRowLeftIsWorth(m: map<nat, nat>)
    ensures WorthCleaning(Two(TWO_DELETED, map[], 102, 102, 102, m), 0)
  {
    assert InvalidRows(Two(TWO_DELETED, map[], 102, 102, 102, m), 0) == {A, B};
  }

  const READER := Txn(102, Unregistered, {}, {}, Client)
  const ROW_LOCKED := map[A := Deleted(5, 2, 1), B := Deleted(6, 2, 1), C := Locked(7, 103), D := Valid(8, 1)]

  function WithCleaner(phase: Phase, deletes: set<RowId>, inserts: set<RowId>, job: Job): map<nat, Txn> {
    map[102 := READER, 103 := Txn(102, phase, deletes, inserts, job)]
  }

  const CHOSEN := Cleaner(0, Chosen, {}, map[])

  /** Transaction 102 reads its snapshot and is not registered; transaction 103 is to clean chunk 0. */
  lemma CleanerBegins(m: map<nat, nat>)
    requires Reached(Two(TWO_DELETED, map[], 102, 102, 102, m))
    ensures Reached(Two(TWO_DELETED, WithCleaner(Unregistered, {}, {}, CHOSEN), 104, 102, 102, m))
  {
    DoBegin(Two(TWO_DELETED, map[], 102, 102, 102, m), map[102 := READER]);
    DoBeginCleaner(Two(TWO_DELETED, map[102 := READER], 103, 102, 102, m), 0,
                   WithCleaner(Unregistered, {}, {}, CHOSEN));
  }

  lemma CleanerRegisters(m: map<nat, nat>)
    requires Reached(Two(TWO_DELETED, WithCleaner(Unregistered, {}, {}, CHOSEN), 104, 102, 102, m))
    ensures Reached(Two(TWO_DELETED, WithCleaner(Active, {}, {}, CHOSEN), 104, 102, 102, m))
  {
    DoRegister(Two(TWO_DELETED, WithCleaner(Unregistered, {}, {}, CHOSEN), 104, 102, 102, m), 103,
               WithCleaner(Active, {}, {}, CHOSEN));
  }

  const FOUND := Cleaner(0, Validated, {C}, map[])

  /** The cleaner finds the last row of the chunk ... */
  lemma CleanerFinds(m: map<nat, nat>)
    requires Reached(Two(TWO_DELETED, WithCleaner(Active, {}, {}, CHOSEN), 104, 102, 102, m))
    ensures Reached(Two(TWO_DELETED, WithCleaner(Active, {}, {}, FOUND), 104, 102, 102, m))
  {
    var s := Two(TWO_DELETED, WithCleaner(Active, {}, {}, CHOSEN), 104, 102, 102, m);
    assert ChunkView(s, 103, 0) == {C};
    DoValidate(s, 103, WithCleaner(Active, {}, {}, FOUND));
  }

  /** ... and locks it. */
  lemma CleanerLocks(m: map<nat, nat>)
    requires Reached(Two(TWO_DELETED, WithCleaner(Active, {}, {}, FOUND), 104, 102, 102, m))
    ensures Reached(Two(ROW_LOCKED, WithCleaner(Active, {C}, {}, FOUND), 104, 102, 102, m))
  {
    Single(C);
    DoLock(Two(TWO_DELETED, WithCleaner(Active, {}, {}, FOUND), 104, 102, 102, m), 103, C, ROW_LOCKED,
           WithCleaner(Active, {C}, {}, FOUND));
  }

  const ROW_ADDED := [Present(3, 0), Present(2, 0)]
  const JOB := Cleaner(0, Validated, {C}, map[C := N])
  const COPY := Row(7, MAX_COMMIT_ID, MAX_COMMIT_ID, 103)

  /** The row is copied behind the last row of chunk 1 ... */
  lemma CleanerCopies(m: map<nat, nat>)
    requires Reached(Two(ROW_LOCKED, WithCleaner(Active, {C}, {}, FOUND), 104, 102, 102, m))
    ensures Reached(Table(ROW_ADDED, ROW_LOCKED[N := COPY], WithCleaner(Active, {C}, {N}, JOB), 104, 102, 102, m))
  {
    assert TWO_CHUNKS[1 := Present(2, 0)] == ROW_ADDED;
    Single(N);
    DoCopy(Two(ROW_LOCKED, WithCleaner(Active, {C}, {}, FOUND), 104, 102, 102, m), 103, C, false, ROW_ADDED,
           ROW_LOCKED[N := COPY], WithCleaner(Active, {C}, {N}, JOB));
  }

  /** ... and the cleaner gets the commit id 103. */
  lemma CleanerPrepares(m: map<nat, nat>)
    requires Reached(Table(ROW_ADDED, ROW_LOCKED[N := COPY], WithCleaner(Active, {C}, {N}, JOB), 104, 102, 102, m))
    ensures Reached(Table(ROW_ADDED, ROW_LOCKED[N := COPY], WithCleaner(Committing(103), {C}, {N}, JOB), 104, 102, 103,
                          m[103 := 103]))
  {
    assert map[C := N].Keys == {C};
    DoPrepare(Table(ROW_ADDED, ROW_LOCKED[N := COPY], WithCleaner(Active, {C}, {N}, JOB), 104, 102, 102, m), 103,
              WithCleaner(Committing(103), {C}, {N}, JOB), m[103 := 103]);
  }

  const MOVED := map[A := Deleted(5, 2, 1), B := Deleted(6, 2, 1), C := Deleted(7, 103, 103), D := Valid(8, 1),
                     N := Valid(7, 103)]

  /** The row is deleted at its old place and inserted at a new one. */
  lemma CleanerDeletes(m: map<nat, nat>)
    requires Reached(Table(ROW_ADDED, ROW_LOCKED[N := COPY], WithCleaner(Committing(103), {C}, {N}, JOB), 104, 102,
                           103, m))
    ensures Reached(Table(ROW_ADDED, ROW_LOCKED[N := COPY][C := Deleted(7, 103, 103)],
                          WithCleaner(Committing(103), {C}, {N}, JOB), 104, 102, 103, m))
  {
    DoCommitDelete(Table(ROW_ADDED, ROW_LOCKED[N := COPY], WithCleaner(Committing(103), {C}, {N}, JOB), 104, 102, 103,
                         m), 103,
                   C, ROW_LOCKED[N := COPY][C := Deleted(7, 103, 103)]);
  }

  lemma CleanerInserts(m: map<nat, nat>)
    requires Reached(Table(ROW_ADDED, ROW_LOCKED[N := COPY][C := Deleted(7, 103, 103)],
                           WithCleaner(Committing(103), {C}, {N}, JOB), 104, 102, 103, m))
    ensures Reached(Table(ROW_ADDED, MOVED, WithCleaner(Committing(103), {C}, {N}, JOB), 104, 102, 103, m))
  {
    DoCommitInsert(Table(ROW_ADDED, ROW_LOCKED[N := COPY][C := Deleted(7, 103, 103)],
                         WithCleaner(Committing(103), {C}, {N}, JOB), 104, 102, 103, m), 103, N, MOVED);
  }

  lemma CleanerPublishes(m: map<nat, nat>)
    requires Reached(Table(ROW_ADDED, MOVED, WithCleaner(Committing(103), {C}, {N}, JOB), 104, 102, 103, m))
    ensures Reached(Table(ROW_ADDED, MOVED, WithCleaner(Committed(103), {C}, {N}, JOB), 104, 103, 103, m))
  {
    DoPublish(Table(ROW_ADDED, MOVED, WithCleaner(Committing(103), {C}, {N}, JOB), 104, 102, 103, m), 103,
              WithCleaner(Committed(103), {C}, {N}, JOB));
  }

  function WithJob(stage: Stage): map<nat, Txn> {
    WithCleaner(Committed(103), {C}, {N}, JOB.(stage := stage))
  }

  /** The chunk is stamped and queued; the reader is still not registered. */
  function ChunkQueued(m: map<nat, nat>): State {
    State([Present(3, 103), Present(2, 0)], MOVED, map[102 := READER], 104, 103, 103, m, [0], [0], Idle, map[0 := 102])
  }

  lemma CleanerStamps(m: map<nat, nat>)
    requires Reached(Table(ROW_ADDED, MOVED, WithCleaner(Committed(103), {C}, {N}, JOB), 104, 103, 103, m))
    ensures Reached(State([Present(3, 103), Present(2, 0)], MOVED, WithJob(Stamped),
                          104, 103, 103, m, [], [], Idle, map[0 := 102]))
  {
    assert ROW_ADDED[0 := Present(3, 103)] == [Present(3, 103), Present(2, 0)];
    DoStamp(Table(ROW_ADDED, MOVED, WithCleaner(Committed(103), {C}, {N}, JOB), 104, 103, 103, m), 103,
            [Present(3, 103), Present(2, 0)], WithJob(Stamped), map[0 := 102]);
  }

  lemma CleanerQueues(m: map<nat, nat>)
    requires Reached(State([Present(3, 103), Present(2, 0)], MOVED, WithJob(Stamped),
                           104, 103, 103, m, [], [], Idle, map[0 := 102]))
    ensures Reached(State([Present(3, 103), Present(2, 0)], MOVED, WithJob(Queued),
                          104, 103, 103, m, [0], [0], Idle, map[0 := 102]))
  {
    DoEnqueue(State([Present(3, 103), Present(2, 0)], MOVED, WithJob(Stamped),
                    104, 103, 103, m, [], [], Idle, map[0 := 102]), 103,
              WithJob(Queued), [0], [0]);
  }

  function CleanerDone(m: map<nat, nat>): State {
    State([Present(3, 103), Present(2, 0)], MOVED, WithJob(Queued), 104, 103, 103, m, [0], [0], Idle, map[0 := 102])
  }

  const READER_ONLY: map<nat, Txn> := map[102 := READER]

  lemma CleanerEnds(m: map<nat, nat>)
    requires Reached(CleanerDone(m))
    ensures Reached(ChunkQueued(m))
  {
    DoDeregister(CleanerDone(m), 103, READER_ONLY);
  }

  /** The chunk is removed, and only then the reader is registered. */
  function ReaderTooLate(m: map<nat, nat>): State {
    State([Slot.Removed, Present(2, 0)], map[D := Valid(8, 1), N := Valid(7, 103)],
          map[102 := READER.(phase := Active)], 104, 103, 103, m, [], [0], Idle, map[0 := 102])
  }

  const REMOVAL := [CheckQueue, RemoveChunk, Register(102)]

  lemma RemoveBeforeReader(m: map<nat, nat>)
    ensures Follows(ChunkQueued(m), [CheckQueue, RemoveChunk], ReaderTooLate(m).(txns := ChunkQueued(m).txns))
  {
    var s, s2 := ChunkQueued(m), ReaderTooLate(m).(txns := ChunkQueued(m).txns);
    var s1 := s.(physical := Cleared(0));
    assert Follows(s, [], s);
    FollowsNext(s, [], s, CheckQueue, s1);
    assert [] + [CheckQueue] == [CheckQueue];
    RemoveStep(m);
    FollowsNext(s, [CheckQueue], s1, RemoveChunk, s2);
    assert [CheckQueue] + [RemoveChunk] == [CheckQueue, RemoveChunk];
  }

  lemma RemoveUnderReader(m: map<nat, nat>)
    ensures Follows(ChunkQueued(m), REMOVAL, ReaderTooLate(m))
  {
    RemoveBeforeReader(m);
    FollowsNext(ChunkQueued(m), [CheckQueue, RemoveChunk], ReaderTooLate(m).(txns := ChunkQueued(m).txns),
                Register(102),
                ReaderTooLate(m));
    assert [CheckQueue, RemoveChunk] + [Register(102)] == REMOVAL;
  }

  lemma RemoveStep(m: map<nat, nat>)
    ensures var s := ChunkQueued(m).(physical := Cleared(0));
      Enabled(s, RemoveChunk) && Apply(s, RemoveChunk) == ReaderTooLate(m).(txns := s.txns)
  {
    var s, t := ChunkQueued(m).(physical := Cleared(0)), ReaderTooLate(m);
    assert s.slots[0 := Slot.Removed] == t.slots && s.queue[1..] == [];
    assert t.rows == map r | r in s.rows && r.chunk != 0 :: s.rows[r];
  }

  lemma ReaderSeesRow(m: map<nat, nat>)
    ensures Enabled(ChunkQueued(m), CheckQueue) && !Calm(ChunkQueued(m), CheckQueue)
    ensures View(ChunkQueued(m), 102) == map[C := 7, D := 8]
  {
    assert 102 in ChunkQueued(m).txns;
  }

  lemma ReaderLosesRow(m: map<nat, nat>)
    ensures 102 in ReaderTooLate(m).txns && Read(ReaderTooLate(m), 102) == map[D := 8]
  {
  }

  /**
   The physical delete can take rows away from a transaction: a calm run from a loaded table leads to a
   state in which one has read its snapshot and is not registered yet; it loses the only row of chunk 0
   that its snapshot shows.
   */
  lemma UnregisteredSnapshotLosesRow() returns (s: State, s': State)
    ensures Reached(s) && Enabled(s, CheckQueue) && !Calm(s, CheckQueue) && Follows(s, REMOVAL, s')
    ensures 102 in s.txns && 102 in s'.txns && s.txns[102].snapshot == s'.txns[102].snapshot == 102
    ensures View(s, 102) == map[C := 7, D := 8] && Read(s', 102) == map[D := 8]
  {
    var m := OneRowLeft();
    CleanerBegins(m);
    CleanerRegisters(m);
    CleanerFinds(m);
    CleanerLocks(m);
    CleanerCopies(m);
    CleanerPrepares(m);
    CleanerDeletes(m[103 := 103]);
    CleanerInserts(m[103 := 103]);
    CleanerPublishes(m[103 := 103]);
    CleanerStamps(m[103 := 103]);
    CleanerQueues(m[103 := 103]);
    CleanerEnds(m[103 := 103]);
    s, s' := ChunkQueued(m[103 := 103]), ReaderTooLate(m[103 := 103]);
    RemoveUnderReader(m[103 := 103]);
    ReaderSeesRow(m[103 := 103]);
    ReaderLosesRow(m[103 := 103]);
  }

  // ---------------------------------------------------------------- an unfinished insert

  const P := RowId(0, 3)
  const ONE_CHUNK := [Present(3, 0)]

  /** The rows of the only chunk. */
  function Rows(a: Row, b: Row, c: Row): map<RowId, Row> {
    map[A := a, B := b, C := c]
  }

  const ALL_DELETED := Rows(Deleted(5, 2, 1), Deleted(6, 2, 1), Deleted(7, 2, 1))

  /** The loaded table, and transaction 1. */
  lemma OneOpened()
    ensures Reached(One(Rows(Valid(5, 1), Valid(6, 1), Valid(7, 1)), map[1 := Txn(1, Active, {}, {}, Client)],
                          2, 1, 1, map[]))
  {
    var s := One(Rows(Valid(5, 1), Valid(6, 1), Valid(7, 1)), map[], 1, 1, 1, map[]);
    InitialReached(s);
    DoOpen(s, map[1 := Txn(1, Active, {}, {}, Client)]);
  }

  lemma LockA()
    ensures Reached(One(Rows(Locked(5, 1), Valid(6, 1), Valid(7, 1)), map[1 := Txn(1, Active, {A}, {}, Client)],
                          2, 1, 1, map[]))
  {
    var rows, txns := Rows(Valid(5, 1), Valid(6, 1), Valid(7, 1)), map[1 := Txn(1, Active, {}, {}, Client)];
    OneOpened();
    Single(A);
    DoLock(One(rows, txns, 2, 1, 1, map[]), 1, A, Rows(Locked(5, 1), Valid(6, 1), Valid(7, 1)),
           map[1 := Txn(1, Active, {A}, {}, Client)]);
  }

  lemma LockB()
    ensures Reached(One(Rows(Locked(5, 1), Locked(6, 1), Valid(7, 1)), map[1 := Txn(1, Active, {A, B}, {}, Client)],
                          2, 1, 1, map[]))
  {
    LockA();
    assert {A} + {B} == {A, B};
    DoLock(One(Rows(Locked(5, 1), Valid(6, 1), Valid(7, 1)), map[1 := Txn(1, Active, {A}, {}, Client)], 2, 1, 1, map[]),
           1, B, Rows(Locked(5, 1), Locked(6, 1), Valid(7, 1)), map[1 := Txn(1, Active, {A, B}, {}, Client)]);
  }

  lemma LockC()
    ensures Reached(One(Rows(Locked(5, 1), Locked(6, 1), Locked(7, 1)),
                          map[1 := Txn(1, Active, {A, B, C}, {}, Client)], 2, 1, 1, map[]))
  {
    LockB();
    assert {A, B} + {C} == {A, B, C};
    DoLock(One(Rows(Locked(5, 1), Locked(6, 1), Valid(7, 1)), map[1 := Txn(1, Active, {A, B}, {}, Client)],
                 2, 1, 1, map[]),
           1, C, Rows(Locked(5, 1), Locked(6, 1), Locked(7, 1)), map[1 := Txn(1, Active, {A, B, C}, {}, Client)]);
  }

  const DELETER := Txn(1, Committing(2), {A, B, C}, {}, Client)

  lemma DeleteA()
    ensures Reached(One(Rows(Deleted(5, 2, 1), Locked(6, 1), Locked(7, 1)), map[1 := DELETER], 2, 1, 2, map[2 := 1]))
  {
    LockC();
    var rows := Rows(Locked(5, 1), Locked(6, 1), Locked(7, 1));
    DoPrepare(One(rows, map[1 := Txn(1, Active, {A, B, C}, {}, Client)], 2, 1, 1, map[]), 1,
              map[1 := DELETER], map[2 := 1]);
    DoCommitDelete(One(rows, map[1 := DELETER], 2, 1, 2, map[2 := 1]), 1, A,
                   Rows(Deleted(5, 2, 1), Locked(6, 1), Locked(7, 1)));
  }

  lemma DeleteB()
    ensures Reached(One(Rows(Deleted(5, 2, 1), Deleted(6, 2, 1), Locked(7, 1)), map[1 := DELETER], 2, 1, 2,
                        map[2 := 1]))
  {
    DeleteA();
    DoCommitDelete(One(Rows(Deleted(5, 2, 1), Locked(6, 1), Locked(7, 1)), map[1 := DELETER], 2, 1, 2, map[2 := 1]),
                   1, B, Rows(Deleted(5, 2, 1), Deleted(6, 2, 1), Locked(7, 1)));
  }

  /** Transaction 1 deletes all rows of the only chunk. */
  lemma AllRowsDeleted()
    ensures Reached(One(ALL_DELETED, map[], 2, 2, 2, map[2 := 1]))
  {
    DeleteB();
    DoCommitDelete(One(Rows(Deleted(5, 2, 1), Deleted(6, 2, 1), Locked(7, 1)), map[1 := DELETER], 2, 1, 2, map[2 := 1]),
                   1, C, ALL_DELETED);
    DoClose(One(ALL_DELETED, map[1 := DELETER], 2, 1, 2, map[2 := 1]), 1, map[]);
  }

  const INSERTER := Txn(2, Active, {}, {P}, Client)
  const PENDING := Row(9, MAX_COMMIT_ID, MAX_COMMIT_ID, 2)

  lemma InserterOpened()
    ensures Reached(One(ALL_DELETED, map[2 := Txn(2, Active, {}, {}, Client)], 3, 2, 2, map[2 := 1]))
  {
    AllRowsDeleted();
    DoOpen(One(ALL_DELETED, map[], 2, 2, 2, map[2 := 1]), map[2 := Txn(2, Active, {}, {}, Client)]);
  }

  /** Transaction 2 inserts a row into the chunk while that is the last one. */
  lemma RowInserted()
    ensures Reached(Table([Present(4, 0)], ALL_DELETED[P := PENDING], map[2 := INSERTER], 3, 2, 2, map[2 := 1]))
  {
    InserterOpened();
    var s := One(ALL_DELETED, map[2 := Txn(2, Active, {}, {}, Client)], 3, 2, 2, map[2 := 1]);
    assert ONE_CHUNK[0 := Present(4, 0)] == [Present(4, 0)];
    Single(P);
    DoInsert(s, 2, 9, false, [Present(4, 0)], ALL_DELETED[P := PENDING], map[2 := INSERTER]);
  }

  const OPENED := [Present(4, 0), Present(1, 0)]
  const OPENED_ROWS := map[A := Deleted(5, 2, 1), B := Deleted(6, 2, 1), C := Deleted(7, 2, 1), P := PENDING,
                           D := Valid(8, 3)]

  /** Transaction 3 opens a new chunk. */
  lemma ChunkOpened()
    ensures Reached(Table(OPENED, ALL_DELETED[P := PENDING][D := Row(8, MAX_COMMIT_ID, MAX_COMMIT_ID, 3)],
                          map[2 := INSERTER, 3 := Txn(2, Active, {}, {D}, Client)], 4, 2, 2, map[2 := 1]))
  {
    RowInserted();
    var rows, txns := ALL_DELETED[P := PENDING], map[2 := INSERTER, 3 := Txn(2, Active, {}, {}, Client)];
    DoOpen(Table([Present(4, 0)], rows, map[2 := INSERTER], 3, 2, 2, map[2 := 1]), txns);
    Single(D);
    DoInsert(Table([Present(4, 0)], rows, txns, 4, 2, 2, map[2 := 1]), 3, 8, true, OPENED,
             rows[D := Row(8, MAX_COMMIT_ID, MAX_COMMIT_ID, 3)],
             map[2 := INSERTER, 3 := Txn(2, Active, {}, {D}, Client)]);
  }

  lemma ChunkPrepared()
    ensures Reached(Table(OPENED, ALL_DELETED[P := PENDING][D := Row(8, MAX_COMMIT_ID, MAX_COMMIT_ID, 3)],
                          map[2 := INSERTER, 3 := Txn(2, Committing(3), {}, {D}, Client)], 4, 2, 3,
                          map[2 := 1, 3 := 3]))
  {
    ChunkOpened();
    DoPrepare(Table(OPENED, ALL_DELETED[P := PENDING][D := Row(8, MAX_COMMIT_ID, MAX_COMMIT_ID, 3)],
                    map[2 := INSERTER, 3 := Txn(2, Active, {}, {D}, Client)], 4, 2, 2, map[2 := 1]), 3,
              map[2 := INSERTER, 3 := Txn(2, Committing(3), {}, {D}, Client)], map[2 := 1, 3 := 3]);
  }

  lemma ChunkInserted()
    ensures Reached(Opened(map[2 := INSERTER, 3 := Txn(2, Committing(3), {}, {D}, Client)], 4, 2, 3,
                           map[2 := 1, 3 := 3]))
  {
    ChunkPrepared();
    DoCommitInsert(Table(OPENED, ALL_DELETED[P := PENDING][D := Row(8, MAX_COMMIT_ID, MAX_COMMIT_ID, 3)],
                         map[2 := INSERTER, 3 := Txn(2, Committing(3), {}, {D}, Client)], 4, 2, 3,
                         map[2 := 1, 3 := 3]), 3,
                   D, OPENED_ROWS);
  }

  lemma ChunkCommitted()
    ensures Reached(Opened(map[2 := INSERTER], 4, 3, 3, map[2 := 1, 3 := 3]))
  {
    ChunkInserted();
    DoClose(Opened(map[2 := INSERTER, 3 := Txn(2, Committing(3), {}, {D}, Client)], 4, 2, 3, map[2 := 1, 3 := 3]), 3,
            map[2 := INSERTER]);
  }

  /** A hundred commits later chunk 0 meets both criteria for cleaning, and a row in it is pending. */
  lemma InsertPending() returns (m: map<nat, nat>)
    ensures var s := Opened(map[2 := INSERTER], 104, 103, 103, m); Reached(s) && WorthCleaning(s, 0)
  {
    ChunkCommitted();
    m := Commits(Opened(map[2 := INSERTER], 4, 3, 3, map[2 := 1, 3 := 3]), 100);
    PendingIsWorth(m);
  }

  lemma PendingIsWorth(m: map<nat, nat>)
    ensures WorthCleaning(Opened(map[2 := INSERTER], 104, 103, 103, m), 0)
  {
    assert InvalidRows(Opened(map[2 := INSERTER], 104, 103, 103, m), 0) == {A, B, C};
  }

  const VALIDATED := Cleaner(0, Validated, {}, map[])
  const CLEANED := Cleaner(0, Stamped, {}, map[])

  /** The cleaner of chunk 0 is about to look at the chunk. */
  function CleanerWaits(m: map<nat, nat>): State {
    Opened(map[2 := INSERTER, 104 := Txn(103, Active, {}, {}, CHOSEN)], 105, 103, 103, m)
  }

  lemma SecondCleanerBegins(m: map<nat, nat>)
    requires Reached(Opened(map[2 := INSERTER], 104, 103, 103, m))
    ensures Reached(Opened(map[2 := INSERTER, 104 := Txn(103, Unregistered, {}, {}, CHOSEN)], 105, 103, 103, m))
  {
    DoBeginCleaner(Opened(map[2 := INSERTER], 104, 103, 103, m), 0,
                   map[2 := INSERTER, 104 := Txn(103, Unregistered, {}, {}, CHOSEN)]);
  }

  lemma CleanerWaitsReached(m: map<nat, nat>)
    requires Reached(Opened(map[2 := INSERTER, 104 := Txn(103, Unregistered, {}, {}, CHOSEN)], 105, 103, 103, m))
    ensures Reached(CleanerWaits(m))
  {
    DoRegister(Opened(map[2 := INSERTER, 104 := Txn(103, Unregistered, {}, {}, CHOSEN)], 105, 103, 103, m), 104,
               map[2 := INSERTER, 104 := Txn(103, Active, {}, {}, CHOSEN)]);
  }

  /** It has found no row to move, its commit id is published, and the chunk is stamped. */
  function EmptyStamped(m: map<nat, nat>): State {
    State([Present(4, 104), Present(1, 0)], OPENED_ROWS,
          map[2 := INSERTER, 104 := Txn(103, Committed(104), {}, {}, CLEANED)],
          105, 104, 104, m[104 := 104], [], [], Idle, map[0 := 103])
  }

  const LATE_ROWS := map[A := Deleted(5, 2, 1), B := Deleted(6, 2, 1), C := Deleted(7, 2, 1), P := Valid(9, 105),
                         D := Valid(8, 3)]

  /** The insert is committed, and a new transaction begins. */
  function InsertCommitted(m: map<nat, nat>): State {
    State([Present(4, 104), Present(1, 0)], LATE_ROWS,
          map[2 := INSERTER.(phase := Committed(105)), 105 := Txn(105, Unregistered, {}, {}, Client),
              104 := Txn(103, Committed(104), {}, {}, CLEANED)],
          106, 105, 105, m[104 := 104][105 := 2], [], [], Idle, map[0 := 103])
  }

  lemma ValidateNothing(m: map<nat, nat>)
    ensures Follows(CleanerWaits(m), [ValidateChunk(104), PrepareCommit(104)],
                    Opened(map[2 := INSERTER, 104 := Txn(103, Committing(104), {}, {}, VALIDATED)],
                          105, 103, 104, m[104 := 104]))
  {
    var s, x := CleanerWaits(m), Txn(103, Active, {}, {}, VALIDATED);
    assert Follows(s, [], s);
    assert ChunkView(s, 104, 0) == {};
    var s1 := Opened(map[2 := INSERTER, 104 := x], 105, 103, 103, m);
    FollowsNext(s, [], s, ValidateChunk(104), s1);
    assert [] + [ValidateChunk(104)] == [ValidateChunk(104)];
    var s2 := Opened(map[2 := INSERTER, 104 := x.(phase := Committing(104))], 105, 103, 104, m[104 := 104]);
    FollowsNext(s, [ValidateChunk(104)], s1, PrepareCommit(104), s2);
    assert [ValidateChunk(104)] + [PrepareCommit(104)] == [ValidateChunk(104), PrepareCommit(104)];
  }

  lemma StampNothing(m: map<nat, nat>)
    ensures Follows(Opened(map[2 := INSERTER, 104 := Txn(103, Committing(104), {}, {}, VALIDATED)],
                          105, 103, 104, m[104 := 104]),
                    [Publish(104), Stamp(104)], EmptyStamped(m))
  {
    var x := Txn(103, Committing(104), {}, {}, VALIDATED);
    var s := Opened(map[2 := INSERTER, 104 := x], 105, 103, 104, m[104 := 104]);
    assert Follows(s, [], s);
    var s1 := Opened(map[2 := INSERTER, 104 := x.(phase := Committed(104))], 105, 104, 104, m[104 := 104]);
    FollowsNext(s, [], s, Publish(104), s1);
    assert [] + [Publish(104)] == [Publish(104)];
    assert OPENED[0 := Present(4, 104)] == EmptyStamped(m).slots;
    FollowsNext(s, [Publish(104)], s1, Stamp(104), EmptyStamped(m));
    assert [Publish(104)] + [Stamp(104)] == [Publish(104), Stamp(104)];
  }

  /** The pending insert after its commit id is issued. */
  function LateIssued(m: map<nat, nat>): State {
    var s := EmptyStamped(m);
    State(s.slots, OPENED_ROWS,
          map[2 := INSERTER.(phase := Committing(105)), 104 := Txn(103, Committed(104), {}, {}, CLEANED)],
          105, 104, 105, m[104 := 104][105 := 2], [], [], Idle, map[0 := 103])
  }

  lemma IssueLate(m: map<nat, nat>)
    ensures Follows(EmptyStamped(m), [PrepareCommit(2)], LateIssued(m))
  {
    var s := EmptyStamped(m);
    assert Follows(s, [], s);
    FollowsNext(s, [], s, PrepareCommit(2), LateIssued(m));
    assert [] + [PrepareCommit(2)] == [PrepareCommit(2)];
  }

  lemma InsertLate(m: map<nat, nat>)
    ensures Follows(LateIssued(m), [CommitInsert(2, P)], LateIssued(m).(rows := LATE_ROWS))
  {
    var s := LateIssued(m);
    assert Follows(s, [], s);
    FollowsNext(s, [], s, CommitInsert(2, P), s.(rows := LATE_ROWS));
    assert [] + [CommitInsert(2, P)] == [CommitInsert(2, P)];
  }

  lemma LateEnabled(m: map<nat, nat>)
    ensures Enabled(LateIssued(m).(rows := LATE_ROWS), Publish(2))
  {
  }

  lemma CommitLate(m: map<nat, nat>)
    ensures Follows(LateIssued(m), [CommitInsert(2, P), Publish(2)], LatePublished(m))
  {
    InsertLate(m);
    LateEnabled(m);
    FollowsNext(LateIssued(m), [CommitInsert(2, P)], LateIssued(m).(rows := LATE_ROWS), Publish(2), LatePublished(m));
    assert [CommitInsert(2, P)] + [Publish(2)] == [CommitInsert(2, P), Publish(2)];
  }

  /** ... and after it is published. */
  function LatePublished(m: map<nat, nat>): State {
    LateIssued(m).(
      rows := LATE_ROWS, last := 105,
      txns := map[2 := INSERTER.(phase := Committed(105)), 104 := Txn(103, Committed(104), {}, {}, CLEANED)])
  }

  lemma BeginAfter(m: map<nat, nat>)
    ensures Follows(LatePublished(m), [Begin], InsertCommitted(m))
  {
    var s, t := LatePublished(m), InsertCommitted(m);
    assert Follows(s, [], s);
    assert s.txns[105 := Txn(105, Unregistered, {}, {}, Client)] == t.txns;
    FollowsNext(s, [], s, Begin, t);
    assert [] + [Begin] == [Begin];
  }

  const LATE_INSERT := [ValidateChunk(104), PrepareCommit(104), Publish(104), Stamp(104),
                        PrepareCommit(2), CommitInsert(2, P), Publish(2), Begin]

  lemma InsertIsLate(m: map<nat, nat>)
    ensures Follows(CleanerWaits(m), LATE_INSERT, InsertCommitted(m))
  {
    var x := Txn(103, Committing(104), {}, {}, VALIDATED);
    var s1 := Opened(map[2 := INSERTER, 104 := x], 105, 103, 104, m[104 := 104]);
    var a, b, c, d := [ValidateChunk(104), PrepareCommit(104)], [Publish(104), Stamp(104)], [PrepareCommit(2)],
      [CommitInsert(2, P), Publish(2)];
    ValidateNothing(m);
    StampNothing(m);
    FollowsConcat(CleanerWaits(m), a, s1, b, EmptyStamped(m));
    IssueLate(m);
    FollowsConcat(CleanerWaits(m), a + b, EmptyStamped(m), c, LateIssued(m));
    CommitLate(m);
    FollowsConcat(CleanerWaits(m), a + b + c, LateIssued(m), d, LatePublished(m));
    BeginAfter(m);
    FollowsConcat(CleanerWaits(m), a + b + c + d, LatePublished(m), [Begin], InsertCommitted(m));
    assert a + b + c + d + [Begin] == LATE_INSERT;
  }

  lemma {:induction false} FollowsConcat(s: State, a: seq<Step>, s1: State, b: seq<Step>, s2: State)
    requires Follows(s, a, s1) && Follows(s1, b, s2)
    ensures Follows(s, a + b, s2)
    decreases |a|
  {
    if |a| == 0 {
      assert a + b == b;
    } else {
      FollowsConcat(Apply(s, a[0]), a[1..], s1, b, s2);
      assert (a + b)[1..] == a[1..] + b;
    }
  }

  lemma PendingWhenValidated(m: map<nat, nat>)
    ensures Enabled(CleanerWaits(m), ValidateChunk(104)) && !Calm(CleanerWaits(m), ValidateChunk(104))
  {
    assert P in CleanerWaits(m).rows;
  }

  lemma LateInsertView(m: map<nat, nat>)
    ensures View(InsertCommitted(m), 105) == map[P := 9, D := 8]
    ensures P in InsertCommitted(m).rows && LateRow(InsertCommitted(m), P)
  {
  }

  lemma InserterCommitted(m: map<nat, nat>)
    ensures var s := InsertCommitted(m); 2 in s.txns && s.txns[2].phase == Committed(105) && P in s.txns[2].inserts
  {
  }

  lemma LateInsertRead(m: map<nat, nat>)
    ensures var s := InsertCommitted(m); 105 in s.txns && s.txns[105].snapshot == 105 && Read(s, 105) == map[D := 8]
  {
    assert 105 in InsertCommitted(m).txns;
  }

  /**
   The logical delete can lose an insert: a calm run from a loaded table leads to a state in which a
   chunk is validated while a row in it is pending; the insert commits later, its transaction succeeds,
   and the next reader does not find the row.
   */
  lemma UnfinishedInsertIsLost() returns (s: State, s': State)
    ensures Reached(s) && Enabled(s, ValidateChunk(104)) && !Calm(s, ValidateChunk(104)) && Follows(s, LATE_INSERT, s')
    ensures 2 in s'.txns && s'.txns[2].phase == Committed(105) && P in s'.txns[2].inserts
    ensures 105 in s'.txns && s'.txns[105].snapshot == 105
    ensures View(s', 105) == map[P := 9, D := 8] && Read(s', 105) == map[D := 8]
  {
    var m := InsertPending();
    SecondCleanerBegins(m);
    CleanerWaitsReached(m);
    s, s' := CleanerWaits(m), InsertCommitted(m);
    InsertIsLate(m);
    PendingWhenValidated(m);
    InserterCommitted(m);
    LateInsertView(m);
    LateInsertRead(m);
  }
}

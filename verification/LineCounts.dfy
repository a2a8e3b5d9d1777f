/** Flight 1 of the benchmark: its aggregate counts lines and leaves the sums alone. */
module LineCounts {
  import opened Groups
  import Counts
  import opened GroupBy
  import opened Collect
  import opened SsbQuery
  import opened SsbJoin
  import opened Scan
  import opened SsbAnswer
  import opened Sockets
  import opened SocketQuery

  datatype LineCount = LineCount(lines: Word, sum: Word)

  /** store_intermediate of flight 1: a row carries one line. */
  function StoreLine(jt: JoinTuple): LineCount {
    LineCount(1, IntAt(jt.lineorder, LO_EXTENDEDPRICE_IND) * IntAt(jt.lineorder, LO_DISC_IND) % WORD)
  }

  ghost function Lines(rows: seq<LineCount>): nat {
    if |rows| == 0 then 0 else Lines(rows[..|rows| - 1]) + rows[|rows| - 1].lines
  }

  /** SELECT SUM(lo_extendedprice * lo_discount), without overflow. */
  ghost function Sums(rows: seq<LineCount>): nat {
    if |rows| == 0 then 0 else Sums(rows[..|rows| - 1]) + rows[|rows| - 1].sum
  }

  lemma {:induction false} LinesAppend(a: seq<LineCount>, b: seq<LineCount>)
    ensures Lines(a + b) == Lines(a) + Lines(b)
  {
    if |b| == 0 {
      assert a + b == a;
    } else {
      LinesAppend(a, b[..|b| - 1]);
      assert (a + b)[..|a + b| - 1] == a + b[..|b| - 1];
    }
  }

  lemma {:induction false} SumsAppend(a: seq<LineCount>, b: seq<LineCount>)
    ensures Sums(a + b) == Sums(a) + Sums(b)
  {
    if |b| == 0 {
      assert a + b == a;
    } else {
      SumsAppend(a, b[..|b| - 1]);
      assert (a + b)[..|a + b| - 1] == a + b[..|b| - 1];
    }
  }

  /** Stored rows carry one line each, so that their lines are their number. */
  lemma {:induction false} LinesOfRows(rows: seq<LineCount>)
    requires forall i :: 0 <= i < |rows| ==> rows[i].lines == 1
    ensures Lines(rows) == |rows|
  {
    if |rows| != 0 {
      LinesOfRows(rows[..|rows| - 1]);
    }
  }

  /** What aggregate leaves of `rows` in a slot that held `found`. */
  ghost function Counted(rows: seq<LineCount>, found: LineCount): LineCount {
    if |rows| == 0 then found else LineCount(Lines(rows) % WORD, rows[0].sum)
  }

  /** aggregate for flight 1: one tuple is left, with the lines of all and the sum of the first. */
  method AggregateLines(mem: array<LineCount>, start: nat, count: nat) returns (tuples: nat)
    requires start < mem.Length && start + count <= mem.Length
    modifies mem
    ensures tuples == 1 && SameOutside(old(mem[..]), mem[..], start, start + 1)
    ensures mem[start] == Counted(old(mem[start..start + count]), old(mem[start]))
  {
    ghost var all, found := mem[start..start + count], mem[start];
    if count > 0 {
      assert all[..1] == [all[0]] && Lines([all[0]][..0]) == 0;
    }
    for i := 1 to if count > 0 then count else 1
      invariant SameOutside(old(mem[..]), mem[..], start, start + 1)
      invariant mem[start] == if count == 0 then found else Counted(all[..i], found)
    {
      assert all[..i + 1] == all[..i] + [all[i]] && all[..i + 1][..i] == all[..i];
      assert mem[..][start + i] == old(mem[..])[start + i];
      mem[start] := mem[start].(lines := (mem[start].lines + mem[start + i].lines) % WORD);
    }
    if count > 0 {
      assert all[..count] == all;
    }
    return 1;
  }

  // ---------------------------------------------------------------- the threads

  /** The rows of a thread are counted in its slot, and nothing else but its slots for rows differs from `all`. */
  ghost predicate LeavesCount(all: seq<LineCount>, now: seq<LineCount>, start: nat, rows: seq<LineCount>) {
    start < |all| == |now| && SameOutside(all, now, start, start + |rows|) && now[start] == Counted(rows, all[start])
  }

  /** thread_function of flight 1, on the tuples from `first` to `last`. */
  method ScanAndCount(mem: array<LineCount>, start: nat, table: seq<Tuple>, first: nat, last: nat, access: nat,
                      hts: Lookups, q: Query, ghost f: Tuple -> seq<LineCount>) returns (stored: nat)
    requires Finds(f, hts, q, StoreLine)
    requires first <= last <= |table| && access > 0 && (access % 128 == 0 || access >= (last - first) * 128)
    requires start < mem.Length && start + |FlatMap(table[first..last], f)| <= mem.Length
    modifies mem
    ensures stored == 1 && LeavesCount(old(mem[..]), mem[..], start, FlatMap(table[first..last], f))
  {
    ghost var all, slice := mem[..], table[first..last];
    var rows, lines := ScanBlocks(mem, start, table, first, last, access, hts, q, StoreLine, f);
    assert slice[..lines] == slice;
    ghost var before := mem[..];
    assert before[start..start + rows] == mem[start..start + rows];
    stored := AggregateLines(mem, start, rows);
    CountLeft(all, before, mem[..], start, FlatMap(slice, f));
  }

  lemma CountLeft(all: seq<LineCount>, before: seq<LineCount>, now: seq<LineCount>, start: nat, rows: seq<LineCount>)
    requires start < |all| && start + |rows| <= |all|
    requires SameOutside(all, before, start, start + |rows|) && before[start..start + |rows|] == rows
    requires SameOutside(before, now, start, start + 1) && now[start] == Counted(rows, before[start])
    ensures LeavesCount(all, now, start, rows)
  {
    if |rows| == 0 {
      assert before[start] == all[start];
    }
  }

  /**
   The first `n` threads have counted their rows at the start of their shares, and the shares behind are as
   in `all`.
   */
  ghost predicate Counting(all: seq<LineCount>, now: seq<LineCount>, share: nat, rows: seq<seq<LineCount>>, n: nat) {
    n <= |rows| && SameOutside(all, now, 0, share * n) &&
    forall j :: 0 <= j < n ==> share * j < |all| && now[share * j] == Counted(rows[j], all[share * j])
  }

  lemma CountingNext(all: seq<LineCount>, before: seq<LineCount>, now: seq<LineCount>, share: nat,
                     rows: seq<seq<LineCount>>, n: nat)
    requires Counting(all, before, share, rows, n) && n < |rows| && 0 < share && |rows[n]| <= share
    requires LeavesCount(before, now, share * n, rows[n])
    ensures Counting(all, now, share, rows, n + 1)
  {
    forall j | 0 <= j < n ensures share * j < |all| && now[share * j] == Counted(rows[j], all[share * j]) {
      Successive(share, j, n);
    }
    Successive(share, n, n + 1);
  }

  /** Every thread has stored one tuple. */
  ghost predicate OneSlotEach(infos: seq<ThreadInfo>, share: nat) {
    forall i :: 0 <= i < |infos| ==> infos[i] == ThreadInfo(share * i, 1)
  }

  /** The i-th thread. */
  method CountInThread(mem: array<LineCount>, share: nat, table: seq<Tuple>, threads: nat, i: nat, access: nat,
                       hts: Lookups, q: Query, ghost f: Tuple -> seq<LineCount>, ghost all: seq<LineCount>,
                       ghost rows: seq<seq<LineCount>>) returns (info: ThreadInfo)
    requires i < threads && WholeTuples(access, Share(|table|, threads)) && Finds(f, hts, q, StoreLine)
    requires rows == RowsOfThreads(table, threads, f) && |rows[i]| <= share
    requires 0 < share && share * threads <= mem.Length && Counting(all, mem[..], share, rows, i)
    modifies mem
    ensures info == ThreadInfo(share * i, 1) && Counting(all, mem[..], share, rows, i + 1)
  {
    var perThread := Share(|table|, threads);
    var start, first := share * i, perThread * i;
    ThreadsPlace(table, threads, i, share, mem.Length, f);
    ghost var before := mem[..];
    var stored := ScanAndCount(mem, start, table, first, first + perThread, access, hts, q, f);
    CountingNext(all, before, mem[..], share, rows, i);
    return ThreadInfo(start, stored);
  }

  /** There is room for the rows of each thread in its share, and for a tuple if it has none. */
  ghost predicate RoomFor(rows: seq<seq<LineCount>>, share: nat) {
    0 < share && forall i :: 0 <= i < |rows| ==> |rows[i]| <= share
  }

  /** The threads of a socket, one after the other. */
  method CountInThreads(mem: array<LineCount>, share: nat, table: seq<Tuple>, threads: nat, access: nat, hts: Lookups,
                        q: Query, ghost f: Tuple -> seq<LineCount>) returns (infos: seq<ThreadInfo>)
    requires threads > 0 && WholeTuples(access, Share(|table|, threads)) && Finds(f, hts, q, StoreLine)
    requires share * threads <= mem.Length && RoomFor(RowsOfThreads(table, threads, f), share)
    modifies mem
    ensures |infos| == threads && OneSlotEach(infos, share)
    ensures Counting(old(mem[..]), mem[..], share, RowsOfThreads(table, threads, f), threads)
  {
    ghost var all, rows := mem[..], RowsOfThreads(table, threads, f);
    infos := [];
    for i := 0 to threads
      invariant |infos| == i && OneSlotEach(infos, share)
      invariant Counting(all, mem[..], share, rows, i)
    {
      var info := CountInThread(mem, share, table, threads, i, access, hts, q, f, all, rows);
      infos := infos + [info];
    }
  }

  /** What the threads of a socket leave, in thread order. */
  ghost function SlotCounts(all: seq<LineCount>, share: nat, rows: seq<seq<LineCount>>): (counts: seq<LineCount>)
    requires forall i :: 0 <= i < |rows| ==> share * i < |all|
    ensures |counts| == |rows|
    ensures forall i :: 0 <= i < |rows| ==> counts[i] == Counted(rows[i], all[share * i])
  {
    seq(|rows|, i requires 0 <= i < |rows| => Counted(rows[i], all[share * i]))
  }

  lemma {:induction false} ConcatSingles<T>(parts: seq<seq<T>>, s: seq<T>)
    requires |parts| == |s| && forall i :: 0 <= i < |s| ==> parts[i] == [s[i]]
    ensures Concat(parts) == s
  {
    if |s| != 0 {
      ConcatSingles(parts[..|s| - 1], s[..|s| - 1]);
    }
  }

  lemma SlotsLaidOut(infos: seq<ThreadInfo>, share: nat, length: nat)
    requires 0 < share && share * |infos| <= length
    requires OneSlotEach(infos, share)
    ensures LaidOut(infos, 1, length) && AllInside(infos, 1, length)
    ensures forall i :: 0 <= i < |infos| ==> share * i < length
  {
    forall i | 0 <= i < |infos|
      ensures EndsBeforeNext(infos, i, 1, length) && BufferEnd(infos[i], 1) <= length && share * i < length
    {
      Successive(share, i, |infos|);
      Successive(share, i, i + 1);
    }
  }

  lemma SlotsCollected(all: seq<LineCount>, now: seq<LineCount>, share: nat, rows: seq<seq<LineCount>>,
                       infos: seq<ThreadInfo>)
    requires |infos| == |rows| && Counting(all, now, share, rows, |rows|) && AllInside(infos, 1, |now|)
    requires OneSlotEach(infos, share)
    ensures forall i :: 0 <= i < |rows| ==> share * i < |all|
    ensures Concat(Buffers(now, infos, 1)) == SlotCounts(all, share, rows)
  {
    var counts := SlotCounts(all, share, rows);
    forall i | 0 <= i < |rows| ensures Buffers(now, infos, 1)[i] == [counts[i]] {
      assert Buffer(now, infos[i], 1) == now[share * i..share * i + 1];
    }
    ConcatSingles(Buffers(now, infos, 1), counts);
  }

  /**
   What is left when the threads of a socket start on the buffer `all`: the lines of all slots, the sum of
   the first.
   */
  ghost predicate LeftIn(x: LineCount, all: seq<LineCount>, share: nat, rows: seq<seq<LineCount>>) {
    |rows| > 0 && (forall i :: 0 <= i < |rows| ==> share * i < |all|) &&
    var slots := SlotCounts(all, share, rows);
    x.lines == Lines(slots) % WORD && x.sum == slots[0].sum
  }

  /** socket_function of flight 1: the tuple that is left counts what the threads left. */
  method CountSocket(mem: array<LineCount>, table: seq<Tuple>, threads: nat, access: nat, hts: Lookups, q: Query,
                     ghost f: Tuple -> seq<LineCount>) returns (tuples: nat)
    requires threads > 0 && WholeTuples(access, Share(|table|, threads)) && Finds(f, hts, q, StoreLine)
    requires RoomFor(RowsOfThreads(table, threads, f), mem.Length / threads)
    modifies mem
    ensures tuples == 1 && LeftIn(mem[0], old(mem[..]), mem.Length / threads, RowsOfThreads(table, threads, f))
  {
    ghost var all, rows := mem[..], RowsOfThreads(table, threads, f);
    var share := mem.Length / threads;
    var infos := CountInThreads(mem, share, table, threads, access, hts, q, f);
    ghost var now := mem[..];
    SlotsLaidOut(infos, share, |now|);
    SlotsCollected(all, now, share, rows, infos);
    ghost var counts := SlotCounts(all, share, rows);
    var count := CollectSocketIntermediates(mem, infos, 1);
    assert mem[0..0 + count] == counts;
    tuples := AggregateLines(mem, 0, count);
  }

  // ---------------------------------------------------------------- against the naive query

  /** The lines that a thread leaves behind the rows it has: what its slot held, if it has none. */
  ghost function Stale(rows: seq<LineCount>, found: LineCount): nat {
    if |rows| == 0 then found.lines else 0
  }

  /** The lines that lay in the slots of threads without rows. */
  ghost function StaleLines(all: seq<LineCount>, share: nat, rows: seq<seq<LineCount>>): nat
    requires forall i :: 0 <= i < |rows| ==> share * i < |all|
  {
    if |rows| == 0 then 0
    else StaleLines(all, share, rows[..|rows| - 1]) + Stale(rows[|rows| - 1], all[share * (|rows| - 1)])
  }

  lemma CountedLines(rows: seq<LineCount>, found: LineCount)
    ensures Counted(rows, found).lines % WORD == (Lines(rows) + Stale(rows, found)) % WORD
  {
    ReducedTwice(Lines(rows));
  }

  lemma AddTwice(c: nat, d: nat, f: nat, l: nat, r: nat, m: nat)
    requires c % WORD == (d + f) % WORD && l % WORD == (r + m) % WORD
    ensures (c + l) % WORD == (d + r + (f + m)) % WORD
  {
    AddCongruent(c, d + f, l, r + m);
    assert d + f + (r + m) == d + r + (f + m);
  }

  lemma SlotLines(all: seq<LineCount>, share: nat, rows: seq<seq<LineCount>>, n: nat)
    requires |rows| == n + 1 && forall i :: 0 <= i < |rows| ==> share * i < |all|
    ensures Lines(SlotCounts(all, share, rows)) ==
      Lines(SlotCounts(all, share, rows[..n])) + Counted(rows[n], all[share * n]).lines
  {
    assert SlotCounts(all, share, rows)[..n] == SlotCounts(all, share, rows[..n]);
  }

  /** The threads' counts add up to the lines of all rows and those found in the slots of idle threads. */
  lemma {:induction false} ThreadLinesAddUp(all: seq<LineCount>, share: nat, rows: seq<seq<LineCount>>)
    requires forall i :: 0 <= i < |rows| ==> share * i < |all|
    ensures Lines(SlotCounts(all, share, rows)) % WORD ==
      (Lines(Concat(rows)) + StaleLines(all, share, rows)) % WORD
  {
    if |rows| != 0 {
      var n := |rows| - 1;
      var slot := all[share * n];
      ThreadLinesAddUp(all, share, rows[..n]);
      SlotLines(all, share, rows, n);
      CountedLines(rows[n], slot);
      LinesAppend(Concat(rows[..n]), rows[n]);
      AddTwice(Lines(SlotCounts(all, share, rows[..n])), Lines(Concat(rows[..n])), StaleLines(all, share, rows[..n]),
               Counted(rows[n], slot).lines, Lines(rows[n]), Stale(rows[n], slot));
    }
  }

  ghost predicate OneLineEach(rows: seq<LineCount>) {
    forall i :: 0 <= i < |rows| ==> rows[i].lines == 1
  }

  lemma {:induction false} FlatMapOneLineEach<T>(s: seq<T>, f: T -> seq<LineCount>)
    requires forall x :: x in s ==> OneLineEach(f(x))
    ensures OneLineEach(FlatMap(s, f))
  {
    if |s| != 0 {
      FlatMapOneLineEach(s[..|s| - 1], f);
    }
  }

  /** The rows of the naive query, as flight 1 stores them. */
  function LineRows(lineorders: seq<Tuple>, tables: Tables, q: Query): seq<LineCount> {
    FlatMap(lineorders, StoredRows(tables, q, StoreLine))
  }

  lemma LinesAreRows(lineorders: seq<Tuple>, tables: Tables, q: Query)
    ensures Lines(LineRows(lineorders, tables, q)) == |LineRows(lineorders, tables, q)|
  {
    forall l: Tuple ensures OneLineEach(RowsOf(l, tables, q, StoreLine)) {
      FlatMapOneLineEach(NestedLoops(l, tables, q), OneRow(StoreLine));
    }
    FlatMapOneLineEach(lineorders, StoredRows(tables, q, StoreLine));
    LinesOfRows(LineRows(lineorders, tables, q));
  }

  lemma AddsNothing(a: nat, b: nat)
    ensures (a + b) % WORD == a % WORD <==> b % WORD == 0
  {
  }

  function Product(a: nat, b: nat): nat {
    a * b
  }

  /** lo_extendedprice * lo_discount. */
  function Price(jt: JoinTuple): nat {
    Product(IntAt(jt.lineorder, LO_EXTENDEDPRICE_IND), IntAt(jt.lineorder, LO_DISC_IND))
  }

  /** SELECT SUM(lo_extendedprice * lo_discount), without overflow. */
  ghost function Revenue(rows: seq<JoinTuple>): nat {
    if |rows| == 0 then 0 else Revenue(rows[..|rows| - 1]) + Price(rows[|rows| - 1])
  }

  lemma ProductFits(a: nat, b: nat)
    requires a < 0x8000_0000 && b < 0x8000_0000
    ensures a * b % WORD == Product(a, b)
  {
    assert Product(0x8000_0000 - a, b) == 0x8000_0000 * b - a * b;
    assert a * b <= 0x8000_0000 * b < WORD;
  }

  /** What is stored of joined rows has their sum. */
  lemma {:induction false} StoredSums(rows: seq<JoinTuple>)
    ensures Sums(Image(StoreLine, rows)) == Revenue(rows)
  {
    if |rows| != 0 {
      var n := |rows| - 1;
      StoredSums(rows[..n]);
      assert Image(StoreLine, rows)[..n] == Image(StoreLine, rows[..n]);
      ProductFits(IntAt(rows[n].lineorder, LO_EXTENDEDPRICE_IND), IntAt(rows[n].lineorder, LO_DISC_IND));
    }
  }

  /** What is stored of the tuples `lineorders`: one line for each row of the join, and the sum of all. */
  lemma LinesOfJoin(lineorders: seq<Tuple>, tables: Tables, q: Query)
    ensures var naive, rows := LineRows(lineorders, tables, q), JoinRows(lineorders, tables, q);
      naive == Image(StoreLine, rows) && |naive| == |rows| && Sums(naive) == Revenue(rows)
  {
    StoredAreJoinRows(lineorders, tables, q, StoreLine);
    StoredSums(JoinRows(lineorders, tables, q));
  }

  lemma SumsOfRest(rows: seq<JoinTuple>)
    requires |rows| > 0
    ensures Sums(Image(StoreLine, rows)[1..]) == Revenue(rows[1..])
  {
    StoredSums(rows[1..]);
    assert Image(StoreLine, rows)[1..] == Image(StoreLine, rows[1..]);
  }

  /** The sum that is left for the stored rows `rows`, of which the first thread has the first or none. */
  ghost predicate SlotIsRight(rows: seq<LineCount>, firstBusy: bool, found: Word)
    requires firstBusy ==> |rows| > 0
  {
    if firstBusy then Sums(rows[1..]) % WORD == 0 else Sums(rows) % WORD == found
  }

  /**
   When the first row stands for all of them: the others add up to nothing, or, if the first thread has
   none, its slot held the sum.
   */
  ghost predicate SumIsRight(rows: seq<JoinTuple>, firstBusy: bool, found: Word)
    requires firstBusy ==> |rows| > 0
  {
    if firstBusy then Revenue(rows[1..]) % WORD == 0 else Revenue(rows) % WORD == found
  }

  lemma SlotOfRows(rows: seq<JoinTuple>, firstBusy: bool, found: Word)
    requires firstBusy ==> |rows| > 0
    ensures SlotIsRight(Image(StoreLine, rows), firstBusy, found) <==> SumIsRight(rows, firstBusy, found)
  {
    StoredSums(rows);
    if firstBusy {
      SumsOfRest(rows);
    }
  }

  lemma {:induction false} ConcatStartsWith<T>(parts: seq<seq<T>>)
    requires |parts| > 0
    ensures parts[0] <= Concat(parts)
  {
    if |parts| > 1 {
      ConcatStartsWith(parts[..|parts| - 1]);
    }
  }

  lemma SumsOfFirst(rows: seq<LineCount>)
    requires |rows| > 0
    ensures Sums(rows) == rows[0].sum + Sums(rows[1..])
  {
    assert rows == [rows[0]] + rows[1..] && [rows[0]][..0] == [];
    SumsAppend([rows[0]], rows[1..]);
  }

  /** The sum of the first slot against that of all rows. */
  lemma SumOfSlots(all: seq<LineCount>, share: nat, rows: seq<seq<LineCount>>)
    requires |rows| > 0 && forall i :: 0 <= i < |rows| ==> share * i < |all|
    ensures |rows[0]| > 0 ==> |Concat(rows)| > 0
    ensures SlotCounts(all, share, rows)[0].sum == Sums(Concat(rows)) % WORD <==>
      SlotIsRight(Concat(rows), |rows[0]| > 0, all[0].sum)
  {
    var naive := Concat(rows);
    ConcatStartsWith(rows);
    assert SlotCounts(all, share, rows)[0] == Counted(rows[0], all[0]);
    if |rows[0]| > 0 {
      assert naive[0] == rows[0][0];
      SumsOfFirst(naive);
      FirstIsSum(naive[0].sum, Sums(naive[1..]));
    }
  }

  lemma FirstIsSum(first: Word, rest: nat)
    ensures first == (first + rest) % WORD <==> rest % WORD == 0
  {
    AddsNothing(first, rest);
    Counts.SmallWord(first);
  }

  lemma ThreadsHandLines(table: seq<Tuple>, threads: nat, tables: Tables, q: Query)
    requires threads > 0
    ensures var naive := LineRows(Covered(table, threads), tables, q);
      Concat(RowsOfThreads(table, threads, StoredRows(tables, q, StoreLine))) == naive && Lines(naive) == |naive| &&
      naive == Image(StoreLine, CoveredRows(table, tables, threads, q)) &&
      Sums(naive) == Revenue(CoveredRows(table, tables, threads, q))
  {
    LinesOfJoin(Covered(table, threads), tables, q);
    ThreadsCoverTable(table, threads, StoredRows(tables, q, StoreLine));
    LinesAreRows(Covered(table, threads), tables, q);
  }

  lemma {:induction false} RevenuePositive(rows: seq<JoinTuple>)
    requires forall i :: 0 <= i < |rows| ==> Price(rows[i]) > 0
    ensures Revenue(rows) >= |rows|
  {
    if |rows| != 0 {
      RevenuePositive(rows[..|rows| - 1]);
    }
  }

  lemma {:induction false} RevenueOfFirst(rows: seq<JoinTuple>)
    requires |rows| > 0
    ensures Revenue(rows) == Price(rows[0]) + Revenue(rows[1..])
  {
    var n := |rows| - 1;
    if n > 0 {
      RevenueOfFirst(rows[..n]);
      assert rows[..n][1..] == rows[1..][..n - 1];
    } else {
      assert rows[..0] == [] == rows[1..];
    }
  }

  /** Of rows with positive prices that do not overflow, the sum is right only when there is no second one. */
  lemma SumIsRightForOneRow(rows: seq<JoinTuple>, found: Word)
    requires |rows| > 0 && Revenue(rows) < WORD && forall i :: 0 <= i < |rows| ==> Price(rows[i]) > 0
    ensures SumIsRight(rows, true, found) <==> |rows| == 1
  {
    RevenueOfFirst(rows);
    RevenuePositive(rows[1..]);
    Counts.SmallWord(Revenue(rows[1..]));
  }

  /** The rows that each thread of a socket counts. */
  ghost function ThreadRows(table: seq<Tuple>, tables: Tables, threads: nat, q: Query): (rows: seq<seq<LineCount>>)
    ensures |rows| == threads
  {
    RowsOfThreads(table, threads, StoredRows(tables, q, StoreLine))
  }

  /** A query of flight 1 on one socket, from its tables on. */
  method RunCount(mem: array<LineCount>, table: seq<Tuple>, tables: Tables, threads: nat, access: nat, q: Query)
      returns (tuples: nat)
    requires KeysUnique(tables) && q.flight == 1
    requires threads > 0 && WholeTuples(access, Share(|table|, threads))
    requires RoomFor(ThreadRows(table, tables, threads, q), mem.Length / threads)
    modifies mem
    ensures tuples == 1
    ensures LeftIn(mem[0], old(mem[..]), mem.Length / threads, ThreadRows(table, tables, threads, q))
  {
    var hts := new HashTables();
    hts.InsertKeys(tables);
    HashJoinFindsRows(tables, hts.Contents(), q, StoreLine);
    tuples := CountSocket(mem, table, threads, access, hts.Contents(), q, StoredRows(tables, q, StoreLine));
  }

  /** The number of lines that is left is the number of `n` rows and of the lines `stale`. */
  ghost predicate CountIs(lines: Word, n: nat, stale: nat) {
    lines == (n + stale) % WORD
  }

  lemma CountRightIff(lines: Word, n: nat, stale: nat)
    requires CountIs(lines, n, stale)
    ensures lines == n % WORD <==> stale % WORD == 0
  {
    AddsNothing(n, stale);
  }

  lemma CountOfSlots(x: LineCount, all: seq<LineCount>, share: nat, rows: seq<seq<LineCount>>)
    requires LeftIn(x, all, share, rows) && Lines(Concat(rows)) == |Concat(rows)|
    ensures CountIs(x.lines, |Concat(rows)|, StaleLines(all, share, rows))
  {
    ThreadLinesAddUp(all, share, rows);
  }

  /** The rows of the nested-loop join over the tuples that the threads cover. */
  function CoveredRows(table: seq<Tuple>, tables: Tables, threads: nat, q: Query): seq<JoinTuple>
    requires threads > 0
  {
    JoinRows(Covered(table, threads), tables, q)
  }

  /** The rows of the join over the tuples of the first thread. */
  function FirstRows(table: seq<Tuple>, tables: Tables, threads: nat, q: Query): seq<JoinTuple>
    requires threads > 0
  {
    JoinRows(Slice(table, threads, 0), tables, q)
  }

  lemma FirstThread(table: seq<Tuple>, tables: Tables, threads: nat, q: Query)
    requires threads > 0
    ensures |ThreadRows(table, tables, threads, q)[0]| == |FirstRows(table, tables, threads, q)|
  {
    LinesOfJoin(Slice(table, threads, 0), tables, q);
  }

  /**
   The lines that are left are the number of those rows exactly when what lay in the slots of idle threads
   adds up to nothing.
   */
  lemma LinesRightIff(x: LineCount, all: seq<LineCount>, share: nat, table: seq<Tuple>, tables: Tables, threads: nat,
                      q: Query)
    requires threads > 0 && LeftIn(x, all, share, ThreadRows(table, tables, threads, q))
    ensures x.lines == |CoveredRows(table, tables, threads, q)| % WORD <==>
      StaleLines(all, share, ThreadRows(table, tables, threads, q)) % WORD == 0
  {
    var rows := ThreadRows(table, tables, threads, q);
    ThreadsHandLines(table, threads, tables, q);
    CountOfSlots(x, all, share, rows);
    CountRightIff(x.lines, |Concat(rows)|, StaleLines(all, share, rows));
  }

  /**
   The sum that is left is that of those rows exactly when the rows behind the first add up to nothing, or,
   if the first thread has none, when its slot held the sum before.
   */
  lemma SumRightIff(x: LineCount, all: seq<LineCount>, share: nat, table: seq<Tuple>, tables: Tables, threads: nat,
                    q: Query)
    requires threads > 0 && LeftIn(x, all, share, ThreadRows(table, tables, threads, q))
    ensures |FirstRows(table, tables, threads, q)| > 0 ==> |CoveredRows(table, tables, threads, q)| > 0
    ensures x.sum == Revenue(CoveredRows(table, tables, threads, q)) % WORD <==>
      SumIsRight(CoveredRows(table, tables, threads, q), |FirstRows(table, tables, threads, q)| > 0, all[0].sum)
  {
    ThreadsHandLines(table, threads, tables, q);
    SumOfSlots(all, share, ThreadRows(table, tables, threads, q));
    FirstThread(table, tables, threads, q);
    SlotOfRows(CoveredRows(table, tables, threads, q), |FirstRows(table, tables, threads, q)| > 0, all[0].sum);
  }

  // ---------------------------------------------------------------- two sockets

  lemma LinesOfTwo(x: LineCount, y: LineCount)
    ensures Lines([x, y]) == x.lines + y.lines
  {
    assert [x, y][..1] == [x] && [x][..0] == [];
    assert Lines([x]) == Lines([x][..0]) + x.lines;
  }

  /** The merge in worker_function: the lines of both sockets. */
  method MergeCounts(mem: array<LineCount>, mem': array<LineCount>) returns (tuples: nat)
    requires mem != mem' && 2 <= mem.Length && 1 <= mem'.Length
    modifies mem
    ensures tuples == 1
    ensures mem[0] == LineCount((old(mem[0].lines) + mem'[0].lines) % WORD, old(mem[0].sum))
  {
    ghost var one := mem[0];
    CopyBehind(mem, 1, mem', 1);
    assert mem[0..0 + 2] == [one, mem'[0]];
    LinesOfTwo(one, mem'[0]);
    tuples := AggregateLines(mem, 0, 2);
  }

  lemma CountOfBoth(one: Word, n: nat, stale: nat, two: Word, n': nat, stale': nat)
    requires CountIs(one, n, stale) && CountIs(two, n', stale')
    ensures CountIs((one + two) % WORD, n + n', stale + stale')
  {
    Counts.SmallWord(one);
    Counts.SmallWord(two);
    AddTwice(one, n, stale, two, n', stale');
  }

  lemma BothRightIff(one: Word, n: nat, stale: nat, two: Word, n': nat, stale': nat, total: nat)
    requires CountIs(one, n, stale) && CountIs(two, n', stale') && total == n + n'
    ensures (one + two) % WORD == total % WORD <==> (stale + stale') % WORD == 0
  {
    CountOfBoth(one, n, stale, two, n', stale');
    CountRightIff((one + two) % WORD, total, stale + stale');
  }

  lemma BothSlots(merged: Word, x: LineCount, all: seq<LineCount>, share: nat, rows: seq<seq<LineCount>>, y: LineCount,
                  all': seq<LineCount>, share': nat, rows': seq<seq<LineCount>>, total: nat, stale: nat)
    requires LeftIn(x, all, share, rows) && Lines(Concat(rows)) == |Concat(rows)|
    requires LeftIn(y, all', share', rows') && Lines(Concat(rows')) == |Concat(rows')|
    requires merged == (x.lines + y.lines) % WORD && total == |Concat(rows)| + |Concat(rows')|
    requires stale == StaleLines(all, share, rows) + StaleLines(all', share', rows')
    ensures merged == total % WORD <==> stale % WORD == 0
  {
    CountOfSlots(x, all, share, rows);
    CountOfSlots(y, all', share', rows');
    BothRightIff(x.lines, |Concat(rows)|, StaleLines(all, share, rows), y.lines, |Concat(rows')|,
                 StaleLines(all', share', rows'), total);
  }

  /** The rows of two sockets. */
  function RowsOfBoth(table: seq<Tuple>, table': seq<Tuple>, tables: Tables, threads: nat, q: Query): nat
    requires threads > 0
  {
    |CoveredRows(table, tables, threads, q)| + |CoveredRows(table', tables, threads, q)|
  }

  /**
   The merged count is that of the rows exactly when what lay in the slots of idle threads of both adds up
   to nothing.
   */
  lemma BothLinesRightIff(merged: Word, x: LineCount, all: seq<LineCount>, share: nat, table: seq<Tuple>, y: LineCount,
                          all': seq<LineCount>, share': nat, table': seq<Tuple>, tables: Tables, threads: nat,
                          q: Query, stale: nat)
    requires threads > 0 && LeftIn(x, all, share, ThreadRows(table, tables, threads, q))
    requires LeftIn(y, all', share', ThreadRows(table', tables, threads, q))
    requires merged == (x.lines + y.lines) % WORD
    requires stale == StaleLines(all, share, ThreadRows(table, tables, threads, q)) +
      StaleLines(all', share', ThreadRows(table', tables, threads, q))
    ensures merged == RowsOfBoth(table, table', tables, threads, q) % WORD <==> stale % WORD == 0
  {
    ThreadsHandLines(table, threads, tables, q);
    ThreadsHandLines(table', threads, tables, q);
    BothSlots(merged, x, all, share, ThreadRows(table, tables, threads, q), y, all', share',
              ThreadRows(table', tables, threads, q), RowsOfBoth(table, table', tables, threads, q), stale);
  }
}

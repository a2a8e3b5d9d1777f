/** From the lineorder table to the result of a query: a socket, and two sockets together. */
module SocketQuery {
  import opened Basics
  import opened Groups
  import opened Counts
  import opened SsbTuples
  import opened GroupBy
  import opened Collect
  import opened SsbQuery
  import opened SsbJoin
  import opened Scan
  import opened SsbColumns
  import opened SsbAnswer
  import opened Sockets
  import opened Leftovers
  import Lex

  /** The access size divides a slice of `n` tuples into whole tuples. */
  predicate WholeTuples(access: nat, n: nat) {
    access > 0 && (access % 128 == 0 || access >= n * 128)
  }

  /** The rows that each thread stores. */
  ghost function RowsOfThreads<X>(table: seq<Tuple>, threads: nat, f: Tuple -> seq<X>): (rows: seq<seq<X>>)
    ensures |rows| == threads && forall i :: 0 <= i < threads ==> rows[i] == FlatMap(Slice(table, threads, i), f)
  {
    seq(threads, i requires 0 <= i < threads => FlatMap(Slice(table, threads, i), f))
  }

  /** Where a thread reads and writes. */
  lemma ThreadsPlace<X>(table: seq<Tuple>, threads: nat, i: nat, share: nat, length: nat, f: Tuple -> seq<X>)
    requires i < threads && 0 < share && share * threads <= length
    ensures share * i + share == share * (i + 1) <= length
    ensures var perThread := Share(|table|, threads); var first := perThread * i;
      first + perThread == perThread * (i + 1) <= |table| &&
      RowsOfThreads(table, threads, f)[i] == FlatMap(table[first..first + perThread], f)
  {
    ShareFits(|table|, threads, i);
    Successive(share, i, threads);
  }

  /** The first threads have left their groups in their shares, and the shares behind are as in `all`. */
  ghost predicate GroupedSoFar(g: Grouping, all: seq<Intermediate>, now: seq<Intermediate>, share: nat,
                          rows: seq<seq<Intermediate>>, infos: seq<ThreadInfo>) {
    ThreadsDone(g, all, now, share, rows, infos) && SameOutside(all, now, 0, share * |infos|)
  }

  /** The next thread, with its share of the buffer and its tuples. */
  method RunThread(mem: array<Intermediate>, start: nat, table: seq<Tuple>, first: nat, last: nat, access: nat,
                   hts: Lookups, q: Query, g: Grouping, ghost f: Tuple -> seq<Intermediate>,
                   ghost all: seq<Intermediate>, ghost share: nat, ghost rows: seq<seq<Intermediate>>,
                   ghost infos: seq<ThreadInfo>) returns (info: ThreadInfo, lines: nat)
    requires Finds(f, hts, q, Storing(q)) && first <= last <= |table| && WholeTuples(access, last - first)
    requires |infos| < |rows| && rows[|infos|] == FlatMap(table[first..last], f) && |rows[|infos|]| <= share
    requires 0 < share && start == share * |infos| && start + share <= mem.Length
    requires GroupedSoFar(g, all, mem[..], share, rows, infos)
    modifies mem
    ensures lines == last - first && GroupedSoFar(g, all, mem[..], share, rows, infos + [info])
  {
    ghost var before := mem[..];
    var stored;
    stored, lines := ScanAndGroup(mem, start, table, first, last, access, hts, q, g, f);
    ThreadsDoneNext(g, all, before, mem[..], share, rows, infos, stored);
    info := ThreadInfo(start, stored);
    Successive(share, |infos|, |infos| + 1);
  }

  /** The threads one after the other: their buffers do not meet, so their order does not matter. */
  method RunThreads(mem: array<Intermediate>, share: nat, table: seq<Tuple>, threads: nat, access: nat, hts: Lookups,
                    q: Query, g: Grouping, ghost f: Tuple -> seq<Intermediate>)
      returns (infos: seq<ThreadInfo>, lines: nat)
    requires threads > 0 && WholeTuples(access, Share(|table|, threads)) && Finds(f, hts, q, Storing(q))
    requires 0 < share && share * threads <= mem.Length
    requires forall i :: 0 <= i < threads ==> |RowsOfThreads(table, threads, f)[i]| <= share
    modifies mem
    ensures |infos| == threads && lines == Share(|table|, threads) * threads
    ensures ThreadsDone(g, old(mem[..]), mem[..], share, RowsOfThreads(table, threads, f), infos)
  {
    ghost var all, rows := mem[..], RowsOfThreads(table, threads, f);
    var perThread := Share(|table|, threads);
    infos, lines := [], 0;
    for i := 0 to threads
      invariant |infos| == i && lines == perThread * i
      invariant GroupedSoFar(g, all, mem[..], share, rows, infos)
    {
      var start, first := share * i, perThread * i;
      ThreadsPlace(table, threads, i, share, mem.Length, f);
      var info, scanned := RunThread(mem, start, table, first, first + perThread, access, hts, q, g, f, all, share,
                                     rows, infos);
      infos := infos + [info];
      lines := lines + scanned;
    }
  }

  /**
   socket_function for the flights that group.  It groups the first of the groups that its threads
   found, as many as there are threads.
   */
  method SocketFunction(mem: array<Intermediate>, table: seq<Tuple>, threads: nat, access: nat, hts: Lookups, q: Query,
                        g: Grouping, ghost f: Tuple -> seq<Intermediate>)
      returns (tuples: nat, ghost groups: seq<seq<Entry>>)
    requires threads > 0 && WholeTuples(access, Share(|table|, threads)) && Finds(f, hts, q, Storing(q))
    requires 0 < mem.Length / threads
    requires forall i :: 0 <= i < threads ==> |RowsOfThreads(table, threads, f)[i]| <= mem.Length / threads
    modifies mem
    ensures 0 < tuples <= threads && tuples <= mem.Length
    ensures forall i :: 0 <= i < threads ==> mem.Length / threads * i < mem.Length
    ensures CountedByThread(Parts(g, old(mem[..]), mem.Length / threads, RowsOfThreads(table, threads, f)), groups,
              Entries(g, mem[0..tuples]))
  {
    ghost var all, rows := mem[..], RowsOfThreads(table, threads, f);
    var share := mem.Length / threads;
    var infos, lines := RunThreads(mem, share, table, threads, access, hts, q, g, f);
    ghost var now := mem[..];
    ThreadsLaidOut(g, all, now, share, rows, infos);
    SharesInside(g, all, now, share, rows, infos);
    BuffersHoldGroups(g, all, now, share, rows, infos);
    CountOfThreads(g, Buffers(now, infos, 1));
    groups := EntriesOfAll(g, Buffers(now, infos, 1));
    tuples := CollectAndGroup(mem, infos, g, Concat(Buffers(now, infos, 1)));
    SocketResult(g, all, now, share, rows, infos, Entries(g, mem[0..tuples]));
  }

  /** memcpy between the buffers of two sockets. */
  method CopyBehind<X>(mem1: array<X>, at: nat, mem2: array<X>, n: nat)
    requires mem1 != mem2 && at + n <= mem1.Length && n <= mem2.Length
    modifies mem1
    ensures mem1[0..at + n] == old(mem1[..at]) + mem2[..n]
  {
    ghost var first := mem1[..at];
    for i := 0 to n
      invariant forall k :: 0 <= k < at ==> mem1[k] == first[k]
      invariant forall k :: at <= k < at + i ==> mem1[k] == mem2[k - at]
    {
      mem1[at + i] := mem2[i];
    }
  }

  /** The merge in worker_function: the second socket's groups go behind the first's, and all are grouped. */
  method MergeSockets(mem1: array<Intermediate>, tuples1: nat, mem2: array<Intermediate>, tuples2: nat, g: Grouping)
      returns (tuples: nat)
    requires mem1 != mem2 && 0 < tuples1 && tuples1 + tuples2 <= mem1.Length && tuples2 <= mem2.Length
    modifies mem1
    ensures 0 < tuples <= tuples1 + tuples2
    ensures Grouped(Entries(g, old(mem1[..tuples1]) + mem2[..tuples2]), Entries(g, mem1[0..tuples]))
  {
    CopyBehind(mem1, tuples1, mem2, tuples2);
    tuples := Group(mem1, 0, tuples1 + tuples2, g);
  }

  // ---------------------------------------------------------------- the result against the naive query

  lemma {:induction false} SlicesCover<X>(table: seq<Tuple>, threads: nat, n: nat, f: Tuple -> seq<X>)
    requires 0 < threads && n <= threads
    ensures Share(|table|, threads) * n <= |table|
    ensures Concat(RowsOfThreads(table, threads, f)[..n]) == FlatMap(table[..Share(|table|, threads) * n], f)
  {
    if n != 0 {
      SlicesCover(table, threads, n - 1, f);
      SliceBehind(table, threads, n - 1, f);
    }
  }

  lemma SliceBehind<X>(table: seq<Tuple>, threads: nat, n: nat, f: Tuple -> seq<X>)
    requires n < threads && Share(|table|, threads) * n <= |table|
    ensures Share(|table|, threads) * (n + 1) <= |table|
    ensures Concat(RowsOfThreads(table, threads, f)[..n + 1]) ==
      Concat(RowsOfThreads(table, threads, f)[..n]) + FlatMap(Slice(table, threads, n), f)
    ensures FlatMap(table[..Share(|table|, threads) * (n + 1)], f) ==
      FlatMap(table[..Share(|table|, threads) * n], f) + FlatMap(Slice(table, threads, n), f)
  {
    RowsBehind(RowsOfThreads(table, threads, f), n);
    ShareFits(|table|, threads, n);
    var lo, hi := Share(|table|, threads) * n, Share(|table|, threads) * (n + 1);
    assert Slice(table, threads, n) == table[lo..hi];
    FlatMapSplit(table, lo, hi, f);
  }

  lemma RowsBehind<T>(rows: seq<seq<T>>, n: nat)
    requires n < |rows|
    ensures Concat(rows[..n + 1]) == Concat(rows[..n]) + rows[n]
  {
    assert rows[..n + 1] == rows[..n] + [rows[n]];
    ConcatLast(rows[..n], rows[n]);
  }

  lemma FlatMapSplit<X>(table: seq<Tuple>, lo: nat, hi: nat, f: Tuple -> seq<X>)
    requires lo <= hi <= |table|
    ensures FlatMap(table[..hi], f) == FlatMap(table[..lo], f) + FlatMap(table[lo..hi], f)
  {
    assert table[..hi] == table[..lo] + table[lo..hi];
    FlatMapAppend(table[..lo], table[lo..hi], f);
  }

  lemma ConcatLast<T>(parts: seq<seq<T>>, last: seq<T>)
    ensures Concat(parts + [last]) == Concat(parts) + last
  {
    assert (parts + [last])[..|parts|] == parts;
  }

  /** Together the threads store the rows of all tuples but fewer than there are threads, at the end of the table. */
  lemma ThreadsCoverTable<X>(table: seq<Tuple>, threads: nat, f: Tuple -> seq<X>)
    requires threads > 0
    ensures |table| - threads < Share(|table|, threads) * threads <= |table|
    ensures Concat(RowsOfThreads(table, threads, f)) == FlatMap(table[..Share(|table|, threads) * threads], f)
  {
    ShareFits(|table|, threads, threads - 1);
    SlicesCover(table, threads, threads, f);
    var rows := RowsOfThreads(table, threads, f);
    assert rows[..threads] == rows;
  }

  /** The rows that the threads cover: those of the naive query, but for fewer tuples than there are threads. */
  function Covered(table: seq<Tuple>, threads: nat): (covered: seq<Tuple>)
    requires threads > 0
    ensures |table| - threads < |covered| && covered <= table
  {
    ShareFits(|table|, threads, threads - 1);
    table[..Share(|table|, threads) * threads]
  }

  lemma ThreadsHandRows(g: Grouping, table: seq<Tuple>, threads: nat, f: Tuple -> seq<Intermediate>)
    requires threads > 0
    ensures Concat(EntriesOfAll(g, RowsOfThreads(table, threads, f))) == Entries(g, FlatMap(Covered(table, threads), f))
  {
    ThreadsCoverTable(table, threads, f);
    EntriesOfConcat(g, RowsOfThreads(table, threads, f));
  }

  // ---------------------------------------------------------------- when a socket is right

  /** Which threads found rows. */
  function Busy(rows: seq<seq<Intermediate>>): (busy: seq<bool>)
    ensures |busy| == |rows| && forall i :: 0 <= i < |rows| ==> busy[i] == (|rows[i]| > 0)
  {
    seq(|rows|, i requires 0 <= i < |rows| => |rows[i]| > 0)
  }

  /** What the threads with rows group is their rows. */
  lemma BusyGroupRows(g: Grouping, all: seq<Intermediate>, share: nat, rows: seq<seq<Intermediate>>)
    requires forall i :: 0 <= i < |rows| ==> share * i < |all|
    ensures Choose(Parts(g, all, share, rows), Busy(rows), true) == EntriesOfAll(g, rows)
  {
  }

  /** These are the rows of the naive query on the tuples that the threads cover. */
  lemma BusyGroupCovered(g: Grouping, all: seq<Intermediate>, share: nat, table: seq<Tuple>, threads: nat,
                         f: Tuple -> seq<Intermediate>)
    requires threads > 0 && forall i :: 0 <= i < threads ==> share * i < |all|
    ensures var rows := RowsOfThreads(table, threads, f);
      Concat(Choose(Parts(g, all, share, rows), Busy(rows), true)) == Entries(g, FlatMap(Covered(table, threads), f))
  {
    BusyGroupRows(g, all, share, RowsOfThreads(table, threads, f));
    ThreadsHandRows(g, table, threads, f);
  }

  /** The tuples that threads without rows found in their buffers. */
  ghost function FoundInBuffers(g: Grouping, all: seq<Intermediate>, share: nat,
                                rows: seq<seq<Intermediate>>): seq<Entry>
    requires forall i :: 0 <= i < |rows| ==> share * i < |all|
  {
    Concat(Choose(Parts(g, all, share, rows), Busy(rows), false))
  }

  /**
   The result of a socket is right, that is the GROUP BY of the naive query on the tuples that its
   threads cover, exactly when the groups that stayed out and the leftovers that came in are even.
   */
  lemma SocketRightIff(g: Grouping, all: seq<Intermediate>, share: nat, table: seq<Tuple>, threads: nat,
                       f: Tuple -> seq<Intermediate>, groups: seq<seq<Entry>>, result: seq<Entry>)
    requires threads > 0 && forall i :: 0 <= i < threads ==> share * i < |all|
    requires CountedByThread(Parts(g, all, share, RowsOfThreads(table, threads, f)), groups, result)
    ensures Grouped(Entries(g, FlatMap(Covered(table, threads), f)), result) <==>
      CountIsRight(Busy(RowsOfThreads(table, threads, f)), groups, threads)
  {
    var rows := RowsOfThreads(table, threads, f);
    BusyGroupCovered(g, all, share, table, threads, f);
    FirstGroupsRightIff(Parts(g, all, share, rows), Busy(rows), groups, threads, result);
  }

  /**
   If every thread has rows, with positive amounts that do not overflow: when the rows of each fall into one
   group.
   */
  lemma SocketRightIffOneGroupEach(g: Grouping, all: seq<Intermediate>, share: nat, table: seq<Tuple>, threads: nat,
                                   f: Tuple -> seq<Intermediate>, groups: seq<seq<Entry>>, result: seq<Entry>)
    requires threads > 0 && forall i :: 0 <= i < threads ==> share * i < |all|
    requires forall i :: 0 <= i < threads ==> |RowsOfThreads(table, threads, f)[i]| > 0
    requires CountedByThread(Parts(g, all, share, RowsOfThreads(table, threads, f)), groups, result)
    requires AllPositive(EntriesOfAll(g, RowsOfThreads(table, threads, f)))
    requires NoOverflow(Entries(g, FlatMap(Covered(table, threads), f)))
    ensures Grouped(Entries(g, FlatMap(Covered(table, threads), f)), result) <==>
      forall i :: 0 <= i < threads ==> |KeySet(Entries(g, FlatMap(Slice(table, threads, i), f)))| == 1
  {
    var parts := EntriesOfAll(g, RowsOfThreads(table, threads, f));
    assert Parts(g, all, share, RowsOfThreads(table, threads, f)) == parts;
    ThreadsHandRows(g, table, threads, f);
    CountRightIffOneGroupEach(parts, groups, result);
    forall i | 0 <= i < threads ensures parts[i] == Entries(g, FlatMap(Slice(table, threads, i), f)) {
    }
  }

  /** If no thread has rows of two groups: when what the idle threads found in their buffers makes no difference. */
  lemma SocketRightIffHarmless(g: Grouping, all: seq<Intermediate>, share: nat, table: seq<Tuple>, threads: nat,
                               f: Tuple -> seq<Intermediate>, groups: seq<seq<Entry>>, result: seq<Entry>)
    requires threads > 0 && forall i :: 0 <= i < threads ==> share * i < |all|
    requires CountedByThread(Parts(g, all, share, RowsOfThreads(table, threads, f)), groups, result)
    requires forall i :: 0 <= i < threads ==> |KeySet(Entries(g, RowsOfThreads(table, threads, f)[i]))| <= 1
    ensures Grouped(Entries(g, FlatMap(Covered(table, threads), f)), result) <==>
      Harmless(Entries(g, FlatMap(Covered(table, threads), f)),
               FoundInBuffers(g, all, share, RowsOfThreads(table, threads, f)))
  {
    var rows := RowsOfThreads(table, threads, f);
    OneKeyParts(g, all, share, rows);
    BusyGroupCovered(g, all, share, table, threads, f);
    OneTupleEachRightIff(Parts(g, all, share, rows), Busy(rows), groups, result);
  }

  lemma OneKeyHanded(g: Grouping, all: seq<Intermediate>, start: nat, rows: seq<Intermediate>)
    requires start < |all| && |KeySet(Entries(g, rows))| <= 1
    ensures |KeySet(Entries(g, Handed(all, start, rows)))| == 1
  {
    var handed := Entries(g, Handed(all, start, rows));
    KeySetEmpty(handed);
    if |rows| == 0 {
      assert KeySet(handed) == {handed[0].key};
    }
  }

  lemma OneKeyParts(g: Grouping, all: seq<Intermediate>, share: nat, rows: seq<seq<Intermediate>>)
    requires forall i :: 0 <= i < |rows| ==> share * i < |all|
    requires forall i :: 0 <= i < |rows| ==> |KeySet(Entries(g, rows[i]))| <= 1
    ensures forall i :: 0 <= i < |rows| ==> |KeySet(Parts(g, all, share, rows)[i])| == 1
  {
    forall i | 0 <= i < |rows| ensures |KeySet(Parts(g, all, share, rows)[i])| == 1 {
      OneKeyHanded(g, all, share * i, rows[i]);
    }
  }

  /** A query that selects nothing has a result all the same. */
  lemma NothingSelectedIsWrong(g: Grouping, all: seq<Intermediate>, share: nat, table: seq<Tuple>, threads: nat,
                               f: Tuple -> seq<Intermediate>, groups: seq<seq<Entry>>, result: seq<Entry>)
    requires threads > 0 && forall i :: 0 <= i < threads ==> share * i < |all|
    requires CountedByThread(Parts(g, all, share, RowsOfThreads(table, threads, f)), groups, result)
    requires forall i :: 0 <= i < threads ==> RowsOfThreads(table, threads, f)[i] == []
    ensures |result| > 0 && !Grouped(Entries(g, FlatMap(Covered(table, threads), f)), result)
  {
    var rows := RowsOfThreads(table, threads, f);
    BusyGroupCovered(g, all, share, table, threads, f);
    NoRowsIsWrong(Parts(g, all, share, rows), Busy(rows), groups, result);
  }

  /** Counting the stored tuples alone: right when what the idle threads found in their buffers makes no difference. */
  lemma CountOfStoredRightIff(g: Grouping, all: seq<Intermediate>, share: nat, table: seq<Tuple>, threads: nat,
                              f: Tuple -> seq<Intermediate>, groups: seq<seq<Entry>>, result: seq<Entry>)
    requires threads > 0 && forall i :: 0 <= i < threads ==> share * i < |all|
    requires GroupedParts(Parts(g, all, share, RowsOfThreads(table, threads, f)), groups) &&
      Grouped(Concat(groups), result)
    ensures Grouped(Entries(g, FlatMap(Covered(table, threads), f)), result) <==>
      Harmless(Entries(g, FlatMap(Covered(table, threads), f)),
               FoundInBuffers(g, all, share, RowsOfThreads(table, threads, f)))
  {
    var rows := RowsOfThreads(table, threads, f);
    BusyGroupCovered(g, all, share, table, threads, f);
    AllGroupsRightIff(Parts(g, all, share, rows), Busy(rows), groups, result);
  }

  /** Counting the stored tuples, with no group for no tuples: always right, and no group stands for no rows. */
  lemma StoredGroupsAreRight(g: Grouping, table: seq<Tuple>, threads: nat, tables: Tables, q: Query,
                             groups: seq<seq<Entry>>, result: seq<Entry>)
    requires threads > 0
    requires GroupedParts(EntriesOfAll(g, RowsOfThreads(table, threads, RowFunction(tables, q))), groups)
    ensures forall i :: 0 <= i < threads && RowsOfThreads(table, threads, RowFunction(tables, q))[i] == [] ==>
      groups[i] == []
    ensures Grouped(Concat(groups), result) <==>
      Grouped(Entries(g, QueryRows(Covered(table, threads), tables, q)), result)
  {
    var parts := EntriesOfAll(g, RowsOfThreads(table, threads, RowFunction(tables, q)));
    forall i | 0 <= i < threads && RowsOfThreads(table, threads, RowFunction(tables, q))[i] == []
      ensures groups[i] == []
    {
      assert Grouped(parts[i], groups[i]);
      KeySetEmpty(parts[i]);
      KeySetEmpty(groups[i]);
    }
    ThreadsHandRows(g, table, threads, RowFunction(tables, q));
    TwoPhase(parts, groups, result);
  }

  /** Merging the results of two sockets gives the result for both tables together. */
  lemma MergedSocketsAreRight(g: Grouping, rows1: seq<Intermediate>, rows2: seq<Intermediate>,
                              groups1: seq<Intermediate>, groups2: seq<Intermediate>, result: seq<Entry>)
    requires Grouped(Entries(g, rows1), Entries(g, groups1)) && Grouped(Entries(g, rows2), Entries(g, groups2))
    ensures Grouped(Entries(g, groups1 + groups2), result) <==> Grouped(Entries(g, rows1 + rows2), result)
  {
    var parts, groups := [Entries(g, rows1), Entries(g, rows2)], [Entries(g, groups1), Entries(g, groups2)];
    TwoPhase(parts, groups, result);
    ConcatTwo(parts[0], parts[1]);
    ConcatTwo(groups[0], groups[1]);
    EntriesAppend(g, rows1, rows2);
    EntriesAppend(g, groups1, groups2);
  }

  lemma TwoSingles(a: Entry, b: Entry)
    requires Lex.Less(a.key, b.key)
    ensures CountedByThread([[a], [b]], [[a], [b]], [a, b]) && !Grouped([a], [a, b])
  {
    GroupedSingle(a);
    GroupedSingle(b);
    ConcatTwo([a], [b]);
    assert ([a] + [b])[..2] == [a, b];
    TwoAreGrouped(a, b);
    LessIrreflexive(a.key);
    assert [a, b][1].key in KeySet([a, b]) && b.key !in KeySet([a]);
  }

  /** A thread without rows adds the tuple it finds in its buffer: two threads, of which one has the only row. */
  lemma EmptyThreadAddsItsBuffer(g: Grouping, row: Intermediate, found: Intermediate)
    requires Lex.Less(Key(g, row), Key(g, found))
    ensures var parts := Parts(g, [row, found], 1, [[row], []]);
      CountedByThread(parts, parts, Entries(g, [row, found])) && !Grouped(Entries(g, [row]), Entries(g, [row, found]))
  {
    var a, b := EntryOf(g, row), EntryOf(g, found);
    assert Entries(g, [row]) == [a] && Entries(g, [found]) == [b] && Entries(g, [row, found]) == [a, b];
    assert Parts(g, [row, found], 1, [[row], []]) == [[a], [b]];
    TwoSingles(a, b);
  }

  // ---------------------------------------------------------------- from tables to result

  /**
   The tables and buffers of a socket fit each other: whole tuples in every block, and room for the rows of
   a thread.
   */
  ghost predicate Fits(length: nat, table: seq<Tuple>, tables: Tables, threads: nat, access: nat, q: Query) {
    threads > 0 && WholeTuples(access, Share(|table|, threads)) && 0 < length / threads &&
    forall i :: 0 <= i < threads ==> |RowsOfThreads(table, threads, RowFunction(tables, q))[i]| <= length / threads
  }

  /** What the threads of a socket group when they start on the buffer `all`. */
  ghost predicate Counted(g: Grouping, all: seq<Intermediate>, share: nat, table: seq<Tuple>, threads: nat,
                          f: Tuple -> seq<Intermediate>, groups: seq<seq<Entry>>, result: seq<Entry>) {
    threads > 0 && (forall i :: 0 <= i < threads ==> share * i < |all|) &&
    CountedByThread(Parts(g, all, share, RowsOfThreads(table, threads, f)), groups, result)
  }

  /** A query on one socket, from its tables on. */
  method RunSocket(mem: array<Intermediate>, table: seq<Tuple>, tables: Tables, threads: nat, access: nat, q: Query,
                   g: Grouping) returns (tuples: nat, ghost groups: seq<seq<Entry>>)
    requires KeysUnique(tables) && GroupingOf(q) == Some(g) && Fits(mem.Length, table, tables, threads, access, q)
    modifies mem
    ensures 0 < tuples <= threads && tuples <= mem.Length
    ensures Counted(g, old(mem[..]), mem.Length / threads, table, threads, RowFunction(tables, q), groups,
              Entries(g, mem[0..tuples]))
  {
    var hts := new HashTables();
    hts.InsertKeys(tables);
    HashJoinFindsRows(tables, hts.Contents(), q, Storing(q));
    tuples, groups := SocketFunction(mem, table, threads, access, hts.Contents(), q, g, RowFunction(tables, q));
  }

  /** A result in key order is right exactly when it is the answer to the query. */
  lemma RightIffAnswer(q: Query, g: Grouping, lineorders: seq<Tuple>, tables: Tables, rows: seq<Entry>,
                       result: seq<Intermediate>)
    requires GroupingOf(q) == Some(g) && Grouped(rows, Entries(g, result))
    ensures Ordered(Entries(g, result))
    ensures Grouped(Entries(g, QueryRows(lineorders, tables, q)), Entries(g, result)) <==>
      IsAnswer(q, lineorders, tables, result)
  {
    GroupedIffAnswers(q, g, lineorders, tables, result);
  }

  /**
   A query on one socket: the result is the answer to the query over the tuples that the threads cover, and
   with that the GROUP BY of what is stored of the nested-loop join over them, exactly when the count of
   threads is right for the groups that they found.
   */
  method RunQuery(mem: array<Intermediate>, table: seq<Tuple>, tables: Tables, threads: nat, access: nat, q: Query,
                  g: Grouping) returns (tuples: nat, ghost groups: seq<seq<Entry>>)
    requires KeysUnique(tables) && GroupingOf(q) == Some(g) && Fits(mem.Length, table, tables, threads, access, q)
    modifies mem
    ensures 0 < tuples <= threads && tuples <= mem.Length
    ensures Counted(g, old(mem[..]), mem.Length / threads, table, threads, RowFunction(tables, q), groups,
              Entries(g, mem[0..tuples]))
    ensures Grouped(Entries(g, QueryRows(Covered(table, threads), tables, q)), Entries(g, mem[0..tuples])) <==>
      CountIsRight(Busy(RowsOfThreads(table, threads, RowFunction(tables, q))), groups, threads)
    ensures Ordered(Entries(g, mem[0..tuples]))
    ensures IsAnswer(q, Covered(table, threads), tables, mem[0..tuples]) <==>
      CountIsRight(Busy(RowsOfThreads(table, threads, RowFunction(tables, q))), groups, threads)
  {
    ghost var all := mem[..];
    tuples, groups := RunSocket(mem, table, tables, threads, access, q, g);
    SocketRightIff(g, all, |all| / threads, table, threads, RowFunction(tables, q), groups, Entries(g, mem[0..tuples]));
    RightIffAnswer(q, g, Covered(table, threads), tables, Concat(groups)[..threads], mem[0..tuples]);
  }

  /** What came in and what stayed out of both sockets is even. */
  ghost predicate BothRight(busy: seq<bool>, groups: seq<seq<Entry>>, busy': seq<bool>, groups': seq<seq<Entry>>,
                            n: nat)
    requires |busy| == |groups| && |busy'| == |groups'|
  {
    Even(Kept(busy, groups, n) + Kept(busy', groups', n), LeftOver(busy, groups, n) + LeftOver(busy', groups', n),
         Dropped(busy, groups, n) + Dropped(busy', groups', n))
  }

  lemma CoveredOfBoth(g: Grouping, table: seq<Tuple>, table': seq<Tuple>, f: Tuple -> seq<Intermediate>)
    ensures Entries(g, FlatMap(table + table', f)) == Entries(g, FlatMap(table, f)) + Entries(g, FlatMap(table', f))
  {
    FlatMapAppend(table, table', f);
    EntriesAppend(g, FlatMap(table, f), FlatMap(table', f));
  }

  lemma MergedRightIff(g: Grouping, all: seq<Intermediate>, share: nat, table: seq<Tuple>, groups: seq<seq<Entry>>,
                       one: seq<Intermediate>, all': seq<Intermediate>, share': nat, table': seq<Tuple>,
                       groups': seq<seq<Entry>>, two: seq<Intermediate>, threads: nat, f: Tuple -> seq<Intermediate>,
                       result: seq<Entry>)
    requires Counted(g, all, share, table, threads, f, groups, Entries(g, one))
    requires Counted(g, all', share', table', threads, f, groups', Entries(g, two))
    requires Grouped(Entries(g, one + two), result)
    ensures |groups| == |groups'| == threads
    ensures Grouped(Entries(g, FlatMap(Covered(table, threads) + Covered(table', threads), f)), result) <==>
      BothRight(Busy(RowsOfThreads(table, threads, f)), groups, Busy(RowsOfThreads(table', threads, f)), groups',
                threads)
  {
    var rows, rows' := RowsOfThreads(table, threads, f), RowsOfThreads(table', threads, f);
    EntriesAppend(g, one, two);
    CoveredOfBoth(g, Covered(table, threads), Covered(table', threads), f);
    BusyGroupCovered(g, all, share, table, threads, f);
    BusyGroupCovered(g, all', share', table', threads, f);
    TwoSocketsRightIff(Parts(g, all, share, rows), Busy(rows), groups, threads, Entries(g, one),
                       Parts(g, all', share', rows'), Busy(rows'), groups', threads, Entries(g, two), result);
  }

  /**
   worker_function with two sockets: the result is the answer to the query over the tuples that the threads
   of both cover, and with that the GROUP BY of what is stored of the nested-loop join over them, exactly
   when what stayed out and what came in is even.
   */
  method RunQueryOnSockets(mem: array<Intermediate>, table: seq<Tuple>, mem': array<Intermediate>, table': seq<Tuple>,
                           tables: Tables, threads: nat, access: nat, q: Query, g: Grouping)
      returns (tuples: nat, ghost groups: seq<seq<Entry>>, ghost groups': seq<seq<Entry>>)
    requires mem != mem' && 2 * threads <= mem.Length
    requires KeysUnique(tables) && GroupingOf(q) == Some(g)
    requires Fits(mem.Length, table, tables, threads, access, q) &&
      Fits(mem'.Length, table', tables, threads, access, q)
    modifies mem, mem'
    ensures 0 < tuples <= 2 * threads && |groups| == |groups'| == threads
    ensures Grouped(Entries(g, QueryRows(Covered(table, threads) + Covered(table', threads), tables, q)),
                    Entries(g, mem[0..tuples])) <==>
      BothRight(Busy(RowsOfThreads(table, threads, RowFunction(tables, q))), groups,
                Busy(RowsOfThreads(table', threads, RowFunction(tables, q))), groups', threads)
    ensures Ordered(Entries(g, mem[0..tuples]))
    ensures IsAnswer(q, Covered(table, threads) + Covered(table', threads), tables, mem[0..tuples]) <==>
      BothRight(Busy(RowsOfThreads(table, threads, RowFunction(tables, q))), groups,
                Busy(RowsOfThreads(table', threads, RowFunction(tables, q))), groups', threads)
  {
    ghost var all, all' := mem[..], mem'[..];
    var first, second;
    first, groups := RunSocket(mem, table, tables, threads, access, q, g);
    ghost var one := mem[0..first];
    second, groups' := RunSocket(mem', table', tables, threads, access, q, g);
    ghost var two := mem'[0..second];
    assert mem[..first] == one && mem'[..second] == two;
    tuples := MergeSockets(mem, first, mem', second, g);
    MergedRightIff(g, all, |all| / threads, table, groups, one, all', |all'| / threads, table', groups', two, threads,
                   RowFunction(tables, q), Entries(g, mem[0..tuples]));
    RightIffAnswer(q, g, Covered(table, threads) + Covered(table', threads), tables, Entries(g, one + two),
                   mem[0..tuples]);
  }
}

/** A query on one socket: threads scan and group their slices, then their buffers are collected and grouped. */
module Sockets {
  import opened Groups
  import opened Counts
  import opened SsbTuples
  import opened GroupBy
  import opened Collect
  import opened SsbQuery
  import opened SsbJoin
  import opened Scan

  /** The number of tuples in the slice of a thread. */
  function Share(tuples: nat, threads: nat): nat
    requires threads > 0
  {
    tuples / threads
  }

  lemma ShareFits(tuples: nat, threads: nat, thread: nat)
    requires thread < threads
    ensures Share(tuples, threads) * (thread + 1) == Share(tuples, threads) * thread + Share(tuples, threads) <= tuples
    ensures tuples - threads < Share(tuples, threads) * threads <= tuples
  {
    var share := Share(tuples, threads);
    assert share * (thread + 1) <= share * threads;
  }

  /** The tuples that a thread scans. */
  function Slice(table: seq<Tuple>, threads: nat, thread: nat): seq<Tuple>
    requires thread < threads
  {
    ShareFits(|table|, threads, thread);
    table[Share(|table|, threads) * thread..Share(|table|, threads) * (thread + 1)]
  }

  /** What a thread groups: its rows, or the tuple it finds in its buffer when it has none. */
  function Handed(mem: seq<Intermediate>, start: nat, rows: seq<Intermediate>): seq<Intermediate>
    requires start < |mem|
  {
    if |rows| == 0 then [mem[start]] else rows
  }

  lemma GroupedSingle(e: Entry)
    ensures Grouped([e], [e])
  {
    TotalOne(e, e.key);
  }

  /** The buffer at `start` holds the groups of `rows`, and nothing else differs from `all`. */
  ghost predicate LeavesGroups(g: Grouping, all: seq<Intermediate>, now: seq<Intermediate>, start: nat,
                               rows: seq<Intermediate>, stored: nat) {
    start < |all| && start + |rows| <= |all| && 1 <= stored <= (if |rows| == 0 then 1 else |rows|) &&
    SameOutside(all, now, start, start + |rows|) &&
    Grouped(Entries(g, Handed(all, start, rows)), Entries(g, now[start..start + stored]))
  }

  lemma NoRowsLeave(g: Grouping, all: seq<Intermediate>, start: nat)
    requires start < |all|
    ensures LeavesGroups(g, all, all, start, [], 1)
  {
    GroupedSingle(EntryOf(g, all[start]));
    assert all[start..start + 1] == [all[start]];
    assert Entries(g, [all[start]]) == [EntryOf(g, all[start])];
  }

  lemma GroupsLeave(g: Grouping, all: seq<Intermediate>, before: seq<Intermediate>, now: seq<Intermediate>, start: nat,
                    rows: seq<Intermediate>, groups: nat)
    requires |rows| > 0 && start + |rows| <= |all| && 0 < groups <= |rows|
    requires SameOutside(all, before, start, start + |rows|) && before[start..start + |rows|] == rows
    requires SameOutside(before, now, start, start + |rows|)
    requires Grouped(Entries(g, before[start..start + |rows|]), Entries(g, now[start..start + groups]))
    ensures LeavesGroups(g, all, now, start, rows, groups)
  {
  }

  /**
   thread_function for the flights that group, on the tuples from `first` to `last`, which make the
   rows `f`.
   */
  method ScanAndGroup(mem: array<Intermediate>, start: nat, table: seq<Tuple>, first: nat, last: nat, access: nat,
                      hts: Lookups, q: Query, g: Grouping, ghost f: Tuple -> seq<Intermediate>)
      returns (stored: nat, lines: nat)
    requires Finds(f, hts, q, Storing(q))
    requires first <= last <= |table| && access > 0 && (access % 128 == 0 || access >= (last - first) * 128)
    requires start < mem.Length && start + |FlatMap(table[first..last], f)| <= mem.Length
    modifies mem
    ensures lines == last - first
    ensures LeavesGroups(g, old(mem[..]), mem[..], start, FlatMap(table[first..last], f), stored)
  {
    ghost var all, slice, rows := mem[..], table[first..last], FlatMap(table[first..last], f);
    stored, lines := ScanBlocks(mem, start, table, first, last, access, hts, q, Storing(q), f);
    assert slice[..lines] == slice;
    ghost var before := mem[..];
    var groups := Group(mem, start, stored, g);
    if stored == 0 {
      assert mem[..] == all;
      NoRowsLeave(g, all, start);
    } else {
      GroupsLeave(g, all, before, mem[..], start, rows, groups);
    }
    stored := groups;
  }

  // ---------------------------------------------------------------- all threads of a socket

  lemma Successive(share: nat, i: nat, j: nat)
    requires i < j
    ensures share * (i + 1) == share * i + share <= share * j
  {
    assert share * (i + 1) <= share * j;
  }

  /** Thread `j` has left the groups of its rows in its share of the buffer. */
  ghost predicate ThreadDone(g: Grouping, all: seq<Intermediate>, now: seq<Intermediate>, share: nat, j: nat,
                             rows: seq<Intermediate>, info: ThreadInfo) {
    info.start == share * j && 1 <= info.stored <= share && share * j + share <= |all| == |now| &&
    Grouped(Entries(g, Handed(all, share * j, rows)), Entries(g, now[info.start..info.start + info.stored]))
  }

  ghost predicate ThreadsDone(g: Grouping, all: seq<Intermediate>, now: seq<Intermediate>, share: nat,
                              rows: seq<seq<Intermediate>>, infos: seq<ThreadInfo>) {
    |infos| <= |rows| && forall j :: 0 <= j < |infos| ==> ThreadDone(g, all, now, share, j, rows[j], infos[j])
  }

  /** A later thread does not touch the share of an earlier one. */
  lemma ThreadDoneStays(g: Grouping, all: seq<Intermediate>, before: seq<Intermediate>, after: seq<Intermediate>,
                        share: nat, j: nat, rows: seq<Intermediate>, info: ThreadInfo, from: nat, to: nat)
    requires ThreadDone(g, all, before, share, j, rows, info)
    requires share * j + share <= from && SameOutside(before, after, from, to)
    ensures ThreadDone(g, all, after, share, j, rows, info)
  {
    assert after[info.start..info.start + info.stored] == before[info.start..info.start + info.stored];
  }

  lemma ThreadDoneNow(g: Grouping, all: seq<Intermediate>, before: seq<Intermediate>, after: seq<Intermediate>,
                      share: nat, j: nat, rows: seq<Intermediate>, stored: nat)
    requires |rows| <= share && 0 < share && share * j + share <= |all|
    requires SameOutside(all, before, 0, share * j) && LeavesGroups(g, before, after, share * j, rows, stored)
    ensures ThreadDone(g, all, after, share, j, rows, ThreadInfo(share * j, stored))
    ensures SameOutside(all, after, 0, share * j + share)
  {
    assert Handed(before, share * j, rows) == Handed(all, share * j, rows);
  }

  lemma ThreadsDoneNext(g: Grouping, all: seq<Intermediate>, before: seq<Intermediate>, after: seq<Intermediate>,
                        share: nat, rows: seq<seq<Intermediate>>, infos: seq<ThreadInfo>, stored: nat)
    requires ThreadsDone(g, all, before, share, rows, infos) && |infos| < |rows|
    requires SameOutside(all, before, 0, share * |infos|)
    requires |rows[|infos|]| <= share && 0 < share && share * |infos| + share <= |all|
    requires LeavesGroups(g, before, after, share * |infos|, rows[|infos|], stored)
    ensures ThreadsDone(g, all, after, share, rows, infos + [ThreadInfo(share * |infos|, stored)])
    ensures SameOutside(all, after, 0, share * |infos| + share)
  {
    var i := |infos|;
    var infos' := infos + [ThreadInfo(share * i, stored)];
    ThreadDoneNow(g, all, before, after, share, i, rows[i], stored);
    forall j | 0 <= j < i ensures ThreadDone(g, all, after, share, j, rows[j], infos'[j]) {
      Successive(share, j, i);
      ThreadDoneStays(g, all, before, after, share, j, rows[j], infos[j], share * i, share * i + |rows[i]|);
    }
  }

  lemma ThreadsLaidOut(g: Grouping, all: seq<Intermediate>, now: seq<Intermediate>, share: nat,
                       rows: seq<seq<Intermediate>>, infos: seq<ThreadInfo>)
    requires ThreadsDone(g, all, now, share, rows, infos)
    ensures LaidOut(infos, 1, |now|) && AllInside(infos, 1, |now|)
  {
    forall i | 0 <= i < |infos| ensures EndsBeforeNext(infos, i, 1, |now|) && BufferEnd(infos[i], 1) <= |now| {
      assert ThreadDone(g, all, now, share, i, rows[i], infos[i]);
      if i + 1 < |infos| {
        Successive(share, i, i + 1);
        assert ThreadDone(g, all, now, share, i + 1, rows[i + 1], infos[i + 1]);
      }
    }
  }

  // ---------------------------------------------------------------- what collecting and grouping again gives

  function EntriesOfAll(g: Grouping, buffers: seq<seq<Intermediate>>): (groups: seq<seq<Entry>>)
    ensures |groups| == |buffers| && forall i :: 0 <= i < |buffers| ==> groups[i] == Entries(g, buffers[i])
  {
    seq(|buffers|, i requires 0 <= i < |buffers| => Entries(g, buffers[i]))
  }

  lemma EntriesAppend(g: Grouping, a: seq<Intermediate>, b: seq<Intermediate>)
    ensures Entries(g, a + b) == Entries(g, a) + Entries(g, b)
  {
  }

  lemma {:induction false} EntriesOfConcat(g: Grouping, buffers: seq<seq<Intermediate>>)
    ensures Entries(g, Concat(buffers)) == Concat(EntriesOfAll(g, buffers))
  {
    if |buffers| != 0 {
      var n := |buffers| - 1;
      EntriesOfConcat(g, buffers[..n]);
      EntriesAppend(g, Concat(buffers[..n]), buffers[n]);
      assert EntriesOfAll(g, buffers)[..n] == EntriesOfAll(g, buffers[..n]);
    }
  }

  /** The entries that each thread groups. */
  ghost function Parts(g: Grouping, all: seq<Intermediate>, share: nat,
                       rows: seq<seq<Intermediate>>): (parts: seq<seq<Entry>>)
    requires forall i :: 0 <= i < |rows| ==> share * i < |all|
    ensures |parts| == |rows|
    ensures forall i :: 0 <= i < |rows| ==> parts[i] == Entries(g, Handed(all, share * i, rows[i]))
  {
    seq(|rows|, i requires 0 <= i < |rows| => Entries(g, Handed(all, share * i, rows[i])))
  }

  lemma BufferHoldsGroups(g: Grouping, all: seq<Intermediate>, now: seq<Intermediate>, share: nat, i: nat,
                          rows: seq<Intermediate>, info: ThreadInfo)
    requires ThreadDone(g, all, now, share, i, rows, info) && BufferEnd(info, 1) <= |now|
    ensures share * i < |all| && |Buffer(now, info, 1)| == info.stored >= 1
    ensures Grouped(Entries(g, Handed(all, share * i, rows)), Entries(g, Buffer(now, info, 1)))
  {
  }

  lemma SharesInside(g: Grouping, all: seq<Intermediate>, now: seq<Intermediate>, share: nat,
                     rows: seq<seq<Intermediate>>, infos: seq<ThreadInfo>)
    requires |infos| == |rows| && ThreadsDone(g, all, now, share, rows, infos)
    ensures forall i :: 0 <= i < |rows| ==> share * i < |all|
  {
    forall i | 0 <= i < |rows| ensures share * i < |all| {
      assert ThreadDone(g, all, now, share, i, rows[i], infos[i]);
    }
  }

  /** The buffers of the threads hold the groups of the parts. */
  lemma BuffersHoldGroups(g: Grouping, all: seq<Intermediate>, now: seq<Intermediate>, share: nat,
                          rows: seq<seq<Intermediate>>, infos: seq<ThreadInfo>)
    requires |infos| == |rows| && ThreadsDone(g, all, now, share, rows, infos) && AllInside(infos, 1, |now|)
    requires forall i :: 0 <= i < |rows| ==> share * i < |all|
    ensures NonEmpty(Buffers(now, infos, 1)) && NonEmpty(EntriesOfAll(g, Buffers(now, infos, 1)))
    ensures GroupedParts(Parts(g, all, share, rows), EntriesOfAll(g, Buffers(now, infos, 1)))
  {
    var buffers, parts := Buffers(now, infos, 1), Parts(g, all, share, rows);
    var groups := EntriesOfAll(g, buffers);
    forall i | 0 <= i < |rows| ensures Grouped(parts[i], groups[i]) && 1 <= |buffers[i]| {
      BufferHoldsGroups(g, all, now, share, i, rows[i], infos[i]);
    }
  }

  lemma CountOfThreads(g: Grouping, buffers: seq<seq<Intermediate>>)
    requires NonEmpty(buffers)
    ensures |buffers| <= |Concat(buffers)| == |Concat(EntriesOfAll(g, buffers))|
    ensures Entries(g, Concat(buffers)[..|buffers|]) == Concat(EntriesOfAll(g, buffers))[..|buffers|]
  {
    ConcatAtLeast(buffers);
    EntriesOfConcat(g, buffers);
  }

  /**
   collect_socket_intermediates and aggregate: of the collected tuples, the first are grouped, as many as
   there are threads.
   */
  method CollectAndGroup(mem: array<Intermediate>, infos: seq<ThreadInfo>, g: Grouping,
                         ghost collected: seq<Intermediate>)
      returns (tuples: nat)
    requires |infos| > 0 && LaidOut(infos, 1, mem.Length) && AllInside(infos, 1, mem.Length)
    requires Concat(Buffers(mem[..], infos, 1)) == collected && |infos| <= |collected|
    modifies mem
    ensures 0 < tuples <= |infos| && tuples <= mem.Length
    ensures Grouped(Entries(g, collected[..|infos|]), Entries(g, mem[0..tuples]))
  {
    var count := CollectSocketIntermediates(mem, infos, 1);
    assert mem[0..0 + count] == collected[..count];
    tuples := Group(mem, 0, count, g);
  }

  lemma SocketResult(g: Grouping, all: seq<Intermediate>, now: seq<Intermediate>, share: nat,
                     rows: seq<seq<Intermediate>>, infos: seq<ThreadInfo>, result: seq<Entry>)
    requires |infos| == |rows| && ThreadsDone(g, all, now, share, rows, infos) && AllInside(infos, 1, |now|)
    requires forall i :: 0 <= i < |rows| ==> share * i < |all|
    requires |infos| <= |Concat(Buffers(now, infos, 1))|
    requires Grouped(Entries(g, Concat(Buffers(now, infos, 1))[..|infos|]), result)
    ensures CountedByThread(Parts(g, all, share, rows), EntriesOfAll(g, Buffers(now, infos, 1)), result)
  {
    BuffersHoldGroups(g, all, now, share, rows, infos);
    CountOfThreads(g, Buffers(now, infos, 1));
  }
}

# Verified models of the PMem OLAP benchmarks

Dafny models of the parts of this repository whose results depend on more than one function, with proofs of
what those parts promise. `dafny verify dfyconfig.toml` checks everything.

**Random read ring.** `Ring`, `PointerChase` (on `Orbit`, `Bytes`): nodes of a doubly linked ring are heap objects;
swapping nodes, shuffling, numbering the jumps, writing the chain of pointers into byte memory, cutting it into the
stretches of the reader threads. The random numbers are a sequence of arbitrary draws. `Shuffling` says what a round of
the shuffle moves and which orders it can reach. `PointerPair` follows the same code for a region of two slots, where a
swap does not keep the ring.

**Star Schema Benchmark engine.** `SsbTuples` and `SsbQuery` (fields, comparators, filters, keys, hash tables),
`SsbJoin` (hash join against nested loops with the conditions of the queries), `SsbColumns` (GROUP BY columns), `Scan`
(thread, block and tuple loops, for whatever a flight stores), `SsbAnswer` (what a query asks for, on the rows of the
join and their columns alone), `GroupBy` (sort and in-place compaction on an array), `Groups` (the meaning of GROUP BY
SUM), `Collect`, `Counts`, `Leftovers`, `Sockets`, `SocketQuery` (collecting the thread buffers in place, the second
GROUP BY, two sockets, each against the naive query), `LineCounts` (flight 1 from its tables to its counts). Threads of
a socket read the same tables and write disjoint buffers, so the model runs them one after the other.

**MVCC delete plugin.** `Mvcc` is a transition system: transactions, the logical delete loop and the physical delete
loop take atomic steps in any order. Transaction ids, commit ids, Validate, Delete, Insert, commit and rollback follow
the code of the transaction manager and the operators. `MvccMetrics` has the criteria that select chunks; a chunk is
selected before its transaction begins, so the transition system lets any chunk but the last be cleaned. `MvccQueue`
holds what is true in all runs. `MvccInvariant` and `MvccKeeps` hold the invariant of steady runs, in which the physical
delete does not look at the queue while a snapshot older than the cleanup, registered or not, or an unfinished change of
the chunk is around; in calm runs, moreover, no insert is unfinished when its chunk is validated, and calm runs are
steady. `MvccSafety` says what follows for whole runs, `MvccExact` what a transaction reads and when exactly it misses
rows, `MvccReads` how that changes from step to step, `DeleteOperator` the loops of one delete, `MvccFinish` what
commits and rollbacks come to; `MvccRaces` has two runs from a loaded table in which the plugin loses rows, built with
`MvccReach`.

**Benchmark scheduler.** `Scheduler` is a transition system of the scheduling thread and the runs it starts, with
the client counter, the finished counter, the check of the benchmark state and the push of the result as separate
steps; `SchedulerKeeps` holds the invariant, `SchedulerRuns` the theorems; `BenchmarkTimer` the timer and the weights.

**Microbenchmark arithmetic.** `AccessPattern` (which thread touches what), `AccessMask` (masked random offsets),
`Generators` (splitmix64, Lehmer, the shift register on machine words).

**Values.** `LosslessCast` (casts between integers and binary32/binary64 data, IEEE 754-2008 section 3.3) and
`SyntheticStrings` (base-62 strings). `Basics`, `Powers` and `Lex` hold what several modules share.

## Where the code does not do what it is for

- `linked_list_swap_nodes` breaks a ring of two nodes: it keeps the ring if and only if the nodes are equal or there
  are at least three (`Ring.SwapNodes`). For two slots the check of the list fails if and only if the second node is
  drawn first and the first node second; of the other draws those that swap nothing give a cycle, and those that draw
  the second node twice if slot 0, which then is not written, held the address of slot 1 before
  (`PointerPair.FillPair`).
- `collect_socket_intermediates` returns the number of threads, not of tuples, and `group` of no tuples reports one
  group, so that a thread that selects nothing passes on the tuple that its buffer held. The result of a socket is right
  if and only if the groups that stand behind the place of the last thread's number and the tuples passed on that stand
  in front of it are even: they bring the same new keys and have the same sum for every key
  (`SocketQuery.SocketRightIff`). If every thread has rows, with positive amounts that do not overflow, that is when the
  rows of each fall into one group (`SocketQuery.SocketRightIffOneGroupEach`); if no thread has rows of two groups, it
  is when the tuples passed on bring no new key and add up to nothing (`SocketQuery.SocketRightIffHarmless`); a query
  that selects nothing is never right (`SocketQuery.NothingSelectedIsWrong`). Counting the stored tuples instead is right
  under the second of these conditions (`SocketQuery.CountOfStoredRightIff`); only both changes together, the count of
  the stored tuples and no group for no tuples, are always right (`SocketQuery.StoredGroupsAreRight`).
- The merge of two sockets counts right, but errors of the sockets can cancel out: the merged result is right if and
  only if what stayed out and what was passed on in both is even (`SocketQuery.RunQueryOnSockets`).
- The tuples left over by the division among threads are scanned by nobody.
- Flight 1 counts the rows if and only if the lines found in the slots of idle threads add up to nothing
  (`LineCounts.LinesRightIff`), and drops the sums of all rows but the first (`LineCounts.SumRightIff`).
- `new_transaction_context` reads the snapshot before it registers it, and in between the physical delete may remove a
  chunk that the snapshot still shows (`MvccRaces.UnregisteredSnapshotLosesRow`). A removal keeps the view of every
  transaction if and only if none is older than the cleanup while rows were moved, or older than the validation while a
  row was valid, or shows a row committed after the validation (`MvccExact.RemovalKeepsAllViewsIff`).
- The logical delete takes a chunk that is not the last to have no pending inserts. A row that is committed after the
  validation of its chunk and still valid at the cleanup is left out by readers although it is visible, and nothing else
  is (`MvccExact.ReadsCompleteIff`); so an insert unfinished at the validation is lost if and only if it commits and its
  row is not deleted by the cleanup (`MvccExact.UnfinishedInsertFate`; `MvccRaces.UnfinishedInsertIsLost` is such a
  run).
- The rollback of a delete takes the first row that its transaction does not hold for the one at which the execution
  stopped. A row that the transaction had inserted itself is not held any more either; so the rows that the delete
  locked are released if and only if own inserts come last among them (`DeleteOperator.RollbackReleasesIff`,
  `DeleteOperator.RowStaysLocked`).
- `_total_finished_runs` is never reset: a shuffled phase can schedule a run if and only if there is a client and fewer
  runs than `max_runs` came before it (`SchedulerRuns.ShuffledSchedulesIff`); one warm-up run can use up the limit
  (`SchedulerRuns.WarmupUsesUpTheLimit`).
- A warm-up run that has passed the check of `is_done` adds its result after `_warmup` has cleared the results
  (`SchedulerRuns.WarmupKeepsCaught`), and that result can end the benchmark of its item before it starts
  (`SchedulerRuns.WarmupRunTakesTheLimit`).
- The mask of the random writes is made for a device of 70 GiB, whatever is mapped: aligned writes of a power of two of
  bytes stay in the region if and only if it has at least 64 GiB (`AccessMask.AlignedWritesFit`), writes aligned to 64
  bytes if and only if it also has room for what is beyond 64 bytes (`AccessMask.UnalignedWritesFit`). In a device they
  all fit (`AccessMask.DeviceWritesFit`).
- The integer-to-float cast casts a value back that is out of range for the integers just below the maximum
  (`LosslessCast.UndefinedAtTheTop`).

## Model

| member | source | states |
|---|---|---|
| Ring.SwapNodes | microbenchmarks/benchmark/pmem_mapping.c:243-279 | on a ring of two or more nodes, for any two of them: the new order is the old one with both exchanged and is a ring (next one cycle, prev its inverse) if and only if the nodes are equal or there are at least three; no other node and no jump address changes; on two nodes what one swap and a second one leave |
| Ring.LinkedListCreate | microbenchmarks/benchmark/pmem_mapping.c:221-232 | the new nodes form a ring in their order |
| Ring.LinkedListInitJumps | microbenchmarks/benchmark/pmem_mapping.c:234-241 | node k of the ring gets the address of slot k + 1, the last that of slot 0; the ring stays |
| Ring.ShuffleRing | microbenchmarks/benchmark/pmem_mapping.c:371-382 | for three nodes or more, after any draws the ring order is the old one with the pairs exchanged one after the other; for two nodes, which pointers the four kinds of draws leave; jump addresses stay with their nodes |
| Ring.ShuffledOrderSameNodes | microbenchmarks/benchmark/pmem_mapping.c:371-382 | the shuffled order has the same nodes, each once |
| Shuffling.RoundExchangesPlaces | microbenchmarks/benchmark/pmem_mapping.c:371-382 | the shuffle starts from the list; round i puts the node list[i] where list[draw modulo n] was, and that node where the first was, and leaves every other at its place |
| Shuffling.ShuffleReaches | microbenchmarks/benchmark/pmem_mapping.c:371-382 | there are draws that lead to an order if and only if it holds the nodes of the list, each once |
| Ring.LinkedListIsRing | microbenchmarks/benchmark/pmem_mapping.c:288-299 | true exactly when `size` is the least number of next steps that leads back to the start |
| Ring.RingReturns | microbenchmarks/benchmark/pmem_mapping.c:288-299 | in a ring of n nodes that least number is n from every node |
| Ring.CheckRing | microbenchmarks/benchmark/pmem_mapping.c:383-389 | on a ring with its own size the check succeeds |
| PointerChase.WriteSlot | microbenchmarks/benchmark/pmem_mapping.c:397-399 | the slot holds the pointer and filler behind it; no byte outside the slot changes |
| PointerChase.FillMemory | microbenchmarks/benchmark/pmem_mapping.c:390-401 | every slot ends up with the address of the slot that follows it in ring order; bytes behind the slots stay |
| PointerChase.FillWithRandomOffsets | microbenchmarks/benchmark/pmem_mapping.c:346-415 | for three slots or more and every sequence of draws, and for two slots and draws that swap nothing: memory is the cycle of the shuffled slots, both checks succeed and bytes behind the slots stay |
| PointerPair.FillPair | microbenchmarks/benchmark/pmem_mapping.c:346-401 | for two slots and any draws: the check of the list fails if and only if both rounds swap; otherwise memory is one cycle if and only if nothing was swapped, or the second node was drawn twice and slot 0 held the address of slot 1 before; bytes behind the slots stay |
| PointerChase.FilledMemoryIsTour | microbenchmarks/benchmark/pmem_mapping.c:395-401 | following the stored pointers visits every slot once: the pointers are one cycle over all slots |
| PointerChase.ChainReturns | microbenchmarks/benchmark/pmem_mapping.c:404 | from the start of the region the least number of jumps back to it is the number of slots |
| PointerChase.JumpSlotsComplete | microbenchmarks/benchmark/pmem_mapping.c:371-382 | the shuffled jump addresses are a bijection from nodes to slots |
| Shuffling.EverySlotOrderOccurs | microbenchmarks/benchmark/pmem_mapping.c:371-401 | there are draws for which the chain visits the slots in a given order if and only if that order holds every slot once |
| PointerChase.MemoryIsRing | microbenchmarks/benchmark/pmem_mapping.c:301-312 | true exactly when the least return time of the stored pointers is the number of jumps |
| PointerChase.SetThreadStartAddresses | microbenchmarks/benchmark/pmem_mapping.c:314-328 | thread i starts where i times the accesses per thread lead from the start |
| PointerChase.ReadRandom | microbenchmarks/benchmark/read_bw_benchmark.c:24-42 | a reader visits the addresses that following the pointers from its start gives |
| PointerChase.ReadersShareSlots | microbenchmarks/benchmark/read_bw_benchmark.c:24-42 | every thread visits as many different slots as it makes accesses, no slot is visited by two threads, and all others by none |
| PointerChase.UnreadIsRemainder | microbenchmarks/benchmark/pmem_mapping.c:431-432 | as many slots stay unvisited as the division of the count by the threads leaves over, fewer than there are threads |
| PointerChase.MapRandom | microbenchmarks/benchmark/pmem_mapping.c:431-440 | filling and placing together, for the draws of FillWithRandomOffsets: memory is one cycle and every thread starts at its stretch |
| Orbit.LeastReturnIsTour | microbenchmarks/benchmark/pmem_mapping.c:301-312 | when the least return time is the number of cells, following the map from the start lists every cell once |
| Orbit.TourReturns | microbenchmarks/benchmark/pmem_mapping.c:301-312 | on a tour of n cells the least return time is n from every cell |
| Bytes.DecodeEncode | microbenchmarks/benchmark/pmem_mapping.c:398 | a word written to memory byte by byte is read back |
| SsbTuples.ComparatorIsKeyOrder | ssb/handcrafted/ssb.cpp:674-722 | every comparator of flights 2, 3 and 4.1 has the sign of the lexicographic order of the grouping keys |
| SsbTuples.YearDifferenceSign | ssb/handcrafted/ssb.cpp:693 | the 64-bit difference of two years, narrowed to an int, has the sign of their comparison |
| SsbTuples.SameKeyIffSameColumns | ssb/handcrafted/ssb.cpp:674-722 | two stored tuples have the same grouping key if and only if their years are equal and their texts agree up to the first NUL; supplier nations count to ten characters |
| SsbColumns.StoredInSameGroup | ssb/handcrafted/ssb.cpp:1000-1050 | joined rows are stored so that they fall into one group if and only if the GROUP BY columns of the query agree on their tuples |
| SsbColumns.FoundInSameGroup | ssb/handcrafted/ssb.cpp:600-672 | what the probes find for two lineorder tuples has a tuple of every joined dimension and falls into one group if and only if those columns agree |
| SsbAnswer.StoredAreJoinRows | ssb/handcrafted/ssb.cpp:1000-1087 | what any flight stores for a table is the stored form of the rows of the nested-loop join, each once, in order |
| SsbAnswer.ShowsIffSameKey | ssb/handcrafted/ssb.cpp:1015-1043 | a result tuple has the grouping key of what is stored of a row if and only if its year is the d_year number of the row and its texts are, up to a NUL, the brand, nations or cities of the dimension tuples |
| SsbAnswer.TotalIsSumOfGroup | ssb/handcrafted/ssb.cpp:1019-1041 | what is stored under the key of a row adds up, modulo 2^64, to the sum of lo_revenue, for query 4.1 of lo_revenue - lo_supplycost, over the joined rows with the same GROUP BY columns |
| SsbAnswer.GroupedIffAnswers | ssb/handcrafted/ssb.cpp:751-827 | a sequence is the GROUP BY of what is stored if and only if its keys increase, each of its tuples shows the columns of a joined row and carries the sum of that column over the rows with these columns, and each joined row is shown by exactly one tuple |
| GroupBy.Qsort | ssb/handcrafted/ssb.cpp:760 | a permutation in the order of the comparator; nothing outside the range changes |
| GroupBy.Compact | ssb/handcrafted/ssb.cpp:762-772 | the loop leaves, in place, what compacting the rows one after the other gives |
| GroupBy.CompactRowsGroups | ssb/handcrafted/ssb.cpp:762-772 | compacting rows in comparator order groups them and every permutation of them |
| GroupBy.Group | ssb/handcrafted/ssb.cpp:751-827 | for at least one tuple the first slots hold strictly increasing keys, exactly those of the input, each with the sum of its rows modulo 2^64; for none it reports one group and changes nothing |
| Groups.CompactedIsGrouped | ssb/handcrafted/ssb.cpp:762-772 | compacting sorted entries gives their GROUP BY |
| Groups.GroupedUnique | ssb/handcrafted/ssb.cpp:751-827 | a GROUP BY has one result |
| Groups.GroupedPermutation | ssb/handcrafted/ssb.cpp:751-827 | it does not depend on the order of the rows |
| Groups.TwoPhase | ssb/handcrafted/ssb.cpp:1200-1208 | a sequence is the GROUP BY of the groups of all parts if and only if it is the GROUP BY of all rows |
| Groups.RowsLeftOut | ssb/handcrafted/ssb.cpp:904-911 | grouping only some rows is right if and only if the rest brings no new key and adds up to nothing for each key |
| Collect.CollectSocketIntermediates | ssb/handcrafted/ssb.cpp:898-911 | the front of the memory becomes the concatenation of the threads' old buffers, what is behind stays, and the number of threads comes back |
| Counts.CountRightIffOneGroupEach | ssb/handcrafted/ssb.cpp:898-911 | for positive amounts without overflow, grouping as many groups as there are parts is the GROUP BY of all rows if and only if every part has one key |
| Counts.CountRightForOneGroupEach | ssb/handcrafted/ssb.cpp:898-911 | whatever the amounts, it is right when every part has one key |
| Counts.SecondThreadLost | ssb/handcrafted/ssb.cpp:908 | two threads with the same two groups: the result of the count of threads is not the GROUP BY of all rows |
| Leftovers.FirstGroupsRightIff | ssb/handcrafted/ssb.cpp:898-911 | grouping the first n groups of all threads is the GROUP BY of the rows of the threads that have some if and only if the groups behind n and what idle threads have in front of n bring the same new keys and have the same sum for every key |
| Leftovers.AllGroupsRightIff | ssb/handcrafted/ssb.cpp:898-911 | grouping all of them is, if and only if what idle threads have brings no new key and adds up to nothing |
| SsbQuery.FastAtoi | ssb/handcrafted/ssb.cpp:126-133 | the decimal value of the longest run of digits at the front |
| SsbQuery.AtoiReadsDecimal | ssb/handcrafted/ssb.cpp:126-133 | a number written in decimal, by its remainders modulo ten, in front of anything but a digit is read back |
| SsbQuery.StartsWithIsField | ssb/handcrafted/ssb.cpp:352 | strncmp with a text is zero exactly when the field holds its characters |
| SsbJoin.FiltersAreConditions | ssb/handcrafted/ssb.cpp:291-586 | the filters of every query are its conditions: years, quantities, brands, and the characters of regions, nations, cities and categories |
| SsbQuery.GetKey | ssb/handcrafted/ssb.cpp:588-594 | the number that the first `length` bytes of the field make |
| SsbQuery.KeysEqual | ssb/handcrafted/ssb.cpp:588-594 | two keys are equal if and only if their first `length` bytes are |
| SsbQuery.InsertTable | ssb/handcrafted/ssb.cpp:1314-1318 | the table maps the key of every tuple to the tuple, and nothing else |
| SsbQuery.HashTables.InsertKeys | ssb/handcrafted/ssb.cpp:1311-1340 | so do all four tables |
| SsbJoin.LookupPicks | ssb/handcrafted/ssb.cpp:509-514 | a probe and its filter find the only tuple that a loop over the dimension table would find, or none |
| SsbJoin.HashJoinIsNestedLoops | ssb/handcrafted/ssb.cpp:600-672 | for unique dimension keys, the probes with early exits give exactly what four nested loops with all conditions give: one row or none |
| Scan.TupleOffsets | ssb/handcrafted/ssb.cpp:1058-1087 | the block and tuple loops visit each tuple of a thread's slice once and no other address if and only if the access size is a multiple of 128 or covers the slice |
| Scan.HashJoinFindsRows | ssb/handcrafted/ssb.cpp:1080-1085 | what a tuple adds to the buffer is the stored form, of any flight, of its rows in the nested-loop join |
| Scan.QueryRowsAppend | ssb/handcrafted/ssb.cpp:1058-1064 | the rows of slices behind each other are those of the table |
| Scan.ScanBlocks | ssb/handcrafted/ssb.cpp:1075-1087 | the buffer holds the rows of the slice in the order of its tuples; every tuple is counted once; nothing else changes |
| Sockets.ScanAndGroup | ssb/handcrafted/ssb.cpp:1055-1101 | a thread leaves the GROUP BY of the rows of its slice, or the tuple it finds when it has none |
| Sockets.CollectAndGroup | ssb/handcrafted/ssb.cpp:1200-1208 | of the collected tuples the first are grouped, as many as there are threads |
| SocketQuery.RunThreads | ssb/handcrafted/ssb.cpp:1145-1196 | every thread leaves the groups of its slice in its share of the buffer, untouched by the later ones |
| SocketQuery.SocketFunction | ssb/handcrafted/ssb.cpp:1112-1211 | the result groups the first of the threads' groups, as many as there are threads |
| SocketQuery.ThreadsCoverTable | ssb/handcrafted/ssb.cpp:1058-1064 | the threads' rows in thread order are those of the table without its last tuples, fewer than there are threads |
| SocketQuery.SocketRightIff | ssb/handcrafted/ssb.cpp:1112-1211 | for any rows, old buffers and amounts: the result of a socket is the GROUP BY of the covered rows if and only if the groups that stay out and the old tuples that come in are even |
| SocketQuery.SocketRightIffOneGroupEach | ssb/handcrafted/ssb.cpp:1200-1208 | if every thread has rows, with positive amounts without overflow: if and only if every thread's rows fall into one group |
| SocketQuery.SocketRightIffHarmless | ssb/handcrafted/ssb.cpp:1092 | if no thread has rows of two groups: if and only if the old tuples in the buffers of idle threads bring no new key and add up to nothing |
| SocketQuery.NothingSelectedIsWrong | ssb/handcrafted/ssb.cpp:1092 | a query that selects nothing has a result, which is wrong |
| SocketQuery.CountOfStoredRightIff | ssb/handcrafted/ssb.cpp:904-911 | deviation: grouping all stored tuples is right if and only if the old tuples in the buffers of idle threads bring no new key and add up to nothing |
| SocketQuery.StoredGroupsAreRight | ssb/handcrafted/ssb.cpp:904-911 | deviation: with no group for no tuples besides, it is the GROUP BY of the naive query on the covered tuples, always |
| SocketQuery.EmptyThreadAddsItsBuffer | ssb/handcrafted/ssb.cpp:1092 | an instance: two threads, one row, and an old tuple of a greater key in the buffer of the other thread |
| SocketQuery.MergeSockets | ssb/handcrafted/ssb.cpp:1284-1293 | the first socket's buffer ends up with the GROUP BY of both sockets' groups |
| SocketQuery.MergedSocketsAreRight | ssb/handcrafted/ssb.cpp:1284-1293 | that is the GROUP BY of the rows of both |
| SocketQuery.RunQuery | ssb/handcrafted/ssb.cpp:1104-1211 | from tables to result on one socket, in key order: the result is the answer to the query over the covered tuples (one tuple for each combination of GROUP BY columns among the rows of the nested-loop join, showing these columns and the sum of lo_revenue or lo_revenue - lo_supplycost modulo 2^64) if and only if the count of threads is right for the groups that they left |
| SocketQuery.RunQueryOnSockets | ssb/handcrafted/ssb.cpp:1252-1293 | from tables to result on two sockets, in key order: the merged result is the answer to the query over the tuples covered by both if and only if what stayed out and what came in is even over both |
| LineCounts.AggregateLines | ssb/handcrafted/ssb.cpp:873-884 | the first tuple gets the lines of all, keeps its own sum, and nothing else changes; for no tuples it keeps its lines too |
| LineCounts.CountSocket | ssb/handcrafted/ssb.cpp:1112-1211 | scanning, aggregating, collecting and aggregating again leave the lines of all slots and the sum of the first |
| LineCounts.ThreadLinesAddUp | ssb/handcrafted/ssb.cpp:898-911 | the lines of the slots add up to those of all rows and those found in the slots of idle threads |
| LineCounts.SumIsRightForOneRow | ssb/handcrafted/ssb.cpp:1008-1013 | for positive products of price and discount without overflow: if and only if there is one joined row |
| LineCounts.RunCount | ssb/handcrafted/ssb.cpp:1104-1211 | flight 1 on one socket, from its tables on: what is left is the lines of all slots and the sum of the first, the slots holding the counts of the join's rows or what lay there |
| LineCounts.LinesRightIff | ssb/handcrafted/ssb.cpp:898-911 | that number of lines is the number of rows of the nested-loop join over the covered tuples if and only if the lines found in the slots of idle threads add up to nothing |
| LineCounts.SumRightIff | ssb/handcrafted/ssb.cpp:873-884 | what is left is the sum of lo_extendedprice * lo_discount over those rows if and only if the rows behind the first add up to nothing, or, if the first thread has none, if its slot held the sum before |
| LineCounts.MergeCounts | ssb/handcrafted/ssb.cpp:1284-1293 | merging two sockets adds up their lines and keeps the sum of the first |
| LineCounts.BothLinesRightIff | ssb/handcrafted/ssb.cpp:1252-1293 | the merged number of lines is that of the rows of both if and only if the lines found in the slots of idle threads of both add up to nothing |
| MvccSafety.InitialInv | ssb/hyrise-dram/src/lib/concurrency/transaction_manager.cpp:10-13 | a table just loaded satisfies the invariant |
| MvccMetrics.IsWorthCleaning | ssb/hyrise-dram/src/plugins/mvcc_delete_plugin.cpp:51-74 | the two criteria: at least 60 % of the rows invalid, and the last of their end commit ids 100 commits ago |
| MvccKeeps.KeepInv | ssb/hyrise-dram/src/plugins/mvcc_delete_plugin.cpp:35-182 | every step of the loops and the transactions keeps the invariant, if the queue is not checked while a transaction, registered or not, is older than the cleanup or a row of the chunk is not finally invalid |
| MvccSafety.RunKeepsInv | ssb/hyrise-dram/src/plugins/mvcc_delete_plugin.cpp:35-182 | so does every such run, in any interleaving |
| MvccSafety.CalmRunIsSteady | ssb/hyrise-dram/src/plugins/mvcc_delete_plugin.cpp:103-128 | a run is such a run if no insert into a chunk is unfinished when it is validated and no older snapshot is unregistered when the queue is checked: the check for older snapshots is then enough |
| MvccReach.ReachedInv | ssb/hyrise-dram/src/plugins/mvcc_delete_plugin.cpp:35-182 | every state to which such a run leads from a loaded table satisfies the invariant, and every insert into a cleaned chunk was finished when it was validated |
| MvccSafety.StepKeepsView | ssb/hyrise-dram/src/lib/operators/validate.cpp:30-39 | no step changes the rows that a published snapshot shows, but the removal of a chunk cleaned after it |
| MvccSafety.RepeatableRead | ssb/hyrise-dram/src/plugins/mvcc_delete_plugin.cpp:103-128 | over whole runs a transaction's snapshot shows the same rows as long as it exists |
| MvccExact.ReadsCompleteIff | ssb/hyrise-dram/src/lib/operators/get_table.cpp:107-126 | leaving out cleaned chunks leaves every snapshot its rows if and only if no row of such a chunk was committed after its validation and is valid at its cleanup |
| MvccExact.ReadIsView | ssb/hyrise-dram/src/lib/operators/validate.cpp:30-39 | in calm runs a transaction that may read, a logical delete too, reads exactly what its snapshot shows without the rows that it has deleted, together with all rows that it has inserted |
| MvccExact.ReadIsReadAt | ssb/hyrise-dram/src/lib/operators/get_table.cpp:107-126 | in steady runs too, with the rows of its snapshot less those of the chunks that it leaves out |
| MvccReads.ReadsRepeat | ssb/hyrise-dram/src/lib/operators/validate.cpp:30-39 | over whole calm runs a transaction that takes no step of its own reads the same rows, whatever others and both loops do |
| MvccReads.InsertIsRead | ssb/hyrise-dram/src/lib/operators/insert.cpp:97-199 | after an insert the transaction reads what it read before, and the new row with its data |
| MvccReads.DeleteIsRead | ssb/hyrise-dram/src/lib/operators/delete.cpp:45-88 | a row that a transaction locks for deletion was among those it read, and it reads the others from then on |
| MvccReads.CommitIsRead | ssb/hyrise-dram/src/lib/concurrency/transaction_manager.cpp:30-33 | a commit whose turn it is can be carried through, and a transaction that begins then reads the last snapshot without the rows that were deleted and with those that were inserted |
| MvccReads.FirstDeleteWins | ssb/hyrise-dram/src/lib/operators/delete.cpp:65-84 | a row that another running transaction has locked, or that a published commit has deleted, cannot be locked by an active transaction, whatever its snapshot: it runs into the conflict, so that no update is lost |
| MvccReads.FreeRowCanBeLocked | ssb/hyrise-dram/src/lib/operators/delete.cpp:65-84 | a row that an active transaction reads, has not inserted and nobody holds can be locked, and is no conflict |
| MvccFinish.CommitPublishes | ssb/hyrise-dram/src/lib/operators/insert.cpp:219-233 | in any state of a steady run, a commit whose turn it is can be carried through to its end; then its commit id shows the rows of the last one without those that the transaction deleted and with those that it inserted, and every older snapshot what it showed |
| MvccFinish.RollbackUndoes | ssb/hyrise-dram/src/lib/operators/insert.cpp:235-274 | in any state of a steady run, a rollback can be carried through to its end; then every row that the transaction locked is free, and every snapshot shows what it showed |
| MvccFinish.EndsWithoutLocks | ssb/hyrise-dram/src/lib/concurrency/transaction_context.cpp:26-56 | a transaction that ends without a commit leaves no row behind that it holds |
| MvccFinish.ChecksLowestSnapshot | ssb/hyrise-dram/src/plugins/mvcc_delete_plugin.cpp:113-124 | an idle physical delete takes the chunk at the front of the queue if and only if its cleanup is not above the lowest snapshot of the registered transactions, or there is none |
| DeleteOperator.Delete.OnExecute | ssb/hyrise-dram/src/lib/operators/delete.cpp:23-89 | the rows of the list in front of the first that another transaction holds are locked, own inserts among them hidden; nothing else changes, and it succeeds if and only if there is no such row |
| DeleteOperator.Delete.OnRollbackRecords | ssb/hyrise-dram/src/lib/operators/delete.cpp:109-131 | the rows in front of the first that the transaction does not hold are free; nothing else changes |
| DeleteOperator.Delete.OnCommitRecords | ssb/hyrise-dram/src/lib/operators/delete.cpp:91-107 | every row of the list ends with the commit id, no other |
| DeleteOperator.RollbackReleasesIff | ssb/hyrise-dram/src/lib/operators/delete.cpp:109-131 | executing and rolling back leaves every row free that was free if and only if among the rows gone through those inserted by the transaction itself come last |
| DeleteOperator.RollbackLeavesOthers | ssb/hyrise-dram/src/lib/operators/delete.cpp:109-131 | rows that another transaction holds, and rows outside the list, are as they were |
| DeleteOperator.RowStaysLocked | ssb/hyrise-dram/src/lib/operators/delete.cpp:109-131 | an instance: a free row behind an own insert stays locked after the rollback |
| MvccExact.UnfinishedInsertFate | ssb/hyrise-dram/src/plugins/mvcc_delete_plugin.cpp:44-48 | an insert unfinished when its chunk is validated is left out in that way if and only if it has been committed and its row not deleted by the cleanup |
| MvccSafety.LogicalDeleteRelocates | ssb/hyrise-dram/src/plugins/mvcc_delete_plugin.cpp:139-168 | at the commit of a logical delete every valid row of the chunk is shown at its new place instead of the old, all others where they were |
| MvccSafety.LogicalDeleteKeepsContents | ssb/hyrise-dram/src/plugins/mvcc_delete_plugin.cpp:139-171 | the multiset of visible rows is the same at the new commit id and unchanged at every older snapshot |
| MvccSafety.RemovedChunkIsInvisible | ssb/hyrise-dram/src/plugins/mvcc_delete_plugin.cpp:113-124 | a removed chunk holds no row visible to a transaction that exists or begins later |
| MvccExact.RemovalKeepsViewIff | ssb/hyrise-dram/src/plugins/mvcc_delete_plugin.cpp:113-124 | a removal takes rows from a snapshot if and only if it is older than the validation and a row was valid then, or older than the cleanup and rows were moved, or shows a row committed after the validation |
| MvccExact.RemovalKeepsAllViewsIff | ssb/hyrise-dram/src/plugins/mvcc_delete_plugin.cpp:113-124 | all transactions keep their views if and only if that is true of none; for finished inserts the check covers the registered ones |
| MvccExact.RemovalIsSafeIff | ssb/hyrise-dram/src/plugins/mvcc_delete_plugin.cpp:118-120 | if none is older than the validation: if and only if no rows were moved or no transaction, registered or not, is older than the cleanup |
| MvccSafety.RemovedChunkIsInvalid | ssb/hyrise-dram/src/lib/storage/table.cpp:216-225 | all rows of a removed chunk are invalid, as remove_chunk asserts |
| MvccQueue.KeepOrderly | ssb/hyrise-dram/src/plugins/mvcc_delete_plugin.cpp:35-124 | every step of every run keeps the queue, the log of queued chunks, the chunk being cleaned and the chunk being removed in order |
| MvccQueue.AssertionsHold | ssb/hyrise-dram/src/plugins/mvcc_delete_plugin.cpp:107-113 | in all runs from a loaded table: the chunk of a logical delete exists and is not the last, it is stamped for the first time, it is stamped when it is queued, and the chunk that is removed exists and is stamped |
| MvccQueue.EnqueuedOnce | ssb/hyrise-dram/src/plugins/mvcc_delete_plugin.cpp:46-48 | in all runs from a loaded table no chunk enters the queue twice, and every queued chunk exists and carries a cleanup commit id |
| MvccSafety.StepsFindTheirRows | ssb/hyrise-dram/src/lib/operators/delete.cpp:91-131 | the rows that commit and rollback write are still there |
| MvccRaces.UnregisteredSnapshotLosesRow | ssb/hyrise-dram/src/lib/concurrency/transaction_manager.cpp:30-33 | a calm run from a loaded table to a state in which a snapshot is taken; then a chunk is removed and the transaction registered: the row it should see is gone |
| MvccRaces.UnfinishedInsertIsLost | ssb/hyrise-dram/src/plugins/mvcc_delete_plugin.cpp:44-48 | a calm run from a loaded table to a state in which a chunk is validated with a pending row; then the row is committed and the next reader does not find it |
| SchedulerKeeps.KeepInv | ssb/hyrise-dram/src/benchmarklib/benchmark_runner.cpp:208-326 | every step of the scheduling thread and of the runs keeps the invariant |
| SchedulerRuns.ClientsNeverExceeded | ssb/hyrise-dram/src/benchmarklib/benchmark_runner.cpp:212-225 | in every reachable state the client counter is between 0 and the clients, and no more runs execute |
| SchedulerRuns.AssertionsHold | ssb/hyrise-dram/src/benchmarklib/benchmark_runner.cpp:204-238 | no client runs when a loop starts or after the final wait, a running benchmark state is never assigned, and after the wait every run was counted as finished |
| SchedulerRuns.EveryRunFinishedOnce | ssb/hyrise-dram/src/benchmarklib/benchmark_runner.cpp:296-326 | after the final wait every scheduled run has left once and finished once |
| SchedulerRuns.ShuffledLimit | ssb/hyrise-dram/src/benchmarklib/benchmark_runner.cpp:208-225 | a shuffled phase schedules at most max_runs, the clients and the most runs of the phase caught between the two counters, less the runs before it, and nothing if those reach max_runs |
| SchedulerRuns.PhaseSchedulesIff | ssb/hyrise-dram/src/benchmarklib/benchmark_runner.cpp:208-225 | any phase can schedule a run, in some interleaving, if and only if there is a client and the limit is not reached by what is there when the phase starts |
| SchedulerRuns.ShuffledSchedulesIff | ssb/hyrise-dram/src/benchmarklib/benchmark_runner.cpp:208-225 | for a shuffled phase with a limit: if and only if there is a client and fewer than max_runs runs came before it |
| SchedulerRuns.OrderedSchedulesIff | ssb/hyrise-dram/src/benchmarklib/benchmark_runner.cpp:256-266 | for an ordered phase with a limit: if and only if there is a client and fewer than max_runs runs of its item have a result that is kept when it starts |
| SchedulerRuns.UnlimitedSchedulesIff | ssb/hyrise-dram/src/benchmarklib/benchmark_runner.cpp:256-266 | for a warm-up, and for any phase without a limit: if and only if there is a client |
| SchedulerRuns.EndedBeforeTime | ssb/hyrise-dram/src/benchmarklib/benchmark_runner.cpp:208-266 | in every reachable state in which a loop has ended while the benchmark still runs there is a limit, and at least max_runs runs of its item have a kept result, or, for a shuffled loop, at least max_runs runs are finished; no warm-up ends so |
| SchedulerRuns.WarmupUsesUpTheLimit | ssb/hyrise-dram/src/benchmarklib/benchmark_runner.cpp:208-238 | a reachable state in which a shuffled phase behind a warm-up has ended without having scheduled a run |
| SchedulerRuns.OrderedLimit | ssb/hyrise-dram/src/benchmarklib/benchmark_runner.cpp:256-266 | an ordered phase schedules at most max_runs, the clients and the most runs of the phase that have left and not yet recorded their result |
| SchedulerRuns.RoundsAreFair | ssb/hyrise-dram/src/benchmarklib/benchmark_runner.cpp:214-224 | every item was picked in all rounds but the last as often as its weight says, and at most as often in that |
| SchedulerRuns.RunsAreAsPicked | ssb/hyrise-dram/src/benchmarklib/benchmark_runner.cpp:214-224 | in every reachable state, run k of a shuffled phase is of the item that was picked for it |
| SchedulerRuns.RunsAreOfItem | ssb/hyrise-dram/src/benchmarklib/benchmark_runner.cpp:256-266 | in every reachable state, all runs of a warm-up or of an ordered phase are of its item |
| SchedulerRuns.WarmupKeepsCaught | ssb/hyrise-dram/src/benchmarklib/benchmark_runner.cpp:328-358 | after a warm-up the kept results of its item are exactly those of the runs that had passed the check when the results were cleared |
| SchedulerRuns.WarmupRunTakesTheLimit | ssb/hyrise-dram/src/benchmarklib/benchmark_runner.cpp:347-352 | a reachable state in which an ordered phase has ended without a run of its own, with the result of a warm-up run |
| BenchmarkTimer.BenchmarkState.KeepRunning | ssb/hyrise-dram/src/benchmarklib/benchmark_state.cpp:20-41 | starts, times and ends the timer; the answer is yes exactly while it is not over |
| BenchmarkTimer.BenchmarkState.Assign | ssb/hyrise-dram/src/benchmarklib/benchmark_state.cpp:10-18 | copies every field of a benchmark that is not running |
| BenchmarkTimer.RunsForItsDuration | ssb/hyrise-dram/src/benchmarklib/benchmark_state.cpp:20-41 | over any clock that does not run backwards a fresh timer keeps a loop running exactly while less than the duration has passed since the first call, and shows the time up to the first reading that reaches the duration, or else up to the last |
| BenchmarkTimer.WeightedItems | ssb/hyrise-dram/src/benchmarklib/benchmark_runner.cpp:189-196 | the list holds every item as often as its weight says |
| AccessPattern.MinAccessInfo.Visit | microbenchmarks/benchmark/read_bw_benchmark.c:350-365 | the visits go from the start in steps of the stride as long as an access fits before the end |
| AccessPattern.RunThread | microbenchmarks/benchmark/write_bw_benchmark.c:16-34 | setting up and looping together; the minimum of the two ends is always the thread's own |
| AccessPattern.LogChunk | microbenchmarks/include/bw_benchmark.h:10-13 | in log mode a thread visits chunk j if and only if it fits and j modulo the threads is the thread |
| AccessPattern.LogPartition | microbenchmarks/include/bw_benchmark.h:10-13 | no chunk is visited twice, by one thread or by two |
| AccessPattern.DisjointApart | microbenchmarks/include/bw_benchmark.h:14-19 | in disjoint mode different visits share no byte |
| AccessPattern.ShareIsGreatest | microbenchmarks/include/bw_benchmark.h:14-19 | the share of a thread is the greatest multiple of 64 bytes of which the region holds one for every thread |
| AccessPattern.DisjointVisit | microbenchmarks/include/bw_benchmark.h:14-19 | a visit stays in its thread's share, and the share in the region |
| AccessPattern.DisjointCount | microbenchmarks/include/bw_benchmark.h:14-19 | a thread visits as often as the distance fits into its share |
| AccessPattern.TouchedIffVisited | microbenchmarks/benchmark/read_bw_benchmark.c:350-365 | a byte is touched if and only if it is among the bytes of a visit of some thread |
| AccessPattern.DisjointUntouched | microbenchmarks/include/bw_benchmark.h:14-19 | in disjoint mode all threads together touch bytes of the region only, as many as their visits times the distance, and leave at most threads * (distance + 63) - 1 of its bytes untouched |
| AccessMask.GetAccessMask | microbenchmarks/benchmark/write_bw_benchmark.c:367-386 | the bits from the logarithm of the alignment up to that of 70 GiB |
| AccessMask.OffsetsAreMultiples | microbenchmarks/benchmark/write_bw_benchmark.c:399-407 | masked offsets are exactly the multiples of 2^floor(log2 a) below 2^36 |
| AccessMask.WritesFit | microbenchmarks/benchmark/write_bw_benchmark.c:399-407 | all writes stay in the mapped region if and only if the one at the mask itself does |
| AccessMask.AlignedWritesFit | microbenchmarks/benchmark/pmem_mapping.c:24-53 | aligned writes of a power of two of bytes stay in the mapped region if and only if it has at least 64 GiB |
| AccessMask.UnalignedWritesFit | microbenchmarks/benchmark/write_bw_benchmark.c:377-379 | writes aligned to 64 bytes do if and only if it has 64 GiB less 64 bytes and room for one write |
| AccessMask.DeviceWritesFit | microbenchmarks/include/common.h:25 | in a device of 70 GiB all writes fit whose size is an int |
| Generators.SplitMix64Injective | microbenchmarks/benchmark/write_bw_benchmark.c:350-355 | different words have different values |
| Generators.LehmerAddsConstant | microbenchmarks/benchmark/write_bw_benchmark.c:361-363 | the step of the next state is that of the state and the constant, from zero on: the multiplication |
| Generators.LehmerBijective | microbenchmarks/benchmark/write_bw_benchmark.c:361-363 | the step is a bijection on 128-bit states and keeps the lowest bit |
| Generators.LehmerSeedInjective | microbenchmarks/benchmark/write_bw_benchmark.c:357-360 | different seeds give different states |
| Generators.LehmerSeedOfZero | microbenchmarks/benchmark/write_bw_benchmark.c:357-360 | an instance: the seed 0 gives the splitmix64 value of 0 in the upper half and that of 1 in the lower |
| Generators.LehmerStreamsApart | microbenchmarks/benchmark/write_bw_benchmark.c:398-403 | after any number of steps two states agree if and only if they were equal, with the same lowest bit, and zero only from zero |
| Generators.LfsrBijective | microbenchmarks/benchmark/write_bw_benchmark.c:838-856 | the register's step is a bijection and reaches zero only from zero |
| Generators.LfsrNeverZero | microbenchmarks/benchmark/write_bw_benchmark.c:838-856 | over whole runs a register reaches zero if and only if it started there, and two registers agree only if they started equal |
| Generators.LfsrMovesBits | microbenchmarks/benchmark/write_bw_benchmark.c:838-856 | every bit moves down by one place; the lowest one comes in at the top and is added at the places 62, 60 and 59 |
| Generators.LfsrRecurrence | microbenchmarks/benchmark/write_bw_benchmark.c:838-856 | over whole runs the bits that leave the register satisfy o(n + 64) = o(n) + o(n + 1) + o(n + 3) + o(n + 4) modulo 2 |
| LosslessCast.BoundaryIsNeighbour | ssb/hyrise-dram/src/lib/lossless_cast.hpp:141-153 | no number of the format that is an integer lies between a boundary constant and the least integer of the target |
| LosslessCast.BoundaryIsDatum | ssb/hyrise-dram/src/lib/lossless_cast.hpp:141-153 | each boundary constant is itself a number of the format below the range |
| LosslessCast.FloatToIntLossless | ssb/hyrise-dram/src/lib/lossless_cast.hpp:131-156 | the cast returns v if and only if v is in range and the datum is the number v: its significand is v * 2^-exponent for negative exponents, and v is significand * 2^exponent for the others |
| LosslessCast.RoundIffRepresentable | ssb/hyrise-dram/src/lib/lossless_cast.hpp:117 | rounding to p bits, ties to even, leaves exactly the numbers of at most p significant bits |
| LosslessCast.RoundIsNearest | ssb/hyrise-dram/src/lib/lossless_cast.hpp:117 | no number of p bits is nearer than the rounded one, and of two at the same distance the one with an even significand is taken |
| LosslessCast.IntToFloatLossless | ssb/hyrise-dram/src/lib/lossless_cast.hpp:116-124 | the cast returns a value if and only if the format represents the integer, and then the integer |
| LosslessCast.CastRoundTrip | ssb/hyrise-dram/src/lib/lossless_cast.hpp:113-156 | casting there and back gives the integer |
| LosslessCast.ExactCastsBack | ssb/hyrise-dram/src/lib/lossless_cast.hpp:113-156 | for every integer for which the cast returns a value there is a datum of the format that is this number, and it is cast back to it |
| LosslessCast.UndefinedAtTheTop | ssb/hyrise-dram/src/lib/lossless_cast.hpp:118 | the value cast back is out of range exactly for the integers from half the last unit below 2^n on |
| SyntheticStrings.GenerateValue | ssb/hyrise-dram/src/benchmarklib/synthetic_table_generator.hpp:120-148 | the padded base-62 string for numbers below 62^6, none for others |
| SyntheticStrings.OrderPreserved | ssb/hyrise-dram/src/benchmarklib/synthetic_table_generator.hpp:120-147 | a < b if and only if the string of a comes before that of b; different numbers have different strings |
| SyntheticStrings.GeneratedReadsBack | ssb/hyrise-dram/src/benchmarklib/synthetic_table_generator.hpp:120-147 | a string starts with four spaces and a decoder gives back its number |
| SyntheticStrings.DigitCountIsLogarithm | ssb/hyrise-dram/src/benchmarklib/synthetic_table_generator.hpp:140 | the digit count is one more than the integer logarithm to base 62 |

## Left out

- Mapping and opening memory, NUMA, pinning, fences, cache flushes, timing, printing: foreign calls.
- The vector assembly: an access touches `access_distance` bytes. Fallback and stride loops, and builds with UNROLL_JUMPS.
- PointerPair.FillPair: the check of memory, when slot 0 was not written and leads outside both slots.
- `linked_list_create` for one node, whose `prev` points in front of the list; filling in write mode returns at once.
- Wrap-around of products of `int` fields in the access arithmetic and of 32-bit commit and transaction ids.
- GroupBy.Qsort: the library's algorithm is not part of this model; it stands here with one possible body.
- GroupBy.Group: queries 4.2 and 4.3, whose loop subtracts the supply cost at every call and skips the first group's.
- `memcpy` between overlapping buffers is a copy cell by cell from the front, and a thread's share starts at a whole tuple.
- The order of the printed result (`yearasc_revdesc_comp`), the worker query queue, and the racy statistics counter.
- LineCounts.StoreLine: overflow of the int product of price and discount.
- SsbQuery.FastAtoi: overflow of an int; tuples hold no run of digits that exceeds it, and a number ends with its tuple.
- SsbQuery.HashTables.InsertKeys: the hash table is a map and dimension keys are unique, what a second insert of a key does is not modelled.
- The MVCC transition system has one table; reading a chunk in Validate is one step, and deleting a row that the same transaction inserted is left out (`DeleteOperator` has it, for one operator), as is the entire-chunk shortcut of Validate.
- DeleteOperator.Delete.OnExecute: a position list holds a row once; its accesses to the rows are not interleaved with those of others.
- MvccKeeps.KeepInv: commit ids do not run out.
- The MVCC loops and the scheduler are modelled on values: what counts there is the order of atomic actions, not the shape of the loops.
- SyntheticStrings.GenerateValue: the digit count is the exact integer logarithm, where the code divides floating-point logarithms.
- LosslessCast.FloatToIntLossless: the sign of zero. Casts between binary64 and binary32, strings and NULL.
- The copies of these files under `ssb/hyrise-pmem`, configuration, table loading and plots.

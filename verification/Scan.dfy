/** The scan of the lineorder table: which tuples a thread visits and which rows it stores. */
module Scan {
  import opened Basics
  import opened Bytes
  import opened Groups
  import opened SsbTuples
  import opened GroupBy
  import opened SsbQuery
  import opened SsbJoin

  // ---------------------------------------------------------------- the addresses

  /** The byte offsets of `n` tuples behind each other. */
  function Aligned(start: nat, n: nat): (offsets: seq<nat>)
    ensures |offsets| == n && forall i :: 0 <= i < n ==> offsets[i] == start + 128 * i
  {
    seq<nat>(n, i requires 0 <= i < n => start + 128 * i)
  }

  /** The number of tuples that start in `size` bytes. */
  function Starts(size: nat): (n: nat)
    ensures 128 * n - 128 < size <= 128 * n
  {
    (size + 127) / 128
  }

  lemma AlignedAppend(start: nat, n: nat, m: nat)
    ensures Aligned(start, n) + Aligned(start + 128 * n, m) == Aligned(start, n + m)
  {
  }

  /** The tuple loop over a block: the offsets in steps of the tuple size. */
  method BlockOffsets(pblock: nat, blockSize: nat) returns (visits: seq<nat>)
    ensures visits == Aligned(pblock, Starts(blockSize))
  {
    visits := [];
    var tuple := pblock;
    while tuple < pblock + blockSize
      invariant tuple == pblock + 128 * |visits| && |visits| <= Starts(blockSize) && visits == Aligned(pblock, |visits|)
    {
      visits := visits + [tuple];
      tuple := tuple + 128;
    }
  }

  /** The bytes from `start` to `pblock` are whole blocks, each of them visited tuple by tuple. */
  ghost predicate VisitedTo(visits: seq<nat>, start: nat, n: nat, access: nat, pblock: nat) {
    start <= pblock &&
    if access % 128 == 0 || access >= n * 128 then
      if pblock < start + n * 128 then (pblock - start) % 128 == 0 && visits == Aligned(start, (pblock - start) / 128)
      else visits == Aligned(start, n)
    else
      pblock == start || (pblock == start + access) || (pblock > start + access && start + access in visits)
  }

  /** A block adds its offsets. */
  lemma VisitedNext(visits: seq<nat>, start: nat, n: nat, access: nat, pblock: nat, size: nat)
    requires access > 0 && start <= pblock < start + n * 128 && VisitedTo(visits, start, n, access, pblock)
    requires pblock == start ==> visits == []
    requires size == if access < start + n * 128 - pblock then access else start + n * 128 - pblock
    ensures VisitedTo(visits + Aligned(pblock, Starts(size)), start, n, access, pblock + access)
  {
    if access % 128 == 0 || access >= n * 128 {
      AlignedAppend(start, (pblock - start) / 128, Starts(size));
    } else if pblock == start + access {
      assert Aligned(pblock, Starts(size))[0] == pblock;
    }
  }

  /**
   The offsets that the block loop and the tuple loop visit in a block of `n` tuples.  They are those
   of its tuples when the access size is a multiple of the tuple size or covers the block at once;
   for any other access size the second round starts inside a tuple.
   */
  method TupleOffsets(start: nat, n: nat, access: nat) returns (visits: seq<nat>)
    requires access > 0
    ensures access % 128 == 0 || access >= n * 128 <==> visits == Aligned(start, n)
    ensures !(access % 128 == 0 || access >= n * 128) ==>
      start + access in visits && start + access !in Aligned(start, n)
  {
    var pblock, end := start, start + n * 128;
    visits := [];
    while pblock < end
      invariant start <= pblock && (pblock == start ==> visits == [])
      invariant VisitedTo(visits, start, n, access, pblock)
    {
      var blockSize := if access < end - pblock then access else end - pblock;
      var block := BlockOffsets(pblock, blockSize);
      VisitedNext(visits, start, n, access, pblock, blockSize);
      visits := visits + block;
      pblock := pblock + access;
    }
  }

  // ---------------------------------------------------------------- the rows

  /** The bytes of a field; of an empty place, which no flight stores, zeros. */
  function TextAt(t: Option<Tuple>, at: nat, n: nat): (text: seq<Byte>)
    requires at + n <= TUPLE_SIZE
    ensures |text| == n
  {
    if t.Some? then t.value[at..at + n] else seq(n, i => 0)
  }

  function YearOf(t: Option<Tuple>): Year {
    if t.Some? then IntAt(t.value, DAT_YEAR_IND) else 0
  }

  /** store_intermediate of the flights that group: the tuple that goes into the buffer. */
  function StoreIntermediate(jt: JoinTuple, q: Query): Intermediate {
    var revenue := IntAt(jt.lineorder, LO_REVENUE_IND);
    var noText15, noText10 := TextAt(None, 0, 15), TextAt(None, 0, 10);
    if q.flight == 2 then
      Intermediate(YearOf(jt.date), TextAt(jt.part, PART_BRAND_IND, 9), noText15, noText15, noText10, noText10, revenue)
    else if q.flight == 3 then
      Intermediate(YearOf(jt.date), TextAt(None, 0, 9), TextAt(jt.customer, CUST_NATION_IND, 15),
                   TextAt(jt.supplier, SUP_NATION_IND, 15), TextAt(jt.customer, CUST_CITY_IND, 10),
                   TextAt(jt.supplier, SUP_CITY_IND, 10), revenue)
    else
      Intermediate(YearOf(jt.date), TextAt(jt.part, PART_BRAND_IND, 9), TextAt(jt.customer, CUST_NATION_IND, 15),
                   TextAt(jt.supplier, SUP_NATION_IND, 15), noText10, TextAt(jt.supplier, SUP_CITY_IND, 10),
                   (revenue - IntAt(jt.lineorder, LO_SUPPCOST_IND)) % WORD)
  }

  function Storing(q: Query): JoinTuple -> Intermediate {
    (jt: JoinTuple) => StoreIntermediate(jt, q)
  }

  function OneRow<X>(store: JoinTuple -> X): JoinTuple -> seq<X> {
    (jt: JoinTuple) => [store(jt)]
  }

  /** The stored form of the rows that a lineorder tuple takes part in. */
  function RowsOf<X>(l: Tuple, tables: Tables, q: Query, store: JoinTuple -> X): seq<X> {
    FlatMap(NestedLoops(l, tables, q), OneRow(store))
  }

  function StoredRows<X>(tables: Tables, q: Query, store: JoinTuple -> X): Tuple -> seq<X> {
    (l: Tuple) => RowsOf(l, tables, q, store)
  }

  function RowFunction(tables: Tables, q: Query): Tuple -> seq<Intermediate> {
    StoredRows(tables, q, Storing(q))
  }

  /** The naive query up to its GROUP BY: the rows of the nested-loop join over `lineorders`, in order. */
  function QueryRows(lineorders: seq<Tuple>, tables: Tables, q: Query): seq<Intermediate> {
    FlatMap(lineorders, RowFunction(tables, q))
  }

  /** The rows of tables behind each other are the rows of each, behind each other. */
  lemma QueryRowsAppend(a: seq<Tuple>, b: seq<Tuple>, tables: Tables, q: Query)
    ensures QueryRows(a + b, tables, q) == QueryRows(a, tables, q) + QueryRows(b, tables, q)
  {
    FlatMapAppend(a, b, RowFunction(tables, q));
  }

  /** A tuple that the hash join matches makes one row, any other none. */
  lemma RowsOfHashJoin<X>(l: Tuple, tables: Tables, hts: Lookups, q: Query, store: JoinTuple -> X)
    requires IndexesAll(hts, tables) && KeysUnique(tables)
    ensures RowsOf(l, tables, q, store) == HashRow(l, hts, q, store)
  {
    HashJoinIsNestedLoops(l, tables, hts, q);
    var jt := JoinAndFilter(l, hts, q);
    if jt.Some? {
      FlatMapSingle(jt.value, OneRow(store));
    }
  }

  function HashRow<X>(l: Tuple, hts: Lookups, q: Query, store: JoinTuple -> X): seq<X> {
    match JoinAndFilter(l, hts, q) case None => [] case Some(jt) => [store(jt)]
  }

  /** For every tuple, the hash join finds the rows `f`. */
  ghost predicate Finds<X>(f: Tuple -> seq<X>, hts: Lookups, q: Query, store: JoinTuple -> X) {
    forall l: Tuple {:trigger HashRow(l, hts, q, store)} :: f(l) == HashRow(l, hts, q, store)
  }

  /** The rows of the nested-loop join are those, whatever a flight stores of them. */
  lemma HashJoinFindsRows<X>(tables: Tables, hts: Lookups, q: Query, store: JoinTuple -> X)
    requires IndexesAll(hts, tables) && KeysUnique(tables)
    ensures Finds(StoredRows(tables, q, store), hts, q, store)
  {
    forall l: Tuple ensures RowsOf(l, tables, q, store) == HashRow(l, hts, q, store) {
      RowsOfHashJoin(l, tables, hts, q, store);
    }
  }

  // ---------------------------------------------------------------- the loops

  /**
   The rows `f` of the first `lines` tuples of a slice are stored from `start`, and nothing else differs
   from `all`.
   */
  ghost predicate Scanned<X>(all: seq<X>, now: seq<X>, start: nat, stored: nat, slice: seq<Tuple>,
                          lines: nat, f: Tuple -> seq<X>) {
    lines <= |slice| && stored == |FlatMap(slice[..lines], f)| && start + stored <= |all| &&
    SameOutside(all, now, start, start + stored) && now[start..start + stored] == FlatMap(slice[..lines], f)
  }

  lemma FlatMapPrefix<T, U>(s: seq<T>, i: nat, f: T -> seq<U>)
    requires i < |s|
    ensures FlatMap(s[..i + 1], f) == FlatMap(s[..i], f) + f(s[i])
    ensures |FlatMap(s[..i + 1], f)| <= |FlatMap(s, f)|
  {
    assert s[..i + 1] == s[..i] + [s[i]];
    FlatMapAppend(s[..i], [s[i]], f);
    FlatMapSingle(s[i], f);
    assert s == s[..i + 1] + s[i + 1..];
    FlatMapAppend(s[..i + 1], s[i + 1..], f);
  }

  lemma ScannedNone<X>(all: seq<X>, now: seq<X>, start: nat, stored: nat, slice: seq<Tuple>, lines: nat,
                    f: Tuple -> seq<X>)
    requires Scanned(all, now, start, stored, slice, lines, f) && lines < |slice| && f(slice[lines]) == []
    ensures Scanned(all, now, start, stored, slice, lines + 1, f)
  {
    FlatMapPrefix(slice, lines, f);
  }

  lemma ScannedOne<X>(all: seq<X>, now: seq<X>, start: nat, stored: nat, slice: seq<Tuple>, lines: nat,
                   f: Tuple -> seq<X>, x: X)
    requires Scanned(all, now, start, stored, slice, lines, f) && lines < |slice| && f(slice[lines]) == [x]
    requires start + |FlatMap(slice, f)| <= |all|
    ensures start + stored < |now| && Scanned(all, now[start + stored := x], start, stored + 1, slice, lines + 1, f)
  {
    FlatMapPrefix(slice, lines, f);
    var now' := now[start + stored := x];
    assert now'[start..start + stored + 1] == now[start..start + stored] + [x];
  }

  /** The join of a tuple and what is stored of it. */
  method Probe<X>(l: Tuple, hts: Lookups, q: Query, store: JoinTuple -> X, ghost f: Tuple -> seq<X>)
      returns (row: Option<X>)
    requires Finds(f, hts, q, store)
    ensures f(l) == match row case None => [] case Some(x) => [x]
  {
    assert f(l) == HashRow(l, hts, q, store);
    var jt := JoinAndFilter(l, hts, q);
    return if jt == None then None else Some(store(jt.value));
  }

  /** The tuple loop over the `count` tuples of a block. */
  method ScanBlock<X>(mem: array<X>, start: nat, stored: nat, table: seq<Tuple>, pblock: nat, blockSize: nat,
                   hts: Lookups, q: Query, store: JoinTuple -> X, ghost f: Tuple -> seq<X>, ghost all: seq<X>,
                   ghost slice: seq<Tuple>, ghost first: nat, ghost lines: nat, ghost count: nat)
      returns (stored': nat, visited: nat)
    requires Finds(f, hts, q, store)
    requires first + |slice| <= |table| && slice == table[first..first + |slice|]
    requires pblock == 128 * (first + lines) && blockSize == 128 * count && lines + count <= |slice|
    requires Scanned(all, mem[..], start, stored, slice, lines, f)
    requires start + |FlatMap(slice, f)| <= mem.Length
    modifies mem
    ensures visited == count && Scanned(all, mem[..], start, stored', slice, lines + count, f)
  {
    var tuple := pblock;
    stored', visited := stored, 0;
    while tuple < pblock + blockSize
      invariant tuple == pblock + 128 * visited && visited <= count
      invariant Scanned(all, mem[..], start, stored', slice, lines + visited, f)
    {
      var l := table[tuple / 128];
      assert l == slice[lines + visited];
      var row := Probe(l, hts, q, store, f);
      if row == None {
        ScannedNone(all, mem[..], start, stored', slice, lines + visited, f);
      } else {
        ghost var before := mem[..];
        ScannedOne(all, before, start, stored', slice, lines + visited, f, row.value);
        mem[start + stored'] := row.value;
        assert mem[..] == before[start + stored' := row.value];
        stored' := stored' + 1;
      }
      visited := visited + 1;
      tuple := tuple + 128;
    }
  }

  /**
   The block loop over the tuples from `first` to `last`: in their order, their rows go into the
   buffer, whatever the number of tuples in a block.
   */
  method ScanBlocks<X>(mem: array<X>, start: nat, table: seq<Tuple>, first: nat, last: nat, access: nat,
                    hts: Lookups, q: Query, store: JoinTuple -> X, ghost f: Tuple -> seq<X>)
      returns (stored: nat, lines: nat)
    requires Finds(f, hts, q, store)
    requires first <= last <= |table|
    requires access > 0 && (access % 128 == 0 || access >= (last - first) * 128)
    requires start + |FlatMap(table[first..last], f)| <= mem.Length
    modifies mem
    ensures lines == last - first
    ensures Scanned(old(mem[..]), mem[..], start, stored, table[first..last], lines, f)
  {
    ghost var all, slice := mem[..], table[first..last];
    var pblock, end := first * 128, last * 128;
    stored, lines := 0, 0;
    while pblock < end
      invariant pblock == 128 * (first + lines) || (pblock >= end && lines == last - first)
      invariant Scanned(all, mem[..], start, stored, slice, lines, f)
    {
      var blockSize := if access < end - pblock then access else end - pblock;
      ghost var count := if access < end - pblock then access / 128 else last - first - lines;
      var visited;
      stored, visited := ScanBlock(mem, start, stored, table, pblock, blockSize, hts, q, store, f, all, slice, first,
                                   lines, count);
      lines := lines + visited;
      pblock := pblock + access;
    }
  }
}

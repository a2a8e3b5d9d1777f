/** What the queries ask for, stated on the rows of the join and their columns, and what is stored of these rows. */
module SsbAnswer {
  import opened Basics
  import opened Groups
  import opened SsbTuples
  import opened GroupBy
  import opened SsbQuery
  import opened SsbJoin
  import opened Scan
  import opened SsbColumns

  // ---------------------------------------------------------------- the rows of the join

  function Joining(tables: Tables, q: Query): Tuple -> seq<JoinTuple> {
    (l: Tuple) => NestedLoops(l, tables, q)
  }

  /** FROM and WHERE: the rows of the nested-loop join over `lineorders`. */
  function JoinRows(lineorders: seq<Tuple>, tables: Tables, q: Query): seq<JoinTuple> {
    FlatMap(lineorders, Joining(tables, q))
  }

  lemma {:induction false} OneRowEach<X>(rows: seq<JoinTuple>, store: JoinTuple -> X)
    ensures FlatMap(rows, OneRow(store)) == Image(store, rows)
  {
    if |rows| != 0 {
      OneRowEach(rows[..|rows| - 1], store);
    }
  }

  lemma ImageAppend<T, U>(f: T -> U, a: seq<T>, b: seq<T>)
    ensures Image(f, a + b) == Image(f, a) + Image(f, b)
  {
  }

  /** What the flights store are the rows of the join, each once and in their order. */
  lemma {:induction false} StoredAreJoinRows<X>(lineorders: seq<Tuple>, tables: Tables, q: Query, store: JoinTuple -> X)
    ensures FlatMap(lineorders, StoredRows(tables, q, store)) == Image(store, JoinRows(lineorders, tables, q))
  {
    if |lineorders| != 0 {
      var init, last := lineorders[..|lineorders| - 1], lineorders[|lineorders| - 1];
      StoredAreJoinRows(init, tables, q, store);
      OneRowEach(NestedLoops(last, tables, q), store);
      ImageAppend(store, JoinRows(init, tables, q), NestedLoops(last, tables, q));
    }
  }

  // ---------------------------------------------------------------- rows have the tuples that their flight joins

  ghost predicate All<T(!new)>(s: seq<T>, p: T -> bool) {
    forall x :: x in s ==> p(x)
  }

  lemma {:induction false} FlatMapAll<T(!new), U(!new)>(s: seq<T>, f: T -> seq<U>, p: U -> bool)
    requires forall x :: x in s ==> All(f(x), p)
    ensures All(FlatMap(s, f), p)
  {
    if |s| != 0 {
      FlatMapAll(s[..|s| - 1], f, p);
    }
  }

  /** The row is made of the lineorder tuple and of the dimension tuples that its flight joins. */
  function JoinedOn(q: Query): JoinTuple -> bool {
    (jt: JoinTuple) => Joined(jt, q)
  }

  /** A place of a loop is filled exactly when the flight joins its dimension. */
  predicate Fills(joined: bool, t: Option<Tuple>) {
    t.Some? <==> joined
  }

  lemma FromFills(joined: bool, table: seq<Tuple>)
    ensures forall t :: t in From(joined, table) ==> Fills(joined, t)
  {
  }

  lemma CustomersJoined(l: Tuple, d: Option<Tuple>, s: Option<Tuple>, p: Option<Tuple>, tables: Tables, q: Query)
    requires Fills(JoinsDate(q), d) && Fills(JoinsSupplier(q), s) && Fills(JoinsPart(q), p)
    ensures All(LoopCustomers(l, d, s, p, tables, q), JoinedOn(q))
  {
    FromFills(JoinsCustomer(q), tables.customer);
    FlatMapAll(From(JoinsCustomer(q), tables.customer), c => Select(JoinTuple(l, d, s, p, c), q), JoinedOn(q));
  }

  lemma PartsJoined(l: Tuple, d: Option<Tuple>, s: Option<Tuple>, tables: Tables, q: Query)
    requires Fills(JoinsDate(q), d) && Fills(JoinsSupplier(q), s)
    ensures All(LoopParts(l, d, s, tables, q), JoinedOn(q))
  {
    FromFills(JoinsPart(q), tables.part);
    forall p | Fills(JoinsPart(q), p) ensures All(LoopCustomers(l, d, s, p, tables, q), JoinedOn(q)) {
      CustomersJoined(l, d, s, p, tables, q);
    }
    FlatMapAll(From(JoinsPart(q), tables.part), p => LoopCustomers(l, d, s, p, tables, q), JoinedOn(q));
  }

  lemma SuppliersJoined(l: Tuple, d: Option<Tuple>, tables: Tables, q: Query)
    requires Fills(JoinsDate(q), d)
    ensures All(LoopSuppliers(l, d, tables, q), JoinedOn(q))
  {
    FromFills(JoinsSupplier(q), tables.supplier);
    forall s | Fills(JoinsSupplier(q), s) ensures All(LoopParts(l, d, s, tables, q), JoinedOn(q)) {
      PartsJoined(l, d, s, tables, q);
    }
    FlatMapAll(From(JoinsSupplier(q), tables.supplier), s => LoopParts(l, d, s, tables, q), JoinedOn(q));
  }

  lemma NestedLoopsJoined(l: Tuple, tables: Tables, q: Query)
    ensures All(NestedLoops(l, tables, q), JoinedOn(q))
  {
    FromFills(JoinsDate(q), tables.date);
    forall d | Fills(JoinsDate(q), d) ensures All(LoopSuppliers(l, d, tables, q), JoinedOn(q)) {
      SuppliersJoined(l, d, tables, q);
    }
    FlatMapAll(From(JoinsDate(q), tables.date), d => LoopSuppliers(l, d, tables, q), JoinedOn(q));
  }

  ghost predicate AllJoined(rows: seq<JoinTuple>, q: Query) {
    forall i :: 0 <= i < |rows| ==> Joined(rows[i], q)
  }

  lemma JoinRowsJoined(lineorders: seq<Tuple>, tables: Tables, q: Query)
    ensures AllJoined(JoinRows(lineorders, tables, q), q)
  {
    forall l | l in lineorders ensures All(NestedLoops(l, tables, q), JoinedOn(q)) {
      NestedLoopsJoined(l, tables, q);
    }
    FlatMapAll(lineorders, Joining(tables, q), JoinedOn(q));
    var rows := JoinRows(lineorders, tables, q);
    forall i | 0 <= i < |rows| ensures Joined(rows[i], q) {
      assert rows[i] in rows && JoinedOn(q)(rows[i]);
    }
  }

  // ---------------------------------------------------------------- SELECT ... GROUP BY

  /** What a row adds to the sum of its group: lo_revenue, or lo_revenue - lo_supplycost. */
  function RowAmount(q: Query, jt: JoinTuple): int {
    if q == Query(4, 1) then IntAt(jt.lineorder, LO_REVENUE_IND) - IntAt(jt.lineorder, LO_SUPPCOST_IND)
    else IntAt(jt.lineorder, LO_REVENUE_IND)
  }

  /** What the row `x` adds to the group of the row `y`. */
  function AmountIn(q: Query, x: JoinTuple, y: JoinTuple): int
    requires GroupingOf(q).Some? && Joined(x, q) && Joined(y, q)
  {
    if SameGroup(q, x, y) then RowAmount(q, x) else 0
  }

  ghost function SumOf(amounts: seq<int>): int {
    if |amounts| == 0 then 0 else SumOf(amounts[..|amounts| - 1]) + amounts[|amounts| - 1]
  }

  /** The sum over the rows whose GROUP BY columns agree with those of `y`. */
  ghost function SumOfGroup(q: Query, rows: seq<JoinTuple>, y: JoinTuple): int
    requires GroupingOf(q).Some? && AllJoined(rows, q) && Joined(y, q)
  {
    SumOf(seq(|rows|, i requires 0 <= i < |rows| => AmountIn(q, rows[i], y)))
  }

  /** The tuple shows the GROUP BY columns of the row: the year, and the texts up to a NUL. */
  predicate Shows(q: Query, r: Intermediate, jt: JoinTuple)
    requires GroupingOf(q).Some? && Joined(jt, q)
  {
    r.year == IntAt(jt.date.value, DAT_YEAR_IND) &&
    if q.flight == 2 then SameText(r.brand, jt.part.value[PART_BRAND_IND..PART_BRAND_IND + 9], 9)
    else if q == Query(3, 1) then
      SameText(r.custNation, jt.customer.value[CUST_NATION_IND..CUST_NATION_IND + 15], 15) &&
      SameText(r.supNation, jt.supplier.value[SUP_NATION_IND..SUP_NATION_IND + 10], 10)
    else if q.flight == 3 then
      SameText(r.custCity, jt.customer.value[CUST_CITY_IND..CUST_CITY_IND + 10], 10) &&
      SameText(r.supCity, jt.supplier.value[SUP_CITY_IND..SUP_CITY_IND + 10], 10)
    else SameText(r.custNation, jt.customer.value[CUST_NATION_IND..CUST_NATION_IND + 15], 15)
  }

  /** The tuple shows a row, and carries the sum of its group in 64-bit arithmetic. */
  ghost predicate IsGroup(q: Query, rows: seq<JoinTuple>, r: Intermediate, j: int)
    requires GroupingOf(q).Some? && AllJoined(rows, q) && 0 <= j < |rows|
  {
    Shows(q, r, rows[j]) && r.amount == SumOfGroup(q, rows, rows[j]) % WORD
  }

  ghost predicate HasGroup(q: Query, rows: seq<JoinTuple>, r: Intermediate)
    requires GroupingOf(q).Some? && AllJoined(rows, q)
  {
    exists j :: 0 <= j < |rows| && IsGroup(q, rows, r, j)
  }

  /** Exactly one of the tuples shows the row. */
  ghost predicate ShownOnce(q: Query, result: seq<Intermediate>, jt: JoinTuple)
    requires GroupingOf(q).Some? && Joined(jt, q)
  {
    exists i :: 0 <= i < |result| && Shows(q, result[i], jt) &&
      forall k :: 0 <= k < |result| && k != i ==> !Shows(q, result[k], jt)
  }

  /**
   The answer of a query that groups: every result tuple shows the columns of some joined row and carries
   the sum over all rows with the same columns, and every joined row is shown by exactly one tuple.
   */
  ghost predicate Answers(q: Query, rows: seq<JoinTuple>, result: seq<Intermediate>)
    requires GroupingOf(q).Some? && AllJoined(rows, q)
  {
    (forall i :: 0 <= i < |result| ==> HasGroup(q, rows, result[i])) &&
    forall j :: 0 <= j < |rows| ==> ShownOnce(q, result, rows[j])
  }

  /** The answer to a query over the tuples `lineorders`. */
  ghost predicate IsAnswer(q: Query, lineorders: seq<Tuple>, tables: Tables, result: seq<Intermediate>)
    requires GroupingOf(q).Some?
  {
    JoinRowsJoined(lineorders, tables, q);
    Answers(q, JoinRows(lineorders, tables, q), result)
  }

  // ---------------------------------------------------------------- the answer and the stored tuples

  function StoredEntry(g: Grouping, q: Query, jt: JoinTuple): Entry {
    EntryOf(g, StoreIntermediate(jt, q))
  }

  /** A tuple shows a row when it has the key of what is stored of the row. */
  lemma ShowsIffSameKey(q: Query, g: Grouping, r: Intermediate, jt: JoinTuple)
    requires GroupingOf(q) == Some(g) && Joined(jt, q)
    ensures Shows(q, r, jt) <==> Key(g, r) == StoredEntry(g, q, jt).key
  {
    var stored := StoreIntermediate(jt, q);
    SameKeyIffSameColumns(g, r, stored);
    if q == Query(3, 1) {
      NationPrefix(jt.supplier.value);
      SameTextPrefix(r.supNation, stored.supNation, r.supNation[..10], stored.supNation[..10], 10);
      SameTextPrefix(r.supNation, stored.supNation[..10], r.supNation[..10], stored.supNation[..10], 10);
    }
  }

  lemma StoredAmount(q: Query, g: Grouping, jt: JoinTuple)
    requires GroupingOf(q) == Some(g)
    ensures StoredEntry(g, q, jt).amount % WORD == RowAmount(q, jt) % WORD
  {
  }

  lemma SumsCongruent(a: int, b: int, a': int, b': int)
    requires a % WORD == a' % WORD && b % WORD == b' % WORD
    ensures (a + b) % WORD == (a' + b') % WORD
  {
  }

  function StoredEntries(g: Grouping, q: Query, rows: seq<JoinTuple>): (entries: seq<Entry>)
    ensures |entries| == |rows| && forall j :: 0 <= j < |rows| ==> entries[j] == StoredEntry(g, q, rows[j])
  {
    Entries(g, Image(Storing(q), rows))
  }

  lemma AmountInGroup(q: Query, g: Grouping, x: JoinTuple, y: JoinTuple)
    requires GroupingOf(q) == Some(g) && Joined(x, q) && Joined(y, q)
    ensures AmountFor(StoredEntry(g, q, x), StoredEntry(g, q, y).key) % WORD == AmountIn(q, x, y) % WORD
  {
    StoredInSameGroup(q, g, x, y);
    StoredAmount(q, g, x);
  }

  lemma {:induction false} TotalIsSum(entries: seq<Entry>, k: seq<int>, amounts: seq<int>)
    requires |entries| == |amounts|
    requires forall i :: 0 <= i < |entries| ==> AmountFor(entries[i], k) % WORD == amounts[i] % WORD
    ensures Total(entries, k) % WORD == SumOf(amounts) % WORD
  {
    if |entries| != 0 {
      var n := |entries| - 1;
      TotalIsSum(entries[..n], k, amounts[..n]);
      SumsCongruent(Total(entries[..n], k), AmountFor(entries[n], k), SumOf(amounts[..n]), amounts[n]);
    }
  }

  /** The total of a key among the stored rows is the sum of its group. */
  lemma TotalIsSumOfGroup(q: Query, g: Grouping, rows: seq<JoinTuple>, y: JoinTuple, k: seq<int>)
    requires GroupingOf(q) == Some(g) && AllJoined(rows, q) && Joined(y, q) && k == StoredEntry(g, q, y).key
    ensures Total(StoredEntries(g, q, rows), k) % WORD == SumOfGroup(q, rows, y) % WORD
  {
    var amounts := seq(|rows|, i requires 0 <= i < |rows| => AmountIn(q, rows[i], y));
    forall i | 0 <= i < |rows| ensures AmountFor(StoredEntries(g, q, rows)[i], k) % WORD == amounts[i] % WORD {
      AmountInGroup(q, g, rows[i], y);
    }
    TotalIsSum(StoredEntries(g, q, rows), k, amounts);
  }

  /** Entries for the stored rows and the keys of a result, as the answer sees them. */
  lemma GroupedAnswers(q: Query, g: Grouping, rows: seq<JoinTuple>, result: seq<Intermediate>)
    requires GroupingOf(q) == Some(g) && AllJoined(rows, q)
    requires Grouped(StoredEntries(g, q, rows), Entries(g, result))
    ensures Answers(q, rows, result)
  {
    var naive, groups := StoredEntries(g, q, rows), Entries(g, result);
    forall i | 0 <= i < |result| ensures HasGroup(q, rows, result[i]) {
      assert groups[i].key in KeySet(groups);
      var j :| 0 <= j < |naive| && naive[j].key == groups[i].key;
      ShowsIffSameKey(q, g, result[i], rows[j]);
      TotalIsSumOfGroup(q, g, rows, rows[j], groups[i].key);
      assert IsGroup(q, rows, result[i], j);
    }
    forall j | 0 <= j < |rows| ensures ShownOnce(q, result, rows[j]) {
      assert naive[j].key in KeySet(naive);
      var i :| 0 <= i < |groups| && groups[i].key == naive[j].key;
      ShowsIffSameKey(q, g, result[i], rows[j]);
      forall k | 0 <= k < |result| && k != i ensures !Shows(q, result[k], rows[j]) {
        ShowsIffSameKey(q, g, result[k], rows[j]);
        LessIrreflexive(groups[i].key);
      }
    }
  }

  lemma GroupIsTotal(q: Query, g: Grouping, rows: seq<JoinTuple>, r: Intermediate)
    requires GroupingOf(q) == Some(g) && AllJoined(rows, q) && HasGroup(q, rows, r)
    ensures Key(g, r) in KeySet(StoredEntries(g, q, rows))
    ensures r.amount == Total(StoredEntries(g, q, rows), Key(g, r)) % WORD
  {
    var j :| 0 <= j < |rows| && IsGroup(q, rows, r, j);
    ShowsIffSameKey(q, g, r, rows[j]);
    TotalIsSumOfGroup(q, g, rows, rows[j], Key(g, r));
    assert StoredEntries(g, q, rows)[j].key == Key(g, r);
  }

  lemma ShownHasKey(q: Query, g: Grouping, result: seq<Intermediate>, jt: JoinTuple)
    requires GroupingOf(q) == Some(g) && Joined(jt, q) && ShownOnce(q, result, jt)
    ensures StoredEntry(g, q, jt).key in KeySet(Entries(g, result))
  {
    var i :| 0 <= i < |result| && Shows(q, result[i], jt);
    ShowsIffSameKey(q, g, result[i], jt);
    assert Entries(g, result)[i].key == StoredEntry(g, q, jt).key;
  }

  lemma AnswersGrouped(q: Query, g: Grouping, rows: seq<JoinTuple>, result: seq<Intermediate>)
    requires GroupingOf(q) == Some(g) && AllJoined(rows, q)
    requires Ordered(Entries(g, result)) && Answers(q, rows, result)
    ensures Grouped(StoredEntries(g, q, rows), Entries(g, result))
  {
    var naive, groups := StoredEntries(g, q, rows), Entries(g, result);
    forall i | 0 <= i < |groups|
      ensures groups[i].key in KeySet(naive) && groups[i].amount == Total(naive, groups[i].key) % WORD
    {
      GroupIsTotal(q, g, rows, result[i]);
    }
    forall j | 0 <= j < |naive| ensures naive[j].key in KeySet(groups) {
      ShownHasKey(q, g, result, rows[j]);
    }
  }

  /** The result of grouping what is stored is the answer in the order of its keys, and nothing else is. */
  lemma GroupedIffAnswers(q: Query, g: Grouping, lineorders: seq<Tuple>, tables: Tables, result: seq<Intermediate>)
    requires GroupingOf(q) == Some(g)
    ensures Grouped(Entries(g, QueryRows(lineorders, tables, q)), Entries(g, result)) <==>
      Ordered(Entries(g, result)) && IsAnswer(q, lineorders, tables, result)
  {
    var rows := JoinRows(lineorders, tables, q);
    JoinRowsJoined(lineorders, tables, q);
    StoredAreJoinRows(lineorders, tables, q, Storing(q));
    assert Entries(g, QueryRows(lineorders, tables, q)) == StoredEntries(g, q, rows);
    if Grouped(StoredEntries(g, q, rows), Entries(g, result)) {
      GroupedAnswers(q, g, rows, result);
    }
    if Ordered(Entries(g, result)) && Answers(q, rows, result) {
      AnswersGrouped(q, g, rows, result);
    }
  }
}

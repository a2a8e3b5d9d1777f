/** The columns that the queries group by, seen from the stored tuples and from the tables. */
module SsbColumns {
  import opened Basics
  import opened Bytes
  import opened SsbTuples
  import opened GroupBy
  import opened SsbQuery
  import opened SsbJoin
  import opened Scan

  /** The groupings of the queries whose amounts are plain sums. */
  function GroupingOf(q: Query): Option<Grouping> {
    if q.flight == 2 then Some(ByYearBrand)
    else if q.flight == 3 && q.number == 1 then Some(ByNationsYear)
    else if q.flight == 3 && q.number in {2, 3, 4} then Some(ByCitiesYear)
    else if q == Query(4, 1) then Some(ByYearNation)
    else None
  }

  /** A row has a tuple of every dimension that the flight joins, and of no other. */
  predicate Joined(jt: JoinTuple, q: Query) {
    (jt.date.Some? <==> JoinsDate(q)) && (jt.supplier.Some? <==> JoinsSupplier(q)) &&
    (jt.part.Some? <==> JoinsPart(q)) && (jt.customer.Some? <==> JoinsCustomer(q))
  }

  lemma HashJoinJoins(l: Tuple, hts: Lookups, q: Query)
    ensures JoinAndFilter(l, hts, q).Some? ==>
      JoinAndFilter(l, hts, q).value.lineorder == l && Joined(JoinAndFilter(l, hts, q).value, q)
  {
  }

  predicate SameField(t: Tuple, u: Tuple, at: nat, n: nat)
    requires at + n <= TUPLE_SIZE
  {
    SameText(t[at..at + n], u[at..at + n], n)
  }

  /**
   The GROUP BY columns of a query agree on two rows: d_year with p_brand1, c_nation and s_nation, c_city
   and s_city, or c_nation.
   */
  predicate SameGroup(q: Query, x: JoinTuple, y: JoinTuple)
    requires GroupingOf(q).Some? && Joined(x, q) && Joined(y, q)
  {
    IntAt(x.date.value, DAT_YEAR_IND) == IntAt(y.date.value, DAT_YEAR_IND) &&
    if q.flight == 2 then SameField(x.part.value, y.part.value, PART_BRAND_IND, 9)
    else if q == Query(3, 1) then
      SameField(x.customer.value, y.customer.value, CUST_NATION_IND, 15) &&
      SameField(x.supplier.value, y.supplier.value, SUP_NATION_IND, 10)
    else if q.flight == 3 then
      SameField(x.customer.value, y.customer.value, CUST_CITY_IND, 10) &&
      SameField(x.supplier.value, y.supplier.value, SUP_CITY_IND, 10)
    else SameField(x.customer.value, y.customer.value, CUST_NATION_IND, 15)
  }

  lemma NationPrefix(t: Tuple)
    ensures t[SUP_NATION_IND..SUP_NATION_IND + 10] == t[SUP_NATION_IND..SUP_NATION_IND + 15][..10]
  {
  }

  /** Joined rows are stored so that they fall into one group exactly when the GROUP BY columns of the query agree. */
  lemma StoredInSameGroup(q: Query, g: Grouping, x: JoinTuple, y: JoinTuple)
    requires GroupingOf(q) == Some(g) && Joined(x, q) && Joined(y, q)
    ensures EntryOf(g, StoreIntermediate(x, q)).key == EntryOf(g, StoreIntermediate(y, q)).key <==> SameGroup(q, x, y)
  {
    SameKeyIffSameColumns(g, StoreIntermediate(x, q), StoreIntermediate(y, q));
    if q == Query(3, 1) {
      NationPrefix(x.supplier.value);
      NationPrefix(y.supplier.value);
      SameTextPrefix(x.supplier.value[SUP_NATION_IND..SUP_NATION_IND + 15],
                     y.supplier.value[SUP_NATION_IND..SUP_NATION_IND + 15],
                     x.supplier.value[SUP_NATION_IND..SUP_NATION_IND + 10],
                     y.supplier.value[SUP_NATION_IND..SUP_NATION_IND + 10], 10);
    }
  }

  /** What the hash join finds for two lineorder tuples falls into one group exactly when the GROUP BY columns agree. */
  lemma FoundInSameGroup(l: Tuple, l': Tuple, hts: Lookups, q: Query, g: Grouping)
    requires GroupingOf(q) == Some(g) && JoinAndFilter(l, hts, q).Some? && JoinAndFilter(l', hts, q).Some?
    ensures var x, y := JoinAndFilter(l, hts, q).value, JoinAndFilter(l', hts, q).value;
      Joined(x, q) && Joined(y, q) && x.lineorder == l && y.lineorder == l' &&
      (EntryOf(g, StoreIntermediate(x, q)).key == EntryOf(g, StoreIntermediate(y, q)).key <==> SameGroup(q, x, y))
  {
    HashJoinJoins(l, hts, q);
    HashJoinJoins(l', hts, q);
    StoredInSameGroup(q, g, JoinAndFilter(l, hts, q).value, JoinAndFilter(l', hts, q).value);
  }

  lemma SameTextPrefix(a: seq<Byte>, b: seq<Byte>, a': seq<Byte>, b': seq<Byte>, n: nat)
    requires n <= |a| && n <= |b| && a' == a[..n] && b' == b[..n]
    ensures SameText(a, b, n) <==> SameText(a', b', n)
  {
    assert forall i :: 0 <= i < n ==> a'[i] == a[i] && b'[i] == b[i];
  }
}

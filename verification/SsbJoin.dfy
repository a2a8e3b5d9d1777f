/** The naive nested-loop join, and the hash join of the engine as an implementation of it. */
module SsbJoin {
  import opened Basics
  import opened SsbQuery

  /** `f` of every element, one behind the other. */
  function FlatMap<T, U>(s: seq<T>, f: T -> seq<U>): seq<U> {
    if |s| == 0 then [] else FlatMap(s[..|s| - 1], f) + f(s[|s| - 1])
  }

  lemma {:induction false} FlatMapAppend<T, U>(a: seq<T>, b: seq<T>, f: T -> seq<U>)
    ensures FlatMap(a + b, f) == FlatMap(a, f) + FlatMap(b, f)
  {
    if |b| == 0 {
      assert a + b == a;
    } else {
      FlatMapAppend(a, b[..|b| - 1], f);
      assert (a + b)[..|a + b| - 1] == a + b[..|b| - 1];
    }
  }

  lemma FlatMapSingle<T, U>(x: T, f: T -> seq<U>)
    ensures FlatMap([x], f) == f(x)
  {
    assert [x][..0] == [] && FlatMap([], f) == [];
  }

  predicate JoinsDate(q: Query) { 1 <= q.flight <= 4 }
  predicate JoinsSupplier(q: Query) { 2 <= q.flight <= 4 }
  predicate JoinsPart(q: Query) { q.flight == 2 || q.flight == 4 }
  predicate JoinsCustomer(q: Query) { q.flight == 3 || q.flight == 4 }

  /** What a loop over a dimension runs over: its tuples, or one empty place when the flight does not join it. */
  function From(joined: bool, table: seq<Tuple>): (s: seq<Option<Tuple>>)
    ensures joined ==> |s| == |table| && forall i :: 0 <= i < |s| ==> s[i] == Some(table[i])
    ensures !joined ==> s == [None]
  {
    if joined then seq(|table|, i requires 0 <= i < |table| => Some(table[i])) else [None]
  }

  /** The key field of the lineorder tuple holds the same bytes as the key field of the dimension tuple. */
  predicate SameKey(l: Tuple, at: nat, t: Tuple, at': nat, length: nat)
    requires at + length <= TUPLE_SIZE && at' + length <= TUPLE_SIZE
  {
    l[at..at + length] == t[at'..at' + length]
  }

  // ---------------------------------------------------------------- the conditions of the queries

  /** lo_discount between ... and lo_quantity ... */
  predicate LineorderWhere(t: Tuple, q: Query) {
    var discount, quantity := IntAt(t, LO_DISC_IND), IntAt(t, LO_QUANT_IND);
    (q == Query(1, 1) ==> discount in {1, 2, 3} && quantity < 25) &&
    (q == Query(1, 2) ==> discount in {4, 5, 6} && 26 <= quantity <= 35) &&
    (q == Query(1, 3) ==> discount in {5, 6, 7} && 36 <= quantity <= 40)
  }

  /** d_year, d_yearmonthnum, d_weeknuminyear, d_yearmonth. */
  predicate DateWhere(t: Tuple, q: Query) {
    var year := IntAt(t, DAT_YEAR_IND);
    (q == Query(1, 1) ==> year == 1993) &&
    (q == Query(1, 2) ==> IntAt(t, DAT_YEARMONTHNUM_IND) == 199401) &&
    (q == Query(1, 3) ==> year == 1994 && IntAt(t, DAT_WEEKNUMINYEAR_IND) == 6) &&
    (q == Query(3, 1) || q == Query(3, 2) || q == Query(3, 3) ==> 1992 <= year <= 1997) &&
    (q == Query(3, 4) ==> FieldIs(t, DAT_YEARMONTH_IND, "Dec1997")) &&
    (q == Query(4, 2) || q == Query(4, 3) ==> year == 1997 || year == 1998)
  }

  /** s_region, s_nation, s_city. */
  predicate SupplierWhere(t: Tuple, q: Query) {
    (q == Query(2, 1) || q == Query(4, 1) || q == Query(4, 2) ==> FieldIs(t, SUP_REGION_IND, "AMERICA")) &&
    (q == Query(2, 2) || q == Query(3, 1) ==> FieldIs(t, SUP_REGION_IND, "ASIA")) &&
    (q == Query(2, 3) ==> FieldIs(t, SUP_REGION_IND, "EUROPE")) &&
    (q == Query(3, 2) || q == Query(4, 3) ==> FieldIs(t, SUP_NATION_IND, "UNITED STATES")) &&
    (q == Query(3, 3) || q == Query(3, 4) ==>
      FieldIs(t, SUP_CITY_IND, "UNITED KI1") || FieldIs(t, SUP_CITY_IND, "UNITED KI5"))
  }

  /** c_region, c_nation, c_city. */
  predicate CustomerWhere(t: Tuple, q: Query) {
    (q.flight == 4 ==> FieldIs(t, CUST_REGION_IND, "AMERICA")) &&
    (q == Query(3, 1) ==> FieldIs(t, CUST_REGION_IND, "ASIA")) &&
    (q == Query(3, 2) ==> FieldIs(t, CUST_NATION_IND, "UNITED STATES")) &&
    (q == Query(3, 3) || q == Query(3, 4) ==>
      FieldIs(t, CUST_CITY_IND, "UNITED KI1") || FieldIs(t, CUST_CITY_IND, "UNITED KI5"))
  }

  /** p_category, p_brand1, p_mfgr. */
  predicate PartWhere(t: Tuple, q: Query) {
    (q == Query(2, 1) ==> FieldIs(t, PART_CATEGORY_IND, "MFGR#12")) &&
    (q == Query(2, 2) ==> 2221 <= IntAt(t, PART_BRAND_IND + 5) <= 2228) &&
    (q == Query(2, 3) ==> IntAt(t, PART_BRAND_IND + 5) == 2339) &&
    (q == Query(4, 1) || q == Query(4, 2) ==>
      FieldIs(t, PART_MFGR_IND, "MFGR#1") || FieldIs(t, PART_MFGR_IND, "MFGR#2")) &&
    (q == Query(4, 3) ==> FieldIs(t, PART_CATEGORY_IND, "MFGR#14"))
  }

  lemma DateFilterIsCondition(t: Tuple, q: Query)
    ensures LineorderFilter(t, q) == LineorderWhere(t, q) && DateFilter(t, q) == DateWhere(t, q)
  {
    StartsWithIsField(t, DAT_YEARMONTH_IND, "Dec1997");
  }

  lemma SupplierFilterIsCondition(t: Tuple, q: Query)
    ensures SupplierFilter(t, q) == SupplierWhere(t, q)
  {
    if q.flight == 3 {
      StartsWithIsField(t, SUP_REGION_IND, "ASIA");
      StartsWithIsField(t, SUP_NATION_IND, "UNITED STATES");
      StartsWithIsField(t, SUP_CITY_IND, "UNITED KI1");
      StartsWithIsField(t, SUP_CITY_IND, "UNITED KI5");
    } else {
      StartsWithIsField(t, SUP_REGION_IND, "AMERICA");
      StartsWithIsField(t, SUP_REGION_IND, "ASIA");
      StartsWithIsField(t, SUP_REGION_IND, "EUROPE");
      StartsWithIsField(t, SUP_NATION_IND, "UNITED STATES");
    }
  }

  lemma CustomerFilterIsCondition(t: Tuple, q: Query)
    ensures CustomerFilter(t, q) == CustomerWhere(t, q)
  {
    StartsWithIsField(t, CUST_REGION_IND, "AMERICA");
    StartsWithIsField(t, CUST_REGION_IND, "ASIA");
    StartsWithIsField(t, CUST_NATION_IND, "UNITED STATES");
    StartsWithIsField(t, CUST_CITY_IND, "UNITED KI1");
    StartsWithIsField(t, CUST_CITY_IND, "UNITED KI5");
  }

  lemma PartFilterIsCondition(t: Tuple, q: Query)
    ensures PartFilter(t, q) == PartWhere(t, q)
  {
    StartsWithIsField(t, PART_CATEGORY_IND, "MFGR#12");
    StartsWithIsField(t, PART_CATEGORY_IND, "MFGR#14");
    StartsWithIsField(t, PART_MFGR_IND, "MFGR#1");
    StartsWithIsField(t, PART_MFGR_IND, "MFGR#2");
  }

  /** The filters of the engine, with strncmp on fields, are the conditions of the queries. */
  lemma FiltersAreConditions(t: Tuple, q: Query)
    ensures LineorderFilter(t, q) == LineorderWhere(t, q) && DateFilter(t, q) == DateWhere(t, q)
    ensures SupplierFilter(t, q) == SupplierWhere(t, q) && CustomerFilter(t, q) == CustomerWhere(t, q)
    ensures PartFilter(t, q) == PartWhere(t, q)
  {
    DateFilterIsCondition(t, q);
    SupplierFilterIsCondition(t, q);
    CustomerFilterIsCondition(t, q);
    PartFilterIsCondition(t, q);
  }

  lemma FiltersAreConditionsForAll(q: Query)
    ensures forall t: Tuple :: DateFilter(t, q) == DateWhere(t, q)
    ensures forall t: Tuple :: SupplierFilter(t, q) == SupplierWhere(t, q)
    ensures forall t: Tuple :: PartFilter(t, q) == PartWhere(t, q)
    ensures forall t: Tuple :: CustomerFilter(t, q) == CustomerWhere(t, q)
  {
    forall t: Tuple
      ensures DateFilter(t, q) == DateWhere(t, q) && SupplierFilter(t, q) == SupplierWhere(t, q) &&
        PartFilter(t, q) == PartWhere(t, q) && CustomerFilter(t, q) == CustomerWhere(t, q)
    {
      FiltersAreConditions(t, q);
    }
  }

  predicate OnDate(l: Tuple, q: Query, t: Option<Tuple>) {
    t.Some? ==> SameKey(l, LO_ORDERDATE_IND, t.value, DAT_DATEKEY_IND, DAT_DATEKEY_LEN) && DateWhere(t.value, q)
  }

  predicate OnSupplier(l: Tuple, q: Query, t: Option<Tuple>) {
    t.Some? ==> SameKey(l, LO_SUPKEY_IND, t.value, SUP_KEY_IND, SUP_KEY_LEN) && SupplierWhere(t.value, q)
  }

  predicate OnPart(l: Tuple, q: Query, t: Option<Tuple>) {
    t.Some? ==> SameKey(l, LO_PARTKEY_IND, t.value, PART_KEY_IND, PART_KEY_LEN) && PartWhere(t.value, q)
  }

  predicate OnCustomer(l: Tuple, q: Query, t: Option<Tuple>) {
    t.Some? ==> SameKey(l, LO_CUSTKEY_IND, t.value, CUST_KEY_IND, CUST_KEY_LEN) && CustomerWhere(t.value, q)
  }

  /** The WHERE clause: every join condition and every filter. */
  predicate Where(jt: JoinTuple, q: Query) {
    LineorderWhere(jt.lineorder, q) && OnDate(jt.lineorder, q, jt.date) && OnSupplier(jt.lineorder, q, jt.supplier) &&
    OnPart(jt.lineorder, q, jt.part) && OnCustomer(jt.lineorder, q, jt.customer)
  }

  // ---------------------------------------------------------------- the naive join

  function Select(jt: JoinTuple, q: Query): seq<JoinTuple> {
    if Where(jt, q) then [jt] else []
  }

  function LoopCustomers(l: Tuple, d: Option<Tuple>, s: Option<Tuple>, p: Option<Tuple>, tables: Tables,
                         q: Query): seq<JoinTuple> {
    FlatMap(From(JoinsCustomer(q), tables.customer), c => Select(JoinTuple(l, d, s, p, c), q))
  }

  function LoopParts(l: Tuple, d: Option<Tuple>, s: Option<Tuple>, tables: Tables, q: Query): seq<JoinTuple> {
    FlatMap(From(JoinsPart(q), tables.part), p => LoopCustomers(l, d, s, p, tables, q))
  }

  function LoopSuppliers(l: Tuple, d: Option<Tuple>, tables: Tables, q: Query): seq<JoinTuple> {
    FlatMap(From(JoinsSupplier(q), tables.supplier), s => LoopParts(l, d, s, tables, q))
  }

  /** The rows that a lineorder tuple takes part in: four loops, and the WHERE clause on every combination. */
  function NestedLoops(l: Tuple, tables: Tables, q: Query): seq<JoinTuple> {
    FlatMap(From(JoinsDate(q), tables.date), d => LoopSuppliers(l, d, tables, q))
  }

  // ---------------------------------------------------------------- one match at most

  /** `pick` is the only element of `s` that meets `on`, or there is none. */
  ghost predicate Picks<T(!new)>(s: seq<T>, on: T -> bool, pick: Option<T>) {
    match pick
    case None => forall i :: 0 <= i < |s| ==> !on(s[i])
    case Some(x) => exists i :: 0 <= i < |s| && OnlyAt(s, on, i) && s[i] == x
  }

  ghost predicate OnlyAt<T(!new)>(s: seq<T>, on: T -> bool, i: int)
    requires 0 <= i < |s|
  {
    on(s[i]) && forall j :: 0 <= j < |s| && j != i ==> !on(s[j])
  }

  lemma {:induction false} FlatMapNone<T, U>(s: seq<T>, f: T -> seq<U>)
    requires forall i :: 0 <= i < |s| ==> f(s[i]) == []
    ensures FlatMap(s, f) == []
  {
    if |s| != 0 {
      FlatMapNone(s[..|s| - 1], f);
    }
  }

  lemma {:induction false} FlatMapOne<T, U>(s: seq<T>, f: T -> seq<U>, i: nat)
    requires i < |s| && forall j :: 0 <= j < |s| && j != i ==> f(s[j]) == []
    ensures FlatMap(s, f) == f(s[i])
  {
    if i == |s| - 1 {
      FlatMapNone(s[..i], f);
    } else {
      FlatMapOne(s[..|s| - 1], f, i);
    }
  }

  /** A loop whose body does nothing unless `on` holds does what its body does for the element picked. */
  lemma FlatMapPick<T(!new), U>(s: seq<T>, f: T -> seq<U>, on: T -> bool, pick: Option<T>)
    requires Picks(s, on, pick) && forall x :: !on(x) ==> f(x) == []
    ensures FlatMap(s, f) == if pick == None then [] else f(pick.value)
  {
    if pick == None {
      FlatMapNone(s, f);
    } else {
      var i :| 0 <= i < |s| && OnlyAt(s, on, i) && s[i] == pick.value;
      FlatMapOne(s, f, i);
    }
  }

  /** Looking a key up in the hash table and filtering finds what a loop over the table finds. */
  lemma LookupPicks(l: Tuple, at: nat, table: seq<Tuple>, at': nat, length: nat, ht: map<nat, Tuple>,
                    filter: Tuple -> bool, on: Option<Tuple> -> bool)
    requires at + length <= TUPLE_SIZE && at' + length <= TUPLE_SIZE
    requires Indexes(ht, table, at', length) && UniqueKeys(table, at', length)
    requires forall t: Tuple :: on(Some(t)) <==> SameKey(l, at, t, at', length) && filter(t)
    ensures var key := KeyOf(l, at, length);
      Picks(From(true, table), on, if key in ht && filter(ht[key]) then Some(Some(ht[key])) else None)
  {
    var key, s := KeyOf(l, at, length), From(true, table);
    forall i | 0 <= i < |s| ensures on(s[i]) <==> KeyOf(table[i], at', length) == key && filter(table[i]) {
      KeysEqual(l, at, table[i], at', length);
    }
    if key in ht && filter(ht[key]) {
      var i :| 0 <= i < |table| && KeyOf(table[i], at', length) == key;
      assert OnlyAt(s, on, i);
    }
  }

  // ---------------------------------------------------------------- the hash join

  lemma EmptyCustomers(l: Tuple, d: Option<Tuple>, s: Option<Tuple>, p: Option<Tuple>, tables: Tables, q: Query)
    requires !(LineorderWhere(l, q) && OnDate(l, q, d) && OnSupplier(l, q, s) && OnPart(l, q, p))
    ensures LoopCustomers(l, d, s, p, tables, q) == []
  {
    FlatMapNone(From(JoinsCustomer(q), tables.customer), c => Select(JoinTuple(l, d, s, p, c), q));
  }

  lemma EmptyParts(l: Tuple, d: Option<Tuple>, s: Option<Tuple>, tables: Tables, q: Query)
    requires !(LineorderWhere(l, q) && OnDate(l, q, d) && OnSupplier(l, q, s))
    ensures LoopParts(l, d, s, tables, q) == []
  {
    forall p ensures LoopCustomers(l, d, s, p, tables, q) == [] {
      EmptyCustomers(l, d, s, p, tables, q);
    }
    FlatMapNone(From(JoinsPart(q), tables.part), p => LoopCustomers(l, d, s, p, tables, q));
  }

  lemma EmptySuppliers(l: Tuple, d: Option<Tuple>, tables: Tables, q: Query)
    requires !(LineorderWhere(l, q) && OnDate(l, q, d))
    ensures LoopSuppliers(l, d, tables, q) == []
  {
    forall s ensures LoopParts(l, d, s, tables, q) == [] {
      EmptyParts(l, d, s, tables, q);
    }
    FlatMapNone(From(JoinsSupplier(q), tables.supplier), s => LoopParts(l, d, s, tables, q));
  }

  /** The element that a dimension contributes to the row of a lineorder tuple, if it has one. */
  function Pick(joined: bool, found: Option<Tuple>): Option<Option<Tuple>> {
    if !joined then Some(None) else if found == None then None else Some(found)
  }

  function DateOf(l: Tuple, hts: Lookups, q: Query): Option<Option<Tuple>> {
    Pick(JoinsDate(q), DateRetrieve(KeyOf(l, LO_ORDERDATE_IND, DAT_DATEKEY_LEN), hts.date, q))
  }

  function SupplierOf(l: Tuple, hts: Lookups, q: Query): Option<Option<Tuple>> {
    Pick(JoinsSupplier(q), SupplierRetrieve(KeyOf(l, LO_SUPKEY_IND, SUP_KEY_LEN), hts.supplier, q))
  }

  function PartOf(l: Tuple, hts: Lookups, q: Query): Option<Option<Tuple>> {
    Pick(JoinsPart(q), PartRetrieve(KeyOf(l, LO_PARTKEY_IND, PART_KEY_LEN), hts.part, q))
  }

  function CustomerOf(l: Tuple, hts: Lookups, q: Query): Option<Option<Tuple>> {
    Pick(JoinsCustomer(q), CustomerRetrieve(KeyOf(l, LO_CUSTKEY_IND, CUST_KEY_LEN), hts.customer, q))
  }

  /** The row made of the four contributions. */
  function Row(l: Tuple, d: Option<Option<Tuple>>, s: Option<Option<Tuple>>, p: Option<Option<Tuple>>,
               c: Option<Option<Tuple>>): seq<JoinTuple> {
    if d.Some? && s.Some? && p.Some? && c.Some? then [JoinTuple(l, d.value, s.value, p.value, c.value)] else []
  }

  lemma PickUnjoined(on: Option<Tuple> -> bool, table: seq<Tuple>)
    requires on(None)
    ensures Picks(From(false, table), on, Some(None))
  {
    assert OnlyAt(From(false, table), on, 0);
  }

  lemma PickDate(l: Tuple, tables: Tables, hts: Lookups, q: Query)
    requires IndexesAll(hts, tables) && KeysUnique(tables)
    ensures Picks(From(JoinsDate(q), tables.date), t => OnDate(l, q, t), DateOf(l, hts, q))
  {
    PickUnjoined(t => OnDate(l, q, t), tables.date);
    FiltersAreConditionsForAll(q);
    LookupPicks(l, LO_ORDERDATE_IND, tables.date, DAT_DATEKEY_IND, DAT_DATEKEY_LEN, hts.date,
                (t: Tuple) => DateFilter(t, q), t => OnDate(l, q, t));
  }

  lemma PickSupplier(l: Tuple, tables: Tables, hts: Lookups, q: Query)
    requires IndexesAll(hts, tables) && KeysUnique(tables)
    ensures Picks(From(JoinsSupplier(q), tables.supplier), t => OnSupplier(l, q, t), SupplierOf(l, hts, q))
  {
    PickUnjoined(t => OnSupplier(l, q, t), tables.supplier);
    FiltersAreConditionsForAll(q);
    LookupPicks(l, LO_SUPKEY_IND, tables.supplier, SUP_KEY_IND, SUP_KEY_LEN, hts.supplier,
                (t: Tuple) => SupplierFilter(t, q), t => OnSupplier(l, q, t));
  }

  lemma PickPart(l: Tuple, tables: Tables, hts: Lookups, q: Query)
    requires IndexesAll(hts, tables) && KeysUnique(tables)
    ensures Picks(From(JoinsPart(q), tables.part), t => OnPart(l, q, t), PartOf(l, hts, q))
  {
    PickUnjoined(t => OnPart(l, q, t), tables.part);
    FiltersAreConditionsForAll(q);
    LookupPicks(l, LO_PARTKEY_IND, tables.part, PART_KEY_IND, PART_KEY_LEN, hts.part,
                (t: Tuple) => PartFilter(t, q), t => OnPart(l, q, t));
  }

  lemma PickCustomer(l: Tuple, tables: Tables, hts: Lookups, q: Query)
    requires IndexesAll(hts, tables) && KeysUnique(tables)
    ensures Picks(From(JoinsCustomer(q), tables.customer), t => OnCustomer(l, q, t), CustomerOf(l, hts, q))
  {
    PickUnjoined(t => OnCustomer(l, q, t), tables.customer);
    FiltersAreConditionsForAll(q);
    LookupPicks(l, LO_CUSTKEY_IND, tables.customer, CUST_KEY_IND, CUST_KEY_LEN, hts.customer,
                (t: Tuple) => CustomerFilter(t, q), t => OnCustomer(l, q, t));
  }

  /** The nested loops find the row made of what each dimension contributes. */
  lemma NestedLoopsPick(l: Tuple, tables: Tables, q: Query, d: Option<Option<Tuple>>, s: Option<Option<Tuple>>,
                        p: Option<Option<Tuple>>, c: Option<Option<Tuple>>)
    requires Picks(From(JoinsDate(q), tables.date), t => OnDate(l, q, t), d)
    requires Picks(From(JoinsSupplier(q), tables.supplier), t => OnSupplier(l, q, t), s)
    requires Picks(From(JoinsPart(q), tables.part), t => OnPart(l, q, t), p)
    requires Picks(From(JoinsCustomer(q), tables.customer), t => OnCustomer(l, q, t), c)
    ensures NestedLoops(l, tables, q) == if LineorderWhere(l, q) then Row(l, d, s, p, c) else []
  {
    forall d' ensures !OnDate(l, q, d') || !LineorderWhere(l, q) ==> LoopSuppliers(l, d', tables, q) == [] {
      if !(LineorderWhere(l, q) && OnDate(l, q, d')) {
        EmptySuppliers(l, d', tables, q);
      }
    }
    FlatMapPick(From(JoinsDate(q), tables.date), d' => LoopSuppliers(l, d', tables, q), t => OnDate(l, q, t), d);
    if d.Some? && LineorderWhere(l, q) {
      forall s' ensures !OnSupplier(l, q, s') ==> LoopParts(l, d.value, s', tables, q) == [] {
        if !OnSupplier(l, q, s') {
          EmptyParts(l, d.value, s', tables, q);
        }
      }
      FlatMapPick(From(JoinsSupplier(q), tables.supplier), s' => LoopParts(l, d.value, s', tables, q),
                  t => OnSupplier(l, q, t), s);
      if s.Some? {
        PartsPick(l, d.value, s.value, tables, q, p, c);
      }
    }
  }

  lemma PartsPick(l: Tuple, d: Option<Tuple>, s: Option<Tuple>, tables: Tables, q: Query, p: Option<Option<Tuple>>,
                  c: Option<Option<Tuple>>)
    requires LineorderWhere(l, q) && OnDate(l, q, d) && OnSupplier(l, q, s)
    requires Picks(From(JoinsPart(q), tables.part), t => OnPart(l, q, t), p)
    requires Picks(From(JoinsCustomer(q), tables.customer), t => OnCustomer(l, q, t), c)
    ensures LoopParts(l, d, s, tables, q) == Row(l, Some(d), Some(s), p, c)
  {
    forall p' ensures !OnPart(l, q, p') ==> LoopCustomers(l, d, s, p', tables, q) == [] {
      if !OnPart(l, q, p') {
        EmptyCustomers(l, d, s, p', tables, q);
      }
    }
    FlatMapPick(From(JoinsPart(q), tables.part), p' => LoopCustomers(l, d, s, p', tables, q), t => OnPart(l, q, t), p);
    if p.Some? {
      FlatMapPick(From(JoinsCustomer(q), tables.customer), c' => Select(JoinTuple(l, d, s, p.value, c'), q),
                  t => OnCustomer(l, q, t), c);
    }
  }

  /** Probing in the order of the source, and stopping early, asks every dimension of the flight. */
  lemma ProbesAskAll(l: Tuple, hts: Lookups, q: Query)
    ensures (match JoinAndFilter(l, hts, q) case None => [] case Some(jt) => [jt]) ==
      if LineorderFilter(l, q) then Row(l, DateOf(l, hts, q), SupplierOf(l, hts, q), PartOf(l, hts, q),
                                        CustomerOf(l, hts, q))
      else []
  {
    if q.flight == 4 {
    } else if q.flight == 3 {
    } else if q.flight == 2 {
    }
  }

  /** The hash join finds exactly what the nested loops find: one row or none. */
  lemma HashJoinIsNestedLoops(l: Tuple, tables: Tables, hts: Lookups, q: Query)
    requires IndexesAll(hts, tables) && KeysUnique(tables)
    ensures NestedLoops(l, tables, q) ==
      match JoinAndFilter(l, hts, q) case None => [] case Some(jt) => [jt]
  {
    PickDate(l, tables, hts, q);
    PickSupplier(l, tables, hts, q);
    PickPart(l, tables, hts, q);
    PickCustomer(l, tables, hts, q);
    FiltersAreConditions(l, q);
    NestedLoopsPick(l, tables, q, DateOf(l, hts, q), SupplierOf(l, hts, q), PartOf(l, hts, q), CustomerOf(l, hts, q));
    ProbesAskAll(l, hts, q);
  }
}

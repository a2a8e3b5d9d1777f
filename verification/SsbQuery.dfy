/** Tuples, filters, hash tables and the join of the Star Schema Benchmark engine. */
module SsbQuery {
  import opened Basics
  import opened Bytes
  import opened SsbTuples

  const TUPLE_SIZE: nat := 128

  const LO_CUSTKEY_IND: nat := 12
  const LO_PARTKEY_IND: nat := 20
  const LO_SUPKEY_IND: nat := 28
  const LO_ORDERDATE_IND: nat := 35
  const LO_QUANT_IND: nat := 62
  const LO_EXTENDEDPRICE_IND: nat := 65
  const LO_DISC_IND: nat := 83
  const LO_REVENUE_IND: nat := 86
  const LO_SUPPCOST_IND: nat := 95
  const PART_KEY_LEN: nat := 8
  const PART_KEY_IND: nat := 0
  const PART_MFGR_IND: nat := 32
  const PART_CATEGORY_IND: nat := 40
  const PART_BRAND_IND: nat := 49
  const DAT_DATEKEY_LEN: nat := 8
  const DAT_DATEKEY_IND: nat := 0
  const DAT_YEAR_IND: nat := 48
  const DAT_YEARMONTHNUM_IND: nat := 53
  const DAT_YEARMONTH_IND: nat := 60
  const DAT_WEEKNUMINYEAR_IND: nat := 80
  const SUP_KEY_LEN: nat := 6
  const SUP_KEY_IND: nat := 0
  const SUP_CITY_IND: nat := 54
  const SUP_NATION_IND: nat := 66
  const SUP_REGION_IND: nat := 82
  const CUST_KEY_LEN: nat := 7
  const CUST_KEY_IND: nat := 0
  const CUST_CITY_IND: nat := 55
  const CUST_NATION_IND: nat := 67
  const CUST_REGION_IND: nat := 83

  // ---------------------------------------------------------------- numbers

  predicate IsDigit(b: Byte) {
    '0' as int <= b <= '9' as int
  }

  /** The length of the run of digits at the front. */
  function DigitRun(s: seq<Byte>): (n: nat)
    ensures n <= |s|
  {
    if |s| == 0 || !IsDigit(s[0]) then 0 else 1 + DigitRun(s[1..])
  }

  /** The number that a run of digits denotes. */
  function DecimalValue(digits: seq<Byte>): nat
    requires forall i :: 0 <= i < |digits| ==> IsDigit(digits[i])
  {
    if |digits| == 0 then 0
    else
      var last := digits[|digits| - 1];
      assert IsDigit(last);
      10 * DecimalValue(digits[..|digits| - 1]) + (last - '0' as int)
  }

  lemma {:induction false} DigitRunIsLongest(s: seq<Byte>)
    ensures forall i :: 0 <= i < DigitRun(s) ==> IsDigit(s[i])
    ensures DigitRun(s) < |s| ==> !IsDigit(s[DigitRun(s)])
  {
    if |s| != 0 && IsDigit(s[0]) {
      DigitRunIsLongest(s[1..]);
    }
  }

  /** The number at the front of `s`; it ends with `s`. */
  function Atoi(s: seq<Byte>): nat {
    DigitRunIsLongest(s);
    DecimalValue(s[..DigitRun(s)])
  }

  /** A number written in decimal. */
  function Decimal(n: nat): seq<Byte> {
    if n < 10 then ['0' as int + n] else Decimal(n / 10) + ['0' as int + n % 10]
  }

  lemma {:induction false} DecimalRead(n: nat)
    ensures forall i :: 0 <= i < |Decimal(n)| ==> IsDigit(Decimal(n)[i])
    ensures DecimalValue(Decimal(n)) == n
  {
    if n >= 10 {
      DecimalRead(n / 10);
      assert Decimal(n)[..|Decimal(n)| - 1] == Decimal(n / 10);
    } else {
      assert Decimal(n)[..0] == [];
    }
  }

  /** A decimal number in front of anything but a digit is read back. */
  lemma AtoiReadsDecimal(n: nat, rest: seq<Byte>)
    requires |rest| > 0 ==> !IsDigit(rest[0])
    ensures Atoi(Decimal(n) + rest) == n
  {
    var s, length := Decimal(n) + rest, |Decimal(n)|;
    DecimalRead(n);
    DigitRunIsLongest(s);
    assert forall i :: 0 <= i < length ==> s[i] == Decimal(n)[i];
    assert |rest| > 0 ==> s[length] == rest[0];
    assert s[..length] == Decimal(n);
  }

  method FastAtoi(s: seq<Byte>) returns (val: nat)
    ensures val == Atoi(s)
  {
    DigitRunIsLongest(s);
    val := 0;
    var i := 0;
    while i < |s| && IsDigit(s[i])
      invariant i <= DigitRun(s) && val == DecimalValue(s[..i])
    {
      assert s[..i + 1][..i] == s[..i];
      val := val * 10 + (s[i] - '0' as int);
      i := i + 1;
    }
  }

  /** Every number that starts in the tuple is an int. */
  ghost predicate NumbersFit(t: seq<Byte>) {
    forall i :: 0 <= i < |t| ==> Atoi(t[i..]) < 0x8000_0000
  }

  /** A tuple of any table: 128 bytes, in which no run of digits overflows an int. */
  type Tuple = t: seq<Byte> | |t| == TUPLE_SIZE && NumbersFit(t) ghost witness seq(TUPLE_SIZE, i => 0)

  function IntAt(t: Tuple, at: nat): (n: nat)
    requires at < TUPLE_SIZE
    ensures n < 0x8000_0000
  {
    Atoi(t[at..])
  }

  // ---------------------------------------------------------------- text

  function Ascii(s: string): (bytes: seq<Byte>)
    ensures |bytes| == |s| && forall i :: 0 <= i < |s| ==> bytes[i] == if s[i] < 256 as char then s[i] as int else 0
  {
    seq(|s|, i requires 0 <= i < |s| => if s[i] < 256 as char then s[i] as int else 0)
  }

  /** strncmp(&t[at], text, strlen(text)) == 0. */
  predicate StartsWith(t: Tuple, at: nat, text: string)
    requires at + |text| <= TUPLE_SIZE
  {
    Strncmp(t[at..], Ascii(text), |text|) == 0
  }

  lemma {:induction false} StrncmpZero(a: seq<Byte>, b: seq<Byte>, n: nat)
    requires n <= |a| && n <= |b| && forall i :: 0 <= i < n ==> b[i] != 0
    ensures Strncmp(a, b, n) == 0 <==> a[..n] == b[..n]
  {
    if n != 0 {
      assert a[..n] == [a[0]] + a[1..][..n - 1] && b[..n] == [b[0]] + b[1..][..n - 1];
      StrncmpZero(a[1..], b[1..], n - 1);
    }
  }

  /** The field at `at` holds the characters of `text`. */
  predicate FieldIs(t: Tuple, at: nat, text: string)
    requires at + |text| <= TUPLE_SIZE
  {
    forall i :: 0 <= i < |text| ==> t[at + i] == text[i] as int
  }

  /** strncmp with a text of ASCII characters asks whether the field holds them. */
  lemma StartsWithIsField(t: Tuple, at: nat, text: string)
    requires at + |text| <= TUPLE_SIZE && forall i :: 0 <= i < |text| ==> 0 as char < text[i] < 128 as char
    ensures StartsWith(t, at, text) == FieldIs(t, at, text)
  {
    StrncmpZero(t[at..], Ascii(text), |text|);
    assert forall i :: 0 <= i < |text| ==> t[at..][..|text|][i] == t[at + i];
    assert Ascii(text)[..|text|] == Ascii(text);
    if FieldIs(t, at, text) {
      assert t[at..][..|text|] == Ascii(text);
    }
  }

  // ---------------------------------------------------------------- filters

  /** A query flight and a query of it. */
  datatype Query = Query(flight: int, number: int)

  predicate LineorderFilter(t: Tuple, q: Query) {
    match q
    case Query(1, 1) => 1 <= IntAt(t, LO_DISC_IND) <= 3 && IntAt(t, LO_QUANT_IND) < 25
    case Query(1, 2) => 4 <= IntAt(t, LO_DISC_IND) <= 6 && 26 <= IntAt(t, LO_QUANT_IND) <= 35
    case Query(1, 3) => 5 <= IntAt(t, LO_DISC_IND) <= 7 && 36 <= IntAt(t, LO_QUANT_IND) <= 40
    case _ => true
  }

  predicate DateFilter(t: Tuple, q: Query) {
    if q.flight == 1 then
      (q.number == 1 ==> IntAt(t, DAT_YEAR_IND) == 1993) &&
      (q.number == 2 ==> IntAt(t, DAT_YEARMONTHNUM_IND) == 199401) &&
      (q.number == 3 ==> IntAt(t, DAT_YEAR_IND) == 1994 && IntAt(t, DAT_WEEKNUMINYEAR_IND) == 6)
    else if q.flight == 3 then
      (q.number in {1, 2, 3} ==> 1992 <= IntAt(t, DAT_YEAR_IND) <= 1997) &&
      (q.number == 4 ==> StartsWith(t, DAT_YEARMONTH_IND, "Dec1997"))
    else if q.flight == 4 then
      q.number in {2, 3} ==> IntAt(t, DAT_YEAR_IND) == 1997 || IntAt(t, DAT_YEAR_IND) == 1998
    else true
  }

  predicate SupplierFilter(t: Tuple, q: Query) {
    if q.flight == 2 then
      (q.number == 1 ==> StartsWith(t, SUP_REGION_IND, "AMERICA")) &&
      (q.number == 2 ==> StartsWith(t, SUP_REGION_IND, "ASIA")) &&
      (q.number == 3 ==> StartsWith(t, SUP_REGION_IND, "EUROPE"))
    else if q.flight == 3 then
      (q.number == 1 ==> StartsWith(t, SUP_REGION_IND, "ASIA")) &&
      (q.number == 2 ==> StartsWith(t, SUP_NATION_IND, "UNITED STATES")) &&
      (q.number in {3, 4} ==> StartsWith(t, SUP_CITY_IND, "UNITED KI1") || StartsWith(t, SUP_CITY_IND, "UNITED KI5"))
    else if q.flight == 4 then
      (q.number in {1, 2} ==> StartsWith(t, SUP_REGION_IND, "AMERICA")) &&
      (q.number == 3 ==> StartsWith(t, SUP_NATION_IND, "UNITED STATES"))
    else true
  }

  predicate CustomerFilter(t: Tuple, q: Query) {
    if q.flight == 3 then
      (q.number == 1 ==> StartsWith(t, CUST_REGION_IND, "ASIA")) &&
      (q.number == 2 ==> StartsWith(t, CUST_NATION_IND, "UNITED STATES")) &&
      (q.number in {3, 4} ==> StartsWith(t, CUST_CITY_IND, "UNITED KI1") || StartsWith(t, CUST_CITY_IND, "UNITED KI5"))
    else if q.flight == 4 then StartsWith(t, CUST_REGION_IND, "AMERICA")
    else true
  }

  predicate PartFilter(t: Tuple, q: Query) {
    if q.flight == 2 then
      (q.number == 1 ==> StartsWith(t, PART_CATEGORY_IND, "MFGR#12")) &&
      (q.number == 2 ==> 2221 <= IntAt(t, PART_BRAND_IND + 5) <= 2228) &&
      (q.number == 3 ==> IntAt(t, PART_BRAND_IND + 5) == 2339)
    else if q.flight == 4 then
      (q.number in {1, 2} ==> StartsWith(t, PART_MFGR_IND, "MFGR#1") || StartsWith(t, PART_MFGR_IND, "MFGR#2")) &&
      (q.number == 3 ==> StartsWith(t, PART_CATEGORY_IND, "MFGR#14"))
    else true
  }

  // ---------------------------------------------------------------- keys

  /** The number that the first `length` bytes of a key field make. */
  function KeyOf(t: Tuple, at: nat, length: nat): nat
    requires at + length <= TUPLE_SIZE
  {
    Decode(t[at..at + length])
  }

  lemma {:induction false} DecodePadded(s: seq<Byte>, n: nat)
    ensures Decode(s + seq(n, i => 0)) == Decode(s)
  {
    if s != [] {
      assert (s + seq(n, i => 0))[1..] == s[1..] + seq(n, i => 0);
      DecodePadded(s[1..], n);
    } else if n != 0 {
      assert (s + seq(n, i => 0))[1..] == s + seq(n - 1, i => 0);
      DecodePadded(s, n - 1);
    }
  }

  /** getKey reads eight bytes and clears those beyond `length`. */
  method GetKey(t: Tuple, offset: nat, length: nat) returns (key: nat)
    requires offset + 8 <= TUPLE_SIZE
    ensures key == KeyOf(t, offset, if length < 8 then length else 8) && key < Capacity(8)
  {
    var bytes := t[offset..offset + 8];
    var i := 8;
    while i > length
      invariant (if length < 8 then length else 8) <= i <= 8 && |bytes| == 8
      invariant forall j :: 0 <= j < 8 ==> bytes[j] == if j < i then t[offset + j] else 0
    {
      bytes := bytes[i - 1 := 0];
      i := i - 1;
    }
    KeyOfCleared(t[offset..offset + i], bytes);
    return Decode(bytes);
  }

  lemma KeyOfCleared(prefix: seq<Byte>, bytes: seq<Byte>)
    requires |prefix| <= |bytes| == 8 && forall j :: 0 <= j < 8 ==> bytes[j] == if j < |prefix| then prefix[j] else 0
    ensures Decode(bytes) == Decode(prefix) && Decode(bytes) < Capacity(8)
  {
    assert bytes == prefix + seq(8 - |prefix|, j => 0);
    DecodePadded(prefix, 8 - |prefix|);
    EncodeDecode(bytes);
  }

  /** Keys are equal exactly when the first `length` bytes are. */
  lemma KeysEqual(t: Tuple, at: nat, u: Tuple, at': nat, length: nat)
    requires at + length <= TUPLE_SIZE && at' + length <= TUPLE_SIZE
    ensures KeyOf(t, at, length) == KeyOf(u, at', length) <==> t[at..at + length] == u[at'..at' + length]
  {
    if KeyOf(t, at, length) == KeyOf(u, at', length) {
      DecodeInjective(t[at..at + length], u[at'..at' + length]);
    }
  }

  // ---------------------------------------------------------------- hash tables

  datatype Tables = Tables(date: seq<Tuple>, supplier: seq<Tuple>, part: seq<Tuple>, customer: seq<Tuple>)

  /** What the hash tables hold. */
  datatype Lookups = Lookups(date: map<nat, Tuple>, supplier: map<nat, Tuple>, part: map<nat, Tuple>,
                             customer: map<nat, Tuple>)

  ghost predicate UniqueKeys(table: seq<Tuple>, at: nat, length: nat)
    requires at + length <= TUPLE_SIZE
  {
    forall i, j :: 0 <= i < j < |table| ==> KeyOf(table[i], at, length) != KeyOf(table[j], at, length)
  }

  /** `ht` maps the key of every tuple of the table to the tuple, and nothing else. */
  ghost predicate Indexes(ht: map<nat, Tuple>, table: seq<Tuple>, at: nat, length: nat)
    requires at + length <= TUPLE_SIZE
  {
    (forall i :: 0 <= i < |table| ==>
      KeyOf(table[i], at, length) in ht && ht[KeyOf(table[i], at, length)] == table[i]) &&
    forall k :: k in ht ==> exists i :: 0 <= i < |table| && KeyOf(table[i], at, length) == k
  }

  lemma IndexesNext(ht: map<nat, Tuple>, table: seq<Tuple>, next: Tuple, at: nat, length: nat)
    requires at + length <= TUPLE_SIZE
    requires Indexes(ht, table, at, length) && UniqueKeys(table + [next], at, length)
    ensures Indexes(ht[KeyOf(next, at, length) := next], table + [next], at, length)
  {
    var table', key := table + [next], KeyOf(next, at, length);
    var ht' := ht[key := next];
    forall i | 0 <= i < |table'|
      ensures KeyOf(table'[i], at, length) in ht' && ht'[KeyOf(table'[i], at, length)] == table'[i]
    {
      if i < |table| {
        assert KeyOf(table'[i], at, length) != KeyOf(table'[|table|], at, length);
      }
    }
    forall k | k in ht' ensures exists i :: 0 <= i < |table'| && KeyOf(table'[i], at, length) == k {
      if k == key {
        assert KeyOf(table'[|table|], at, length) == k;
      } else {
        var i :| 0 <= i < |table| && KeyOf(table[i], at, length) == k;
        assert KeyOf(table'[i], at, length) == k;
      }
    }
  }

  /** One loop of insert_keys. */
  method InsertTable(table: seq<Tuple>, at: nat, length: nat) returns (ht: map<nat, Tuple>)
    requires at + 8 <= TUPLE_SIZE && length <= 8 && UniqueKeys(table, at, length)
    ensures Indexes(ht, table, at, length)
  {
    ht := map[];
    for i := 0 to |table|
      invariant Indexes(ht, table[..i], at, length)
    {
      var key := GetKey(table[i], at, length);
      assert table[..i + 1] == table[..i] + [table[i]];
      IndexesNext(ht, table[..i], table[i], at, length);
      ht := ht[key := table[i]];
    }
    assert table[..|table|] == table;
  }

  ghost predicate KeysUnique(tables: Tables) {
    UniqueKeys(tables.date, DAT_DATEKEY_IND, DAT_DATEKEY_LEN) &&
    UniqueKeys(tables.supplier, SUP_KEY_IND, SUP_KEY_LEN) &&
    UniqueKeys(tables.part, PART_KEY_IND, PART_KEY_LEN) && UniqueKeys(tables.customer, CUST_KEY_IND, CUST_KEY_LEN)
  }

  ghost predicate IndexesAll(hts: Lookups, tables: Tables) {
    Indexes(hts.date, tables.date, DAT_DATEKEY_IND, DAT_DATEKEY_LEN) &&
    Indexes(hts.supplier, tables.supplier, SUP_KEY_IND, SUP_KEY_LEN) &&
    Indexes(hts.part, tables.part, PART_KEY_IND, PART_KEY_LEN) &&
    Indexes(hts.customer, tables.customer, CUST_KEY_IND, CUST_KEY_LEN)
  }

  /** struct hash_tables, once its tables are created and empty. */
  class HashTables {
    var date: map<nat, Tuple>
    var supplier: map<nat, Tuple>
    var part: map<nat, Tuple>
    var customer: map<nat, Tuple>

    constructor ()
      ensures Contents() == Lookups(map[], map[], map[], map[])
    {
      date, supplier, part, customer := map[], map[], map[], map[];
    }

    function Contents(): Lookups
      reads this
    {
      Lookups(date, supplier, part, customer)
    }

    method InsertKeys(tables: Tables)
      requires KeysUnique(tables) && Contents() == Lookups(map[], map[], map[], map[])
      modifies this
      ensures IndexesAll(Contents(), tables)
    {
      date := InsertTable(tables.date, DAT_DATEKEY_IND, DAT_DATEKEY_LEN);
      supplier := InsertTable(tables.supplier, SUP_KEY_IND, SUP_KEY_LEN);
      part := InsertTable(tables.part, PART_KEY_IND, PART_KEY_LEN);
      customer := InsertTable(tables.customer, CUST_KEY_IND, CUST_KEY_LEN);
    }
  }

  // ---------------------------------------------------------------- the join

  /** What a lineorder tuple was joined with; a dimension that the flight does not join stays empty. */
  datatype JoinTuple = JoinTuple(lineorder: Tuple, date: Option<Tuple>, supplier: Option<Tuple>, part: Option<Tuple>,
                                 customer: Option<Tuple>)

  function DateRetrieve(key: nat, ht: map<nat, Tuple>, q: Query): Option<Tuple> {
    if key !in ht then None else if DateFilter(ht[key], q) then Some(ht[key]) else None
  }

  function SupplierRetrieve(key: nat, ht: map<nat, Tuple>, q: Query): Option<Tuple> {
    if key !in ht then None else if SupplierFilter(ht[key], q) then Some(ht[key]) else None
  }

  function PartRetrieve(key: nat, ht: map<nat, Tuple>, q: Query): Option<Tuple> {
    if key !in ht then None else if PartFilter(ht[key], q) then Some(ht[key]) else None
  }

  function CustomerRetrieve(key: nat, ht: map<nat, Tuple>, q: Query): Option<Tuple> {
    if key !in ht then None else if CustomerFilter(ht[key], q) then Some(ht[key]) else None
  }

  /** join_and_filter: the probes of a flight in the order of the source, up to the first that fails. */
  function JoinAndFilter(l: Tuple, hts: Lookups, q: Query): Option<JoinTuple> {
    if !LineorderFilter(l, q) then None
    else if q.flight !in {1, 2, 3, 4} then Some(JoinTuple(l, None, None, None, None))
    else
      var date := DateRetrieve(KeyOf(l, LO_ORDERDATE_IND, DAT_DATEKEY_LEN), hts.date, q);
      if date == None then None
      else if q.flight == 1 then Some(JoinTuple(l, date, None, None, None))
      else
        var supplier := SupplierRetrieve(KeyOf(l, LO_SUPKEY_IND, SUP_KEY_LEN), hts.supplier, q);
        if supplier == None then None
        else if q.flight == 2 then
          var part := PartRetrieve(KeyOf(l, LO_PARTKEY_IND, PART_KEY_LEN), hts.part, q);
          if part == None then None else Some(JoinTuple(l, date, supplier, part, None))
        else
          var customer := CustomerRetrieve(KeyOf(l, LO_CUSTKEY_IND, CUST_KEY_LEN), hts.customer, q);
          if customer == None then None
          else if q.flight == 3 then Some(JoinTuple(l, date, supplier, None, customer))
          else
            var part := PartRetrieve(KeyOf(l, LO_PARTKEY_IND, PART_KEY_LEN), hts.part, q);
            if part == None then None else Some(JoinTuple(l, date, supplier, part, customer))
  }
}

/**
 The intermediate tuples of the Star Schema Benchmark engine, their comparators, and the keys
 that the comparators amount to.
 */
module SsbTuples {
  import opened Bytes
  import opened Groups
  import Lex

  /** The queries that group: QF2.1-3, QF3.1, QF3.2-4 and QF4.1. */
  datatype Grouping = ByYearBrand | ByNationsYear | ByCitiesYear | ByYearNation

  type Text9 = s: seq<Byte> | |s| == 9 witness [0, 0, 0, 0, 0, 0, 0, 0, 0]
  type Text10 = s: seq<Byte> | |s| == 10 witness [0, 0, 0, 0, 0, 0, 0, 0, 0, 0]
  type Text15 = s: seq<Byte> | |s| == 15 witness [0, 0, 0, 0, 0, 0, 0, 0, 0, 0, 0, 0, 0, 0, 0]

  /** Years come out of fast_atoi: non-negative 32-bit integers. */
  type Year = y: nat | y < 0x8000_0000

  /**
   The fields that the intermediates of QF2, QF3 and QF4.1 compare and add up.  `amount` is the
   field a grouping accumulates: the revenue, or the result of QF4.1.
   */
  datatype Intermediate = Intermediate(year: Year, brand: Text9, custNation: Text15, supNation: Text15,
                                       custCity: Text10, supCity: Text10, amount: Word)

  /** strncmp on `n` bytes: unsigned comparison that stops at a common NUL. */
  function Strncmp(a: seq<Byte>, b: seq<Byte>, n: nat): int
    requires n <= |a| && n <= |b|
  {
    if n == 0 then 0
    else if a[0] != b[0] then a[0] - b[0]
    else if a[0] == 0 then 0
    else Strncmp(a[1..], b[1..], n - 1)
  }

  /** A 64-bit difference returned as a 32-bit int. */
  function Narrow(x: int): int {
    var low := x % 0x1_0000_0000;
    if low < 0x8000_0000 then low else low - 0x1_0000_0000
  }

  function YearDifference(x: Year, y: Year): int {
    Narrow((x - y) % WORD)
  }

  /** The comparators that qsort and the compaction loops use. */
  function Comparator(g: Grouping, x: Intermediate, y: Intermediate): int {
    match g
    case ByYearBrand =>
      if x.year < y.year then -1 else if x.year > y.year then 1 else Strncmp(x.brand, y.brand, 9)
    case ByNationsYear =>
      var res := Strncmp(x.custNation, y.custNation, 15);
      if res != 0 then res
      else
        var res := Strncmp(x.supNation, y.supNation, 10);
        if res != 0 then res else YearDifference(x.year, y.year)
    case ByCitiesYear =>
      var res := Strncmp(x.custCity, y.custCity, 10);
      if res != 0 then res
      else
        var res := Strncmp(x.supCity, y.supCity, 10);
        if res != 0 then res else YearDifference(x.year, y.year)
    case ByYearNation =>
      var res := YearDifference(x.year, y.year);
      if res != 0 then res else Strncmp(x.custNation, y.custNation, 15)
  }

  // ---------------------------------------------------------------- keys

  /** The bytes before the first NUL among the first `n`, closed by a mark that sorts before every byte. */
  function Part(a: seq<Byte>, n: nat): seq<int>
    requires n <= |a|
  {
    if n == 0 || a[0] == 0 then [-1] else [a[0] as int] + Part(a[1..], n - 1)
  }

  /** What a grouping groups by. */
  function Key(g: Grouping, x: Intermediate): seq<int> {
    match g
    case ByYearBrand => [x.year as int] + Part(x.brand, 9)
    case ByNationsYear => Part(x.custNation, 15) + (Part(x.supNation, 10) + [x.year as int])
    case ByCitiesYear => Part(x.custCity, 10) + (Part(x.supCity, 10) + [x.year as int])
    case ByYearNation => [x.year as int] + Part(x.custNation, 15)
  }

  function Sign(x: int): int {
    if x < 0 then -1 else if x > 0 then 1 else 0
  }

  lemma {:induction false} PartsCompare(a: seq<Byte>, b: seq<Byte>, n: nat, s: seq<int>, t: seq<int>)
    requires n <= |a| && n <= |b|
    ensures Lex.Compare(Part(a, n) + s, Part(b, n) + t) ==
      if Strncmp(a, b, n) != 0 then Sign(Strncmp(a, b, n)) else Lex.Compare(s, t)
  {
    var p, q := Part(a, n) + s, Part(b, n) + t;
    if n == 0 || a[0] == 0 {
      assert p[0] == -1 && p[1..] == s;
    } else {
      assert p[0] == a[0] && p[1..] == Part(a[1..], n - 1) + s;
    }
    if n == 0 || b[0] == 0 {
      assert q[0] == -1 && q[1..] == t;
    } else {
      assert q[0] == b[0] && q[1..] == Part(b[1..], n - 1) + t;
    }
    if n != 0 && a[0] == b[0] != 0 {
      PartsCompare(a[1..], b[1..], n - 1, s, t);
    }
  }

  /** The narrowed difference of two years has the sign of their comparison. */
  lemma YearDifferenceSign(x: Year, y: Year)
    ensures Sign(YearDifference(x, y)) == Sign(x - y)
  {
    if x < y {
      assert (x - y) % WORD == x - y + WORD;
      assert (x - y + WORD) % 0x1_0000_0000 == x - y + 0x1_0000_0000;
    } else {
      assert (x - y) % WORD == x - y;
    }
  }

  lemma YearsCompare(x: Year, y: Year, s: seq<int>, t: seq<int>)
    ensures Lex.Compare([x as int] + s, [y as int] + t) == if x != y then Sign(x - y) else Lex.Compare(s, t)
  {
    assert ([x as int] + s)[1..] == s && ([y as int] + t)[1..] == t;
  }

  /** Every comparator is the lexicographic order of the keys. */
  lemma ComparatorIsKeyOrder(g: Grouping, x: Intermediate, y: Intermediate)
    ensures Sign(Comparator(g, x, y)) == Lex.Compare(Key(g, x), Key(g, y))
  {
    YearDifferenceSign(x.year, y.year);
    match g
    case ByYearBrand =>
      YearsCompare(x.year, y.year, Part(x.brand, 9), Part(y.brand, 9));
      PartsCompare(x.brand, y.brand, 9, [], []);
      assert Part(x.brand, 9) + [] == Part(x.brand, 9) && Part(y.brand, 9) + [] == Part(y.brand, 9);
    case ByYearNation =>
      YearsCompare(x.year, y.year, Part(x.custNation, 15), Part(y.custNation, 15));
      PartsCompare(x.custNation, y.custNation, 15, [], []);
      assert Part(x.custNation, 15) + [] == Part(x.custNation, 15);
      assert Part(y.custNation, 15) + [] == Part(y.custNation, 15);
    case ByNationsYear =>
      PartsCompare(x.custNation, y.custNation, 15, Part(x.supNation, 10) + [x.year as int],
                   Part(y.supNation, 10) + [y.year as int]);
      PartsCompare(x.supNation, y.supNation, 10, [x.year as int], [y.year as int]);
      YearsCompare(x.year, y.year, [], []);
      assert [x.year as int] + [] == [x.year as int] && [y.year as int] + [] == [y.year as int];
    case ByCitiesYear =>
      PartsCompare(x.custCity, y.custCity, 10, Part(x.supCity, 10) + [x.year as int],
                   Part(y.supCity, 10) + [y.year as int]);
      PartsCompare(x.supCity, y.supCity, 10, [x.year as int], [y.year as int]);
      YearsCompare(x.year, y.year, [], []);
      assert [x.year as int] + [] == [x.year as int] && [y.year as int] + [] == [y.year as int];
  }

  /** The same text, up to the first NUL among the first `n` bytes. */
  predicate SameText(a: seq<Byte>, b: seq<Byte>, n: nat)
    requires n <= |a| && n <= |b|
  {
    forall i :: 0 <= i < n ==> a[i] == b[i] || exists j :: 0 <= j < i && a[j] == b[j] == 0
  }

  lemma {:induction false} StrncmpIsSameText(a: seq<Byte>, b: seq<Byte>, n: nat)
    requires n <= |a| && n <= |b|
    ensures Strncmp(a, b, n) == 0 <==> SameText(a, b, n)
  {
    if n != 0 {
      if a[0] == b[0] != 0 {
        StrncmpIsSameText(a[1..], b[1..], n - 1);
        TextTail(a, b, n);
      } else if a[0] == b[0] {
        forall i | 0 <= i < n ensures a[i] == b[i] || exists j :: 0 <= j < i && a[j] == b[j] == 0 {
          assert i > 0 ==> 0 <= 0 < i && a[0] == b[0] == 0;
        }
      }
    }
  }

  lemma TextTail(a: seq<Byte>, b: seq<Byte>, n: nat)
    requires 0 < n <= |a| && n <= |b| && a[0] == b[0] != 0
    ensures SameText(a, b, n) <==> SameText(a[1..], b[1..], n - 1)
  {
    if SameText(a, b, n) {
      forall i | 0 <= i < n - 1
        ensures a[1..][i] == b[1..][i] || exists j :: 0 <= j < i && a[1..][j] == b[1..][j] == 0
      {
        if a[i + 1] != b[i + 1] {
          var j :| 0 <= j < i + 1 && a[j] == b[j] == 0;
          assert a[1..][j - 1] == b[1..][j - 1] == 0;
        }
      }
    }
    if SameText(a[1..], b[1..], n - 1) {
      forall i | 0 <= i < n ensures a[i] == b[i] || exists j :: 0 <= j < i && a[j] == b[j] == 0 {
        if a[i] != b[i] {
          assert a[1..][i - 1] != b[1..][i - 1];
          var j :| 0 <= j < i - 1 && a[1..][j] == b[1..][j] == 0;
          assert a[j + 1] == b[j + 1] == 0;
        }
      }
    }
  }

  /** The columns that a query groups by agree. */
  predicate SameColumns(g: Grouping, x: Intermediate, y: Intermediate) {
    x.year == y.year &&
    match g
    case ByYearBrand => SameText(x.brand, y.brand, 9)
    case ByNationsYear => SameText(x.custNation, y.custNation, 15) && SameText(x.supNation, y.supNation, 10)
    case ByCitiesYear => SameText(x.custCity, y.custCity, 10) && SameText(x.supCity, y.supCity, 10)
    case ByYearNation => SameText(x.custNation, y.custNation, 15)
  }

  /**
   Rows have the same key exactly when the columns they are grouped by agree; supplier nations count to ten
   characters.
   */
  lemma SameKeyIffSameColumns(g: Grouping, x: Intermediate, y: Intermediate)
    ensures Key(g, x) == Key(g, y) <==> SameColumns(g, x, y)
  {
    ComparatorIsKeyOrder(g, x, y);
    Lex.CompareEqual(Key(g, x), Key(g, y));
    YearDifferenceSign(x.year, y.year);
    StrncmpIsSameText(x.brand, y.brand, 9);
    StrncmpIsSameText(x.custNation, y.custNation, 15);
    StrncmpIsSameText(x.supNation, y.supNation, 10);
    StrncmpIsSameText(x.custCity, y.custCity, 10);
    StrncmpIsSameText(x.supCity, y.supCity, 10);
  }
}

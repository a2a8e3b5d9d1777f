/**
 The second GROUP BY of a socket runs on as many tuples as there are threads, not as many as they
 stored: when that is right.
 */
module Counts {
  import opened Groups
  import Lex

  lemma {:induction false} ConcatAtLeast<T>(parts: seq<seq<T>>)
    requires forall i :: 0 <= i < |parts| ==> 1 <= |parts[i]|
    ensures |Concat(parts)| >= |parts|
    ensures (forall i :: 0 <= i < |parts| ==> |parts[i]| == 1) <==> |Concat(parts)| == |parts|
  {
    if |parts| != 0 {
      ConcatAtLeast(parts[..|parts| - 1]);
      assert forall i :: 0 <= i < |parts| - 1 ==> parts[..|parts| - 1][i] == parts[i];
    }
  }

  ghost predicate NonEmpty<T>(parts: seq<seq<T>>) {
    forall i :: 0 <= i < |parts| ==> 1 <= |parts[i]|
  }

  /** `result` groups the first of the groups of the parts: as many as there are parts. */
  ghost predicate CountedByThread(parts: seq<seq<Entry>>, groups: seq<seq<Entry>>, result: seq<Entry>) {
    GroupedParts(parts, groups) && NonEmpty(groups) && |parts| <= |Concat(groups)| &&
    Grouped(Concat(groups)[..|parts|], result)
  }

  // ---------------------------------------------------------------- sums without overflow

  ghost predicate Positive(rows: seq<Entry>) {
    forall i :: 0 <= i < |rows| ==> rows[i].amount > 0
  }

  lemma {:induction false} TotalPositive(rows: seq<Entry>, k: seq<int>)
    requires Positive(rows) && k in KeySet(rows)
    ensures Total(rows, k) > 0
  {
    var init, last := rows[..|rows| - 1], rows[|rows| - 1];
    assert rows == init + [last];
    KeySetLast(init, last);
    if last.key != k {
      TotalPositive(init, k);
    }
  }

  lemma {:induction false} PartAtMost(parts: seq<seq<Entry>>, i: nat, k: seq<int>)
    requires i < |parts|
    ensures Total(parts[i], k) <= Total(Concat(parts), k)
  {
    var n := |parts| - 1;
    TotalAppend(Concat(parts[..n]), parts[n], k);
    if i < n {
      PartAtMost(parts[..n], i, k);
    }
  }

  lemma SmallWord(x: nat)
    requires x < WORD
    ensures x % WORD == x
  {
  }

  lemma GroupedExact(rows: seq<Entry>, groups: seq<Entry>, k: seq<int>)
    requires Grouped(rows, groups) && Total(rows, k) < WORD
    ensures Total(groups, k) == Total(rows, k)
  {
    if k in KeySet(groups) {
      var i :| 0 <= i < |groups| && groups[i].key == k;
      TotalOrdered(groups, i);
      SmallWord(Total(rows, k));
    } else {
      TotalMissing(groups, k);
      TotalMissing(rows, k);
    }
  }

  lemma {:induction false} ConcatExact(parts: seq<seq<Entry>>, groups: seq<seq<Entry>>, k: seq<int>)
    requires |parts| == |groups| && forall i :: 0 <= i < |parts| ==> Total(groups[i], k) == Total(parts[i], k)
    ensures Total(Concat(groups), k) == Total(Concat(parts), k)
  {
    if |parts| != 0 {
      var n := |parts| - 1;
      ConcatExact(parts[..n], groups[..n], k);
      TotalAppend(Concat(groups[..n]), groups[n], k);
      TotalAppend(Concat(parts[..n]), parts[n], k);
    }
  }

  /** The true sum of every key fits a word. */
  ghost predicate NoOverflow(rows: seq<Entry>) {
    forall k :: Total(rows, k) < WORD
  }

  ghost predicate AllPositive(parts: seq<seq<Entry>>) {
    forall i :: 0 <= i < |parts| ==> Positive(parts[i])
  }

  lemma GroupsPositive(rows: seq<Entry>, groups: seq<Entry>)
    requires Grouped(rows, groups) && Positive(rows) && NoOverflow(rows)
    ensures Positive(groups)
  {
    forall i | 0 <= i < |groups| ensures groups[i].amount > 0 {
      assert groups[i].key in KeySet(groups);
      TotalPositive(rows, groups[i].key);
      assert Total(rows, groups[i].key) < WORD;
    }
  }

  lemma {:induction false} ConcatPositive(parts: seq<seq<Entry>>)
    requires AllPositive(parts)
    ensures Positive(Concat(parts))
  {
    if |parts| != 0 {
      ConcatPositive(parts[..|parts| - 1]);
    }
  }

  lemma {:induction false} OrderedSize(groups: seq<Entry>)
    requires Ordered(groups)
    ensures |KeySet(groups)| == |groups|
  {
    KeySetEmpty(groups);
    if |groups| != 0 {
      OrderedInit(groups);
      OrderedSize(groups[..|groups| - 1]);
    }
  }

  // ---------------------------------------------------------------- when the count is right

  lemma PartsPositive(parts: seq<seq<Entry>>, groups: seq<seq<Entry>>)
    requires GroupedParts(parts, groups) && AllPositive(parts) && NoOverflow(Concat(parts))
    ensures Positive(Concat(groups)) && NoOverflow(Concat(groups))
  {
    forall i | 0 <= i < |parts| ensures NoOverflow(parts[i]) && Positive(groups[i]) {
      forall k ensures Total(parts[i], k) < WORD {
        PartAtMost(parts, i, k);
      }
      GroupsPositive(parts[i], groups[i]);
    }
    ConcatPositive(groups);
    forall k ensures Total(Concat(groups), k) < WORD {
      forall i | 0 <= i < |parts| ensures Total(groups[i], k) == Total(parts[i], k) {
        GroupedExact(parts[i], groups[i], k);
      }
      ConcatExact(parts, groups, k);
    }
  }

  /** Of positive amounts that do not overflow, none can be left out. */
  lemma NothingLeftOut(all: seq<Entry>, n: nat, result: seq<Entry>)
    requires n <= |all| && Positive(all) && NoOverflow(all) && Grouped(all[..n], result)
    ensures Grouped(all, result) <==> n == |all|
  {
    var kept, dropped := all[..n], all[n..];
    assert kept + dropped == all;
    RowsLeftOut(kept, dropped, result);
    KeySetEmpty(dropped);
    if n < |all| {
      var k := dropped[0].key;
      assert k in KeySet(dropped);
      TotalPositive(dropped, k);
      TotalAppend(kept, dropped, k);
      assert Total(all, k) < WORD;
    }
  }

  lemma GroupsOnePerPart(parts: seq<seq<Entry>>, groups: seq<seq<Entry>>)
    requires GroupedParts(parts, groups) && NonEmpty(groups)
    ensures |Concat(groups)| == |parts| <==> forall i :: 0 <= i < |parts| ==> |KeySet(parts[i])| == 1
  {
    ConcatAtLeast(groups);
    forall i | 0 <= i < |parts| ensures |KeySet(parts[i])| == |groups[i]| {
      OrderedSize(groups[i]);
    }
  }

  /**
   With positive amounts that do not overflow, the count of threads is right exactly when every thread found
   one group.
   */
  lemma CountRightIffOneGroupEach(parts: seq<seq<Entry>>, groups: seq<seq<Entry>>, result: seq<Entry>)
    requires CountedByThread(parts, groups, result)
    requires AllPositive(parts) && NoOverflow(Concat(parts))
    ensures Grouped(Concat(parts), result) <==> forall i :: 0 <= i < |parts| ==> |KeySet(parts[i])| == 1
  {
    PartsPositive(parts, groups);
    NothingLeftOut(Concat(groups), |parts|, result);
    GroupsOnePerPart(parts, groups);
    TwoPhase(parts, groups, result);
  }

  /** Whatever the amounts, the count of threads is right when every thread found one group. */
  lemma CountRightForOneGroupEach(parts: seq<seq<Entry>>, groups: seq<seq<Entry>>, result: seq<Entry>)
    requires CountedByThread(parts, groups, result)
    requires forall i :: 0 <= i < |parts| ==> |KeySet(parts[i])| == 1
    ensures Grouped(Concat(parts), result)
  {
    GroupsOnePerPart(parts, groups);
    assert Concat(groups)[..|parts|] == Concat(groups);
    TwoPhase(parts, groups, result);
  }

  lemma ConcatTwo<T>(a: seq<T>, b: seq<T>)
    ensures Concat([a, b]) == a + b
  {
    assert [a, b][..1] == [a];
    assert Concat([a]) == Concat([a][..0]) + a;
  }

  /** Two threads that both find two groups: the second thread's rows are lost. */
  lemma SecondThreadLost(a: Entry, b: Entry)
    requires Lex.Less(a.key, b.key) && 0 < a.amount < 0x8000_0000 && 0 < b.amount < 0x8000_0000
    ensures var part := [a, b];
      CountedByThread([part, part], [part, part], part) && !Grouped(Concat([part, part]), part)
  {
    var part := [a, b];
    LessIrreflexive(a.key);
    TwoAreGrouped(a, b);
    ConcatTwo(part, part);
    assert (part + part)[..2] == part;
    TwiceIsNotGrouped(a, b);
  }

  lemma TwoAreGrouped(a: Entry, b: Entry)
    requires Lex.Less(a.key, b.key)
    ensures Grouped([a, b], [a, b])
  {
    LessIrreflexive(a.key);
    TotalsOfTwo(a, b);
  }

  lemma TwiceIsNotGrouped(a: Entry, b: Entry)
    requires a.key != b.key && 0 < a.amount < 0x8000_0000
    ensures !Grouped([a, b] + [a, b], [a, b])
  {
    TotalsOfTwo(a, b);
    TotalAppend([a, b], [a, b], a.key);
    assert [a, b][0].key == a.key;
  }

  lemma TotalsOfTwo(a: Entry, b: Entry)
    requires a.key != b.key
    ensures Total([a, b], a.key) == a.amount && Total([a, b], b.key) == b.amount
  {
    TotalOne(a, a.key);
    TotalOne(a, b.key);
    assert [a, b] == [a] + [b];
    TotalLast([a], b, a.key);
    TotalLast([a], b, b.key);
  }
}

/** GROUP BY SUM on entries of a key and an amount: the reference definition and what it satisfies. */
module Groups {
  import Lex

  const WORD: nat := 0x1_0000_0000_0000_0000

  /** uint64_t. */
  type Word = x: nat | x < WORD

  datatype Entry = Entry(key: seq<int>, amount: Word)

  function KeySet(rows: seq<Entry>): set<seq<int>> {
    set i | 0 <= i < |rows| :: rows[i].key
  }

  function AmountFor(e: Entry, k: seq<int>): nat {
    if e.key == k then e.amount else 0
  }

  /** SELECT SUM(amount) WHERE key = `k`, without overflow. */
  ghost function Total(rows: seq<Entry>, k: seq<int>): nat {
    if |rows| == 0 then 0 else Total(rows[..|rows| - 1], k) + AmountFor(rows[|rows| - 1], k)
  }

  /** Keys strictly increase. */
  ghost predicate Ordered(groups: seq<Entry>) {
    forall i, j :: 0 <= i < j < |groups| ==> Lex.Less(groups[i].key, groups[j].key)
  }

  /** Every group carries the sum of its rows, in 64-bit arithmetic. */
  ghost predicate RightSums(rows: seq<Entry>, groups: seq<Entry>) {
    forall i :: 0 <= i < |groups| ==> groups[i].amount == Total(rows, groups[i].key) % WORD
  }

  /** `groups` is the result of grouping `rows`: one entry for each key, in key order, with the sum of its rows. */
  ghost predicate Grouped(rows: seq<Entry>, groups: seq<Entry>) {
    Ordered(groups) && KeySet(groups) == KeySet(rows) && RightSums(rows, groups)
  }

  // ---------------------------------------------------------------- keys and sums

  lemma KeySetAppend(a: seq<Entry>, b: seq<Entry>)
    ensures KeySet(a + b) == KeySet(a) + KeySet(b)
  {
    forall k | k in KeySet(a) + KeySet(b) ensures k in KeySet(a + b) {
      if k in KeySet(a) {
        var i :| 0 <= i < |a| && a[i].key == k;
        assert (a + b)[i].key == k;
      } else {
        var i :| 0 <= i < |b| && b[i].key == k;
        assert (a + b)[|a| + i].key == k;
      }
    }
  }

  lemma {:induction false} TotalAppend(a: seq<Entry>, b: seq<Entry>, k: seq<int>)
    ensures Total(a + b, k) == Total(a, k) + Total(b, k)
  {
    if |b| == 0 {
      assert a + b == a;
    } else {
      TotalAppend(a, b[..|b| - 1], k);
      assert (a + b)[..|a + b| - 1] == a + b[..|b| - 1];
    }
  }

  lemma TotalOne(e: Entry, k: seq<int>)
    ensures Total([e], k) == AmountFor(e, k)
  {
    assert [e][..0] == [];
  }

  lemma TotalSplit(rows: seq<Entry>, i: nat, k: seq<int>)
    requires i < |rows|
    ensures Total(rows, k) == Total(rows[..i] + rows[i + 1..], k) + AmountFor(rows[i], k)
  {
    var a, x, b := rows[..i], [rows[i]], rows[i + 1..];
    assert rows == a + (x + b);
    TotalAppend(a, x + b, k);
    TotalAppend(x, b, k);
    TotalAppend(a, b, k);
    TotalOne(rows[i], k);
  }

  lemma RemoveAt<T>(s: seq<T>, i: nat)
    requires i < |s|
    ensures multiset(s[..i] + s[i + 1..]) == multiset(s) - multiset{s[i]}
  {
    assert s == s[..i] + ([s[i]] + s[i + 1..]);
  }

  /** The last element of a sequence, found in a permutation of it, and what is left of both. */
  lemma MatchLast<T>(a: seq<T>, b: seq<T>) returns (i: nat)
    requires multiset(a) == multiset(b) && |a| > 0
    ensures i < |b| && b[i] == a[|a| - 1]
    ensures multiset(a[..|a| - 1]) == multiset(b[..i] + b[i + 1..])
  {
    assert a[|a| - 1] in multiset(b);
    i :| 0 <= i < |b| && b[i] == a[|a| - 1];
    RemoveAt(a, |a| - 1);
    RemoveAt(b, i);
    assert a[..|a| - 1] + a[|a|..] == a[..|a| - 1];
  }

  /** A sum does not depend on the order of the rows. */
  lemma {:induction false} TotalPermutation(a: seq<Entry>, b: seq<Entry>, k: seq<int>)
    requires multiset(a) == multiset(b)
    ensures Total(a, k) == Total(b, k)
  {
    if |a| == 0 {
      assert |multiset(b)| == 0;
    } else {
      var i := MatchLast(a, b);
      TotalPermutation(a[..|a| - 1], b[..i] + b[i + 1..], k);
      TotalSplit(b, i, k);
    }
  }

  lemma {:induction false} TotalMissing(rows: seq<Entry>, k: seq<int>)
    requires k !in KeySet(rows)
    ensures Total(rows, k) == 0
  {
    if |rows| != 0 {
      var init, last := rows[..|rows| - 1], rows[|rows| - 1];
      assert rows == init + [last];
      KeySetAppend(init, [last]);
      TotalMissing(init, k);
      assert last.key in KeySet(rows);
    }
  }

  /** Grouping the rows in another order gives the same result. */
  lemma GroupedPermutation(a: seq<Entry>, b: seq<Entry>, groups: seq<Entry>)
    requires multiset(a) == multiset(b) && Grouped(a, groups)
    ensures Grouped(b, groups)
  {
    forall i | 0 <= i < |groups| ensures groups[i].amount == Total(b, groups[i].key) % WORD {
      TotalPermutation(a, b, groups[i].key);
    }
    KeySetPermutation(a, b);
    KeySetPermutation(b, a);
  }

  lemma KeySetPermutation(a: seq<Entry>, b: seq<Entry>)
    requires multiset(a) == multiset(b)
    ensures KeySet(a) <= KeySet(b)
  {
    forall k | k in KeySet(a) ensures k in KeySet(b) {
      var i :| 0 <= i < |a| && a[i].key == k;
      assert a[i] in multiset(b);
    }
  }

  // ---------------------------------------------------------------- the compaction loop

  /** Keys do not decrease. */
  ghost predicate Sorted(rows: seq<Entry>) {
    forall i, j :: 0 <= i < j < |rows| ==> !Lex.Less(rows[j].key, rows[i].key)
  }

  function AddAmount(x: Entry, y: Entry): Entry {
    x.(amount := (x.amount + y.amount) % WORD)
  }

  /** What the compaction loop has built after the rows in `rows`. */
  ghost function Compacted(rows: seq<Entry>): (groups: seq<Entry>)
    requires |rows| > 0
    ensures 0 < |groups| <= |rows|
  {
    if |rows| == 1 then rows
    else
      var groups, last := Compacted(rows[..|rows| - 1]), rows[|rows| - 1];
      var rep := |groups| - 1;
      if groups[rep].key == last.key then groups[rep := AddAmount(groups[rep], last)] else groups + [last]
  }

  lemma LessIrreflexive(k: seq<int>)
    ensures !Lex.Less(k, k)
  {
    Lex.CompareEqual(k, k);
  }

  lemma TotalLast(init: seq<Entry>, last: Entry, k: seq<int>)
    ensures Total(init + [last], k) == Total(init, k) + AmountFor(last, k)
  {
    assert (init + [last])[..|init|] == init;
  }

  lemma KeySetLast(init: seq<Entry>, last: Entry)
    ensures KeySet(init + [last]) == KeySet(init) + {last.key}
  {
    KeySetAppend(init, [last]);
    assert [last][0].key in KeySet([last]);
  }

  lemma KeySetSameKeys(a: seq<Entry>, b: seq<Entry>)
    requires |a| == |b| && forall i :: 0 <= i < |a| ==> a[i].key == b[i].key
    ensures KeySet(a) == KeySet(b)
  {
    forall k ensures k in KeySet(a) <==> k in KeySet(b) {
    }
  }

  /** One round of the loop that meets the key of the current group. */
  lemma GroupedSame(init: seq<Entry>, last: Entry, groups: seq<Entry>)
    requires Grouped(init, groups) && |groups| > 0 && groups[|groups| - 1].key == last.key
    ensures Grouped(init + [last], groups[|groups| - 1 := AddAmount(groups[|groups| - 1], last)])
  {
    var rep := |groups| - 1;
    var groups' := groups[rep := AddAmount(groups[rep], last)];
    KeySetSameKeys(groups, groups');
    KeySetLast(init, last);
    assert groups[rep].key in KeySet(groups);
    forall i | 0 <= i < |groups'| ensures groups'[i].amount == Total(init + [last], groups'[i].key) % WORD {
      TotalLast(init, last, groups'[i].key);
      if i != rep {
        LessIrreflexive(last.key);
        assert Lex.Less(groups[i].key, groups[rep].key);
      }
    }
  }

  /** One round of the loop that meets a greater key: it becomes the next group. */
  lemma GroupedNext(init: seq<Entry>, last: Entry, groups: seq<Entry>)
    requires Grouped(init, groups) && forall i :: 0 <= i < |groups| ==> Lex.Less(groups[i].key, last.key)
    ensures Grouped(init + [last], groups + [last])
  {
    LessIrreflexive(last.key);
    KeySetLast(init, last);
    KeySetLast(groups, last);
    assert last.key !in KeySet(groups);
    TotalMissing(init, last.key);
    forall i | 0 <= i < |groups + [last]|
      ensures (groups + [last])[i].amount == Total(init + [last], (groups + [last])[i].key) % WORD
    {
      TotalLast(init, last, (groups + [last])[i].key);
    }
  }

  lemma LastIsGreater(groups: seq<Entry>, last: Entry)
    requires Ordered(groups) && |groups| > 0
    requires groups[|groups| - 1].key != last.key && !Lex.Less(last.key, groups[|groups| - 1].key)
    ensures forall i :: 0 <= i < |groups| ==> Lex.Less(groups[i].key, last.key)
  {
    var top := groups[|groups| - 1].key;
    Lex.CompareReverse(top, last.key);
    Lex.CompareEqual(top, last.key);
    forall i | 0 <= i < |groups| ensures Lex.Less(groups[i].key, last.key) {
      if i < |groups| - 1 {
        assert Lex.Less(groups[i].key, top);
      } else {
        LessIrreflexive(top);
      }
      if i < |groups| - 1 {
        Lex.LessTransitive(groups[i].key, top, last.key);
      }
    }
  }

  /** Compacting sorted rows groups them; the last group has the key of the last row. */
  lemma {:induction false} CompactedIsGrouped(rows: seq<Entry>)
    requires |rows| > 0 && Sorted(rows)
    ensures Grouped(rows, Compacted(rows))
    ensures var groups := Compacted(rows); groups[|groups| - 1].key == rows[|rows| - 1].key
  {
    if |rows| == 1 {
      TotalOne(rows[0], rows[0].key);
      assert rows == [rows[0]];
    } else {
      var init, last := rows[..|rows| - 1], rows[|rows| - 1];
      assert rows == init + [last];
      CompactedIsGrouped(init);
      var groups := Compacted(init);
      if groups[|groups| - 1].key == last.key {
        GroupedSame(init, last, groups);
      } else {
        assert !Lex.Less(last.key, rows[|rows| - 2].key);
        LastIsGreater(groups, last);
        GroupedNext(init, last, groups);
      }
    }
  }

  // ---------------------------------------------------------------- what the definition determines

  lemma OrderedInit(groups: seq<Entry>)
    requires Ordered(groups) && |groups| > 0
    ensures var init, last := groups[..|groups| - 1], groups[|groups| - 1];
      Ordered(init) && KeySet(groups) == KeySet(init) + {last.key} && last.key !in KeySet(init)
  {
    var init, last := groups[..|groups| - 1], groups[|groups| - 1];
    assert groups == init + [last];
    KeySetLast(init, last);
    LessIrreflexive(last.key);
  }

  /** The last key of an ordered sequence is its greatest. */
  lemma LastKeyIsGreatest(groups: seq<Entry>, k: seq<int>)
    requires Ordered(groups) && |groups| > 0 && k in KeySet(groups)
    ensures !Lex.Less(groups[|groups| - 1].key, k)
  {
    var top := groups[|groups| - 1].key;
    var i :| 0 <= i < |groups| && groups[i].key == k;
    LessIrreflexive(top);
    Lex.CompareReverse(k, top);
  }

  lemma KeySetEmpty(s: seq<Entry>)
    ensures KeySet(s) == {} <==> |s| == 0
  {
    if |s| != 0 {
      assert s[0].key in KeySet(s);
    }
  }

  /** Two ordered sequences with the same keys list them alike. */
  lemma {:induction false} OrderedKeysUnique(a: seq<Entry>, b: seq<Entry>)
    requires Ordered(a) && Ordered(b) && KeySet(a) == KeySet(b)
    ensures |a| == |b| && forall i :: 0 <= i < |a| ==> a[i].key == b[i].key
  {
    KeySetEmpty(a);
    KeySetEmpty(b);
    if |a| != 0 {
      var top, top' := a[|a| - 1].key, b[|b| - 1].key;
      assert top in KeySet(a) && top' in KeySet(b);
      LastKeyIsGreatest(a, top');
      LastKeyIsGreatest(b, top);
      Lex.CompareReverse(top, top');
      Lex.CompareEqual(top, top');
      OrderedInit(a);
      OrderedInit(b);
      OrderedKeysUnique(a[..|a| - 1], b[..|b| - 1]);
    }
  }

  /** The result of a grouping is unique. */
  lemma GroupedUnique(rows: seq<Entry>, a: seq<Entry>, b: seq<Entry>)
    requires Grouped(rows, a) && Grouped(rows, b)
    ensures a == b
  {
    OrderedKeysUnique(a, b);
  }

  // ---------------------------------------------------------------- grouping groups

  /** In an ordered sequence the sum for a key is the amount of its only entry. */
  lemma {:induction false} TotalOrdered(groups: seq<Entry>, i: nat)
    requires Ordered(groups) && i < |groups|
    ensures Total(groups, groups[i].key) == groups[i].amount
  {
    var init, last := groups[..|groups| - 1], groups[|groups| - 1];
    OrderedInit(groups);
    if i == |groups| - 1 {
      TotalMissing(init, last.key);
    } else {
      TotalOrdered(init, i);
      assert init[i].key in KeySet(init);
    }
  }

  lemma ReducedTwice(x: nat)
    ensures x % WORD % WORD == x % WORD
  {
  }

  /** Groups carry the sums of the rows, whatever key one asks for. */
  lemma GroupedTotal(rows: seq<Entry>, groups: seq<Entry>, k: seq<int>)
    requires Grouped(rows, groups)
    ensures Total(groups, k) % WORD == Total(rows, k) % WORD
  {
    if k in KeySet(groups) {
      var i :| 0 <= i < |groups| && groups[i].key == k;
      TotalOrdered(groups, i);
      ReducedTwice(Total(rows, k));
    } else {
      TotalMissing(groups, k);
      TotalMissing(rows, k);
    }
  }

  function Concat<T>(parts: seq<seq<T>>): seq<T> {
    if |parts| == 0 then [] else Concat(parts[..|parts| - 1]) + parts[|parts| - 1]
  }

  lemma AddCongruent(a: nat, a': nat, b: nat, b': nat)
    requires a % WORD == a' % WORD && b % WORD == b' % WORD
    ensures (a + b) % WORD == (a' + b') % WORD
  {
  }

  ghost predicate GroupedParts(parts: seq<seq<Entry>>, groups: seq<seq<Entry>>) {
    |parts| == |groups| && forall i :: 0 <= i < |parts| ==> Grouped(parts[i], groups[i])
  }

  /** Two sequences of rows with the same sum for `k`, in 64-bit arithmetic. */
  ghost predicate SameTotal(a: seq<Entry>, b: seq<Entry>, k: seq<int>) {
    Total(a, k) % WORD == Total(b, k) % WORD
  }

  lemma SameTotalAppend(a: seq<Entry>, b: seq<Entry>, c: seq<Entry>, d: seq<Entry>, k: seq<int>)
    requires SameTotal(a, b, k) && SameTotal(c, d, k)
    ensures SameTotal(a + c, b + d, k)
  {
    TotalAppend(a, c, k);
    TotalAppend(b, d, k);
    AddCongruent(Total(a, k), Total(b, k), Total(c, k), Total(d, k));
  }

  lemma {:induction false} ConcatSameTotal(parts: seq<seq<Entry>>, groups: seq<seq<Entry>>, k: seq<int>)
    requires |parts| == |groups| && forall i :: 0 <= i < |parts| ==> SameTotal(groups[i], parts[i], k)
    ensures SameTotal(Concat(groups), Concat(parts), k)
  {
    if |parts| != 0 {
      var n := |parts| - 1;
      ConcatSameTotal(parts[..n], groups[..n], k);
      SameTotalAppend(Concat(groups[..n]), Concat(parts[..n]), groups[n], parts[n], k);
    }
  }

  lemma PartsTotal(parts: seq<seq<Entry>>, groups: seq<seq<Entry>>, k: seq<int>)
    requires GroupedParts(parts, groups)
    ensures SameTotal(Concat(groups), Concat(parts), k)
  {
    forall i | 0 <= i < |parts| ensures SameTotal(groups[i], parts[i], k) {
      GroupedTotal(parts[i], groups[i], k);
    }
    ConcatSameTotal(parts, groups, k);
  }

  lemma {:induction false} PartsKeys(parts: seq<seq<Entry>>, groups: seq<seq<Entry>>)
    requires GroupedParts(parts, groups)
    ensures KeySet(Concat(groups)) == KeySet(Concat(parts))
  {
    if |parts| != 0 {
      var n := |parts| - 1;
      PartsKeys(parts[..n], groups[..n]);
      KeySetAppend(Concat(groups[..n]), groups[n]);
      KeySetAppend(Concat(parts[..n]), parts[n]);
    }
  }

  /** Two-phase aggregation is one-phase aggregation: grouping the groups of the parts groups all rows. */
  lemma TwoPhase(parts: seq<seq<Entry>>, groups: seq<seq<Entry>>, result: seq<Entry>)
    requires GroupedParts(parts, groups)
    ensures Grouped(Concat(groups), result) <==> Grouped(Concat(parts), result)
  {
    PartsKeys(parts, groups);
    forall i | 0 <= i < |result|
      ensures SameTotal(Concat(groups), Concat(parts), result[i].key)
    {
      PartsTotal(parts, groups, result[i].key);
    }
  }

  /**
   Grouping only the first of the rows is right exactly when the rows left out bring no new key and
   add up to nothing for each of theirs.
   */
  lemma RowsLeftOut(kept: seq<Entry>, dropped: seq<Entry>, result: seq<Entry>)
    requires Grouped(kept, result)
    ensures Grouped(kept + dropped, result) <==>
      forall k :: k in KeySet(dropped) ==> k in KeySet(kept) && Total(dropped, k) % WORD == 0
  {
    KeySetAppend(kept, dropped);
    forall k ensures Total(kept + dropped, k) == Total(kept, k) + Total(dropped, k) {
      TotalAppend(kept, dropped, k);
    }
    if Grouped(kept + dropped, result) {
      forall k | k in KeySet(dropped) ensures k in KeySet(kept) && Total(dropped, k) % WORD == 0 {
        var i :| 0 <= i < |result| && result[i].key == k;
      }
    } else if forall k :: k in KeySet(dropped) ==> k in KeySet(kept) && Total(dropped, k) % WORD == 0 {
      forall i | 0 <= i < |result| ensures result[i].amount == Total(kept + dropped, result[i].key) % WORD {
        if result[i].key !in KeySet(dropped) {
          TotalMissing(dropped, result[i].key);
        }
        AddCongruent(Total(kept, result[i].key), Total(kept, result[i].key), Total(dropped, result[i].key), 0);
      }
      assert false;
    }
  }
}

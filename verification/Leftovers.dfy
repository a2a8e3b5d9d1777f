/**
 What the second GROUP BY of a socket gets and what it should get.  The groups that stand behind the
 place given by the number of threads stay out, and what lay in the buffers of threads without rows
 comes in.
 */
module Leftovers {
  import opened Groups
  import opened Counts

  /** The sequences at the places where `flags` is `want`, and nothing at the others. */
  function Choose<T>(parts: seq<seq<T>>, flags: seq<bool>, want: bool): (chosen: seq<seq<T>>)
    requires |flags| == |parts|
    ensures |chosen| == |parts|
    ensures forall i :: 0 <= i < |parts| ==> chosen[i] == if flags[i] == want then parts[i] else []
  {
    seq(|parts|, i requires 0 <= i < |parts| => if flags[i] == want then parts[i] else [])
  }

  /** How many elements of the i-th sequence are among the first `n` of all. */
  function Reach<T>(parts: seq<seq<T>>, i: nat, n: nat): (reach: nat)
    requires i < |parts|
    ensures reach <= |parts[i]|
  {
    var before := |Concat(parts[..i])|;
    if n <= before then 0 else if n - before < |parts[i]| then n - before else |parts[i]|
  }

  /** What of every sequence stands among the first `n` elements of all. */
  function Fronts<T>(parts: seq<seq<T>>, n: nat): (fronts: seq<seq<T>>)
    ensures |fronts| == |parts|
    ensures forall i :: 0 <= i < |parts| ==> fronts[i] == parts[i][..Reach(parts, i, n)]
  {
    seq(|parts|, i requires 0 <= i < |parts| => parts[i][..Reach(parts, i, n)])
  }

  /** What of every sequence stands behind them. */
  function Backs<T>(parts: seq<seq<T>>, n: nat): (backs: seq<seq<T>>)
    ensures |backs| == |parts|
    ensures forall i :: 0 <= i < |parts| ==> backs[i] == parts[i][Reach(parts, i, n)..]
  {
    seq(|parts|, i requires 0 <= i < |parts| => parts[i][Reach(parts, i, n)..])
  }

  function First<T>(s: seq<T>, n: nat): seq<T> {
    s[..if n < |s| then n else |s|]
  }

  lemma FirstOfAppend<T>(a: seq<T>, b: seq<T>, n: nat)
    ensures First(a + b, n) == First(a, n) + First(b, if n <= |a| then 0 else n - |a|)
  {
  }

  lemma FrontsInit<T>(parts: seq<seq<T>>, n: nat, m: nat)
    requires m <= |parts|
    ensures Fronts(parts, n)[..m] == Fronts(parts[..m], n)
  {
    assert forall i :: 0 <= i < m ==> parts[..i] == parts[..m][..i];
  }

  lemma {:induction false} FrontsConcat<T>(parts: seq<seq<T>>, n: nat)
    ensures Concat(Fronts(parts, n)) == First(Concat(parts), n)
  {
    if |parts| != 0 {
      var m := |parts| - 1;
      FrontsConcat(parts[..m], n);
      FrontsInit(parts, n, m);
      FirstOfAppend(Concat(parts[..m]), parts[m], n);
    }
  }

  // ---------------------------------------------------------------- taking rows apart

  /** `whole` has the rows of `a` and those of `b`. */
  ghost predicate MadeOf(whole: seq<Entry>, a: seq<Entry>, b: seq<Entry>) {
    KeySet(whole) == KeySet(a) + KeySet(b) && forall k :: Total(whole, k) == Total(a, k) + Total(b, k)
  }

  lemma AppendMadeOf(a: seq<Entry>, b: seq<Entry>)
    ensures MadeOf(a + b, a, b)
  {
    KeySetAppend(a, b);
    forall k ensures Total(a + b, k) == Total(a, k) + Total(b, k) {
      TotalAppend(a, b, k);
    }
  }

  lemma MadeOfAppend(w: seq<Entry>, a: seq<Entry>, b: seq<Entry>, w': seq<Entry>, a': seq<Entry>, b': seq<Entry>)
    requires MadeOf(w, a, b) && MadeOf(w', a', b')
    ensures MadeOf(w + w', a + a', b + b')
  {
    KeySetAppend(w, w');
    KeySetAppend(a, a');
    KeySetAppend(b, b');
    forall k ensures Total(w + w', k) == Total(a + a', k) + Total(b + b', k) {
      TotalAppend(w, w', k);
      TotalAppend(a, a', k);
      TotalAppend(b, b', k);
    }
  }

  lemma {:induction false} ConcatMadeOf(wholes: seq<seq<Entry>>, a: seq<seq<Entry>>, b: seq<seq<Entry>>)
    requires |wholes| == |a| == |b| && forall i :: 0 <= i < |wholes| ==> MadeOf(wholes[i], a[i], b[i])
    ensures MadeOf(Concat(wholes), Concat(a), Concat(b))
  {
    if |wholes| != 0 {
      var n := |wholes| - 1;
      ConcatMadeOf(wholes[..n], a[..n], b[..n]);
      MadeOfAppend(Concat(wholes[..n]), Concat(a[..n]), Concat(b[..n]), wholes[n], a[n], b[n]);
    }
  }

  lemma WholeOrNothing(whole: seq<Entry>, a: seq<Entry>, b: seq<Entry>)
    requires (a == whole && b == []) || (a == [] && b == whole)
    ensures MadeOf(whole, a, b)
  {
    assert whole == a + b;
    AppendMadeOf(a, b);
  }

  lemma ChosenMakeAll(parts: seq<seq<Entry>>, flags: seq<bool>)
    requires |flags| == |parts|
    ensures MadeOf(Concat(parts), Concat(Choose(parts, flags, true)), Concat(Choose(parts, flags, false)))
  {
    var yes, no := Choose(parts, flags, true), Choose(parts, flags, false);
    forall i | 0 <= i < |parts| ensures MadeOf(parts[i], yes[i], no[i]) {
      WholeOrNothing(parts[i], yes[i], no[i]);
    }
    ConcatMadeOf(parts, yes, no);
  }

  lemma FrontsAndBacksMakeChosen(parts: seq<seq<Entry>>, flags: seq<bool>, n: nat)
    requires |flags| == |parts|
    ensures MadeOf(Concat(Choose(parts, flags, true)), Concat(Choose(Fronts(parts, n), flags, true)),
                   Concat(Choose(Backs(parts, n), flags, true)))
  {
    var wholes, a := Choose(parts, flags, true), Choose(Fronts(parts, n), flags, true);
    var b := Choose(Backs(parts, n), flags, true);
    forall i | 0 <= i < |parts| ensures MadeOf(wholes[i], a[i], b[i]) {
      assert wholes[i] == a[i] + b[i];
      AppendMadeOf(a[i], b[i]);
    }
    ConcatMadeOf(wholes, a, b);
  }

  // ---------------------------------------------------------------- the exact condition

  /**
   Taking the rows `extra` for the rows `missing` makes no difference beside `kept`: they bring the
   same new keys and have the same sum for every key, in 64-bit arithmetic.
   */
  ghost predicate Even(kept: seq<Entry>, extra: seq<Entry>, missing: seq<Entry>) {
    KeySet(kept) + KeySet(extra) == KeySet(kept) + KeySet(missing) && forall k :: SameTotal(extra, missing, k)
  }

  lemma CancelCongruent(a: nat, b: nat, c: nat)
    ensures (a + b) % WORD == (a + c) % WORD <==> b % WORD == c % WORD
  {
  }

  /** Grouping `given` is grouping `wanted` exactly when what they differ in is even. */
  lemma RightIffEven(given: seq<Entry>, wanted: seq<Entry>, kept: seq<Entry>, extra: seq<Entry>, missing: seq<Entry>,
                     result: seq<Entry>)
    requires MadeOf(given, kept, extra) && MadeOf(wanted, kept, missing) && Grouped(given, result)
    ensures Grouped(wanted, result) <==> Even(kept, extra, missing)
  {
    forall k ensures SameTotal(given, wanted, k) <==> SameTotal(extra, missing, k) {
      CancelCongruent(Total(kept, k), Total(extra, k), Total(missing, k));
    }
    if Grouped(wanted, result) {
      forall k ensures SameTotal(extra, missing, k) {
        GroupedTotal(given, result, k);
        GroupedTotal(wanted, result, k);
        assert SameTotal(given, wanted, k);
      }
    }
    if Even(kept, extra, missing) {
      forall i | 0 <= i < |result| ensures result[i].amount == Total(wanted, result[i].key) % WORD {
        assert SameTotal(given, wanted, result[i].key);
      }
    }
  }

  /** The groups of busy threads among the first `n`. */
  function Kept(busy: seq<bool>, groups: seq<seq<Entry>>, n: nat): seq<Entry>
    requires |busy| == |groups|
  {
    Concat(Choose(Fronts(groups, n), busy, true))
  }

  /** What the other threads have there. */
  function LeftOver(busy: seq<bool>, groups: seq<seq<Entry>>, n: nat): seq<Entry>
    requires |busy| == |groups|
  {
    Concat(Choose(Fronts(groups, n), busy, false))
  }

  /** The groups of busy threads behind the first `n`. */
  function Dropped(busy: seq<bool>, groups: seq<seq<Entry>>, n: nat): seq<Entry>
    requires |busy| == |groups|
  {
    Concat(Choose(Backs(groups, n), busy, true))
  }

  /** The first `n` tuples stand for the groups of the busy threads. */
  ghost predicate CountIsRight(busy: seq<bool>, groups: seq<seq<Entry>>, n: nat)
    requires |busy| == |groups|
  {
    Even(Kept(busy, groups, n), LeftOver(busy, groups, n), Dropped(busy, groups, n))
  }

  /** What is given and what is wanted, taken apart. */
  lemma FirstMadeOf(busy: seq<bool>, groups: seq<seq<Entry>>, n: nat)
    requires |busy| == |groups| && n <= |Concat(groups)|
    ensures MadeOf(Concat(groups)[..n], Kept(busy, groups, n), LeftOver(busy, groups, n))
    ensures MadeOf(Concat(Choose(groups, busy, true)), Kept(busy, groups, n), Dropped(busy, groups, n))
  {
    FrontsConcat(groups, n);
    ChosenMakeAll(Fronts(groups, n), busy);
    FrontsAndBacksMakeChosen(groups, busy, n);
  }

  lemma ChosenGroups(parts: seq<seq<Entry>>, busy: seq<bool>, groups: seq<seq<Entry>>)
    requires GroupedParts(parts, groups) && |busy| == |parts|
    ensures GroupedParts(Choose(parts, busy, true), Choose(groups, busy, true))
  {
  }

  /** Grouping the first `n` of the groups is grouping the rows of the busy threads exactly when the count is right. */
  lemma FirstGroupsRightIff(parts: seq<seq<Entry>>, busy: seq<bool>, groups: seq<seq<Entry>>, n: nat,
                            result: seq<Entry>)
    requires GroupedParts(parts, groups) && |busy| == |parts|
    requires n <= |Concat(groups)| && Grouped(Concat(groups)[..n], result)
    ensures Grouped(Concat(Choose(parts, busy, true)), result) <==> CountIsRight(busy, groups, n)
  {
    FirstMadeOf(busy, groups, n);
    ChosenGroups(parts, busy, groups);
    TwoPhase(Choose(parts, busy, true), Choose(groups, busy, true), result);
    RightIffEven(Concat(groups)[..n], Concat(Choose(groups, busy, true)), Kept(busy, groups, n),
                 LeftOver(busy, groups, n),
                 Dropped(busy, groups, n), result);
  }

  /** Rows that make no difference to the others: no new key, and nothing to add. */
  ghost predicate Harmless(rows: seq<Entry>, more: seq<Entry>) {
    KeySet(more) <= KeySet(rows) && forall k :: k in KeySet(more) ==> Total(more, k) % WORD == 0
  }

  /** Grouping all of the groups is right exactly when what lay in the buffers of the others makes no difference. */
  lemma AllGroupsRightIff(parts: seq<seq<Entry>>, busy: seq<bool>, groups: seq<seq<Entry>>, result: seq<Entry>)
    requires GroupedParts(parts, groups) && |busy| == |parts| && Grouped(Concat(groups), result)
    ensures Grouped(Concat(Choose(parts, busy, true)), result) <==>
      Harmless(Concat(Choose(parts, busy, true)), Concat(Choose(parts, busy, false)))
  {
    var rows, more := Concat(Choose(parts, busy, true)), Concat(Choose(parts, busy, false));
    TwoPhase(parts, groups, result);
    ChosenMakeAll(parts, busy);
    RightIffEven(Concat(parts), rows, rows, more, [], result);
    EvenIffHarmless(rows, more);
  }

  lemma EvenIffHarmless(rows: seq<Entry>, more: seq<Entry>)
    ensures MadeOf(rows, rows, [])
    ensures Even(rows, more, []) <==> Harmless(rows, more)
  {
    assert KeySet([]) == {};
    forall k ensures SameTotal(more, [], k) <==> Total(more, k) % WORD == 0 {
    }
    forall k | k !in KeySet(more) ensures Total(more, k) == 0 {
      TotalMissing(more, k);
    }
    if Even(rows, more, []) {
      forall k | k in KeySet(more) ensures k in KeySet(rows) && Total(more, k) % WORD == 0 {
        assert k in KeySet(rows) + KeySet(more);
        assert SameTotal(more, [], k);
      }
    }
  }

  /** When every thread leaves one tuple, the count of threads is that of the stored tuples. */
  lemma OneTupleEachRightIff(parts: seq<seq<Entry>>, busy: seq<bool>, groups: seq<seq<Entry>>, result: seq<Entry>)
    requires CountedByThread(parts, groups, result) && |busy| == |parts|
    requires forall i :: 0 <= i < |parts| ==> |KeySet(parts[i])| == 1
    ensures Grouped(Concat(Choose(parts, busy, true)), result) <==>
      Harmless(Concat(Choose(parts, busy, true)), Concat(Choose(parts, busy, false)))
  {
    GroupsOnePerPart(parts, groups);
    assert Concat(groups)[..|parts|] == Concat(groups);
    AllGroupsRightIff(parts, busy, groups, result);
  }

  /** The first `n` groups of a socket are grouped into `result`. */
  ghost predicate FirstGrouped(parts: seq<seq<Entry>>, busy: seq<bool>, groups: seq<seq<Entry>>, n: nat,
                               result: seq<Entry>) {
    GroupedParts(parts, groups) && |busy| == |parts| && n <= |Concat(groups)| && Grouped(Concat(groups)[..n], result)
  }

  lemma GroupedTwo(rows1: seq<Entry>, groups1: seq<Entry>, rows2: seq<Entry>, groups2: seq<Entry>, result: seq<Entry>)
    requires Grouped(rows1, groups1) && Grouped(rows2, groups2)
    ensures Grouped(groups1 + groups2, result) <==> Grouped(rows1 + rows2, result)
  {
    TwoPhase([rows1, rows2], [groups1, groups2], result);
    ConcatTwo(rows1, rows2);
    ConcatTwo(groups1, groups2);
  }

  /** Merging two sockets is right exactly when what came in and what stayed out of both is even. */
  lemma TwoSocketsRightIff(parts: seq<seq<Entry>>, busy: seq<bool>, groups: seq<seq<Entry>>, n: nat, one: seq<Entry>,
                           parts': seq<seq<Entry>>, busy': seq<bool>, groups': seq<seq<Entry>>, n': nat,
                           two: seq<Entry>, result: seq<Entry>)
    requires FirstGrouped(parts, busy, groups, n, one) && FirstGrouped(parts', busy', groups', n', two)
    requires Grouped(one + two, result)
    ensures Grouped(Concat(Choose(parts, busy, true)) + Concat(Choose(parts', busy', true)), result) <==>
      Even(Kept(busy, groups, n) + Kept(busy', groups', n'), LeftOver(busy, groups, n) + LeftOver(busy', groups', n'),
           Dropped(busy, groups, n) + Dropped(busy', groups', n'))
  {
    var first, first' := Concat(groups)[..n], Concat(groups')[..n'];
    var wanted, wanted' := Concat(Choose(groups, busy, true)), Concat(Choose(groups', busy', true));
    GroupedTwo(first, one, first', two, result);
    FirstMadeOf(busy, groups, n);
    FirstMadeOf(busy', groups', n');
    MadeOfAppend(first, Kept(busy, groups, n), LeftOver(busy, groups, n),
                 first', Kept(busy', groups', n'), LeftOver(busy', groups', n'));
    MadeOfAppend(wanted, Kept(busy, groups, n), Dropped(busy, groups, n),
                 wanted', Kept(busy', groups', n'), Dropped(busy', groups', n'));
    RightIffEven(first + first', wanted + wanted', Kept(busy, groups, n) + Kept(busy', groups', n'),
                 LeftOver(busy, groups, n) + LeftOver(busy', groups', n'),
                 Dropped(busy, groups, n) + Dropped(busy', groups', n'), result);
    ChosenGroupsTwo(parts, busy, groups, parts', busy', groups', result);
  }

  lemma ChosenGroupsTwo(parts: seq<seq<Entry>>, busy: seq<bool>, groups: seq<seq<Entry>>,
                        parts': seq<seq<Entry>>, busy': seq<bool>, groups': seq<seq<Entry>>, result: seq<Entry>)
    requires GroupedParts(parts, groups) && |busy| == |parts| && GroupedParts(parts', groups') && |busy'| == |parts'|
    ensures Grouped(Concat(Choose(groups, busy, true)) + Concat(Choose(groups', busy', true)), result) <==>
      Grouped(Concat(Choose(parts, busy, true)) + Concat(Choose(parts', busy', true)), result)
  {
    ChosenGroups(parts, busy, groups);
    ChosenGroups(parts', busy', groups');
    TwoPhase(Choose(parts, busy, true) + Choose(parts', busy', true),
             Choose(groups, busy, true) + Choose(groups', busy', true), result);
    ConcatAppend(Choose(parts, busy, true), Choose(parts', busy', true));
    ConcatAppend(Choose(groups, busy, true), Choose(groups', busy', true));
  }

  lemma {:induction false} ConcatAppend<T>(a: seq<seq<T>>, b: seq<seq<T>>)
    ensures Concat(a + b) == Concat(a) + Concat(b)
  {
    if |b| == 0 {
      assert a + b == a;
    } else {
      ConcatAppend(a, b[..|b| - 1]);
      assert (a + b)[..|a + b| - 1] == a + b[..|b| - 1];
    }
  }

  lemma {:induction false} NothingChosen<T>(parts: seq<seq<T>>, flags: seq<bool>, want: bool)
    requires |flags| == |parts| && forall i :: 0 <= i < |flags| ==> flags[i] != want
    ensures Concat(Choose(parts, flags, want)) == []
  {
    if |parts| != 0 {
      var n := |parts| - 1;
      NothingChosen(parts[..n], flags[..n], want);
      assert Choose(parts, flags, want)[..n] == Choose(parts[..n], flags[..n], want);
    }
  }

  /** When no thread has rows, there is a result all the same, and it is wrong. */
  lemma NoRowsIsWrong(parts: seq<seq<Entry>>, busy: seq<bool>, groups: seq<seq<Entry>>, result: seq<Entry>)
    requires CountedByThread(parts, groups, result) && |busy| == |parts| > 0
    requires forall i :: 0 <= i < |busy| ==> !busy[i]
    ensures |result| > 0 && !Grouped(Concat(Choose(parts, busy, true)), result)
  {
    NothingChosen(parts, busy, true);
    KeySetEmpty(Concat(groups)[..|parts|]);
    KeySetEmpty(result);
    KeySetEmpty(Concat(Choose(parts, busy, true)));
  }
}

/** The engine's GROUP BY, in place on an array of intermediate tuples. */
module GroupBy {
  import opened Groups
  import opened SsbTuples
  import Lex

  function EntryOf(g: Grouping, x: Intermediate): Entry {
    Entry(Key(g, x), x.amount)
  }

  /** The keys and amounts of intermediate tuples. */
  function Entries(g: Grouping, rows: seq<Intermediate>): (entries: seq<Entry>)
    ensures |entries| == |rows|
    ensures forall i :: 0 <= i < |rows| ==> entries[i] == EntryOf(g, rows[i])
  {
    seq(|rows|, i requires 0 <= i < |rows| => EntryOf(g, rows[i]))
  }

  lemma ComparatorAndKeys(g: Grouping, x: Intermediate, y: Intermediate)
    ensures Comparator(g, x, y) == 0 <==> Key(g, x) == Key(g, y)
    ensures Comparator(g, x, y) < 0 <==> Lex.Less(Key(g, x), Key(g, y))
    ensures Comparator(g, x, y) > 0 <==> Lex.Less(Key(g, y), Key(g, x))
  {
    ComparatorIsKeyOrder(g, x, y);
    Lex.CompareEqual(Key(g, x), Key(g, y));
    Lex.CompareReverse(Key(g, x), Key(g, y));
  }

  /** Two states of an array that differ at most in the slots from `lo` up to `hi`. */
  ghost predicate SameOutside<T>(a: seq<T>, b: seq<T>, lo: nat, hi: nat) {
    |a| == |b| && forall k :: 0 <= k < |a| && !(lo <= k < hi) ==> a[k] == b[k]
  }

  lemma SameOutsideThen<T>(a: seq<T>, b: seq<T>, c: seq<T>, lo: nat, mid: nat, hi: nat)
    requires SameOutside(a, b, lo, mid) && SameOutside(b, c, lo, hi) && mid <= hi
    ensures SameOutside(a, c, lo, hi)
  {
  }

  // ---------------------------------------------------------------- qsort

  function Insert(g: Grouping, s: seq<Intermediate>, x: Intermediate): (r: seq<Intermediate>)
    ensures |r| == |s| + 1
  {
    if |s| == 0 || Comparator(g, s[|s| - 1], x) <= 0 then s + [x]
    else Insert(g, s[..|s| - 1], x) + [s[|s| - 1]]
  }

  function InsertionSort(g: Grouping, s: seq<Intermediate>): (r: seq<Intermediate>)
    ensures |r| == |s|
  {
    if |s| == 0 then [] else Insert(g, InsertionSort(g, s[..|s| - 1]), s[|s| - 1])
  }

  lemma {:induction false} InsertPermutes(g: Grouping, s: seq<Intermediate>, x: Intermediate)
    ensures multiset(Insert(g, s, x)) == multiset(s) + multiset{x}
  {
    if !(|s| == 0 || Comparator(g, s[|s| - 1], x) <= 0) {
      InsertPermutes(g, s[..|s| - 1], x);
      assert s == s[..|s| - 1] + [s[|s| - 1]];
    }
  }

  lemma {:induction false} InsertionSortPermutes(g: Grouping, s: seq<Intermediate>)
    ensures multiset(InsertionSort(g, s)) == multiset(s)
  {
    if |s| != 0 {
      InsertionSortPermutes(g, s[..|s| - 1]);
      InsertPermutes(g, InsertionSort(g, s[..|s| - 1]), s[|s| - 1]);
      assert s == s[..|s| - 1] + [s[|s| - 1]];
    }
  }

  /** What qsort promises of the comparator it is given. */
  ghost predicate InOrder(g: Grouping, rows: seq<Intermediate>) {
    forall i, j :: 0 <= i < j < |rows| ==> Comparator(g, rows[i], rows[j]) <= 0
  }

  ghost predicate UpTo(g: Grouping, rows: seq<Intermediate>, x: Intermediate) {
    forall i :: 0 <= i < |rows| ==> Comparator(g, rows[i], x) <= 0
  }

  lemma ComparatorTransitive(g: Grouping, x: Intermediate, y: Intermediate, z: Intermediate)
    requires Comparator(g, x, y) <= 0 && Comparator(g, y, z) <= 0
    ensures Comparator(g, x, z) <= 0
  {
    ComparatorIsKeyOrder(g, x, y);
    ComparatorIsKeyOrder(g, y, z);
    ComparatorIsKeyOrder(g, x, z);
    Lex.LessTransitive(Key(g, x), Key(g, y), Key(g, z));
  }

  lemma {:induction false} InsertUpTo(g: Grouping, s: seq<Intermediate>, x: Intermediate, top: Intermediate)
    requires UpTo(g, s, top) && Comparator(g, x, top) <= 0
    ensures UpTo(g, Insert(g, s, x), top)
  {
    if !(|s| == 0 || Comparator(g, s[|s| - 1], x) <= 0) {
      InsertUpTo(g, s[..|s| - 1], x, top);
    }
  }

  lemma {:induction false} InsertSorts(g: Grouping, s: seq<Intermediate>, x: Intermediate)
    requires InOrder(g, s)
    ensures InOrder(g, Insert(g, s, x))
  {
    if |s| != 0 {
      var init, last := s[..|s| - 1], s[|s| - 1];
      if Comparator(g, last, x) <= 0 {
        forall i | 0 <= i < |s| ensures Comparator(g, s[i], x) <= 0 {
          if i < |s| - 1 {
            ComparatorTransitive(g, s[i], last, x);
          }
        }
      } else {
        ComparatorAndKeys(g, last, x);
        ComparatorAndKeys(g, x, last);
        InsertSorts(g, init, x);
        InsertUpTo(g, init, x, last);
      }
    }
  }

  lemma {:induction false} InsertionSortSorts(g: Grouping, s: seq<Intermediate>)
    ensures InOrder(g, InsertionSort(g, s))
  {
    if |s| != 0 {
      InsertionSortSorts(g, s[..|s| - 1]);
      InsertSorts(g, InsertionSort(g, s[..|s| - 1]), s[|s| - 1]);
    }
  }

  lemma InOrderIffSorted(g: Grouping, rows: seq<Intermediate>)
    ensures InOrder(g, rows) <==> Sorted(Entries(g, rows))
  {
    forall i, j | 0 <= i < j < |rows|
      ensures Comparator(g, rows[i], rows[j]) <= 0 <==> !Lex.Less(Entries(g, rows)[j].key, Entries(g, rows)[i].key)
    {
      ComparatorAndKeys(g, rows[i], rows[j]);
    }
  }

  /** qsort: a library routine, here with one possible body; callers rely on its contract alone. */
  method Qsort(mem: array<Intermediate>, start: nat, count: nat, g: Grouping)
    requires start + count <= mem.Length
    modifies mem
    ensures InOrder(g, mem[start..start + count])
    ensures multiset(mem[start..start + count]) == multiset(old(mem[start..start + count]))
    ensures SameOutside(old(mem[..]), mem[..], start, start + count)
  {
    ghost var before := mem[start..start + count];
    var sorted := InsertionSort(g, mem[start..start + count]);
    for i := 0 to count
      invariant forall k :: 0 <= k < i ==> mem[start + k] == sorted[k]
      invariant SameOutside(old(mem[..]), mem[..], start, start + count)
    {
      mem[start + i] := sorted[i];
    }
    InsertionSortSorts(g, before);
    InsertionSortPermutes(g, before);
    assert mem[start..start + count] == sorted;
  }

  function Image<T, U>(f: T -> U, s: seq<T>): (r: seq<U>)
    ensures |r| == |s| && forall i :: 0 <= i < |s| ==> r[i] == f(s[i])
  {
    seq(|s|, i requires 0 <= i < |s| => f(s[i]))
  }

  lemma ImageRemove<T, U>(f: T -> U, s: seq<T>, i: nat)
    requires i < |s|
    ensures f(s[i]) in multiset(Image(f, s))
    ensures multiset(Image(f, s[..i] + s[i + 1..])) == multiset(Image(f, s)) - multiset{f(s[i])}
  {
    assert Image(f, s)[i] == f(s[i]);
    assert Image(f, s[..i] + s[i + 1..]) == Image(f, s)[..i] + Image(f, s)[i + 1..];
    RemoveAt(Image(f, s), i);
  }

  lemma {:induction false} ImagePermutation<T, U>(f: T -> U, a: seq<T>, b: seq<T>)
    requires multiset(a) == multiset(b)
    ensures multiset(Image(f, a)) == multiset(Image(f, b))
  {
    if |a| == 0 {
      assert |multiset(b)| == 0;
    } else {
      var i := MatchLast(a, b);
      ImagePermutation(f, a[..|a| - 1], b[..i] + b[i + 1..]);
      ImageRemove(f, b, i);
      assert Image(f, a) == Image(f, a[..|a| - 1]) + [f(a[|a| - 1])];
    }
  }

  lemma EntriesPermutation(g: Grouping, a: seq<Intermediate>, b: seq<Intermediate>)
    requires multiset(a) == multiset(b)
    ensures multiset(Entries(g, a)) == multiset(Entries(g, b))
  {
    var f := x => EntryOf(g, x);
    ImagePermutation(f, a, b);
    assert Entries(g, a) == Image(f, a) && Entries(g, b) == Image(f, b);
  }

  // ---------------------------------------------------------------- group

  /** One round of the compaction loop, on the groups built so far and the next tuple. */
  function CompactStep(g: Grouping, groups: seq<Intermediate>, next: Intermediate): (r: seq<Intermediate>)
    requires |groups| > 0
    ensures |groups| <= |r| <= |groups| + 1
  {
    var rep := |groups| - 1;
    if Comparator(g, groups[rep], next) == 0 then
      groups[rep := groups[rep].(amount := (groups[rep].amount + next.amount) % WORD)]
    else groups + [next]
  }

  function CompactRows(g: Grouping, rows: seq<Intermediate>): (r: seq<Intermediate>)
    requires |rows| > 0
    ensures 0 < |r| <= |rows|
  {
    if |rows| == 1 then rows else CompactStep(g, CompactRows(g, rows[..|rows| - 1]), rows[|rows| - 1])
  }

  lemma EntriesLast(g: Grouping, rows: seq<Intermediate>, last: Intermediate)
    ensures Entries(g, rows + [last]) == Entries(g, rows) + [EntryOf(g, last)]
  {
  }

  /** Comparing with zero is comparing keys, so the loop compacts entries. */
  lemma CompactStepEntries(g: Grouping, groups: seq<Intermediate>, next: Intermediate)
    requires |groups| > 0
    ensures var entries, last, rep := Entries(g, groups), EntryOf(g, next), |groups| - 1;
      Entries(g, CompactStep(g, groups, next)) ==
        if entries[rep].key == last.key then entries[rep := AddAmount(entries[rep], last)] else entries + [last]
  {
    ComparatorAndKeys(g, groups[|groups| - 1], next);
    EntriesLast(g, groups, next);
  }

  lemma EntriesInit(g: Grouping, rows: seq<Intermediate>)
    requires |rows| > 0
    ensures Entries(g, rows)[..|rows| - 1] == Entries(g, rows[..|rows| - 1])
    ensures Entries(g, rows)[|rows| - 1] == EntryOf(g, rows[|rows| - 1])
  {
  }

  lemma {:induction false} CompactRowsEntries(g: Grouping, rows: seq<Intermediate>)
    requires |rows| > 0
    ensures Entries(g, CompactRows(g, rows)) == Compacted(Entries(g, rows))
  {
    if |rows| > 1 {
      var init, last := rows[..|rows| - 1], rows[|rows| - 1];
      CompactRowsEntries(g, init);
      CompactStepEntries(g, CompactRows(g, init), last);
      EntriesInit(g, rows);
    }
  }

  /** Compacting rows in the order of the comparator groups them, and any permutation of them. */
  lemma CompactRowsGroups(g: Grouping, rows: seq<Intermediate>, input: seq<Intermediate>)
    requires |rows| > 0 && InOrder(g, rows) && multiset(rows) == multiset(input)
    ensures Grouped(Entries(g, input), Entries(g, CompactRows(g, rows)))
  {
    InOrderIffSorted(g, rows);
    CompactedIsGrouped(Entries(g, rows));
    CompactRowsEntries(g, rows);
    EntriesPermutation(g, rows, input);
    GroupedPermutation(Entries(g, rows), Entries(g, input), Entries(g, CompactRows(g, rows)));
  }

  /** One round of the loop, in place: the groups end at `rep`, and `next` is the next tuple. */
  method CompactOne(mem: array<Intermediate>, start: nat, rep: nat, next: nat, g: Grouping) returns (rep': nat)
    requires start <= rep < next < mem.Length
    modifies mem
    ensures start <= rep' <= next && SameOutside(old(mem[..]), mem[..], start, next + 1)
    ensures mem[start..rep' + 1] == CompactStep(g, old(mem[start..rep + 1]), old(mem[next]))
  {
    if Comparator(g, mem[rep], mem[next]) == 0 {
      mem[rep] := mem[rep].(amount := (mem[rep].amount + mem[next].amount) % WORD);
      return rep;
    } else {
      rep' := rep + 1;
      mem[rep'] := mem[next];
    }
  }

  /** The state of the compaction loop when the groups end at `rep` and the next tuple is at `next`. */
  ghost predicate Compacting(g: Grouping, all: seq<Intermediate>, now: seq<Intermediate>, start: nat, rep: nat,
                             next: nat) {
    start <= rep < next <= |all| && SameOutside(all, now, start, next) &&
    now[start..rep + 1] == CompactRows(g, all[start..next])
  }

  lemma CompactingNext(g: Grouping, all: seq<Intermediate>, before: seq<Intermediate>, after: seq<Intermediate>,
                       start: nat, rep: nat, next: nat, rep': nat)
    requires Compacting(g, all, before, start, rep, next) && next < |all|
    requires start <= rep' <= next && SameOutside(before, after, start, next + 1)
    requires after[start..rep' + 1] == CompactStep(g, before[start..rep + 1], before[next])
    ensures Compacting(g, all, after, start, rep', next + 1)
  {
    var rows := all[start..next + 1];
    assert rows[..|rows| - 1] == all[start..next];
    SameOutsideThen(all, before, after, start, next, next + 1);
  }

  /** The compaction loop over the `count` tuples from `start`. */
  method Compact(mem: array<Intermediate>, start: nat, count: nat, g: Grouping) returns (groups: nat)
    requires 0 < count && start + count <= mem.Length
    modifies mem
    ensures 0 < groups <= count
    ensures mem[start..start + groups] == CompactRows(g, old(mem[start..start + count]))
    ensures SameOutside(old(mem[..]), mem[..], start, start + count)
  {
    ghost var all := mem[..];
    assert mem[start..start + 1] == all[start..start + 1];
    var repIndex, position: nat := start, start + 1;
    while position < start + count
      invariant position <= start + count
      invariant Compacting(g, all, mem[..], start, repIndex, position)
    {
      ghost var before, rep := mem[..], repIndex;
      repIndex := CompactOne(mem, start, repIndex, position, g);
      CompactingNext(g, all, before, mem[..], start, rep, position, repIndex);
      position := position + 1;
    }
    return repIndex + 1 - start;
  }

  /**
   group.  Of the `count` tuples from `start` it leaves the groups, in key order, each with the sum
   of its rows, in the first slots.  For no tuples at all it reports one group and touches nothing.
   */
  method Group(mem: array<Intermediate>, start: nat, count: nat, g: Grouping) returns (groups: nat)
    requires start + count <= mem.Length
    modifies mem
    ensures if count == 0 then groups == 1 else 0 < groups <= count
    ensures count > 0 ==> Grouped(Entries(g, old(mem[start..start + count])), Entries(g, mem[start..start + groups]))
    ensures SameOutside(old(mem[..]), mem[..], start, start + count)
  {
    ghost var input := mem[start..start + count];
    Qsort(mem, start, count, g);
    if count == 0 {
      return 1;
    }
    ghost var sorted := mem[start..start + count];
    groups := Compact(mem, start, count, g);
    CompactRowsGroups(g, sorted, input);
  }
}

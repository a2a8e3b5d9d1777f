/**
 Following pointers, on values.  A set of cells whose pointers stay inside the set is a map
 `m` from cell to cell.  Both the list nodes and the memory slots of pmem_mapping.c are read
 through this module.
 */
module Orbit {
  import opened Basics

  ghost predicate Closed<T>(m: map<T, T>) {
    forall x {:trigger m[x]} :: x in m ==> m[x] in m
  }

  /** The cell reached from `x` after `k` jumps. */
  ghost function Follow<T>(m: map<T, T>, x: T, k: nat): (y: T)
    requires Closed(m) && x in m
    ensures y in m
  {
    if k == 0 then x else m[Follow(m, x, k - 1)]
  }

  /** `n` is the first time the walk from `x` is back at `x`. */
  ghost predicate LeastReturn<T>(m: map<T, T>, x: T, n: nat)
    requires Closed(m) && x in m
  {
    n > 0 && Follow(m, x, n) == x && forall k :: 0 < k < n ==> Follow(m, x, k) != x
  }

  /** Cyclic successor and predecessor of an index. */
  function Succ(i: nat, n: nat): (r: nat)
    requires i < n
    ensures r < n
  {
    if i + 1 == n then 0 else i + 1
  }

  function Pred(i: nat, n: nat): (r: nat)
    requires i < n
    ensures r < n && Succ(r, n) == i
  {
    if i == 0 then n - 1 else i - 1
  }

  /** The pointer of the cell at index `i` leads to the next one. */
  ghost predicate StepAt<T>(m: map<T, T>, tour: seq<T>, i: nat)
    requires i < |tour|
  {
    tour[i] in m && m[tour[i]] == tour[Succ(i, |tour|)]
  }

  ghost predicate Linked<T>(m: map<T, T>, tour: seq<T>) {
    forall i :: 0 <= i < |tour| ==> StepAt(m, tour, i)
  }

  /** `tour` lists every cell of `m` once, in the order in which the pointers visit them. */
  ghost predicate Tour<T>(m: map<T, T>, tour: seq<T>) {
    && Distinct(tour)
    && (forall x :: x in m ==> exists i :: 0 <= i < |tour| && tour[i] == x)
    && Linked(m, tour)
  }

  lemma TourClosed<T>(m: map<T, T>, tour: seq<T>)
    requires Tour(m, tour)
    ensures Closed(m)
  {
    forall x | x in m ensures m[x] in m {
      var i :| 0 <= i < |tour| && tour[i] == x;
      assert StepAt(m, tour, i) && StepAt(m, tour, Succ(i, |tour|));
    }
  }

  lemma {:induction false} FollowAdd<T>(m: map<T, T>, x: T, j: nat, k: nat)
    requires Closed(m) && x in m
    ensures Follow(m, x, j + k) == Follow(m, Follow(m, x, j), k)
  {
    if k != 0 {
      FollowAdd(m, x, j, k - 1);
      assert j + k - 1 == j + (k - 1);
    }
  }

  /** Index `p` moved forward by `k` places around a circle of `n`, at most once around. */
  function Turn(p: nat, k: nat, n: nat): (r: nat)
    requires p < n && k <= n
    ensures r < n
  {
    if p + k < n then p + k else p + k - n
  }

  /** Walking along a tour is counting around a circle. */
  lemma {:induction false} FollowTour<T>(m: map<T, T>, tour: seq<T>, p: nat, k: nat)
    requires Linked(m, tour) && Closed(m) && p < |tour| && tour[p] in m && k <= |tour|
    ensures Follow(m, tour[p], k) == tour[Turn(p, k, |tour|)]
  {
    if k != 0 {
      FollowTour(m, tour, p, k - 1);
      assert StepAt(m, tour, Turn(p, k - 1, |tour|));
    }
  }

  lemma LinkedReturns<T>(m: map<T, T>, tour: seq<T>, p: nat)
    requires Linked(m, tour) && Distinct(tour) && Closed(m) && p < |tour| && tour[p] in m
    ensures LeastReturn(m, tour[p], |tour|)
  {
    var n := |tour|;
    FollowTour(m, tour, p, n);
    forall k | 0 < k < n ensures Follow(m, tour[p], k) != tour[p] {
      FollowTour(m, tour, p, k);
      assert Turn(p, k, n) != p;
    }
  }

  /** Every cell of a tour is back for the first time after exactly as many jumps as there are cells. */
  lemma TourReturns<T>(m: map<T, T>, tour: seq<T>, x: T)
    requires Tour(m, tour) && Closed(m) && x in m
    ensures LeastReturn(m, x, |tour|)
  {
    var p :| 0 <= p < |tour| && tour[p] == x;
    LinkedReturns(m, tour, p);
  }

  /** The first `n` stops of a walk. */
  ghost function Walk<T>(m: map<T, T>, x: T, n: nat): (w: seq<T>)
    requires Closed(m) && x in m
    ensures |w| == n
    ensures forall k :: 0 <= k < n ==> w[k] == Follow(m, x, k)
  {
    if n == 0 then [] else Walk(m, x, n - 1) + [Follow(m, x, n - 1)]
  }

  /** Before the least return time a walk never meets a cell twice. */
  lemma WalkDistinct<T>(m: map<T, T>, x: T, n: nat)
    requires Closed(m) && x in m && LeastReturn(m, x, n)
    ensures Distinct(Walk(m, x, n))
  {
    var w := Walk(m, x, n);
    forall i, j | 0 <= i < j < n ensures w[i] != w[j] {
      if w[i] == w[j] {
        FollowAdd(m, x, i, n - j);
        FollowAdd(m, x, j, n - j);
      }
    }
  }

  lemma WalkLinked<T>(m: map<T, T>, x: T, n: nat)
    requires Closed(m) && x in m && n > 0 && Follow(m, x, n) == x
    ensures Linked(m, Walk(m, x, n))
  {
    var w := Walk(m, x, n);
    forall i | 0 <= i < n ensures StepAt(m, w, i) {
      assert Follow(m, x, i + 1) == m[Follow(m, x, i)];
    }
  }

  /** A walk whose least return time is the number of cells visits every cell: it is a tour. */
  lemma LeastReturnIsTour<T>(m: map<T, T>, x: T)
    requires Closed(m) && x in m && LeastReturn(m, x, |m|)
    ensures Tour(m, Walk(m, x, |m|))
  {
    var w := Walk(m, x, |m|);
    WalkDistinct(m, x, |m|);
    WalkLinked(m, x, |m|);
    DistinctCovers(w, m.Keys);
  }

  /** As many distinct elements of a set as it has are all of them. */
  lemma DistinctCovers<T>(w: seq<T>, cells: set<T>)
    requires Distinct(w) && |w| == |cells| && forall i :: 0 <= i < |w| ==> w[i] in cells
    ensures forall y :: y in cells ==> exists i :: 0 <= i < |w| && w[i] == y
  {
    DistinctSize(w);
    var seen := set y | y in w;
    SubsetOfEqualSize(seen, cells);
    assert forall y :: y in cells ==> y in seen;
  }

  lemma {:induction false} DistinctSize<T>(s: seq<T>)
    requires Distinct(s)
    ensures |set y | y in s| == |s|
  {
    if s != [] {
      var init, last := s[..|s| - 1], s[|s| - 1];
      DistinctSize(init);
      assert (set y | y in s) == (set y | y in init) + {last};
      assert last !in init;
    }
  }

  lemma {:induction false} SubsetSize<T>(a: set<T>, b: set<T>)
    requires a <= b
    ensures |a| <= |b|
  {
    if a != {} {
      var x :| x in a;
      SubsetSize(a - {x}, b - {x});
    }
  }

  lemma SubsetOfEqualSize<T>(a: set<T>, b: set<T>)
    requires a <= b && |a| == |b|
    ensures a == b
  {
    if x :| x in b && x !in a {
      SubsetSize(a, b - {x});
    }
  }

  lemma TourSize<T>(m: map<T, T>, tour: seq<T>)
    requires Tour(m, tour)
    ensures |tour| == |m|
  {
    DistinctSize(tour);
    forall i | 0 <= i < |tour| ensures tour[i] in m {
      assert StepAt(m, tour, i);
    }
    assert (set y | y in tour) == m.Keys;
  }
}

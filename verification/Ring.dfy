/**
 The doubly linked ring of list nodes that pmem_mapping.c shuffles by pointer surgery.
 The ring order is a ghost sequence of nodes; the nodes are real objects whose fields change.
 */
module Ring {
  import opened Basics
  import opened Orbit

  class ListNode {
    var next: ListNode
    var prev: ListNode
    var jumpAddress: nat

    /** Memory handed out by malloc: the fields hold nothing the list relies on. */
    constructor ()
    {
      next, prev := this, this;
    }
  }

  ghost function NodeSet(order: seq<ListNode>): set<ListNode> {
    set x | x in order
  }

  /** Both pointers of the node at index `i` lead to its neighbours in `order`. */
  ghost predicate LinkedAt(order: seq<ListNode>, i: nat)
    requires i < |order|
    reads {order[i]}`next, {order[i]}`prev
  {
    order[i].next == order[Succ(i, |order|)] && order[i].prev == order[Pred(i, |order|)]
  }

  /** The nodes of `order` form one doubly linked ring, in that order. */
  ghost predicate IsRing(order: seq<ListNode>)
    reads NodeSet(order)`next, NodeSet(order)`prev
  {
    && |order| > 0
    && Distinct(order)
    && forall i :: 0 <= i < |order| ==> LinkedAt(order, i)
  }

  /** `order` with the places of `a` and `b` exchanged. */
  ghost function Exchange<T>(order: seq<T>, a: T, b: T): (r: seq<T>)
    ensures |r| == |order|
  {
    seq(|order|, k requires 0 <= k < |order| =>
      if order[k] == a then b else if order[k] == b then a else order[k])
  }

  lemma ExchangeDistinct<T>(order: seq<T>, a: T, b: T)
    requires Distinct(order) && a in order && b in order
    ensures Distinct(Exchange(order, a, b))
    ensures forall x :: x in order ==> x in Exchange(order, a, b)
    ensures forall x :: x in Exchange(order, a, b) ==> x in order
  {
    var r := Exchange(order, a, b);
    forall x | x in order ensures x in r {
      var y := if x == a then b else if x == b then a else x;
      var k :| 0 <= k < |order| && order[k] == y;
      assert r[k] == x;
    }
  }

  /** Exchanging two nodes of a ring is exchanging the contents of their two places. */
  lemma ExchangeIsUpdate<T>(order: seq<T>, i: nat, j: nat)
    requires Distinct(order) && i < |order| && j < |order|
    ensures Exchange(order, order[i], order[j]) == order[i := order[j]][j := order[i]]
  {
  }

  /** The place that the node at place `k` has once the places `i` and `j` are exchanged. */
  ghost function Swapped(k: nat, i: nat, j: nat): nat {
    if k == i then j else if k == j then i else k
  }

  /** The node at place `k` of `order` points to the neighbours it has in `r`, where it sits at place `k'`. */
  ghost predicate PointsAs(order: seq<ListNode>, k: nat, r: seq<ListNode>, k': nat)
    requires k < |order| && k' < |r|
    reads {order[k]}`next, {order[k]}`prev
  {
    order[k].next == r[Succ(k', |r|)] && order[k].prev == r[Pred(k', |r|)]
  }

  lemma ExchangedRing(order: seq<ListNode>, i: nat, j: nat)
    requires |order| > 0 && Distinct(order) && i < |order| && j < |order|
    requires forall k :: 0 <= k < |order| ==>
      PointsAs(order, k, order[i := order[j]][j := order[i]], Swapped(k, i, j))
    ensures IsRing(Exchange(order, order[i], order[j]))
  {
    var r := Exchange(order, order[i], order[j]);
    ExchangeIsUpdate(order, i, j);
    ExchangeDistinct(order, order[i], order[j]);
    forall k | 0 <= k < |r| ensures LinkedAt(r, k) {
      assert PointsAs(order, Swapped(k, i, j), r, Swapped(Swapped(k, i, j), i, j));
    }
  }

  /** The assignments of linked_list_swap_nodes for a node `b` that follows `a` directly. */
  method TurnNeighbours(a: ListNode, b: ListNode)
    requires a != b && a.next == b
    modifies {a, b, a.prev}`next, {a, b, b.next}`prev
    ensures a.next == (if old(a.prev) == b then b else old(b.next)) && a.prev == b && b.next == a
    ensures b.prev == if a.next == a then a else old(a.prev)
    ensures old(a.prev) !in {a, b} ==> old(a.prev).next == b
    ensures old(a.prev) != b && old(b.next) !in {a, b} ==> old(b.next).prev == a
  {
    a.prev.next := b;
    b.next.prev := a;

    a.next := b.next;
    b.prev := a.prev;

    b.next := a;
    a.prev := b;
  }

  /** The pointers of one node after TurnNeighbours, seen from its place in the old order. */
  lemma NeighbourPoints(order: seq<ListNode>, i: nat, k: nat)
    requires |order| >= 3 && i < |order| && k < |order|
    requires var n := |order|; var j := Succ(i, n);
      order[k].next ==
        if k == i then order[Succ(j, n)] else if k == j then order[i]
        else if k == Pred(i, n) then order[j] else order[Succ(k, n)]
    requires var n := |order|; var j := Succ(i, n);
      order[k].prev ==
        if k == i then order[j] else if k == j then order[Pred(i, n)]
        else if k == Succ(j, n) then order[i] else order[Pred(k, n)]
    ensures var j := Succ(i, |order|);
      PointsAs(order, k, order[i := order[j]][j := order[i]], Swapped(k, i, j))
  {
  }

  /** The `next` pointers of a set of nodes, as a value. */
  ghost function NextMap(nodes: set<ListNode>): map<ListNode, ListNode>
    reads nodes`next
  {
    map x | x in nodes :: x.next
  }

  ghost function PrevMap(nodes: set<ListNode>): map<ListNode, ListNode>
    reads nodes`prev
  {
    map x | x in nodes :: x.prev
  }

  /** The pointers `next` and `prev` make a ring of `order`. */
  ghost predicate RingOf(order: seq<ListNode>, next: map<ListNode, ListNode>, prev: map<ListNode, ListNode>) {
    Distinct(order) && forall k :: 0 <= k < |order| ==> PlacedAt(order, next, prev, k)
  }

  ghost predicate PlacedAt(order: seq<ListNode>, next: map<ListNode, ListNode>, prev: map<ListNode, ListNode>, k: nat)
    requires k < |order|
  {
    order[k] in next && next[order[k]] == order[Succ(k, |order|)] && order[k] in prev &&
    prev[order[k]] == order[Pred(k, |order|)]
  }

  lemma RingPointers(order: seq<ListNode>)
    requires IsRing(order)
    ensures RingOf(order, NextMap(NodeSet(order)), PrevMap(NodeSet(order)))
  {
    forall k | 0 <= k < |order| ensures PlacedAt(order, NextMap(NodeSet(order)), PrevMap(NodeSet(order)), k) {
      assert LinkedAt(order, k);
    }
  }

  /** The pointers of `x` after TurnNeighbours, if they were `next` and `prev` before. */
  ghost predicate AfterNeighbours(a: ListNode, b: ListNode, x: ListNode, next: map<ListNode, ListNode>,
                                  prev: map<ListNode, ListNode>)
    requires a in next && b in next && x in next && a in prev && b in prev && x in prev
    reads {x}`next, {x}`prev
  {
    x.next == (if x == a then next[b] else if x == b then a else if x == prev[a] then b else next[x]) &&
    x.prev == if x == a then b else if x == b then prev[a] else if x == next[b] then a else prev[x]
  }

  lemma NeighboursExchanged(order: seq<ListNode>, i: nat, next: map<ListNode, ListNode>, prev: map<ListNode, ListNode>)
    requires |order| >= 3 && i < |order| && RingOf(order, next, prev) && next.Keys == prev.Keys == NodeSet(order)
    requires forall x :: x in order ==> AfterNeighbours(order[i], order[Succ(i, |order|)], x, next, prev)
    ensures IsRing(Exchange(order, order[i], order[Succ(i, |order|)]))
  {
    var j := Succ(i, |order|);
    assert PlacedAt(order, next, prev, i) && PlacedAt(order, next, prev, j);
    forall k | 0 <= k < |order| ensures PointsAs(order, k, order[i := order[j]][j := order[i]], Swapped(k, i, j)) {
      assert PlacedAt(order, next, prev, k) && AfterNeighbours(order[i], order[j], order[k], next, prev);
      NeighbourPoints(order, i, k);
    }
    ExchangedRing(order, i, j);
  }

  /** The assignments of linked_list_swap_nodes for two nodes that are not neighbours. */
  method TurnDistant(a: ListNode, b: ListNode)
    requires a != b && {a, b} !! {a.next, a.prev, b.next, b.prev}
    modifies {a, b, a.prev, b.prev}`next, {a, b, a.next, b.next}`prev
    ensures a.next == old(b.next) && a.prev == old(b.prev)
    ensures b.next == old(a.next) && b.prev == old(a.prev)
    ensures old(a.next).prev == if old(a.next == b.next) then a else b
    ensures old(a.prev).next == if old(a.prev == b.prev) then a else b
    ensures old(b.next).prev == a && old(b.prev).next == a
  {
    a.next.prev := b;
    a.prev.next := b;
    b.next.prev := a;
    b.prev.next := a;

    var tmpPrev, tmpNext := a.prev, a.next;
    a.prev := b.prev;
    a.next := b.next;
    b.prev := tmpPrev;
    b.next := tmpNext;
  }

  /** The pointers of `x` after TurnDistant, if they were `next` and `prev` before. */
  ghost predicate AfterDistant(a: ListNode, b: ListNode, x: ListNode, next: map<ListNode, ListNode>,
                               prev: map<ListNode, ListNode>)
    requires a in next && b in next && x in next && a in prev && b in prev && x in prev
    reads {x}`next, {x}`prev
  {
    x.next == (if x == a then next[b] else if x == b then next[a] else if x == prev[b] then a
               else if x == prev[a] then b else next[x]) &&
    x.prev == if x == a then prev[b] else if x == b then prev[a] else if x == next[b] then a
              else if x == next[a] then b else prev[x]
  }

  lemma DistantExchanged(order: seq<ListNode>, i: nat, j: nat, next: map<ListNode, ListNode>,
                         prev: map<ListNode, ListNode>)
    requires i < |order| && j < |order| && i != j && RingOf(order, next, prev)
    requires Succ(i, |order|) != j && Succ(j, |order|) != i && next.Keys == prev.Keys == NodeSet(order)
    requires forall x :: x in order ==> AfterDistant(order[i], order[j], x, next, prev)
    ensures IsRing(Exchange(order, order[i], order[j]))
  {
    assert PlacedAt(order, next, prev, i) && PlacedAt(order, next, prev, j);
    forall k | 0 <= k < |order| ensures PointsAs(order, k, order[i := order[j]][j := order[i]], Swapped(k, i, j)) {
      assert PlacedAt(order, next, prev, k) && AfterDistant(order[i], order[j], order[k], next, prev);
      DistantPoints(order, i, j, k);
    }
    ExchangedRing(order, i, j);
  }

  /** Two nodes of which the first is its own predecessor; `next` still leads from each to the other. */
  ghost predicate Skewed(pair: seq<ListNode>)
    reads NodeSet(pair)`next, NodeSet(pair)`prev
  {
    |pair| == 2 && pair[0] != pair[1] && pair[0].next == pair[1] && pair[1].next == pair[0] &&
    pair[0].prev == pair[0] && pair[1].prev == pair[0]
  }

  /** Two nodes of which the first is its own successor. */
  ghost predicate Knotted(pair: seq<ListNode>)
    reads NodeSet(pair)`next, NodeSet(pair)`prev
  {
    |pair| == 2 && pair[0] != pair[1] && pair[0].next == pair[0] && pair[1].next == pair[0] &&
    pair[0].prev == pair[1] && pair[1].prev == pair[0]
  }

  /** The branch of linked_list_swap_nodes for a node `b` that follows `a` directly. */
  method SwapNeighbours(a: ListNode, b: ListNode, ghost order: seq<ListNode>, ghost i: nat)
    requires (IsRing(order) || Skewed(order)) && i < |order| && a != b && order[i] == a && b in order && a.next == b
    modifies NodeSet(order)`next, NodeSet(order)`prev
    ensures old(IsRing(order)) ==> (IsRing(Exchange(order, a, b)) <==> |order| >= 3)
    ensures old(IsRing(order)) && |order| == 2 ==> Skewed([b, a])
    ensures old(Skewed(order)) ==> if a == order[0] then Knotted(order) else Skewed(order)
  {
    ghost var next, prev := NextMap(NodeSet(order)), PrevMap(NodeSet(order));
    ghost var j := Succ(i, |order|);
    if IsRing(order) {
      assert LinkedAt(order, i) && LinkedAt(order, j);
      RingPointers(order);
    }
    TurnNeighbours(a, b);
    if |order| == 2 {
      ExchangeIsUpdate(order, i, j);
      assert old(IsRing(order)) ==> !LinkedAt(order[i := b][j := a], i);
    } else {
      NeighboursExchanged(order, i, next, prev);
    }
  }

  /** The branch for two nodes that are not neighbours. */
  method SwapDistant(a: ListNode, b: ListNode, ghost order: seq<ListNode>, ghost i: nat, ghost j: nat)
    requires IsRing(order) && i < |order| && j < |order| && order[i] == a && order[j] == b
    requires a != b && a.next != b && b.next != a
    modifies NodeSet(order)`next, NodeSet(order)`prev
    ensures IsRing(Exchange(order, a, b)) && |order| >= 3
  {
    ghost var next, prev := NextMap(NodeSet(order)), PrevMap(NodeSet(order));
    assert LinkedAt(order, i) && LinkedAt(order, j);
    RingPointers(order);
    DistantNodes(order, i, j);
    TurnDistant(a, b);
    DistantExchanged(order, i, j, next, prev);
  }

  /**
   linked_list_swap_nodes.  The two nodes exchange their places in the ring, and nothing else
   changes, exactly when the ring has three nodes or more (or there is nothing to swap).  In a ring
   of two the neighbour branch leaves the first node as its own predecessor, and swapping again can
   leave it as its own successor.
   */
  method SwapNodes(first: ListNode, second: ListNode, ghost order: seq<ListNode>)
    requires (IsRing(order) || Skewed(order)) && first in order && second in order
    modifies NodeSet(order)`next, NodeSet(order)`prev
    ensures old(IsRing(order)) ==> (IsRing(Exchange(order, first, second)) <==> |order| >= 3 || first == second)
    ensures old(IsRing(order)) && |order| == 2 && first != second ==> Skewed([first, second])
    ensures old(Skewed(order)) ==>
      if first == order[1] && second == order[0] then Knotted(order) else Skewed(order)
  {
    if first == second {
      assert Exchange(order, first, second) == order;
      return;
    }
    var a, b := first, second;
    ghost var i :| 0 <= i < |order| && order[i] == a;
    ghost var j :| 0 <= j < |order| && order[j] == b;
    assert IsRing(order) ==> LinkedAt(order, i) && LinkedAt(order, j);
    if b.next == a {
      a, b := b, a;
      i, j := j, i;
    }
    assert Exchange(order, first, second) == Exchange(order, a, b);
    if a.next == b {
      SwapNeighbours(a, b, order, i);
    } else {
      SwapDistant(a, b, order, i, j);
    }
  }

  lemma DistantNodes(order: seq<ListNode>, i: nat, j: nat)
    requires IsRing(order) && i < |order| && j < |order|
    requires i != j && order[i].next != order[j] && order[j].next != order[i]
    ensures {order[i], order[j]} !! {order[i].next, order[i].prev, order[j].next, order[j].prev}
  {
    assert LinkedAt(order, i) && LinkedAt(order, j);
  }

  /** The pointers of one node after TurnDistant, seen from its place in the old order. */
  lemma DistantPoints(order: seq<ListNode>, i: nat, j: nat, k: nat)
    requires i < |order| && j < |order| && k < |order|
    requires i != j && Succ(i, |order|) != j && Succ(j, |order|) != i
    requires var n := |order|;
      order[k].next ==
        if k == i then order[Succ(j, n)] else if k == j then order[Succ(i, n)]
        else if k == Pred(j, n) then order[i] else if k == Pred(i, n) then order[j] else order[Succ(k, n)]
    requires var n := |order|;
      order[k].prev ==
        if k == i then order[Pred(j, n)] else if k == j then order[Pred(i, n)]
        else if k == Succ(j, n) then order[i] else if k == Succ(i, n) then order[j] else order[Pred(k, n)]
    ensures PointsAs(order, k, order[i := order[j]][j := order[i]], Swapped(k, i, j))
  {
  }

  /**
   linked_list_create.  The code writes the last node's predecessor as the node before it and the
   first node's successor as the one after it, so a list needs two nodes.
   */
  method LinkedListCreate(size: nat) returns (list: seq<ListNode>)
    requires size >= 2
    ensures |list| == size && IsRing(list)
    ensures forall x :: x in list ==> fresh(x)
  {
    list := [];
    while |list| < size
      invariant |list| <= size
      invariant Distinct(list)
      invariant forall k :: 0 <= k < |list| ==> fresh(list[k])
    {
      var node := new ListNode();
      list := list + [node];
    }
    for i := 1 to size - 1
      invariant Distinct(list)
      invariant forall k :: 1 <= k < i ==> LinkedAt(list, k)
    {
      list[i].next := list[i + 1];
      list[i].prev := list[i - 1];
    }
    list[0].next := list[1];
    list[0].prev := list[size - 1];
    list[size - 1].next := list[0];
    list[size - 1].prev := list[size - 2];
  }

  /** linked_list_init_jumps: the node at place `i` jumps to slot `i + 1`, the last one to slot 0. */
  method LinkedListInitJumps(start: nat, distance: nat, count: nat, list: ListNode, ghost order: seq<ListNode>)
    requires IsRing(order) && |order| == count && order[0] == list
    modifies NodeSet(order)`jumpAddress
    ensures forall i :: 0 <= i < count ==> order[i].jumpAddress == start + distance * Succ(i, count)
  {
    var node := list;
    for i := 0 to count
      invariant node == order[if i == count then 0 else i]
      invariant forall k :: 0 <= k < i ==> order[k].jumpAddress == start + distance * (k + 1)
    {
      assert LinkedAt(order, i);
      node.jumpAddress := start + distance * (i + 1);
      node := node.next;
    }
    assert LinkedAt(order, 0);
    node.prev.jumpAddress := start;
  }

  /** The ring order after the first `i` rounds of the shuffling loop, for the numbers drawn. */
  ghost function ShuffledOrder<T>(list: seq<T>, draws: seq<nat>, i: nat): (r: seq<T>)
    requires 0 < |list| == |draws| && i <= |list|
    ensures |r| == |list|
  {
    if i == 0 then list
    else Exchange(ShuffledOrder(list, draws, i - 1), list[i - 1], list[draws[i - 1] % |list|])
  }

  /** Whatever numbers are drawn, the shuffled order holds the same nodes, each once. */
  lemma {:induction false} ShuffledOrderSameNodes<T>(list: seq<T>, draws: seq<nat>, i: nat)
    requires 0 < |list| == |draws| && i <= |list| && Distinct(list)
    ensures Distinct(ShuffledOrder(list, draws, i))
    ensures forall x :: x in list <==> x in ShuffledOrder(list, draws, i)
  {
    if i != 0 {
      ShuffledOrderSameNodes(list, draws, i - 1);
      ExchangeDistinct(ShuffledOrder(list, draws, i - 1), list[i - 1], list[draws[i - 1] % |list|]);
    }
  }

  /** Draws that keep the ring: any for three nodes or more, for two nodes those that swap nothing. */
  predicate Shuffles(draws: seq<nat>, count: nat) {
    |draws| == count && (count >= 3 || (count == 2 && forall i :: 0 <= i < count ==> draws[i] % count == i))
  }

  /** What the draws make of two nodes. */
  ghost predicate PairShuffled(pair: seq<ListNode>, draws: seq<nat>)
    requires |pair| == 2 == |draws|
    reads NodeSet(pair)`next, NodeSet(pair)`prev
  {
    if draws[0] % 2 == 0 then
      if draws[1] % 2 == 1 then IsRing(pair) else Skewed([pair[1], pair[0]])
    else
      if draws[1] % 2 == 1 then Skewed(pair) else Knotted(pair)
  }

  /** The state of the shuffling loop for two nodes. */
  ghost predicate PairShuffledTo(pair: seq<ListNode>, draws: seq<nat>, i: nat)
    requires |pair| == 2 == |draws| && i <= 2
    reads NodeSet(pair)`next, NodeSet(pair)`prev
  {
    if i == 0 || (i == 1 && draws[0] % 2 == 0) then IsRing(pair)
    else if i == 1 then Skewed(pair)
    else PairShuffled(pair, draws)
  }

  /** The state of the shuffling loop. */
  ghost predicate ShuffledTo(list: seq<ListNode>, draws: seq<nat>, i: nat)
    requires 2 <= |list| == |draws| && i <= |list| && Distinct(list)
    reads NodeSet(list)`next, NodeSet(list)`prev
  {
    ShuffledOrderSameNodes(list, draws, i);
    if |list| == 2 then PairShuffledTo(list, draws, i) else IsRing(ShuffledOrder(list, draws, i))
  }

  /** One round of the shuffling loop. */
  method ShuffleOne(list: seq<ListNode>, draws: seq<nat>, i: nat)
    requires 2 <= |list| == |draws| && i < |list| && Distinct(list) && ShuffledTo(list, draws, i)
    modifies NodeSet(list)`next, NodeSet(list)`prev
    ensures ShuffledTo(list, draws, i + 1)
  {
    ghost var order := if |list| == 2 then list else ShuffledOrder(list, draws, i);
    ShuffledOrderSameNodes(list, draws, i);
    assert NodeSet(order) == NodeSet(list);
    assert |list| == 2 ==> list == [list[0], list[1]];
    var swapNodePos := draws[i] % |list|;
    SwapNodes(list[i], list[swapNodePos], order);
    assert swapNodePos == i ==> Exchange(order, list[i], list[i]) == order;
  }

  /** The shuffling loop of fill_with_random_offsets; `draws` are the values of rand64. */
  method ShuffleRing(list: seq<ListNode>, draws: seq<nat>)
    requires IsRing(list) && |list| >= 2 && |draws| == |list|
    modifies NodeSet(list)`next, NodeSet(list)`prev
    ensures Shuffles(draws, |list|) ==> IsRing(ShuffledOrder(list, draws, |list|))
    ensures |list| == 2 ==> PairShuffled(list, draws)
  {
    for i := 0 to |list|
      invariant ShuffledTo(list, draws, i)
    {
      ShuffleOne(list, draws, i);
    }
    if Shuffles(draws, |list|) && |list| == 2 {
      NothingSwapped(list, draws);
    }
  }

  lemma NothingSwapped<T>(pair: seq<T>, draws: seq<nat>)
    requires |pair| == 2 && Shuffles(draws, 2) && Distinct(pair)
    ensures ShuffledOrder(pair, draws, 2) == pair
  {
    assert ShuffledOrder(pair, draws, 1) == pair;
  }

  /** The nodes of a ring are one single cycle of `next` pointers. */
  lemma RingIsTour(order: seq<ListNode>)
    requires IsRing(order)
    ensures Tour(NextMap(NodeSet(order)), order)
  {
    var m := NextMap(NodeSet(order));
    forall i | 0 <= i < |order| ensures StepAt(m, order, i) {
      assert LinkedAt(order, i);
    }
    forall x | x in m ensures exists i :: 0 <= i < |order| && order[i] == x {
      assert x in order;
    }
  }

  /** From any node of a ring, `next` is back for the first time after as many steps as there are nodes. */
  lemma RingReturns(order: seq<ListNode>, x: ListNode)
    requires IsRing(order) && x in order
    ensures Closed(NextMap(NodeSet(order)))
    ensures LeastReturn(NextMap(NodeSet(order)), x, |order|)
  {
    var m := NextMap(NodeSet(order));
    RingIsTour(order);
    TourClosed(m, order);
    TourReturns(m, order, x);
  }

  /** linked_list_is_ring: is the first return to `list` after exactly `size` steps? */
  method LinkedListIsRing(list: ListNode, size: nat, ghost nodes: set<ListNode>) returns (r: bool)
    requires size > 0 && list in nodes && Closed(NextMap(nodes))
    ensures r <==> LeastReturn(NextMap(nodes), list, size)
  {
    ghost var m := NextMap(nodes);
    var node := list;
    for i := 0 to size - 1
      invariant node == Follow(m, list, i) && node in nodes
      invariant forall k :: 0 < k <= i ==> Follow(m, list, k) != list
    {
      assert m[node] == node.next;
      node := node.next;
      assert node == Follow(m, list, i + 1);
      if node == list {
        return false;
      }
    }
    assert m[node] == node.next;
    node := node.next;
    assert node == Follow(m, list, size);
    if node != list {
      return false;
    }
    return true;
  }

  /** The consistency check never rejects a ring of the expected size. */
  method CheckRing(list: ListNode, size: nat, ghost order: seq<ListNode>) returns (ok: bool)
    requires IsRing(order) && list in order && size == |order|
    ensures ok && IsRing(order)
    ensures forall k :: 0 <= k < |order| ==> order[k].jumpAddress == old(order[k].jumpAddress)
  {
    RingReturns(order, list);
    ok := LinkedListIsRing(list, size, NodeSet(order));
  }
}

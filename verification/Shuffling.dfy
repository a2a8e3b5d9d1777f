/** What one round of the shuffle moves, and which orders the shuffle can reach. */
module Shuffling {
  import opened Basics
  import opened Orbit
  import opened PointerChase
  import opened Ring

  // ---------------------------------------------------------------- one round, by places

  /** `next` is `order` with what stands at the places `p` and `q` exchanged, and nothing else moved. */
  ghost predicate PlacesExchanged<T>(order: seq<T>, next: seq<T>, p: nat, q: nat)
    requires p < |order| && q < |order|
  {
    |next| == |order| && next[p] == order[q] && next[q] == order[p] &&
    forall k :: 0 <= k < |order| && k != p && k != q ==> next[k] == order[k]
  }

  /**
   The shuffle starts from the list; round `i` puts the node `list[i]` where the node `list[draws[i] % n]`
   was and that one where the first was, and leaves every other node at its place.
   */
  lemma RoundExchangesPlaces<T>(list: seq<T>, draws: seq<nat>, i: nat, p: nat, q: nat)
    requires 0 < |list| == |draws| && i < |list| && Distinct(list) && p < |list| && q < |list|
    requires ShuffledOrder(list, draws, i)[p] == list[i]
    requires ShuffledOrder(list, draws, i)[q] == list[draws[i] % |list|]
    ensures ShuffledOrder(list, draws, 0) == list
    ensures PlacesExchanged(ShuffledOrder(list, draws, i), ShuffledOrder(list, draws, i + 1), p, q)
  {
    ShuffledOrderSameNodes(list, draws, i);
    ExchangeIsUpdate(ShuffledOrder(list, draws, i), p, q);
  }

  // ---------------------------------------------------------------- every order can be reached

  /** `target` holds the nodes of `list`, each once. */
  ghost predicate Arranges<T>(target: seq<T>, list: seq<T>) {
    |target| == |list| && Distinct(target) && (forall x <- target :: x in list) && forall x <- list :: x in target
  }

  /** The first rounds depend on the first draws only. */
  lemma {:induction false} FirstRounds<T>(list: seq<T>, draws: seq<nat>, other: seq<nat>, i: nat)
    requires 0 < |list| == |draws| == |other| && i <= |list| && draws[..i] == other[..i]
    ensures ShuffledOrder(list, draws, i) == ShuffledOrder(list, other, i)
  {
    if i != 0 {
      assert draws[..i][i - 1] == other[..i][i - 1];
      assert draws[..i - 1] == draws[..i][..i - 1] && other[..i - 1] == other[..i][..i - 1];
      FirstRounds(list, draws, other, i - 1);
    }
  }

  lemma ExchangeTwice<T>(order: seq<T>, a: T, b: T)
    ensures Exchange(Exchange(order, a, b), a, b) == order
  {
  }

  /** From place `m` on, `target` is `list`. */
  ghost predicate SameFrom<T>(target: seq<T>, list: seq<T>, m: nat)
    requires |target| == |list|
  {
    forall k :: m <= k < |list| ==> target[k] == list[k]
  }

  /** Undoing the last exchange brings one more node of the list to its own place. */
  lemma OneMoreInPlace<T>(list: seq<T>, target: seq<T>, m: nat)
    requires 0 < m <= |list| && Distinct(list) && Arranges(target, list) && SameFrom(target, list, m)
    ensures var before := Exchange(target, list[m - 1], target[m - 1]);
      Arranges(before, list) && SameFrom(before, list, m - 1)
  {
    assert list[m - 1] in list && target[m - 1] in target;
    ExchangeDistinct(target, list[m - 1], target[m - 1]);
  }

  lemma SmallRemainder(d: nat, n: nat)
    requires d < n
    ensures d % n == d
  {
  }

  /** The last exchange, with the node found at place `d` of the list, gives the target. */
  lemma LastRound<T>(list: seq<T>, before: seq<nat>, target: seq<T>, m: nat, d: nat)
    requires 0 < m <= |list| == |before| == |target| && d < |list| && list[d] == target[m - 1]
    requires ShuffledOrder(list, before, m - 1) == Exchange(target, list[m - 1], target[m - 1])
    ensures ShuffledOrder(list, before[m - 1 := d], m) == target
  {
    var draws := before[m - 1 := d];
    FirstRounds(list, draws, before, m - 1);
    SmallRemainder(d, |list|);
    ExchangeTwice(target, list[m - 1], target[m - 1]);
    calc {
      ShuffledOrder(list, draws, m);
      Exchange(ShuffledOrder(list, draws, m - 1), list[m - 1], list[draws[m - 1] % |list|]);
      Exchange(Exchange(target, list[m - 1], target[m - 1]), list[m - 1], target[m - 1]);
      target;
    }
  }

  lemma ListIndex<T>(list: seq<T>, x: T) returns (d: nat)
    requires x in list
    ensures d < |list| && list[d] == x
  {
    d :| d < |list| && list[d] == x;
  }

  /** Draws whose first `m` rounds lead to an order that moves only the first `m` nodes of the list. */
  lemma {:induction false} RoundsReach<T>(list: seq<T>, target: seq<T>, m: nat) returns (draws: seq<nat>)
    requires 0 < |list| && m <= |list| && Distinct(list) && Arranges(target, list) && SameFrom(target, list, m)
    ensures |draws| == |list| && ShuffledOrder(list, draws, m) == target
    decreases m
  {
    if m == 0 {
      draws := seq(|list|, _ => 0);
      assert target == list;
    } else {
      OneMoreInPlace(list, target, m);
      var before := RoundsReach(list, Exchange(target, list[m - 1], target[m - 1]), m - 1);
      assert target[m - 1] in target;
      var d := ListIndex(list, target[m - 1]);
      LastRound(list, before, target, m, d);
      draws := before[m - 1 := d];
    }
  }

  /** The shuffle leads to an order exactly when that holds the nodes of the list, each once. */
  lemma ShuffleReaches<T>(list: seq<T>, target: seq<T>)
    requires 0 < |list| && Distinct(list)
    ensures Arranges(target, list) <==>
      exists draws: seq<nat> :: |draws| == |list| && ShuffledOrder(list, draws, |list|) == target
  {
    if Arranges(target, list) {
      var draws := RoundsReach(list, target, |list|);
      assert |draws| == |list| && ShuffledOrder(list, draws, |list|) == target;
    }
    if draws: seq<nat> :| |draws| == |list| && ShuffledOrder(list, draws, |list|) == target {
      ShuffledOrderSameNodes(list, draws, |list|);
    }
  }

  lemma SlotOccursFirst(count: nat, s: nat)
    requires s < count
    ensures s in FirstSlots(count)
  {
    assert FirstSlots(count)[Pred(s, count)] == s;
  }

  /** As many different slots as there are slots are all of them. */
  lemma AllSlotsArranged(slots: seq<nat>)
    requires Distinct(slots) && forall k :: 0 <= k < |slots| ==> slots[k] < |slots|
    ensures Arranges(slots, FirstSlots(|slots|))
  {
    var first := FirstSlots(|slots|);
    forall s | s in slots ensures s in first {
      SlotOccursFirst(|slots|, s);
    }
    DistinctSize(first);
    var all: set<nat> := set s | s in first;
    DistinctCovers(slots, all);
    forall s | s in first ensures s in slots {
      assert s in all;
    }
  }

  /** Every slot once. */
  ghost predicate AllSlots(slots: seq<nat>) {
    Distinct(slots) && forall k :: 0 <= k < |slots| ==> slots[k] < |slots|
  }

  lemma SlotOrderOccurs(slots: seq<nat>) returns (draws: seq<nat>)
    requires 0 < |slots| && AllSlots(slots)
    ensures |draws| == |slots| && JumpSlots(draws) == slots
  {
    AllSlotsArranged(slots);
    draws := RoundsReach(FirstSlots(|slots|), slots, |slots|);
  }

  /** The chain in memory visits the slots in every order of all slots, each for some draws, and in no other. */
  lemma EverySlotOrderOccurs(slots: seq<nat>)
    requires 0 < |slots|
    ensures AllSlots(slots) <==> exists draws: seq<nat> :: |draws| == |slots| && JumpSlots(draws) == slots
  {
    if AllSlots(slots) {
      var draws := SlotOrderOccurs(slots);
    }
    if draws: seq<nat> :| |draws| == |slots| && JumpSlots(draws) == slots {
      JumpSlotsComplete(draws);
    }
  }
}

/** What filling makes of a region of two slots, where a swap does not keep the ring. */
module PointerPair {
  import opened Bytes
  import opened Orbit
  import opened PointerChase
  import opened Ring

  /** The node `x` jumps to slot 1, `y` to slot 0. */
  ghost predicate PairJumps(pair: seq<ListNode>, start: nat, distance: nat)
    requires |pair| == 2
    reads NodeSet(pair)`jumpAddress
  {
    pair[0].jumpAddress == start + distance && pair[1].jumpAddress == start
  }

  /** The list of two nodes after the shuffling loop. */
  method MakePair(start: nat, distance: nat, draws: seq<nat>) returns (pair: seq<ListNode>)
    requires |draws| == 2
    ensures |pair| == 2 && pair[0] != pair[1] && PairShuffled(pair, draws) && PairJumps(pair, start, distance)
    ensures forall x :: x in pair ==> fresh(x)
  {
    pair := LinkedListCreate(2);
    LinkedListInitJumps(start, distance, 2, pair[0], pair);
    ShuffleRing(pair, draws);
  }

  /** The consistency check on two nodes: `next` leads to the other node and back unless both rounds swapped in turn. */
  method CheckPair(pair: seq<ListNode>, draws: seq<nat>) returns (ok: bool)
    requires |pair| == 2 == |draws| && pair[0] != pair[1] && PairShuffled(pair, draws)
    ensures ok <==> !(draws[0] % 2 == 1 && draws[1] % 2 == 0)
    ensures ok ==> pair[0].next == pair[1] && pair[1].next == pair[0]
  {
    ghost var nodes := NodeSet(pair);
    assert nodes == {pair[0], pair[1]};
    assert IsRing(pair) ==> LinkedAt(pair, 0) && LinkedAt(pair, 1);
    ghost var m := NextMap(nodes);
    ok := LinkedListIsRing(pair[0], 2, nodes);
    assert Follow(m, pair[0], 1) == m[Follow(m, pair[0], 0)];
    assert Follow(m, pair[0], 2) == m[Follow(m, pair[0], 1)];
  }

  /** The slots that the two rounds of the filling loop write to, first that of the first node. */
  function Targets(draws: seq<nat>): (targets: (nat, nat))
    requires |draws| == 2
    ensures targets.0 <= 1 && targets.1 <= 1
  {
    if draws[0] % 2 == 0 then if draws[1] % 2 == 1 then (0, 1) else (0, 0) else (1, 1)
  }

  /** The offset of slot 0 or 1. */
  function Place(distance: nat, s: nat): nat
    requires s <= 1
  {
    if s == 0 then 0 else distance
  }

  lemma PairTargets(pair: seq<ListNode>, draws: seq<nat>, start: nat, distance: nat)
    requires |pair| == 2 == |draws| && PairShuffled(pair, draws) && PairJumps(pair, start, distance)
    requires !(draws[0] % 2 == 1 && draws[1] % 2 == 0)
    ensures pair[0].prev in pair && pair[0].prev.jumpAddress == start + Place(distance, Targets(draws).0)
    ensures pair[1].prev in pair && pair[1].prev.jumpAddress == start + Place(distance, Targets(draws).1)
  {
    assert IsRing(pair) ==> LinkedAt(pair, 0) && LinkedAt(pair, 1);
  }

  /** Slot `s` holds the address of slot `t`. */
  ghost predicate Leads(bytes: seq<Byte>, start: nat, distance: nat, s: nat, t: nat)
    requires s <= 1 && t <= 1 && POINTER_SIZE <= distance && distance * 2 <= |bytes|
  {
    PointerAt(bytes, start, start + Place(distance, s)) == start + Place(distance, t)
  }

  lemma SlotLeads(bytes: seq<Byte>, start: nat, distance: nat, s: nat, t: nat)
    requires s <= 1 && t <= 1 && POINTER_SIZE <= distance && distance * 2 <= |bytes|
    requires start + |bytes| <= Capacity(POINTER_SIZE)
    requires SlotHolds(bytes, Place(distance, s), distance, start + Place(distance, t))
    ensures Leads(bytes, start, distance, s, t)
  {
    DecodeEncode(start + Place(distance, t), POINTER_SIZE);
  }

  /** Writing slot 1 leaves the pointer in slot 0. */
  lemma LeadsKept(before: seq<Byte>, after: seq<Byte>, start: nat, distance: nat)
    requires POINTER_SIZE <= distance && distance * 2 <= |before| == |after|
    requires forall x :: 0 <= x < distance ==> after[x] == before[x]
    ensures LeadsAlike(before, after, start, distance)
  {
    assert after[0..POINTER_SIZE] == before[0..POINTER_SIZE];
  }

  /** Slot 0 leads to slot 1 in both or in neither. */
  ghost predicate LeadsAlike(before: seq<Byte>, after: seq<Byte>, start: nat, distance: nat)
    requires POINTER_SIZE <= distance && distance * 2 <= |before| && distance * 2 <= |after|
  {
    Leads(before, start, distance, 0, 1) <==> Leads(after, start, distance, 0, 1)
  }

  /** Where slot `s` leads after writing slots `targets.0` and `targets.1`: to slot 1 and slot 0, or where it did. */
  ghost predicate PairFilled(before: seq<Byte>, after: seq<Byte>, start: nat, distance: nat, targets: (nat, nat))
    requires POINTER_SIZE <= distance && distance * 2 <= |before| == |after|
  {
    (forall x :: distance * 2 <= x < |after| ==> after[x] == before[x]) &&
    match targets
    case (0, 1) => Leads(after, start, distance, 0, 1) && Leads(after, start, distance, 1, 0)
    case (0, 0) => Leads(after, start, distance, 0, 0)
    case _ => Leads(after, start, distance, 1, 0) && LeadsAlike(before, after, start, distance)
  }

  /** One round of the filling loop. */
  method WriteJump(mem: array<Byte>, start: nat, distance: nat, at: nat, p: nat, ghost s: nat, ghost t: nat)
    requires s <= 1 && t <= 1 && POINTER_SIZE <= distance && distance * 2 <= mem.Length
    requires at == Place(distance, s) && p == start + Place(distance, t) && start + mem.Length <= Capacity(POINTER_SIZE)
    modifies mem
    ensures Leads(mem[..], start, distance, s, t)
    ensures s == 1 ==> LeadsAlike(old(mem[..]), mem[..], start, distance)
    ensures forall x :: distance * 2 <= x < mem.Length ==> mem[x] == old(mem[x])
  {
    ghost var before := mem[..];
    WriteSlot(mem, at, distance, p);
    SlotLeads(mem[..], start, distance, s, t);
    if s == 1 {
      LeadsKept(before, mem[..], start, distance);
    }
  }

  /** The two rounds of the filling loop. */
  method FillPairMemory(mem: array<Byte>, start: nat, distance: nat, pair: seq<ListNode>, draws: seq<nat>)
    requires |pair| == 2 == |draws| && PairShuffled(pair, draws) && PairJumps(pair, start, distance)
    requires pair[0].next == pair[1] && !(draws[0] % 2 == 1 && draws[1] % 2 == 0)
    requires POINTER_SIZE <= distance && distance * 2 <= mem.Length && start + mem.Length <= Capacity(POINTER_SIZE)
    modifies mem
    ensures PairFilled(old(mem[..]), mem[..], start, distance, Targets(draws))
  {
    PairTargets(pair, draws, start, distance);
    ghost var targets := Targets(draws);
    var node := pair[0];
    WriteJump(mem, start, distance, node.prev.jumpAddress - start, node.jumpAddress, targets.0, 1);
    node := node.next;
    WriteJump(mem, start, distance, node.prev.jumpAddress - start, node.jumpAddress, targets.1, 0);
  }

  lemma TwoSlots(start: nat, distance: nat)
    ensures Slots(start, distance, 2) == {start, start + distance}
  {
    assert SlotAddress(start, distance, 0) == start && SlotAddress(start, distance, 1) == start + distance;
    forall a | a in {start, start + distance} ensures a in Slots(start, distance, 2) {
      var k := if a == start then 0 else 1;
      assert SlotAddress(start, distance, k) == a;
    }
  }

  /** The addresses of the two slots. */
  function BothSlots(start: nat, distance: nat): seq<nat> {
    [start, start + distance]
  }

  lemma TwoTour(m: map<nat, nat>, x: nat, y: nat)
    requires x != y && m.Keys == {x, y}
    ensures Tour<nat>(m, [x, y]) <==> m[x] == y && m[y] == x
  {
    var tour: seq<nat> := [x, y];
    assert Tour(m, tour) ==> StepAt(m, tour, 0) && StepAt(m, tour, 1);
    forall z | z in m ensures exists i :: 0 <= i < 2 && tour[i] == z {
      assert tour[0] == x && tour[1] == y;
    }
  }

  /** Both slots are one cycle when each leads to the other. */
  lemma PairIsTour(bytes: seq<Byte>, start: nat, distance: nat)
    requires POINTER_SIZE <= distance && distance * 2 <= |bytes|
    ensures Readable(bytes, start, Slots(start, distance, 2))
    ensures Tour(SlotMap(bytes, start, distance, 2), BothSlots(start, distance)) <==>
      Leads(bytes, start, distance, 0, 1) && Leads(bytes, start, distance, 1, 0)
  {
    TwoSlots(start, distance);
    var m := SlotMap(bytes, start, distance, 2);
    assert m[start] == PointerAt(bytes, start, start + Place(distance, 0));
    assert m[start + distance] == PointerAt(bytes, start, start + Place(distance, 1));
    TwoTour(m, start, start + distance);
  }

  /** Whether the filled memory is a cycle: if nothing was swapped, or slot 0 happened to hold the address of slot 1. */
  ghost predicate PairWorks(before: seq<Byte>, start: nat, distance: nat, draws: seq<nat>)
    requires |draws| == 2 && POINTER_SIZE <= distance && distance * 2 <= |before|
  {
    Shuffles(draws, 2) || (draws[0] % 2 == 1 && draws[1] % 2 == 1 && Leads(before, start, distance, 0, 1))
  }

  lemma FilledPairIsTour(before: seq<Byte>, after: seq<Byte>, start: nat, distance: nat, draws: seq<nat>)
    requires |draws| == 2 && !(draws[0] % 2 == 1 && draws[1] % 2 == 0)
    requires POINTER_SIZE <= distance && distance * 2 <= |before| == |after|
    requires PairFilled(before, after, start, distance, Targets(draws))
    ensures Leads(after, start, distance, 0, 1) && Leads(after, start, distance, 1, 0) <==>
      PairWorks(before, start, distance, draws)
  {
  }

  /**
   fill_with_random_offsets in read mode for two slots, up to the check of memory.  The check of the
   list fails when both rounds swap; of the rest, memory is one cycle exactly when nothing was swapped
   or the second node was drawn twice and slot 0, which is not written then, leads to slot 1 already.
   */
  method FillPair(mem: array<Byte>, start: nat, distance: nat, draws: seq<nat>) returns (ok: bool)
    requires |draws| == 2 && POINTER_SIZE <= distance && distance * 2 <= mem.Length
    requires start + mem.Length <= Capacity(POINTER_SIZE)
    modifies mem
    ensures ok <==> !(draws[0] % 2 == 1 && draws[1] % 2 == 0)
    ensures Readable(mem[..], start, Slots(start, distance, 2))
    ensures ok ==> (Tour(SlotMap(mem[..], start, distance, 2), BothSlots(start, distance)) <==>
      PairWorks(old(mem[..]), start, distance, draws))
    ensures forall x :: 0 <= x < mem.Length && (!ok || distance * 2 <= x) ==> mem[x] == old(mem[x])
  {
    var pair := MakePair(start, distance, draws);
    ok := CheckPair(pair, draws);
    if ok {
      ghost var before := mem[..];
      FillPairMemory(mem, start, distance, pair, draws);
      FilledPairIsTour(before, mem[..], start, distance, draws);
    }
    PairIsTour(mem[..], start, distance);
  }
}

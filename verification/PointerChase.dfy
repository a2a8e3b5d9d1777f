/**
 The random read pattern: the shuffled ring is written into memory as a chain of pointers, one in
 each slot of `distance` bytes, and every reader thread follows its own stretch of the chain.
 `mem` is the mapped region [pmem_start, pmem_end); `start` is the address of its first byte.
 */
module PointerChase {
  import opened Bytes
  import opened Basics
  import opened Orbit
  import opened Ring

  const POINTER_SIZE := 8
  const FILLER: Byte := 97  // 'a'

  /** The pointer stored at address `a`. */
  ghost function PointerAt(bytes: seq<Byte>, start: nat, a: nat): nat
    requires start <= a && a - start + POINTER_SIZE <= |bytes|
  {
    Decode(bytes[a - start..a - start + POINTER_SIZE])
  }

  ghost predicate Readable(bytes: seq<Byte>, start: nat, cells: set<nat>) {
    forall a :: a in cells ==> start <= a && a - start + POINTER_SIZE <= |bytes|
  }

  /** The pointers stored at the addresses `cells`. */
  ghost function PointerMap(bytes: seq<Byte>, start: nat, cells: set<nat>): map<nat, nat>
    requires Readable(bytes, start, cells)
  {
    map a | a in cells :: PointerAt(bytes, start, a)
  }

  function SlotAddress(start: nat, distance: nat, s: nat): nat {
    start + distance * s
  }

  /** The addresses of the first `count` slots. */
  ghost function Slots(start: nat, distance: nat, count: nat): set<nat> {
    set k | 0 <= k < count :: SlotAddress(start, distance, k)
  }

  ghost predicate StoredAt(bytes: seq<Byte>, start: nat, m: map<nat, nat>, a: nat)
    requires a in m
  {
    start <= a && a - start + POINTER_SIZE <= |bytes| && PointerAt(bytes, start, a) == m[a]
  }

  /** Every address in `m` holds the pointer that `m` says. */
  ghost predicate Stores(bytes: seq<Byte>, start: nat, m: map<nat, nat>) {
    forall a {:trigger StoredAt(bytes, start, m, a)} :: a in m ==> StoredAt(bytes, start, m, a)
  }

  /** The memcpy that replaces an address by the pointer stored there. */
  method NextAddress(mem: array<Byte>, start: nat, a: nat, ghost m: map<nat, nat>) returns (p: nat)
    requires Stores(mem[..], start, m) && a in m
    ensures p == m[a]
  {
    assert StoredAt(mem[..], start, m, a);
    var word := mem[a - start..a - start + POINTER_SIZE];
    assert word == mem[..][a - start..a - start + POINTER_SIZE];
    p := Decode(word);
  }

  /** The slot at offset `at` holds the pointer `p`, and filler behind it. */
  ghost predicate SlotHolds(bytes: seq<Byte>, at: nat, distance: nat, p: nat)
    requires POINTER_SIZE <= distance && at + distance <= |bytes|
  {
    && bytes[at..at + POINTER_SIZE] == Encode(p, POINTER_SIZE)
    && (forall x :: at + POINTER_SIZE <= x < at + distance ==> bytes[x] == FILLER)
  }

  /** The memcpy and the memset of one round of the filling loop. */
  method WriteSlot(mem: array<Byte>, at: nat, distance: nat, p: nat)
    requires POINTER_SIZE <= distance && at + distance <= mem.Length
    modifies mem
    ensures SlotHolds(mem[..], at, distance, p)
    ensures forall x :: 0 <= x < mem.Length && !(at <= x < at + distance) ==> mem[x] == old(mem[x])
  {
    var word := Encode(p, POINTER_SIZE);
    for x := 0 to POINTER_SIZE
      invariant forall y :: 0 <= y < x ==> mem[at + y] == word[y]
      invariant forall y :: 0 <= y < mem.Length && !(at <= y < at + x) ==> mem[y] == old(mem[y])
    {
      mem[at + x] := word[x];
    }
    for x := at + POINTER_SIZE to at + distance
      invariant forall y :: 0 <= y < POINTER_SIZE ==> mem[at + y] == word[y]
      invariant forall y :: at + POINTER_SIZE <= y < x ==> mem[y] == FILLER
      invariant forall y :: 0 <= y < mem.Length && !(at <= y < x) ==> mem[y] == old(mem[y])
    {
      mem[x] := FILLER;
    }
    assert mem[..][at..at + POINTER_SIZE] == word;
  }

  lemma {:induction false} SlotsApart(distance: nat, s: nat, t: nat)
    requires s < t
    ensures distance * s + distance <= distance * t
  {
    assert distance * t == distance * (t - 1) + distance;
    if s + 1 < t {
      SlotsApart(distance, s, t - 1);
    }
  }

  /** Writing one slot leaves every other slot as it was. */
  lemma SlotKept(before: seq<Byte>, after: seq<Byte>, distance: nat, s: nat, t: nat, p: nat)
    requires POINTER_SIZE <= distance && |before| == |after| && s != t
    requires distance * s + distance <= |before| && SlotHolds(before, distance * s, distance, p)
    requires forall x :: 0 <= x < |after| && !(distance * t <= x < distance * t + distance) ==> after[x] == before[x]
    ensures SlotHolds(after, distance * s, distance, p)
  {
    if s < t { SlotsApart(distance, s, t); } else { SlotsApart(distance, t, s); }
    var at, written := distance * s, distance * t;
    assert at + distance <= written || written + distance <= at;
    forall x | at <= x < at + distance ensures after[x] == before[x] {
    }
    assert after[at..at + POINTER_SIZE] == before[at..at + POINTER_SIZE];
  }

  /** The slot `slots[k]` holds the address of the slot that comes next. */
  ghost predicate SlotFilled(bytes: seq<Byte>, start: nat, distance: nat, slots: seq<nat>, k: nat)
    requires POINTER_SIZE <= distance && k < |slots|
  {
    && distance * slots[k] + distance <= |bytes|
    && SlotHolds(bytes, distance * slots[k], distance, SlotAddress(start, distance, slots[Succ(k, |slots|)]))
  }

  /** Every slot holds the address of the one that follows it in `slots`. */
  ghost predicate Filled(bytes: seq<Byte>, start: nat, distance: nat, slots: seq<nat>)
    requires POINTER_SIZE <= distance
  {
    forall k :: 0 <= k < |slots| ==> SlotFilled(bytes, start, distance, slots, k)
  }

  lemma SlotFilledKept(before: seq<Byte>, after: seq<Byte>, start: nat, distance: nat, slots: seq<nat>, k: nat, l: nat)
    requires POINTER_SIZE <= distance && k < |slots| && l < |slots| && k != l && Distinct(slots)
    requires |before| == |after| && SlotFilled(before, start, distance, slots, k)
    requires forall x :: 0 <= x < |after| && !(distance * slots[l] <= x < distance * slots[l] + distance) ==>
      after[x] == before[x]
    ensures SlotFilled(after, start, distance, slots, k)
  {
    SlotKept(before, after, distance, slots[k], slots[l], SlotAddress(start, distance, slots[Succ(k, |slots|)]));
  }

  /** The slots written in the first `i` rounds from place `p` on are filled; behind all slots nothing has changed. */
  ghost predicate TurnsFilled(all: seq<Byte>, bytes: seq<Byte>, start: nat, distance: nat, slots: seq<nat>, p: nat,
                              i: nat)
    requires POINTER_SIZE <= distance && p < |slots| && i <= |slots|
  {
    && |bytes| == |all|
    && (forall k :: 0 <= k < i ==> SlotFilled(bytes, start, distance, slots, Pred(Turn(p, k, |slots|), |slots|)))
    && (forall x :: distance * |slots| <= x < |all| ==> bytes[x] == all[x])
  }

  /** One round keeps the slots filled before it. */
  lemma TurnsFilledNext(all: seq<Byte>, before: seq<Byte>, after: seq<Byte>, start: nat, distance: nat, slots: seq<nat>,
                        p: nat, i: nat, l: nat)
    requires POINTER_SIZE <= distance && p < |slots| && i < |slots| && Distinct(slots)
    requires TurnsFilled(all, before, start, distance, slots, p, i) && |after| == |before|
    requires l == Pred(Turn(p, i, |slots|), |slots|) && SlotFilled(after, start, distance, slots, l)
    requires distance * slots[l] + distance <= distance * |slots|
    requires forall x :: 0 <= x < |after| && !(distance * slots[l] <= x < distance * slots[l] + distance) ==>
      after[x] == before[x]
    ensures TurnsFilled(all, after, start, distance, slots, p, i + 1)
  {
    forall k | 0 <= k < i ensures SlotFilled(after, start, distance, slots, Pred(Turn(p, k, |slots|), |slots|)) {
      SlotFilledKept(before, after, start, distance, slots, Pred(Turn(p, k, |slots|), |slots|), l);
    }
  }

  /** Once round the ring, every slot has had its turn. */
  lemma AllTurnsFilled(all: seq<Byte>, bytes: seq<Byte>, start: nat, distance: nat, slots: seq<nat>, p: nat)
    requires POINTER_SIZE <= distance && p < |slots|
    requires TurnsFilled(all, bytes, start, distance, slots, p, |slots|)
    ensures Filled(bytes, start, distance, slots)
  {
    var count := |slots|;
    forall s | 0 <= s < count ensures SlotFilled(bytes, start, distance, slots, s) {
      var q := Succ(s, count);
      var k := if q >= p then q - p else q + count - p;
      assert Turn(p, k, count) == q && Pred(q, count) == s;
    }
  }

  /**
   The filling loop of fill_with_random_offsets, for a ring whose node at place `k` jumps to slot
   `slots[k]`: the slot that a node's predecessor jumps to receives the node's own jump address.
   */
  method FillMemory(mem: array<Byte>, start: nat, distance: nat, count: nat, list: ListNode,
                    ghost order: seq<ListNode>, ghost slots: seq<nat>, ghost p: nat)
    requires IsRing(order) && |order| == count == |slots| && p < count && order[p] == list
    requires POINTER_SIZE <= distance && distance * count <= mem.Length
    requires Distinct(slots) && forall k :: 0 <= k < count ==> slots[k] < count
    requires forall k :: 0 <= k < count ==> order[k].jumpAddress == SlotAddress(start, distance, slots[k])
    modifies mem
    ensures Filled(mem[..], start, distance, slots)
    ensures forall x :: distance * count <= x < mem.Length ==> mem[x] == old(mem[x])
  {
    ghost var all := mem[..];
    var node := list;
    for i := 0 to count
      invariant node == order[Turn(p, i, count)]
      invariant TurnsFilled(all, mem[..], start, distance, slots, p, i)
    {
      ghost var at := Turn(p, i, count);
      assert LinkedAt(order, at);
      ghost var before, l := mem[..], Pred(at, count);
      SlotsApart(distance, slots[l], count);
      WriteSlot(mem, node.prev.jumpAddress - start, distance, node.jumpAddress);
      TurnsFilledNext(all, before, mem[..], start, distance, slots, p, i, l);
      node := node.next;
    }
    AllTurnsFilled(all, mem[..], start, distance, slots, p);
  }

  /** The slots in the order of an unshuffled list: the last node jumps to slot 0. */
  ghost function FirstSlots(count: nat): (slots: seq<nat>)
    ensures |slots| == count
    ensures forall k :: 0 <= k < count ==> slots[k] == Succ(k, count)
    ensures Distinct(slots)
  {
    seq(count, k requires 0 <= k < count => Succ(k, count))
  }

  /** The order in which the shuffled ring jumps to the slots, for the numbers drawn. */
  ghost function JumpSlots(draws: seq<nat>): (slots: seq<nat>)
    requires 0 < |draws|
    ensures |slots| == |draws|
  {
    ShuffledOrder(FirstSlots(|draws|), draws, |draws|)
  }

  lemma ExchangeRenamed<T, U>(order: seq<T>, renamed: seq<U>, f: map<T, U>, a: T, b: T)
    requires |order| == |renamed| && a in f && b in f
    requires forall x, y :: x in f && y in f && f[x] == f[y] ==> x == y
    requires forall k :: 0 <= k < |order| ==> order[k] in f && f[order[k]] == renamed[k]
    ensures forall k :: 0 <= k < |order| ==>
      Exchange(order, a, b)[k] in f && f[Exchange(order, a, b)[k]] == Exchange(renamed, f[a], f[b])[k]
  {
  }

  /** Shuffling nodes is shuffling any names they have. */
  lemma {:induction false} ShuffledOrderRenamed<T, U>(list: seq<T>, names: seq<U>, f: map<T, U>, draws: seq<nat>,
                                                      i: nat)
    requires 0 < |list| == |names| == |draws| && i <= |list|
    requires forall x, y :: x in f && y in f && f[x] == f[y] ==> x == y
    requires forall k :: 0 <= k < |list| ==> list[k] in f && f[list[k]] == names[k]
    ensures forall k :: 0 <= k < |list| ==>
      ShuffledOrder(list, draws, i)[k] in f && f[ShuffledOrder(list, draws, i)[k]] == ShuffledOrder(names, draws, i)[k]
  {
    if i != 0 {
      ShuffledOrderRenamed(list, names, f, draws, i - 1);
      ExchangeRenamed(ShuffledOrder(list, draws, i - 1), ShuffledOrder(names, draws, i - 1), f,
                      list[i - 1], list[draws[i - 1] % |list|]);
    }
  }

  /** The chain of slot addresses that the shuffled ring becomes in memory. */
  ghost function Chain(start: nat, distance: nat, draws: seq<nat>): (tour: seq<nat>)
    requires 0 < |draws|
    ensures |tour| == |draws|
  {
    seq<nat>(|draws|, k requires 0 <= k < |draws| => SlotAddress(start, distance, JumpSlots(draws)[k]))
  }

  lemma JumpSlotsComplete(draws: seq<nat>)
    requires 0 < |draws|
    ensures Distinct(JumpSlots(draws))
    ensures forall k :: 0 <= k < |draws| ==> JumpSlots(draws)[k] < |draws|
    ensures forall s :: 0 <= s < |draws| ==> s in JumpSlots(draws)
  {
    var n := |draws|;
    ShuffledOrderSameNodes(FirstSlots(n), draws, n);
    forall k | 0 <= k < n ensures JumpSlots(draws)[k] < n {
      assert JumpSlots(draws)[k] in FirstSlots(n);
    }
    forall s | 0 <= s < n ensures s in JumpSlots(draws) {
      assert FirstSlots(n)[Pred(s, n)] == s;
    }
  }

  lemma SlotPointer(bytes: seq<Byte>, start: nat, distance: nat, s: nat, p: nat)
    requires POINTER_SIZE <= distance && distance * s + distance <= |bytes| && p < Capacity(POINTER_SIZE)
    requires SlotHolds(bytes, distance * s, distance, p)
    ensures PointerAt(bytes, start, SlotAddress(start, distance, s)) == p
  {
    DecodeEncode(p, POINTER_SIZE);
  }

  lemma SlotsReadable(bytes: seq<Byte>, start: nat, distance: nat, count: nat)
    requires POINTER_SIZE <= distance && distance * count <= |bytes|
    ensures Readable(bytes, start, Slots(start, distance, count))
    ensures forall s :: 0 <= s < count ==> distance * s + distance <= |bytes|
  {
    forall s | 0 <= s < count ensures distance * s + distance <= |bytes| {
      SlotsApart(distance, s, count);
    }
  }

  lemma ChainDistinct(start: nat, distance: nat, draws: seq<nat>)
    requires 0 < |draws| && 0 < distance
    ensures Distinct(Chain(start, distance, draws))
  {
    var slots, tour := JumpSlots(draws), Chain(start, distance, draws);
    JumpSlotsComplete(draws);
    forall i, j | 0 <= i < j < |draws| ensures tour[i] != tour[j] {
      if slots[i] < slots[j] {
        SlotsApart(distance, slots[i], slots[j]);
      } else {
        SlotsApart(distance, slots[j], slots[i]);
      }
    }
  }

  lemma ChainLinked(bytes: seq<Byte>, start: nat, distance: nat, draws: seq<nat>)
    requires 0 < |draws| && start + |bytes| <= Capacity(POINTER_SIZE)
    requires POINTER_SIZE <= distance && distance * |draws| <= |bytes|
    requires Filled(bytes, start, distance, JumpSlots(draws))
    requires Readable(bytes, start, Slots(start, distance, |draws|))
    ensures Linked(PointerMap(bytes, start, Slots(start, distance, |draws|)), Chain(start, distance, draws))
  {
    var n, slots := |draws|, JumpSlots(draws);
    JumpSlotsComplete(draws);
    forall i | 0 <= i < n
      ensures StepAt(PointerMap(bytes, start, Slots(start, distance, n)), Chain(start, distance, draws), i)
    {
      assert SlotFilled(bytes, start, distance, slots, i);
      SlotsApart(distance, slots[Succ(i, n)], n);
      SlotPointer(bytes, start, distance, slots[i], SlotAddress(start, distance, slots[Succ(i, n)]));
    }
  }

  lemma ChainComplete(start: nat, distance: nat, draws: seq<nat>)
    requires 0 < |draws|
    ensures forall a :: a in Slots(start, distance, |draws|) ==>
      exists i :: 0 <= i < |draws| && Chain(start, distance, draws)[i] == a
  {
    JumpSlotsComplete(draws);
    forall a | a in Slots(start, distance, |draws|)
      ensures exists i :: 0 <= i < |draws| && Chain(start, distance, draws)[i] == a
    {
      var s :| 0 <= s < |draws| && a == SlotAddress(start, distance, s);
      assert s in JumpSlots(draws);
      var i :| 0 <= i < |draws| && JumpSlots(draws)[i] == s;
      assert Chain(start, distance, draws)[i] == a;
    }
  }

  /** Memory filled along the ring is one single cycle through every slot. */
  lemma FilledMemoryIsTour(bytes: seq<Byte>, start: nat, distance: nat, draws: seq<nat>)
    requires 0 < |draws| && start + |bytes| <= Capacity(POINTER_SIZE)
    requires POINTER_SIZE <= distance && distance * |draws| <= |bytes|
    requires Filled(bytes, start, distance, JumpSlots(draws))
    ensures Readable(bytes, start, Slots(start, distance, |draws|))
    ensures Tour(PointerMap(bytes, start, Slots(start, distance, |draws|)), Chain(start, distance, draws))
  {
    SlotsReadable(bytes, start, distance, |draws|);
    ChainLinked(bytes, start, distance, draws);
    ChainDistinct(start, distance, draws);
    ChainComplete(start, distance, draws);
  }

  /** memory_is_ring: is the first return to `from` after exactly `jumps` jumps? */
  method MemoryIsRing(mem: array<Byte>, start: nat, from: nat, jumps: nat, ghost m: map<nat, nat>) returns (r: bool)
    requires jumps > 0 && from in m && Stores(mem[..], start, m) && Closed(m)
    ensures r <==> LeastReturn(m, from, jumps)
  {
    var current := from;
    for i := 0 to jumps - 1
      invariant current == Follow(m, from, i)
      invariant forall k :: 0 < k <= i ==> Follow(m, from, k) != from
    {
      current := NextAddress(mem, start, current, m);
      assert current == Follow(m, from, i + 1);
      if current == from {
        return false;
      }
    }
    current := NextAddress(mem, start, current, m);
    assert current == Follow(m, from, jumps);
    if current != from {
      return false;
    }
    return true;
  }

  /** The pointers stored in the first `count` slots. */
  ghost function SlotMap(bytes: seq<Byte>, start: nat, distance: nat, count: nat): map<nat, nat>
    requires Readable(bytes, start, Slots(start, distance, count))
  {
    PointerMap(bytes, start, Slots(start, distance, count))
  }

  lemma ChainReturns(bytes: seq<Byte>, start: nat, distance: nat, draws: seq<nat>)
    requires 0 < |draws| && Readable(bytes, start, Slots(start, distance, |draws|))
    requires Tour(SlotMap(bytes, start, distance, |draws|), Chain(start, distance, draws))
    ensures start in SlotMap(bytes, start, distance, |draws|) && Closed(SlotMap(bytes, start, distance, |draws|))
    ensures LeastReturn(SlotMap(bytes, start, distance, |draws|), start, |draws|)
    ensures Stores(bytes, start, SlotMap(bytes, start, distance, |draws|))
  {
    var m := SlotMap(bytes, start, distance, |draws|);
    TourClosed(m, Chain(start, distance, draws));
    assert SlotAddress(start, distance, 0) == start;
    TourReturns(m, Chain(start, distance, draws), start);
  }

  /** The node at place `k` jumps to the slot `slots[k]`. */
  ghost predicate JumpsTo(order: seq<ListNode>, start: nat, distance: nat, slots: seq<nat>)
    requires |order| == |slots|
    reads NodeSet(order)`jumpAddress
  {
    forall k :: 0 <= k < |order| ==> order[k].jumpAddress == SlotAddress(start, distance, slots[k])
  }

  /** The part of fill_with_random_offsets that works on the list, up to its consistency check. */
  method MakeShuffledList(start: nat, distance: nat, count: nat, draws: seq<nat>)
    returns (list: seq<ListNode>)
    requires Shuffles(draws, count)
    ensures |list| == count && Distinct(list)
    ensures IsRing(ShuffledOrder(list, draws, count)) && list[0] in ShuffledOrder(list, draws, count)
    ensures JumpsTo(ShuffledOrder(list, draws, count), start, distance, JumpSlots(draws))
  {
    list := LinkedListCreate(count);
    LinkedListInitJumps(start, distance, count, list[0], list);
    ShuffleRing(list, draws);
    ShuffledJumps(list, start, distance, draws);
    ShuffledOrderSameNodes(list, draws, count);
  }

  /**
   fill_with_random_offsets in read mode.  For every sequence of random numbers both consistency
   checks succeed, and memory is one cycle of pointers that visits every slot once, in the order
   that the numbers determine; bytes behind the last slot keep their values.
   */
  method FillWithRandomOffsets(mem: array<Byte>, start: nat, distance: nat, count: nat, draws: seq<nat>)
    returns (ok: bool)
    requires Shuffles(draws, count)
    requires POINTER_SIZE <= distance && distance * count <= mem.Length
    requires start + mem.Length <= Capacity(POINTER_SIZE)
    modifies mem
    ensures ok
    ensures Readable(mem[..], start, Slots(start, distance, count))
    ensures Tour(SlotMap(mem[..], start, distance, count), Chain(start, distance, draws))
    ensures forall x :: distance * count <= x < mem.Length ==> mem[x] == old(mem[x])
  {
    var list := MakeShuffledList(start, distance, count, draws);
    ghost var order := ShuffledOrder(list, draws, count);
    ok := CheckRing(list[0], count, order);
    ghost var p :| 0 <= p < count && order[p] == list[0];
    JumpSlotsComplete(draws);
    FillMemory(mem, start, distance, count, list[0], order, JumpSlots(draws), p);
    FilledMemoryIsTour(mem[..], start, distance, draws);
    ChainReturns(mem[..], start, distance, draws);
    ok := MemoryIsRing(mem, start, start, count, SlotMap(mem[..], start, distance, count));
  }

  /** The jump addresses follow the nodes through the shuffle. */
  lemma ShuffledJumps(list: seq<ListNode>, start: nat, distance: nat, draws: seq<nat>)
    requires 0 < |list| == |draws| && Distinct(list)
    requires forall k :: 0 <= k < |list| ==> list[k].jumpAddress == SlotAddress(start, distance, Succ(k, |list|))
    ensures JumpsTo(ShuffledOrder(list, draws, |list|), start, distance, JumpSlots(draws))
  {
    var n := |list|;
    var f := map k | 0 <= k < n :: list[k] := Succ(k, n);
    ShuffledOrderRenamed(list, FirstSlots(n), f, draws, n);
    forall k | 0 <= k < n
      ensures ShuffledOrder(list, draws, n)[k].jumpAddress == SlotAddress(start, distance, JumpSlots(draws)[k])
    {
      var x := ShuffledOrder(list, draws, n)[k];
      assert x in f && f[x] == JumpSlots(draws)[k];
    }
  }

  /** The address that thread `i` starts at: `i` times `accesses` jumps down the chain. */
  ghost function ThreadStart(m: map<nat, nat>, start: nat, i: nat, accesses: nat): (a: nat)
    requires start in m && Closed(m)
    ensures a in m
  {
    if i == 0 then start else Follow(m, ThreadStart(m, start, i - 1, accesses), accesses)
  }

  /** set_thread_start_addresses in read mode. */
  method SetThreadStartAddresses(mem: array<Byte>, start: nat, threadCount: nat, accessesPerThread: nat,
                                 ghost m: map<nat, nat>)
    returns (starts: seq<nat>)
    requires start in m && Stores(mem[..], start, m) && Closed(m)
    ensures |starts| == threadCount
    ensures forall i :: 0 <= i < threadCount ==> starts[i] == ThreadStart(m, start, i, accessesPerThread)
  {
    starts := [];
    var current := start;
    for i := 0 to threadCount
      invariant |starts| == i && current == ThreadStart(m, start, i, accessesPerThread)
      invariant forall k :: 0 <= k < i ==> starts[k] == ThreadStart(m, start, k, accessesPerThread)
    {
      starts := starts + [current];
      ghost var from := current;
      for j := 0 to accessesPerThread
        invariant current == Follow(m, from, j)
      {
        current := NextAddress(mem, start, current, m);
      }
    }
  }

  /** The loop of the read_nt_random functions, one access per round: the addresses it reads. */
  method ReadRandom(mem: array<Byte>, start: nat, threadStart: nat, accesses: nat, ghost m: map<nat, nat>)
    returns (visited: seq<nat>)
    requires threadStart in m && Stores(mem[..], start, m) && Closed(m)
    ensures visited == Walk(m, threadStart, accesses)
  {
    visited := [];
    var address := threadStart;
    for i := 0 to accesses
      invariant visited == Walk(m, threadStart, i) && address == Follow(m, threadStart, i)
    {
      visited := visited + [address];
      address := NextAddress(mem, start, address, m);
    }
  }

  /** The addresses that thread `i` reads. */
  ghost function ThreadReads(m: map<nat, nat>, start: nat, i: nat, accesses: nat): seq<nat>
    requires start in m && Closed(m)
  {
    Walk(m, ThreadStart(m, start, i, accesses), accesses)
  }

  /** What the first `n` threads read, one thread after the other. */
  ghost function AllReads(m: map<nat, nat>, start: nat, n: nat, accesses: nat): seq<nat>
    requires start in m && Closed(m)
  {
    if n == 0 then [] else AllReads(m, start, n - 1, accesses) + ThreadReads(m, start, n - 1, accesses)
  }

  /** One thread after the other, the threads walk the chain from its start. */
  lemma {:induction false} AllReadsAreWalk(m: map<nat, nat>, start: nat, n: nat, accesses: nat)
    requires start in m && Closed(m)
    ensures |AllReads(m, start, n, accesses)| == n * accesses
    ensures ThreadStart(m, start, n, accesses) == Follow(m, start, n * accesses)
    ensures AllReads(m, start, n, accesses) == Walk(m, start, n * accesses)
  {
    if n != 0 {
      AllReadsAreWalk(m, start, n - 1, accesses);
      var before := (n - 1) * accesses;
      assert n * accesses == before + accesses;
      WalkAppend(m, start, before, accesses);
      FollowAdd(m, start, before, accesses);
    }
  }

  lemma WalkAppend(m: map<nat, nat>, x: nat, j: nat, k: nat)
    requires x in m && Closed(m)
    ensures Walk(m, x, j + k) == Walk(m, x, j) + Walk(m, Follow(m, x, j), k)
  {
    forall i | 0 <= i < k ensures Walk(m, x, j + k)[j + i] == Walk(m, Follow(m, x, j), k)[i] {
      FollowAdd(m, x, j, i);
    }
  }

  /** An address is read by one of the first `n` threads exactly when it is among all their reads. */
  lemma {:induction false} ReadBySome(m: map<nat, nat>, start: nat, n: nat, accesses: nat, a: nat)
    requires start in m && Closed(m)
    ensures a in AllReads(m, start, n, accesses) <==>
      exists i :: 0 <= i < n && a in ThreadReads(m, start, i, accesses)
  {
    if n != 0 {
      ReadBySome(m, start, n - 1, accesses, a);
    }
  }

  /** The slots that no thread reads. */
  ghost function Unread(m: map<nat, nat>, start: nat, threads: nat, accesses: nat): set<nat>
    requires start in m && Closed(m)
  {
    set a | a in m && forall i :: 0 <= i < threads ==> a !in ThreadReads(m, start, i, accesses)
  }

  lemma UnreadSize(m: map<nat, nat>, start: nat, threads: nat, accesses: nat)
    requires start in m && Closed(m)
    requires Distinct(AllReads(m, start, threads, accesses))
    ensures |Unread(m, start, threads, accesses)| == |m| - threads * accesses
  {
    var all := AllReads(m, start, threads, accesses);
    var seen := set a | a in all;
    AllReadsAreWalk(m, start, threads, accesses);
    DistinctSize(all);
    forall a ensures a in Unread(m, start, threads, accesses) <==> a in m.Keys - seen {
      ReadBySome(m, start, threads, accesses, a);
    }
    assert Unread(m, start, threads, accesses) == m.Keys - seen;
    assert seen <= m.Keys;
  }

  lemma ReadsApartLast(m: map<nat, nat>, start: nat, n: nat, accesses: nat, i: nat, a: nat)
    requires start in m && Closed(m) && i < n
    requires Distinct(AllReads(m, start, n, accesses) + ThreadReads(m, start, n, accesses))
    requires a in ThreadReads(m, start, i, accesses)
    ensures a !in ThreadReads(m, start, n, accesses)
  {
    ReadBySome(m, start, n, accesses, a);
    DistinctAppend(AllReads(m, start, n, accesses), ThreadReads(m, start, n, accesses));
  }

  lemma DistinctAppend<T>(s: seq<T>, t: seq<T>)
    requires Distinct(s + t)
    ensures Distinct(s) && Distinct(t) && forall x :: x in s ==> x !in t
  {
    assert forall k :: 0 <= k < |s| ==> s[k] == (s + t)[k];
    assert forall k :: 0 <= k < |t| ==> t[k] == (s + t)[|s| + k];
  }

  /** If no address occurs twice among all reads, no thread reads one twice and no two threads share one. */
  lemma {:induction false} ReadsApart(m: map<nat, nat>, start: nat, n: nat, accesses: nat)
    requires start in m && Closed(m)
    requires Distinct(AllReads(m, start, n, accesses))
    ensures forall i :: 0 <= i < n ==> Distinct(ThreadReads(m, start, i, accesses))
    ensures forall i, j, a :: 0 <= i < j < n && a in ThreadReads(m, start, i, accesses) ==>
      a !in ThreadReads(m, start, j, accesses)
  {
    if n != 0 {
      DistinctAppend(AllReads(m, start, n - 1, accesses), ThreadReads(m, start, n - 1, accesses));
      ReadsApart(m, start, n - 1, accesses);
      forall i, a | 0 <= i < n - 1 && a in ThreadReads(m, start, i, accesses)
        ensures a !in ThreadReads(m, start, n - 1, accesses)
      {
        ReadsApartLast(m, start, n - 1, accesses, i, a);
      }
    }
  }

  lemma AllReadsDistinct(m: map<nat, nat>, start: nat, threads: nat, accesses: nat, count: nat)
    requires start in m && Closed(m) && LeastReturn(m, start, count) && threads * accesses <= count
    ensures Distinct(AllReads(m, start, threads, accesses))
  {
    WalkDistinct(m, start, count);
    AllReadsAreWalk(m, start, threads, accesses);
    WalkAppend(m, start, threads * accesses, count - threads * accesses);
    DistinctAppend(AllReads(m, start, threads, accesses),
                   Walk(m, Follow(m, start, threads * accesses), count - threads * accesses));
  }

  /**
   The reader threads share out the slots of a memory ring: each reads `accesses` different slots,
   no slot is read by two threads, and exactly the slots that `threads * accesses` does not cover
   are read by none.
   */
  lemma ReadersShareSlots(m: map<nat, nat>, start: nat, threads: nat, accesses: nat)
    requires start in m && Closed(m) && LeastReturn(m, start, |m|) && threads * accesses <= |m|
    ensures forall i :: 0 <= i < threads ==> Distinct(ThreadReads(m, start, i, accesses))
    ensures forall i, j, a :: 0 <= i < j < threads && a in ThreadReads(m, start, i, accesses) ==>
      a !in ThreadReads(m, start, j, accesses)
    ensures |Unread(m, start, threads, accesses)| == |m| - threads * accesses
  {
    AllReadsDistinct(m, start, threads, accesses, |m|);
    ReadsApart(m, start, threads, accesses);
    UnreadSize(m, start, threads, accesses);
  }

  lemma Remainder(count: nat, threads: nat, each: nat)
    requires threads > 0 && each == count / threads
    ensures threads * each <= count && count - threads * each == count % threads < threads
  {
  }

  /** With the share that map_operation computes, fewer slots than there are threads stay unread. */
  lemma UnreadIsRemainder(m: map<nat, nat>, start: nat, threads: nat, each: nat)
    requires start in m && Closed(m) && LeastReturn(m, start, |m|)
    requires threads > 0 && each == |m| / threads
    ensures |Unread(m, start, threads, each)| == |m| % threads < threads
  {
    Remainder(|m|, threads, each);
    ReadersShareSlots(m, start, threads, each);
  }

  /** `starts` are the places of the threads along a ring through `count` slots. */
  ghost predicate ThreadsPlaced(m: map<nat, nat>, start: nat, count: nat, starts: seq<nat>, each: nat) {
    && start in m && Closed(m) && |m| == count && LeastReturn(m, start, count)
    && forall i :: 0 <= i < |starts| ==> starts[i] == ThreadStart(m, start, i, each)
  }

  /**
   The random part of map_operation, for a region that holds `count` slots and an equal share
   `each` of them for every thread: memory is filled, and the threads are placed along the ring.
   */
  method MapRandom(mem: array<Byte>, start: nat, distance: nat, count: nat, threadCount: nat, each: nat,
                   draws: seq<nat>)
    returns (ok: bool, starts: seq<nat>)
    requires POINTER_SIZE <= distance && distance * count <= mem.Length && Shuffles(draws, count)
    requires start + mem.Length <= Capacity(POINTER_SIZE)
    modifies mem
    ensures ok && |starts| == threadCount
    ensures Readable(mem[..], start, Slots(start, distance, count))
    ensures ThreadsPlaced(SlotMap(mem[..], start, distance, count), start, count, starts, each)
  {
    ok := FillWithRandomOffsets(mem, start, distance, count, draws);
    ghost var m := SlotMap(mem[..], start, distance, count);
    ChainReturns(mem[..], start, distance, draws);
    TourSize(m, Chain(start, distance, draws));
    starts := SetThreadStartAddresses(mem, start, threadCount, each, m);
  }
}

/** From the buffers of the threads to the result of a query: collecting, aggregating again, merging sockets. */
module Collect {
  import opened Groups
  import opened GroupBy

  /** What a thread leaves behind: where its buffer starts and how many tuples it stored there. */
  datatype ThreadInfo = ThreadInfo(start: nat, stored: nat)

  /** The buffers lie behind each other in `length` cells; a tuple takes `size` of them. */
  ghost predicate LaidOut(infos: seq<ThreadInfo>, size: nat, length: nat) {
    forall i :: 0 <= i < |infos| ==> EndsBeforeNext(infos, i, size, length)
  }

  ghost predicate EndsBeforeNext(infos: seq<ThreadInfo>, i: nat, size: nat, length: nat)
    requires i < |infos|
  {
    BufferEnd(infos[i], size) <= NextStart(infos, i, length)
  }

  function BufferEnd(info: ThreadInfo, size: nat): (end: nat)
    ensures end >= info.start
  {
    info.start + info.stored * size
  }

  function Buffer<T>(mem: seq<T>, info: ThreadInfo, size: nat): seq<T>
    requires BufferEnd(info, size) <= |mem|
  {
    mem[info.start..BufferEnd(info, size)]
  }

  function NextStart(infos: seq<ThreadInfo>, i: nat, length: nat): nat
    requires i < |infos|
  {
    if i + 1 < |infos| then infos[i + 1].start else length
  }

  ghost predicate AllInside(infos: seq<ThreadInfo>, size: nat, length: nat) {
    forall i :: 0 <= i < |infos| ==> BufferEnd(infos[i], size) <= length
  }

  /** The stored cells of every thread, in thread order. */
  ghost function Buffers<T>(mem: seq<T>, infos: seq<ThreadInfo>, size: nat): (buffers: seq<seq<T>>)
    requires AllInside(infos, size, |mem|)
    ensures |buffers| == |infos|
    ensures forall i :: 0 <= i < |infos| ==> buffers[i] == Buffer(mem, infos[i], size)
  {
    seq(|infos|, i requires 0 <= i < |infos| => Buffer(mem, infos[i], size))
  }

  /** A copy towards the front, cell by cell. */
  method Move<T>(mem: array<T>, to: nat, from: nat, length: nat)
    requires to <= from && from + length <= mem.Length
    modifies mem
    ensures mem[to..to + length] == old(mem[from..from + length])
    ensures SameOutside(old(mem[..]), mem[..], to, to + length)
  {
    ghost var all := mem[..];
    var shift := from - to;
    for k := to to to + length
      invariant forall j :: to <= j < k ==> mem[j] == all[j + shift]
      invariant SameOutside(all, mem[..], to, k)
    {
      assert mem[..][k + shift] == all[k + shift];
      mem[k] := mem[k + shift];
    }
  }

  /** The buffers collected so far are at the front, and everything behind them is as it was. */
  ghost predicate Collected<T>(all: seq<T>, now: seq<T>, buffers: seq<seq<T>>) {
    var done := Concat(buffers);
    |done| <= |all| == |now| && now[..|done|] == done && forall k :: |done| <= k < |all| ==> now[k] == all[k]
  }

  lemma CollectedNext<T>(all: seq<T>, before: seq<T>, after: seq<T>, buffers: seq<seq<T>>, next: seq<T>, from: nat)
    requires Collected(all, before, buffers)
    requires |Concat(buffers)| <= from && from + |next| <= |all| && next == all[from..from + |next|]
    requires SameOutside(before, after, |Concat(buffers)|, |Concat(buffers)| + |next|)
    requires after[|Concat(buffers)|..|Concat(buffers)| + |next|] == before[from..from + |next|]
    ensures Collected(all, after, buffers + [next]) && |Concat(buffers + [next])| == |Concat(buffers)| + |next|
  {
    assert before[from..from + |next|] == all[from..from + |next|];
    assert (buffers + [next])[..|buffers|] == buffers;
  }

  /** One round: the buffer of `length` cells at `start` goes behind those collected before it. */
  method CollectOne<T>(mem: array<T>, it: nat, start: nat, length: nat, ghost all: seq<T>, ghost done: seq<seq<T>>)
    requires start + length <= mem.Length && it == |Concat(done)| <= start
    requires Collected(all, mem[..], done)
    modifies mem
    ensures Collected(all, mem[..], done + [all[start..start + length]])
    ensures it + length == |Concat(done + [all[start..start + length]])|
  {
    ghost var before := mem[..];
    Move(mem, it, start, length);
    CollectedNext(all, before, mem[..], done, all[start..start + length], start);
  }

  /** The next buffer lies in memory and ends before the one behind it. */
  lemma NextBuffer<T>(all: seq<T>, infos: seq<ThreadInfo>, size: nat, i: nat)
    requires LaidOut(infos, size, |all|) && AllInside(infos, size, |all|) && i < |infos|
    ensures var buffers, end := Buffers(all, infos, size), BufferEnd(infos[i], size);
      buffers[..i + 1] == buffers[..i] + [all[infos[i].start..end]] && end <= NextStart(infos, i, |all|) && end <= |all|
  {
    assert EndsBeforeNext(infos, i, size, |all|);
  }

  /**
   collect_socket_intermediates.  The buffers end up one behind the other at the front: no buffer is
   overwritten before it is copied.  What comes back is the number of threads.
   */
  method CollectSocketIntermediates<T>(mem: array<T>, infos: seq<ThreadInfo>, size: nat) returns (count: nat)
    requires LaidOut(infos, size, mem.Length) && AllInside(infos, size, mem.Length)
    modifies mem
    ensures count == |infos|
    ensures Collected(old(mem[..]), mem[..], Buffers(old(mem[..]), infos, size))
  {
    ghost var all := mem[..];
    ghost var buffers := Buffers(all, infos, size);
    var it := 0;
    count := 0;
    for i := 0 to |infos|
      invariant count == i
      invariant it == |Concat(buffers[..i])|
      invariant i < |infos| ==> it <= infos[i].start
      invariant Collected(all, mem[..], buffers[..i])
    {
      var length := BufferEnd(infos[i], size) - infos[i].start;
      NextBuffer(all, infos, size, i);
      CollectOne(mem, it, infos[i].start, length, all, buffers[..i]);
      it := it + length;
      count := count + 1;
    }
    assert buffers[..|infos|] == buffers;
  }
}

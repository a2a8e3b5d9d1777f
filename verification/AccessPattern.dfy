/** How the sequential benchmarks split a memory region among threads, and the addresses they touch. */
module AccessPattern {

  const THREAD_ALIGNMENT: nat := 64

  datatype Pattern = Logfile | Disjoint | Random

  /** What a thread knows of the region; `pmemEnd` is `pmemSize` bytes behind `pmemStart`. */
  datatype ThreadInfo = ThreadInfo(pattern: Pattern, pmemStart: nat, pmemEnd: nat, pmemSize: nat, threadNumber: nat,
                                   threadCount: nat, accessDistance: nat)

  predicate ValidThread(t: ThreadInfo) {
    t.threadNumber < t.threadCount && t.accessDistance > 0 && t.pmemEnd == t.pmemStart + t.pmemSize
  }

  /** The share of a thread in disjoint mode. */
  function OffsetPerThread(t: ThreadInfo): nat
    requires t.threadCount > 0
  {
    t.pmemSize / t.threadCount / 64 * 64
  }

  lemma GreatestMultiple(n: nat, unit: nat, k: nat)
    requires unit > 0 && k * unit <= n
    ensures k <= n / unit && n / unit * unit <= n
  {
    assert (n / unit + 1) * unit > n;
  }

  /** The share is the greatest multiple of the alignment of which the region holds one for every thread. */
  lemma ShareIsGreatest(t: ThreadInfo, share: nat)
    requires t.threadCount > 0
    ensures OffsetPerThread(t) % THREAD_ALIGNMENT == 0 && OffsetPerThread(t) * t.threadCount <= t.pmemSize
    ensures share % THREAD_ALIGNMENT == 0 && share * t.threadCount <= t.pmemSize ==> share <= OffsetPerThread(t)
  {
    var each := t.pmemSize / t.threadCount;
    GreatestMultiple(t.pmemSize, t.threadCount, 0);
    ProductAtMost(OffsetPerThread(t), each, t.threadCount);
    if share % THREAD_ALIGNMENT == 0 && share * t.threadCount <= t.pmemSize {
      GreatestMultiple(t.pmemSize, t.threadCount, share);
    }
  }

  class MinAccessInfo {
    var pmemStart: nat
    var pmemEnd: nat
    var stride: nat

    constructor ()
    {
      pmemStart, pmemEnd, stride := 0, 0, 0;
    }

    /** set_access_pattern. */
    method SetAccessPattern(t: ThreadInfo)
      requires t.threadCount > 0
      modifies this
      ensures t.pattern == Logfile ==>
        pmemStart == t.pmemStart + t.threadNumber * t.accessDistance && pmemEnd == t.pmemEnd &&
        stride == t.accessDistance * t.threadCount
      ensures t.pattern == Disjoint ==>
        pmemStart == t.pmemStart + t.threadNumber * OffsetPerThread(t) && stride == t.accessDistance &&
        (pmemEnd == pmemStart + OffsetPerThread(t) <= t.pmemEnd ||
          pmemEnd == t.pmemEnd <= pmemStart + OffsetPerThread(t))
      ensures t.pattern == Random ==> pmemStart == old(pmemStart) && pmemEnd == old(pmemEnd) && stride == old(stride)
    {
      if t.pattern == Logfile {
        pmemStart := t.pmemStart + t.threadNumber * t.accessDistance;
        pmemEnd := t.pmemEnd;
        stride := t.accessDistance * t.threadCount;
      } else if t.pattern == Disjoint {
        var offsetPerThread := t.pmemSize / t.threadCount / THREAD_ALIGNMENT * THREAD_ALIGNMENT;
        pmemStart := t.pmemStart + t.threadNumber * offsetPerThread;
        pmemEnd := if pmemStart + offsetPerThread < t.pmemEnd then pmemStart + offsetPerThread else t.pmemEnd;
        stride := t.accessDistance;
      }
    }

    /** The access loop: every visit touches `accessDistance` bytes. */
    method Visit(accessDistance: nat) returns (visits: seq<nat>)
      requires accessDistance > 0 && stride > 0
      ensures Visits(pmemStart, pmemEnd, stride, accessDistance, visits)
    {
      visits := [];
      var t := pmemStart;
      while t < pmemEnd && t + accessDistance <= pmemEnd
        invariant t == pmemStart + |visits| * stride
        invariant forall i :: 0 <= i < |visits| ==> VisitAt(pmemStart, pmemEnd, stride, accessDistance, visits, i)
        decreases pmemEnd - t
      {
        assert (|visits| + 1) * stride == |visits| * stride + stride;
        ghost var before := visits;
        visits := visits + [t];
        forall i | 0 <= i < |visits| ensures VisitAt(pmemStart, pmemEnd, stride, accessDistance, visits, i) {
          if i < |before| {
            assert VisitAt(pmemStart, pmemEnd, stride, accessDistance, before, i);
          }
        }
        t := t + stride;
      }
    }
  }

  ghost predicate VisitAt(start: nat, end: nat, stride: nat, ad: nat, visits: seq<nat>, i: int)
    requires 0 <= i < |visits|
  {
    visits[i] == start + i * stride && visits[i] + ad <= end
  }

  /** The visits go from `start` on in steps of `stride`, as long as `ad` bytes fit before `end`. */
  ghost predicate Visits(start: nat, end: nat, stride: nat, ad: nat, visits: seq<nat>) {
    (forall i :: 0 <= i < |visits| ==> VisitAt(start, end, stride, ad, visits, i)) &&
    start + |visits| * stride + ad > end
  }

  /** What the visits of a thread are, in either sequential mode. */
  ghost predicate ThreadVisits(t: ThreadInfo, visits: seq<nat>) {
    match t.pattern
    case Logfile =>
      Visits(t.pmemStart + t.threadNumber * t.accessDistance, t.pmemEnd, t.accessDistance * t.threadCount,
             t.accessDistance, visits)
    case Disjoint =>
      ValidThread(t) &&
      var start := t.pmemStart + t.threadNumber * OffsetPerThread(t);
      Visits(start, start + OffsetPerThread(t), t.accessDistance, t.accessDistance, visits)
    case Random => true
  }

  // ---------------------------------------------------------------- arithmetic

  lemma Distribute(a: int, b: int, c: int)
    ensures (a + b) * c == a * c + b * c
  {
  }

  lemma ProductAtMost(a: nat, b: nat, c: nat)
    requires a <= b
    ensures a * c <= b * c
  {
  }

  lemma BelowQuotient(j: nat, size: nat, ad: nat)
    requires ad > 0
    ensures j < size / ad <==> j * ad + ad <= size
  {
    var q, r := size / ad, size % ad;
    assert size == q * ad + r;
    Distribute(j, 1, ad);
    if j < q {
      ProductAtMost(j + 1, q, ad);
    } else {
      ProductAtMost(q, j, ad);
    }
  }

  lemma QuotientUnique(q: nat, d: nat, r: nat)
    requires r < d
    ensures (q * d + r) / d == q && (q * d + r) % d == r
  {
    var x := q * d + r;
    var e := x / d;
    assert x == e * d + x % d;
    if e > q {
      ProductAtMost(q + 1, e, d);
      Distribute(q, 1, d);
    } else if e < q {
      ProductAtMost(e + 1, q, d);
      Distribute(e, 1, d);
    }
  }

  // ---------------------------------------------------------------- setting up

  lemma SharesInside(t: ThreadInfo)
    requires ValidThread(t)
    ensures t.threadNumber * OffsetPerThread(t) + OffsetPerThread(t) <= t.threadCount * OffsetPerThread(t) <= t.pmemSize
  {
    var share := OffsetPerThread(t);
    var q := t.pmemSize / t.threadCount;
    assert share <= q;
    ProductAtMost(share, q, t.threadCount);
    assert q * t.threadCount <= t.pmemSize;
    ProductAtMost(t.threadNumber + 1, t.threadCount, share);
    Distribute(t.threadNumber, 1, share);
  }

  /**
   A thread of a sequential benchmark: set_access_pattern and the loop.  The minimum of the two ends is
   always its own.
   */
  method RunThread(t: ThreadInfo) returns (visits: seq<nat>)
    requires ValidThread(t) && t.pattern != Random
    ensures ThreadVisits(t, visits)
  {
    var mai := new MinAccessInfo();
    mai.SetAccessPattern(t);
    SharesInside(t);
    ProductAtMost(1, t.threadCount, t.accessDistance);
    visits := mai.Visit(t.accessDistance);
  }

  // ---------------------------------------------------------------- log mode

  /** In log mode a thread visits chunk `j` of the region exactly when it fits and is the thread's turn. */
  lemma LogChunk(t: ThreadInfo, visits: seq<nat>, j: nat)
    requires ValidThread(t) && t.pattern == Logfile && ThreadVisits(t, visits)
    ensures t.pmemStart + j * t.accessDistance in visits <==>
      j < t.pmemSize / t.accessDistance && j % t.threadCount == t.threadNumber
  {
    if t.pmemStart + j * t.accessDistance in visits {
      var i :| 0 <= i < |visits| && visits[i] == t.pmemStart + j * t.accessDistance;
      LogVisited(t, visits, i, j);
    }
    if j < t.pmemSize / t.accessDistance && j % t.threadCount == t.threadNumber {
      QuotientAndRest(j, t.threadCount);
      LogTurn(t, visits, j / t.threadCount, j);
    }
  }

  lemma QuotientAndRest(j: nat, n: nat)
    requires n > 0
    ensures j == j / n * n + j % n
  {
  }

  lemma LogVisited(t: ThreadInfo, visits: seq<nat>, i: nat, j: nat)
    requires ValidThread(t) && t.pattern == Logfile && ThreadVisits(t, visits)
    requires i < |visits| && visits[i] == t.pmemStart + j * t.accessDistance
    ensures j % t.threadCount == t.threadNumber && j < t.pmemSize / t.accessDistance
  {
    BelowQuotient(j, t.pmemSize, t.accessDistance);
    LogVisit(t, visits, i);
    ChunkUnique(j, i * t.threadCount + t.threadNumber, t.accessDistance);
    QuotientUnique(i, t.threadCount, t.threadNumber);
  }

  lemma LogTurn(t: ThreadInfo, visits: seq<nat>, i: nat, j: nat)
    requires ValidThread(t) && t.pattern == Logfile && ThreadVisits(t, visits)
    requires j == i * t.threadCount + t.threadNumber && j < t.pmemSize / t.accessDistance
    ensures i < |visits| && visits[i] == t.pmemStart + j * t.accessDistance
  {
    BelowQuotient(j, t.pmemSize, t.accessDistance);
    LogAddress(t, i);
    if i >= |visits| {
      ProductAtMost(|visits|, i, t.accessDistance * t.threadCount);
      assert false;
    }
    LogVisit(t, visits, i);
  }

  lemma LogAddress(t: ThreadInfo, i: nat)
    ensures t.pmemStart + t.threadNumber * t.accessDistance + i * (t.accessDistance * t.threadCount) ==
      t.pmemStart + (i * t.threadCount + t.threadNumber) * t.accessDistance
  {
    Distribute(i * t.threadCount, t.threadNumber, t.accessDistance);
    assert i * (t.accessDistance * t.threadCount) == i * t.threadCount * t.accessDistance;
  }

  /** The visits of a thread in log mode are chunks, `threadCount` apart. */
  lemma LogVisit(t: ThreadInfo, visits: seq<nat>, i: nat)
    requires ValidThread(t) && t.pattern == Logfile && ThreadVisits(t, visits) && i < |visits|
    ensures visits[i] == t.pmemStart + (i * t.threadCount + t.threadNumber) * t.accessDistance
    ensures visits[i] + t.accessDistance <= t.pmemEnd
  {
    assert VisitAt(t.pmemStart + t.threadNumber * t.accessDistance, t.pmemEnd, t.accessDistance * t.threadCount,
                   t.accessDistance, visits, i);
    LogAddress(t, i);
  }

  lemma ChunkUnique(a: nat, b: nat, ad: nat)
    requires ad > 0 && a * ad == b * ad
    ensures a == b
  {
    QuotientUnique(a, ad, 0);
    QuotientUnique(b, ad, 0);
  }

  /** Every full chunk is visited by one thread, and once: the visits of all threads are different chunks. */
  lemma LogPartition(t: ThreadInfo, u: ThreadInfo, visits: seq<nat>, visits': seq<nat>, i: nat, i': nat)
    requires ValidThread(t) && t.pattern == Logfile && ThreadVisits(t, visits) && i < |visits|
    requires u == t.(threadNumber := u.threadNumber) && ValidThread(u) && ThreadVisits(u, visits') && i' < |visits'|
    requires visits[i] == visits'[i']
    ensures t == u && i == i'
  {
    LogVisit(t, visits, i);
    LogVisit(u, visits', i');
    ChunkUnique(i * t.threadCount + t.threadNumber, i' * t.threadCount + u.threadNumber, t.accessDistance);
    QuotientUnique(i, t.threadCount, t.threadNumber);
    QuotientUnique(i', t.threadCount, u.threadNumber);
  }

  // ---------------------------------------------------------------- disjoint mode

  lemma VisitInside(start: nat, size: nat, ad: nat, visits: seq<nat>, i: nat)
    requires Visits(start, start + size, ad, ad, visits) && i < |visits|
    ensures start <= visits[i] && visits[i] + ad <= start + size && visits[i] == start + i * ad
  {
    assert VisitAt(start, start + size, ad, ad, visits, i);
  }

  /** A visit in disjoint mode stays in the share of its thread. */
  lemma DisjointVisit(t: ThreadInfo, visits: seq<nat>, i: nat)
    requires ValidThread(t) && t.pattern == Disjoint && ThreadVisits(t, visits) && i < |visits|
    ensures t.pmemStart + t.threadNumber * OffsetPerThread(t) <= visits[i]
    ensures visits[i] + t.accessDistance <=
      t.pmemStart + t.threadNumber * OffsetPerThread(t) + OffsetPerThread(t) <= t.pmemEnd
    ensures visits[i] == t.pmemStart + t.threadNumber * OffsetPerThread(t) + i * t.accessDistance
  {
    SharesInside(t);
    VisitInside(t.pmemStart + t.threadNumber * OffsetPerThread(t), OffsetPerThread(t), t.accessDistance, visits, i);
  }

  /** Two different visits, of one thread or of two, touch no byte in common. */
  lemma DisjointApart(t: ThreadInfo, u: ThreadInfo, visits: seq<nat>, visits': seq<nat>, i: nat, i': nat)
    requires ValidThread(t) && t.pattern == Disjoint && ThreadVisits(t, visits) && i < |visits|
    requires u == t.(threadNumber := u.threadNumber) && ValidThread(u) && ThreadVisits(u, visits') && i' < |visits'|
    requires t.threadNumber < u.threadNumber || (t == u && i < i')
    ensures visits[i] + t.accessDistance <= visits'[i']
  {
    DisjointVisit(t, visits, i);
    DisjointVisit(u, visits', i');
    if t.threadNumber < u.threadNumber {
      ProductAtMost(t.threadNumber + 1, u.threadNumber, OffsetPerThread(t));
      Distribute(t.threadNumber, 1, OffsetPerThread(t));
    } else {
      ProductAtMost(i + 1, i', t.accessDistance);
      Distribute(i, 1, t.accessDistance);
    }
  }

  /** How often a thread visits: as often as `accessDistance` fits into its share. */
  lemma DisjointCount(t: ThreadInfo, visits: seq<nat>)
    requires ValidThread(t) && t.pattern == Disjoint && ThreadVisits(t, visits)
    ensures |visits| == OffsetPerThread(t) / t.accessDistance
  {
    VisitCount(t.pmemStart + t.threadNumber * OffsetPerThread(t), OffsetPerThread(t), t.accessDistance, visits);
  }

  lemma VisitCount(start: nat, size: nat, ad: nat, visits: seq<nat>)
    requires ad > 0 && Visits(start, start + size, ad, ad, visits)
    ensures |visits| == size / ad
  {
    var n := |visits|;
    BelowQuotient(n, size, ad);
    if n > 0 {
      assert VisitAt(start, start + size, ad, ad, visits, n - 1);
      BelowQuotient(n - 1, size, ad);
    }
  }

  // ---------------------------------------------------------------- the bytes that are touched

  /** The bytes from `x` on. */
  function Range(x: nat, n: nat): (bytes: set<nat>)
    ensures forall b: nat :: b in bytes <==> x <= b < x + n
  {
    if n == 0 then {} else Range(x, n - 1) + {x + n - 1}
  }

  lemma {:induction false} RangeSize(x: nat, n: nat)
    ensures |Range(x, n)| == n
  {
    if n != 0 {
      RangeSize(x, n - 1);
    }
  }

  /** The bytes that accesses of `ad` bytes at `visits` touch. */
  function Bytes(visits: seq<nat>, ad: nat): (bytes: set<nat>)
    ensures forall b: nat :: b in bytes ==> exists i :: 0 <= i < |visits| && visits[i] <= b < visits[i] + ad
  {
    if |visits| == 0 then {} else Bytes(visits[..|visits| - 1], ad) + Range(visits[|visits| - 1], ad)
  }

  /** The bytes that all threads touch. */
  function TouchedBytes(visits: seq<seq<nat>>, ad: nat): set<nat> {
    if |visits| == 0 then {} else TouchedBytes(visits[..|visits| - 1], ad) + Bytes(visits[|visits| - 1], ad)
  }

  /** An access touches all of its bytes. */
  lemma {:induction false} AccessInBytes(visits: seq<nat>, ad: nat, i: nat)
    requires i < |visits|
    ensures Range(visits[i], ad) <= Bytes(visits, ad)
  {
    if i < |visits| - 1 {
      AccessInBytes(visits[..|visits| - 1], ad, i);
    }
  }

  lemma {:induction false} BytesInTouched(visits: seq<seq<nat>>, ad: nat, j: nat)
    requires j < |visits|
    ensures Bytes(visits[j], ad) <= TouchedBytes(visits, ad)
  {
    if j < |visits| - 1 {
      BytesInTouched(visits[..|visits| - 1], ad, j);
    }
  }

  lemma {:induction false} TouchedByThread(visits: seq<seq<nat>>, ad: nat, b: nat) returns (j: nat)
    requires b in TouchedBytes(visits, ad)
    ensures j < |visits| && b in Bytes(visits[j], ad)
  {
    if b in Bytes(visits[|visits| - 1], ad) {
      j := |visits| - 1;
    } else {
      j := TouchedByThread(visits[..|visits| - 1], ad, b);
    }
  }

  ghost predicate TouchedBy(visits: seq<nat>, ad: nat, b: nat) {
    exists i :: 0 <= i < |visits| && visits[i] <= b < visits[i] + ad
  }

  /** A byte is touched exactly when some visit of some thread touches it. */
  lemma TouchedIffVisited(visits: seq<seq<nat>>, ad: nat, b: nat)
    ensures b in TouchedBytes(visits, ad) <==> exists j :: 0 <= j < |visits| && TouchedBy(visits[j], ad, b)
  {
    if b in TouchedBytes(visits, ad) {
      var j := TouchedByThread(visits, ad, b);
      assert TouchedBy(visits[j], ad, b);
    }
    if j :| 0 <= j < |visits| && TouchedBy(visits[j], ad, b) {
      var i :| 0 <= i < |visits[j]| && visits[j][i] <= b < visits[j][i] + ad;
      AccessInBytes(visits[j], ad, i);
      BytesInTouched(visits, ad, j);
    }
  }

  lemma UnionSize(a: set<nat>, b: set<nat>)
    requires a !! b
    ensures |a + b| == |a| + |b|
  {
  }

  ghost predicate Apart(visits: seq<nat>, ad: nat) {
    forall i, i' :: 0 <= i < i' < |visits| ==> visits[i] + ad <= visits[i']
  }

  lemma NextProduct(n: nat, d: nat)
    requires n > 0
    ensures (n - 1) * d + d == n * d
  {
    Distribute(n - 1, 1, d);
  }

  lemma {:induction false} BytesSize(visits: seq<nat>, ad: nat)
    requires Apart(visits, ad)
    ensures |Bytes(visits, ad)| == |visits| * ad
  {
    if |visits| != 0 {
      var init, last := visits[..|visits| - 1], visits[|visits| - 1];
      BytesSize(init, ad);
      RangeSize(last, ad);
      BehindBytes(init, ad, last);
      UnionSize(Bytes(init, ad), Range(last, ad));
      NextProduct(|visits|, ad);
    }
  }

  lemma BehindBytes(visits: seq<nat>, ad: nat, last: nat)
    requires forall i :: 0 <= i < |visits| ==> visits[i] + ad <= last
    ensures Bytes(visits, ad) !! Range(last, ad)
  {
  }

  lemma StepsApart(start: nat, end: nat, ad: nat, visits: seq<nat>)
    requires Visits(start, end, ad, ad, visits)
    ensures Apart(visits, ad)
  {
    forall i, i' | 0 <= i < i' < |visits| ensures visits[i] + ad <= visits[i'] {
      assert VisitAt(start, end, ad, ad, visits, i) && VisitAt(start, end, ad, ad, visits, i');
      ProductAtMost(i + 1, i', ad);
      Distribute(i, 1, ad);
    }
  }

  lemma BytesInside(start: nat, size: nat, ad: nat, visits: seq<nat>)
    requires Visits(start, start + size, ad, ad, visits)
    ensures Bytes(visits, ad) <= Range(start, size)
  {
    forall b: nat | b in Bytes(visits, ad) ensures start <= b < start + size {
      var i :| 0 <= i < |visits| && visits[i] <= b < visits[i] + ad;
      VisitInside(start, size, ad, visits, i);
    }
  }

  /** `n` bytes of the share at `start`. */
  ghost predicate Part(bytes: set<nat>, start: nat, share: nat, n: nat) {
    bytes <= Range(start, share) && |bytes| == n
  }

  /** A thread touches whole accesses in its share. */
  lemma ShareBytes(start: nat, share: nat, ad: nat, visits: seq<nat>)
    requires ad > 0 && Visits(start, start + share, ad, ad, visits)
    ensures Part(Bytes(visits, ad), start, share, share / ad * ad)
  {
    StepsApart(start, start + share, ad, visits);
    BytesSize(visits, ad);
    VisitCount(start, share, ad, visits);
    BytesInside(start, share, ad, visits);
  }

  /** The bytes of the next thread lie behind those of the threads before it. */
  lemma BehindFirst(touched: set<nat>, more: set<nat>, start: nat, n: nat, share: nat, perThread: nat)
    requires n > 0
    requires Part(touched, start, (n - 1) * share, (n - 1) * perThread)
    requires Part(more, start + (n - 1) * share, share, perThread)
    ensures Part(touched + more, start, n * share, n * perThread)
  {
    NextProduct(n, share);
    NextProduct(n, perThread);
    UnionSize(touched, more);
  }

  /** If every thread touches so many bytes of its share, all together touch as many of all shares. */
  lemma {:induction false} SharesBytes(start: nat, share: nat, ad: nat, visits: seq<seq<nat>>, perThread: nat)
    requires forall j :: 0 <= j < |visits| ==> Part(Bytes(visits[j], ad), start + j * share, share, perThread)
    ensures Part(TouchedBytes(visits, ad), start, |visits| * share, |visits| * perThread)
  {
    if |visits| != 0 {
      var n := |visits|;
      SharesBytes(start, share, ad, visits[..n - 1], perThread);
      BehindFirst(TouchedBytes(visits[..n - 1], ad), Bytes(visits[n - 1], ad), start, n, share, perThread);
    }
  }

  /** The visits run through a share. */
  ghost predicate InShare(start: nat, share: nat, ad: nat, visits: seq<nat>) {
    Visits(start, start + share, ad, ad, visits)
  }

  lemma AllBytes(start: nat, share: nat, ad: nat, visits: seq<seq<nat>>, perThread: nat)
    requires ad > 0 && forall j :: 0 <= j < |visits| ==> InShare(start + j * share, share, ad, visits[j])
    requires perThread == share / ad * ad
    ensures Part(TouchedBytes(visits, ad), start, |visits| * share, |visits| * perThread)
  {
    forall j | 0 <= j < |visits| ensures Part(Bytes(visits[j], ad), start + j * share, share, perThread) {
      ShareBytes(start + j * share, share, ad, visits[j]);
    }
    SharesBytes(start, share, ad, visits, perThread);
  }

  /** What all threads visit. */
  ghost predicate AllVisits(t: ThreadInfo, visits: seq<seq<nat>>) {
    |visits| == t.threadCount && forall j :: 0 <= j < |visits| ==> ThreadVisits(t.(threadNumber := j), visits[j])
  }

  lemma VisitsInShare(t: ThreadInfo, visits: seq<nat>, share: nat)
    requires ValidThread(t) && t.pattern == Disjoint && ThreadVisits(t, visits) && share == OffsetPerThread(t)
    ensures InShare(t.pmemStart + t.threadNumber * share, share, t.accessDistance, visits)
  {
  }

  lemma AllInShares(t: ThreadInfo, visits: seq<seq<nat>>, share: nat)
    requires ValidThread(t) && t.pattern == Disjoint && AllVisits(t, visits) && share == OffsetPerThread(t)
    ensures forall j :: 0 <= j < |visits| ==> InShare(t.pmemStart + j * share, share, t.accessDistance, visits[j])
  {
    forall j | 0 <= j < |visits| ensures InShare(t.pmemStart + j * share, share, t.accessDistance, visits[j]) {
      VisitsInShare(t.(threadNumber := j), visits[j], share);
    }
  }

  /** The bytes that a thread touches. */
  function BytesPerThread(t: ThreadInfo): nat
    requires ValidThread(t)
  {
    OffsetPerThread(t) / t.accessDistance * t.accessDistance
  }

  lemma ShareLost(t: ThreadInfo)
    requires ValidThread(t)
    ensures t.pmemSize - t.threadCount * BytesPerThread(t) <= t.threadCount * (t.accessDistance + 63) - 1
  {
    var n, ad, share := t.threadCount, t.accessDistance, OffsetPerThread(t);
    var q := t.pmemSize / n;
    var visited := share / ad * ad;
    assert visited <= share && share - visited <= ad - 1;
    assert share <= q <= share + 63;
    assert t.pmemSize <= q * n + n - 1;
    ProductAtMost(q, visited + ad - 1 + 63, n);
    Distribute(visited, ad + 62, n);
    Distribute(ad + 62, 1, n);
  }

  lemma RestSize(all: set<nat>, part: set<nat>)
    requires part <= all
    ensures |all - part| == |all| - |part|
  {
    assert all == part + (all - part);
  }

  /**
   The threads together touch bytes of the region only, `accessDistance` for each visit, and leave fewer
   than `threadCount * (accessDistance + 63)` of its bytes untouched.
   */
  lemma DisjointUntouched(t: ThreadInfo, visits: seq<seq<nat>>)
    requires ValidThread(t) && t.pattern == Disjoint && AllVisits(t, visits)
    ensures var region, touched := Range(t.pmemStart, t.pmemSize), TouchedBytes(visits, t.accessDistance);
      touched <= region && |touched| == t.threadCount * BytesPerThread(t) &&
      |region - touched| <= t.threadCount * (t.accessDistance + 63) - 1
  {
    var region, touched := Range(t.pmemStart, t.pmemSize), TouchedBytes(visits, t.accessDistance);
    var share := OffsetPerThread(t);
    AllInShares(t, visits, share);
    AllBytes(t.pmemStart, share, t.accessDistance, visits, BytesPerThread(t));
    SharesInside(t);
    assert touched <= region;
    RangeSize(t.pmemStart, t.pmemSize);
    RestSize(region, touched);
    ShareLost(t);
  }
}

/** The timer of a benchmark loop, and the weighted list of items. */
module BenchmarkTimer {
  import opened Scheduler

  /** The fields of a BenchmarkState, as a value. */
  datatype Timer = Timer(state: Bench, begin: int, duration: int, maxDuration: int)

  /** keep_running at two readings of the clock: when it starts the timer, and when it takes the time. */
  function Tick(t: Timer, start: int, now: int): Timer {
    if t.state == Over then t
    else
      var started := if t.state == NotStarted then t.(state := Running, begin := start) else t;
      var timed := started.(duration := now - started.begin);
      if timed.duration >= t.maxDuration then timed.(state := Over) else timed
  }

  class BenchmarkState {
    var state: Bench
    var benchmarkBegin: int
    var benchmarkDuration: int
    var maxDuration: int

    function Fields(): Timer
      reads this
    {
      Timer(state, benchmarkBegin, benchmarkDuration, maxDuration)
    }

    constructor (initMaxDuration: int)
      ensures Fields() == Timer(NotStarted, 0, 0, initMaxDuration)
    {
      state, benchmarkBegin, benchmarkDuration, maxDuration := NotStarted, 0, 0, initMaxDuration;
    }

    /** operator=, which asserts that neither benchmark is running. */
    method Assign(other: BenchmarkState)
      requires state != Running && other.state != Running
      modifies this
      ensures Fields() == old(other.Fields())
    {
      state := other.state;
      benchmarkBegin := other.benchmarkBegin;
      benchmarkDuration := other.benchmarkDuration;
      maxDuration := other.maxDuration;
    }

    method SetDone()
      modifies this
      ensures Fields() == old(Fields()).(state := Over)
    {
      state := Over;
    }

    predicate IsDone()
      reads this
    {
      state == Over
    }

    /** The answer is yes as long as the timer is not over, also after this call. */
    method KeepRunning(start: int, now: int) returns (keep: bool)
      modifies this
      ensures Fields() == Tick(old(Fields()), start, now) && keep == !IsDone()
    {
      if state == NotStarted {
        benchmarkBegin := start;
        state := Running;
      } else if state == Over {
        return false;
      }
      benchmarkDuration := now - benchmarkBegin;
      if benchmarkDuration >= maxDuration {
        SetDone();
        return false;
      }
      return true;
    }
  }

  /** The timer after a loop has asked it at the times `clock`; the first call reads the clock at `start` before. */
  function Ticks(t: Timer, start: int, clock: seq<int>): Timer {
    if |clock| == 0 then t else Tick(Ticks(t, start, clock[..|clock| - 1]), start, clock[|clock| - 1])
  }

  /** The clock does not run backwards. */
  ghost predicate Forward(start: int, clock: seq<int>) {
    (forall i :: 0 <= i < |clock| ==> start <= clock[i]) &&
    forall i, j :: 0 <= i < j < |clock| ==> clock[i] <= clock[j]
  }

  /** The time from the start to the reading `k` of the clock: the first that reaches the duration, or else the last. */
  ghost predicate TakenAt(maxDuration: int, start: int, clock: seq<int>, duration: int, k: int) {
    0 <= k < |clock| && duration == clock[k] - start &&
    (k == |clock| - 1 || clock[k] - start >= maxDuration) && forall i :: 0 <= i < k ==> clock[i] - start < maxDuration
  }

  /**
   A fresh timer keeps a loop running exactly as long as less than the duration has passed since the
   first call; once it has said no, it never says yes again.  The duration it shows is the time up to the
   last reading of the clock, or up to that at which it said no.
   */
  lemma {:induction false} RunsForItsDuration(maxDuration: int, start: int, clock: seq<int>)
    requires |clock| > 0 && Forward(start, clock)
    ensures var t := Ticks(Timer(NotStarted, 0, 0, maxDuration), start, clock);
      t.begin == start && t.maxDuration == maxDuration && t.state != NotStarted &&
      (t.state != Over <==> clock[|clock| - 1] - start < maxDuration) &&
      (t.state == Over ==> maxDuration <= t.duration <= clock[|clock| - 1] - start) &&
      exists k :: TakenAt(maxDuration, start, clock, t.duration, k)
  {
    var init := clock[..|clock| - 1];
    var t := Ticks(Timer(NotStarted, 0, 0, maxDuration), start, clock);
    if |clock| > 1 {
      RunsForItsDuration(maxDuration, start, init);
      var before := Ticks(Timer(NotStarted, 0, 0, maxDuration), start, init);
      var k :| TakenAt(maxDuration, start, init, before.duration, k);
      assert TakenAt(maxDuration, start, clock, t.duration, if before.state == Over then k else |clock| - 1);
    } else {
      assert init == [];
      assert TakenAt(maxDuration, start, clock, t.duration, 0);
    }
  }

  // ---------------------------------------------------------------- weights

  function Repeat(item: Item, n: nat): seq<Item> {
    seq(n, i => item)
  }

  lemma {:induction false} RepeatCount(item: Item, n: nat, x: Item)
    ensures multiset(Repeat(item, n))[x] == if x == item then n else 0
  {
    if n != 0 {
      RepeatCount(item, n - 1, x);
      assert Repeat(item, n) == Repeat(item, n - 1) + [item];
    }
  }

  /** The list that is shuffled holds every item as often as its weight says. */
  method WeightedItems(items: seq<Item>, weights: seq<nat>) returns (weighted: seq<Item>)
    requires forall i :: 0 <= i < |items| ==> 0 <= items[i] < |weights|
    requires forall i, j :: 0 <= i < j < |items| ==> items[i] != items[j]
    ensures forall item :: multiset(weighted)[item] == if item in items then weights[item] else 0
  {
    weighted := [];
    for i := 0 to |items|
      invariant forall item :: multiset(weighted)[item] == if item in items[..i] then weights[item] else 0
    {
      forall x
        ensures multiset(Repeat(items[i], weights[items[i]]))[x] == if x == items[i] then weights[items[i]] else 0
      {
        RepeatCount(items[i], weights[items[i]], x);
      }
      assert items[..i + 1] == items[..i] + [items[i]];
      weighted := weighted + Repeat(items[i], weights[items[i]]);
    }
    assert items[..|items|] == items;
  }
}

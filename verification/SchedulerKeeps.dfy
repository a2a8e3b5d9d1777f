/** Every step of the benchmark runner keeps its invariant. */
module SchedulerKeeps {
  import opened Scheduler

  // ---------------------------------------------------------------- counting runs

  function One(b: bool): nat {
    if b then 1 else 0
  }

  lemma {:induction false} CountSet(runs: seq<Run>, i: nat, r: Run, stage: Stage)
    requires i < |runs|
    ensures CountAt(runs[i := r], stage) == CountAt(runs, stage) - One(runs[i].stage == stage) + One(r.stage == stage)
  {
    var n := |runs| - 1;
    if i == n {
      assert runs[i := r][..n] == runs[..n];
    } else {
      CountSet(runs[..n], i, r, stage);
      assert runs[i := r][..n] == runs[..n][i := r];
    }
  }

  lemma CountNext(runs: seq<Run>, r: Run, stage: Stage)
    ensures CountAt(runs + [r], stage) == CountAt(runs, stage) + One(r.stage == stage)
  {
    assert (runs + [r])[..|runs|] == runs;
  }

  /** Every run is at one of the stages. */
  lemma {:induction false} CountAll(runs: seq<Run>)
    ensures CountAt(runs, Executing) + CountAt(runs, Left) + CountAt(runs, Counted) + CountAt(runs, Passed) +
      CountAt(runs, Ended) == |runs|
  {
    if |runs| != 0 {
      CountAll(runs[..|runs| - 1]);
    }
  }

  /** When every run has ended, all are counted there. */
  lemma {:induction false} CountAllEnded(runs: seq<Run>)
    requires forall i :: 0 <= i < |runs| ==> runs[i].stage == Ended
    ensures CountAt(runs, Ended) == |runs|
  {
    if |runs| != 0 {
      CountAllEnded(runs[..|runs| - 1]);
    }
  }

  lemma {:induction false} NoneAt(runs: seq<Run>, stage: Stage)
    requires stage != Ended && forall i :: 0 <= i < |runs| ==> runs[i].stage == Ended
    ensures CountAt(runs, stage) == 0
  {
    if |runs| != 0 {
      NoneAt(runs[..|runs| - 1], stage);
    }
  }

  predicate OfRun(step: Step) {
    step.Leave? || step.Count? || step.CheckDone? || step.Push?
  }

  /** The stage to which a run goes. */
  function Target(s: State, step: Step): Stage {
    match step
    case Leave(_) => Left
    case Count(_) => Counted
    case CheckDone(_) => if s.bench == Over then Ended else Passed
    case _ => Ended
  }

  lemma RunAdvances(c: Config, s: State, step: Step, i: nat)
    requires |c.items| > 0 && Enabled(c, s, step) && OfRun(step) && i == step.i
    ensures i < |s.runs| && Apply(c, s, step).runs == s.runs[i := s.runs[i].(stage := Target(s, step))]
    ensures var s' := Apply(c, s, step); forall stage ::
      CountAt(s'.runs, stage) == CountAt(s.runs, stage) - One(s.runs[i].stage == stage) + One(Target(s, step) == stage)
  {
    forall stage ensures CountAt(Apply(c, s, step).runs, stage) ==
        CountAt(s.runs, stage) - One(s.runs[i].stage == stage) + One(Target(s, step) == stage) {
      CountSet(s.runs, i, s.runs[i].(stage := Target(s, step)), stage);
    }
  }

  // ---------------------------------------------------------------- results

  lemma {:induction false} ResultsSame(results: seq<nat>, runs: seq<Run>, runs': seq<Run>, item: Item)
    requires |runs| <= |runs'| && forall i :: 0 <= i < |runs| ==> runs'[i].item == runs[i].item
    requires forall k :: 0 <= k < |results| ==> results[k] < |runs|
    ensures ResultsOf(results, runs', item) == ResultsOf(results, runs, item)
  {
    if |results| != 0 {
      ResultsSame(results[..|results| - 1], runs, runs', item);
    }
  }

  lemma ResultsNext(results: seq<nat>, i: nat, runs: seq<Run>, item: Item)
    requires i < |runs|
    ensures ResultsOf(results + [i], runs, item) ==
      if runs[i].item == item then ResultsOf(results, runs, item) + [i] else ResultsOf(results, runs, item)
  {
    assert (results + [i])[..|results|] == results;
  }

  lemma {:induction false} WithoutKeeps(results: seq<nat>, runs: seq<Run>, item: Item)
    requires forall j, k :: 0 <= j < k < |results| ==> results[j] != results[k]
    ensures var kept := ResultsWithout(results, runs, item);
      (forall i :: i in kept <==> i in results && !(i < |runs| && runs[i].item == item)) &&
      forall j, k :: 0 <= j < k < |kept| ==> kept[j] != kept[k]
  {
    if |results| != 0 {
      var init, last := results[..|results| - 1], results[|results| - 1];
      WithoutKeeps(init, runs, item);
      assert results == init + [last];
      assert last !in init;
      var kept := ResultsWithout(results, runs, item);
      assert kept == ResultsWithout(init, runs, item) || kept == ResultsWithout(init, runs, item) + [last];
    }
  }

  /** The runs of an item that have a result among `results`. */
  ghost function KeptIn(results: seq<nat>, runs: seq<Run>, item: Item): set<nat> {
    set i: nat | i < |runs| && i in results && runs[i].item == item
  }

  lemma KeptInNext(results: seq<nat>, last: nat, runs: seq<Run>, item: Item)
    ensures KeptIn(results + [last], runs, item) ==
      KeptIn(results, runs, item) + if last < |runs| && runs[last].item == item then {last} else {}
  {
  }

  /** The results kept of an item are as many as the runs of the item that have one. */
  lemma {:induction false} ResultsCounted(results: seq<nat>, runs: seq<Run>, item: Item)
    requires forall j, k :: 0 <= j < k < |results| ==> results[j] != results[k]
    ensures |ResultsOf(results, runs, item)| == |KeptIn(results, runs, item)|
  {
    if |results| == 0 {
      assert KeptIn(results, runs, item) == {};
    } else {
      var init, last := results[..|results| - 1], results[|results| - 1];
      assert results == init + [last] && last !in init;
      ResultsCounted(init, runs, item);
      KeptInNext(init, last, runs, item);
      assert last !in KeptIn(init, runs, item);
    }
  }

  // ---------------------------------------------------------------- the counters

  lemma KeepClientsCounted(c: Config, s: State, step: Step)
    requires |c.items| > 0 && Enabled(c, s, step) && ClientsCounted(s)
    ensures ClientsCounted(Apply(c, s, step))
  {
    if OfRun(step) {
      RunAdvances(c, s, step, step.i);
    } else if step.Schedule? {
      CountNext(s.runs, Run(s.pc.item, Executing), Executing);
    }
  }

  lemma KeepClientsBounded(c: Config, s: State, step: Step)
    requires |c.items| > 0 && Enabled(c, s, step) && ClientsBounded(c, s)
    ensures ClientsBounded(c, Apply(c, s, step))
  {
  }

  lemma KeepFinishedCounted(c: Config, s: State, step: Step)
    requires |c.items| > 0 && Enabled(c, s, step) && FinishedCounted(s)
    ensures FinishedCounted(Apply(c, s, step))
  {
    if OfRun(step) {
      RunAdvances(c, s, step, step.i);
    } else if step.Schedule? {
      var r := Run(s.pc.item, Executing);
      CountNext(s.runs, r, Counted);
      CountNext(s.runs, r, Passed);
      CountNext(s.runs, r, Ended);
    }
  }

  lemma KeepPeaksReached(c: Config, s: State, step: Step)
    requires |c.items| > 0 && Enabled(c, s, step) && PeaksReached(s) && RunsInPhase(c, s)
    ensures PeaksReached(Apply(c, s, step))
    ensures !step.Begin? ==> Apply(c, s, step).left >= s.left && Apply(c, s, step).unrecorded >= s.unrecorded
  {
    if step.Begin? {
      NoneAt(s.runs, Left);
      NoneAt(s.runs, Counted);
      NoneAt(s.runs, Passed);
    } else if OfRun(step) {
      RunAdvances(c, s, step, step.i);
    } else if step.Schedule? {
      var r := Run(s.pc.item, Executing);
      CountNext(s.runs, r, Left);
      CountNext(s.runs, r, Counted);
      CountNext(s.runs, r, Passed);
    }
  }

  // ---------------------------------------------------------------- phases

  lemma KeepPhase(c: Config, s: State, step: Step)
    requires |c.items| > 0 && Enabled(c, s, step) && PhaseValid(c, s) && BenchInPhase(c, s)
    ensures PhaseValid(c, Apply(c, s, step)) && BenchInPhase(c, Apply(c, s, step))
  {
  }

  lemma KeepRunsInPhase(c: Config, s: State, step: Step)
    requires |c.items| > 0 && Enabled(c, s, step) && RunsInPhase(c, s)
    ensures RunsInPhase(c, Apply(c, s, step))
  {
    if OfRun(step) {
      RunAdvances(c, s, step, step.i);
    }
  }

  lemma KeepRunsOfItem(c: Config, s: State, step: Step)
    requires |c.items| > 0 && Enabled(c, s, step) && RunsOfItem(c, s)
    ensures RunsOfItem(c, Apply(c, s, step))
  {
    if OfRun(step) {
      RunAdvances(c, s, step, step.i);
    }
  }

  // ---------------------------------------------------------------- results

  lemma KeepResultsOnce(c: Config, s: State, step: Step)
    requires |c.items| > 0 && Enabled(c, s, step) && ResultsOnce(s)
    ensures ResultsOnce(Apply(c, s, step))
  {
    var s' := Apply(c, s, step);
    if OfRun(step) {
      RunAdvances(c, s, step, step.i);
      forall k | 0 <= k < |s.results| ensures HasStage(s', s.results[k], Ended) && s.results[k] != step.i {
        assert HasStage(s, s.results[k], Ended);
      }
    } else if step.ClearResults? {
      WithoutKeeps(s.results, s.runs, c.phases[s.phase].item);
      forall k | 0 <= k < |s'.results| ensures HasStage(s', s'.results[k], Ended) {
        assert s'.results[k] in s.results;
        var j :| 0 <= j < |s.results| && s.results[j] == s'.results[k];
        assert HasStage(s, s.results[j], Ended);
      }
    } else {
      forall k | 0 <= k < |s'.results| ensures HasStage(s', s'.results[k], Ended) {
        assert HasStage(s, s.results[k], Ended);
      }
    }
  }

  lemma KeepOnlyCaughtLeak(c: Config, s: State, step: Step)
    requires |c.items| > 0 && Enabled(c, s, step) && OnlyCaughtLeak(c, s) && BenchInPhase(c, s) && ResultsOnce(s)
    requires RunsInPhase(c, s) && RunsOfItem(c, s) && PhaseValid(c, s)
    ensures OnlyCaughtLeak(c, Apply(c, s, step))
  {
    var s' := Apply(c, s, step);
    if (s'.pc == SetDone || s'.pc == Wait) && InPhase(c, s') && c.phases[s'.phase].Warmup? {
      var item := c.phases[s'.phase].item;
      if step.ClearResults? {
        WithoutKeeps(s.results, s.runs, item);
      } else if OfRun(step) {
        RunAdvances(c, s, step, step.i);
        CaughtByRun(c, s, step, item);
      } else {
        assert s'.runs == s.runs && s'.results == s.results && s'.caught == s.caught;
        forall i ensures i in s'.caught <==> HasStage(s', i, Passed) || Kept(s', i, item) {
          assert i in s.caught <==> HasStage(s, i, Passed) || Kept(s, i, item);
        }
      }
    }
  }

  lemma CaughtByRun(c: Config, s: State, step: Step, item: Item)
    requires |c.items| > 0 && Enabled(c, s, step) && OfRun(step) && s.bench == Over && ResultsOnce(s)
    requires RunsInPhase(c, s) && RunsOfItem(c, s) && InPhase(c, s) && s.pc != Start &&
      c.phases[s.phase] == Warmup(item)
    requires forall i :: i in s.caught <==> HasStage(s, i, Passed) || Kept(s, i, item)
    ensures var s' := Apply(c, s, step); forall i :: i in s'.caught <==> HasStage(s', i, Passed) || Kept(s', i, item)
  {
    var s' := Apply(c, s, step);
    RunAdvances(c, s, step, step.i);
    assert s.runs[step.i].stage != Ended && step.i >= s.first && s.runs[step.i].item == item;
    forall i ensures i in s'.caught <==> HasStage(s', i, Passed) || Kept(s', i, item) {
      assert i in s.caught <==> HasStage(s, i, Passed) || Kept(s, i, item);
    }
  }

  // ---------------------------------------------------------------- rounds

  /** A new round, once the last has run out. */
  lemma FillWhole(picked: seq<Item>, remaining: seq<Item>, shuffle: seq<Item>, rounds: nat, items: seq<Item>)
    requires Whole(picked, remaining, rounds, items) && |remaining| == 0 && multiset(shuffle) == multiset(items)
    ensures Whole(picked, shuffle, rounds + 1, items)
  {
    forall item
      ensures multiset(picked)[item] + multiset(shuffle)[item] == (rounds + 1) * multiset(items)[item] &&
        multiset(shuffle)[item] <= multiset(items)[item]
    {
      assert multiset(picked)[item] + multiset(remaining)[item] == rounds * multiset(items)[item];
    }
  }

  lemma PopWhole(picked: seq<Item>, remaining: seq<Item>, rounds: nat, items: seq<Item>)
    requires Whole(picked, remaining, rounds, items) && |remaining| > 0
    ensures Whole(picked + [remaining[|remaining| - 1]], remaining[..|remaining| - 1], rounds, items)
  {
    var init, last := remaining[..|remaining| - 1], remaining[|remaining| - 1];
    assert remaining == init + [last];
    forall item
      ensures multiset(picked + [last])[item] + multiset(init)[item] == rounds * multiset(items)[item] &&
        multiset(init)[item] <= multiset(items)[item]
    {
      assert multiset(picked)[item] + multiset(remaining)[item] == rounds * multiset(items)[item];
    }
  }

  lemma PickWhole(c: Config, s: State, shuffle: seq<Item>)
    requires InPhase(c, s) && multiset(shuffle) == multiset(c.items) && |c.items| > 0 && RoundsWhole(c, s)
    ensures RoundsWhole(c, PickItem(c, s, shuffle))
  {
    if c.phases[s.phase].Shuffled? {
      assert |multiset(shuffle)| == |multiset(c.items)|;
      if |s.remaining| == 0 {
        FillWhole(s.picked, s.remaining, shuffle, s.rounds, c.items);
        PopWhole(s.picked, shuffle, s.rounds + 1, c.items);
      } else {
        PopWhole(s.picked, s.remaining, s.rounds, c.items);
      }
    }
  }

  lemma KeepRoundsWhole(c: Config, s: State, step: Step)
    requires |c.items| > 0 && Enabled(c, s, step) && RoundsWhole(c, s)
    ensures RoundsWhole(c, Apply(c, s, step))
  {
    if step.Pick? {
      PickWhole(c, s, step.shuffle);
    }
  }

  lemma KeepPickedRuns(c: Config, s: State, step: Step)
    requires |c.items| > 0 && Enabled(c, s, step) && PickedRuns(c, s)
    ensures PickedRuns(c, Apply(c, s, step))
  {
    if OfRun(step) {
      RunAdvances(c, s, step, step.i);
    }
  }

  // ---------------------------------------------------------------- the limit on runs

  lemma PickLeaves(c: Config, s: State, shuffle: seq<Item>)
    requires InPhase(c, s) && multiset(shuffle) == multiset(c.items) && |c.items| > 0
    ensures var s' := PickItem(c, s, shuffle);
      s'.pc.Spawn? && s' == s.(pc := s'.pc, remaining := s'.remaining, rounds := s'.rounds, picked := s'.picked)
  {
  }

  lemma KeepShuffledBound(c: Config, s: State, step: Step)
    requires |c.items| > 0 && Enabled(c, s, step) && ShuffledBound(c, s) && ClientsCounted(s) && ClientsBounded(c, s)
    requires FinishedCounted(s) && PeaksReached(s) && RunsInPhase(c, s) && PhaseValid(c, s)
    ensures ShuffledBound(c, Apply(c, s, step))
  {
    KeepPeaksReached(c, s, step);
    if OfRun(step) {
      RunAdvances(c, s, step, step.i);
    } else if step.CheckLimit? {
      CountAll(s.runs);
      EarlierEnded(s);
    } else if step.Pick? {
      PickLeaves(c, s, step.shuffle);
    }
  }

  /** The runs of earlier phases are among the finished. */
  lemma EarlierEnded(s: State)
    requires s.first <= |s.runs| && forall i :: 0 <= i < s.first ==> s.runs[i].stage == Ended
    ensures CountAt(s.runs, Ended) >= s.first
  {
    CountPrefix(s.runs, s.first, Ended);
    CountAllEnded(s.runs[..s.first]);
  }

  lemma {:induction false} CountPrefix(runs: seq<Run>, n: nat, stage: Stage)
    requires n <= |runs|
    ensures CountAt(runs[..n], stage) <= CountAt(runs, stage)
  {
    if n < |runs| {
      CountPrefix(runs[..|runs| - 1], n, stage);
      assert runs[..|runs| - 1][..n] == runs[..n];
    } else {
      assert runs[..n] == runs;
    }
  }

  lemma ResultsInRuns(s: State)
    requires ResultsOnce(s)
    ensures forall k :: 0 <= k < |s.results| ==> s.results[k] < |s.runs|
  {
    forall k | 0 <= k < |s.results| ensures s.results[k] < |s.runs| {
      assert HasStage(s, s.results[k], Ended);
    }
  }

  lemma RecordedByRun(c: Config, s: State, step: Step, item: Item)
    requires |c.items| > 0 && Enabled(c, s, step) && OfRun(step) && ResultsOnce(s) && s.bench != Over
    requires step.Push? ==> s.runs[step.i].item == item
    requires CountAt(s.runs, Ended) <= s.first + |ResultsOf(s.results, s.runs, item)|
    ensures var s' := Apply(c, s, step);
      CountAt(s'.runs, Ended) <= s'.first + |ResultsOf(s'.results, s'.runs, item)|
  {
    var s' := Apply(c, s, step);
    RunAdvances(c, s, step, step.i);
    ResultsInRuns(s);
    ResultsSame(s.results, s.runs, s'.runs, item);
    if step.Push? {
      ResultsNext(s.results, step.i, s'.runs, item);
    }
  }

  lemma KeepOrderedRecorded(c: Config, s: State, step: Step)
    requires |c.items| > 0 && Enabled(c, s, step) && OrderedRecorded(c, s) && RunsInPhase(c, s) && RunsOfItem(c, s)
    requires ResultsOnce(s) && PhaseValid(c, s) && BenchInPhase(c, s)
    ensures OrderedRecorded(c, Apply(c, s, step))
  {
    var s' := Apply(c, s, step);
    if s'.pc != Start && InPhase(c, s') && c.phases[s'.phase].Ordered? && s'.bench != Over {
      var item := c.phases[s'.phase].item;
      if step.Begin? {
        CountAll(s.runs);
      } else if OfRun(step) {
        RecordedByRun(c, s, step, item);
      } else if step.Schedule? {
        CountNext(s.runs, Run(s.pc.item, Executing), Ended);
        ResultsInRuns(s);
        ResultsSame(s.results, s.runs, s'.runs, item);
      } else if step.Pick? {
        PickLeaves(c, s, step.shuffle);
      }
    }
  }

  lemma KeepOrderedBound(c: Config, s: State, step: Step)
    requires |c.items| > 0 && Enabled(c, s, step) && OrderedBound(c, s) && OrderedRecorded(c, s)
    requires ClientsCounted(s) && ClientsBounded(c, s) && PeaksReached(s) && RunsInPhase(c, s) && BenchInPhase(c, s)
    ensures OrderedBound(c, Apply(c, s, step))
  {
    KeepPeaksReached(c, s, step);
    if OfRun(step) {
      RunAdvances(c, s, step, step.i);
    } else if step.CheckLimit? {
      CountAll(s.runs);
    } else if step.Pick? {
      PickLeaves(c, s, step.shuffle);
    }
  }

  lemma KeepEndedByLimit(c: Config, s: State, step: Step)
    requires |c.items| > 0 && Enabled(c, s, step) && EndedByLimit(c, s) && BenchInPhase(c, s) && PhaseValid(c, s)
    requires ResultsOnce(s)
    ensures EndedByLimit(c, Apply(c, s, step))
  {
    var s' := Apply(c, s, step);
    if s.pc == SetDone && OfRun(step) && InPhase(c, s) && c.phases[s.phase].Ordered? {
      var item := c.phases[s.phase].item;
      RunAdvances(c, s, step, step.i);
      ResultsInRuns(s);
      ResultsSame(s.results, s.runs, s'.runs, item);
      if step.Push? {
        ResultsNext(s.results, step.i, s'.runs, item);
      }
    } else if step.Pick? {
      PickLeaves(c, s, step.shuffle);
    }
  }

  // ---------------------------------------------------------------- all of it

  lemma KeepInv(c: Config, s: State, step: Step)
    requires |c.items| > 0 && Enabled(c, s, step) && Inv(c, s)
    ensures Inv(c, Apply(c, s, step))
  {
    KeepClientsCounted(c, s, step);
    KeepClientsBounded(c, s, step);
    KeepFinishedCounted(c, s, step);
    KeepPeaksReached(c, s, step);
    KeepPhase(c, s, step);
    KeepRunsInPhase(c, s, step);
    KeepRunsOfItem(c, s, step);
    KeepResultsOnce(c, s, step);
    KeepOnlyCaughtLeak(c, s, step);
    KeepRoundsWhole(c, s, step);
    KeepPickedRuns(c, s, step);
    KeepShuffledBound(c, s, step);
    KeepOrderedRecorded(c, s, step);
    KeepOrderedBound(c, s, step);
    KeepEndedByLimit(c, s, step);
  }
}

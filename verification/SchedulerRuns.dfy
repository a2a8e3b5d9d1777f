/** Whole runs of the benchmark runner. */
module SchedulerRuns {
  import opened Scheduler
  import opened SchedulerKeeps

  ghost predicate Initial(s: State) {
    s == State(0, Start, NotStarted, 0, 0, [], [], [], 0, [], 0, 0, 0, {})
  }

  lemma InitialInv(c: Config, s: State)
    requires Initial(s)
    ensures Inv(c, s)
  {
  }

  /** The steps can be taken one after the other, in any interleaving of the scheduling thread and the runs. */
  ghost predicate CanRun(c: Config, s: State, steps: seq<Step>)
    requires |c.items| > 0
    decreases |steps|
  {
    |steps| > 0 ==> Enabled(c, s, steps[0]) && CanRun(c, Apply(c, s, steps[0]), steps[1..])
  }

  ghost function After(c: Config, s: State, steps: seq<Step>): State
    requires |c.items| > 0 && CanRun(c, s, steps)
    decreases |steps|
  {
    if |steps| == 0 then s else After(c, Apply(c, s, steps[0]), steps[1..])
  }

  lemma {:induction false} RunKeepsInv(c: Config, s: State, steps: seq<Step>)
    requires |c.items| > 0 && Inv(c, s) && CanRun(c, s, steps)
    ensures Inv(c, After(c, s, steps))
    decreases |steps|
  {
    if |steps| != 0 {
      KeepInv(c, s, steps[0]);
      RunKeepsInv(c, Apply(c, s, steps[0]), steps[1..]);
    }
  }

  /** The states that some interleaving leads to. */
  ghost predicate Reachable(c: Config, s: State) {
    |c.items| > 0 && exists s0, steps :: Initial(s0) && LeadsTo(c, s0, steps, s)
  }

  ghost predicate LeadsTo(c: Config, s0: State, steps: seq<Step>, s: State)
    requires |c.items| > 0
  {
    CanRun(c, s0, steps) && After(c, s0, steps) == s
  }

  lemma ReachableInv(c: Config, s: State)
    requires Reachable(c, s)
    ensures Inv(c, s)
  {
    var s0, steps :| Initial(s0) && LeadsTo(c, s0, steps, s);
    InitialInv(c, s0);
    RunKeepsInv(c, s0, steps);
  }

  // ---------------------------------------------------------------- clients and assertions

  /** Never do more runs execute than there are clients, and the counter never goes below zero. */
  lemma ClientsNeverExceeded(c: Config, s: State)
    requires Reachable(c, s)
    ensures 0 <= s.running <= c.clients && CountAt(s.runs, Executing) <= s.running
  {
    ReachableInv(c, s);
  }

  /** Once all runs have ended, none is outstanding and each was counted as finished. */
  lemma NothingOutstanding(c: Config, s: State)
    requires Inv(c, s) && !s.pc.Spawn? && forall i :: 0 <= i < |s.runs| ==> s.runs[i].stage == Ended
    ensures s.running == 0 && s.finished == |s.runs|
  {
    NoneAt(s.runs, Executing);
    NoneAt(s.runs, Left);
    CountAll(s.runs);
  }

  /** The assertions at the start of a loop, in the assignment of the benchmark state, and after the final wait hold. */
  lemma AssertionsHold(c: Config, s: State)
    requires Reachable(c, s)
    ensures s.pc == Start ==> s.running == 0 && s.bench != Running
    ensures Enabled(c, s, EndPhase) ==> s.running == 0 && s.finished == |s.runs|
  {
    ReachableInv(c, s);
    if s.pc == Start || Enabled(c, s, EndPhase) {
      NothingOutstanding(c, s);
    }
  }

  // ---------------------------------------------------------------- every run finishes once

  /** How often a step occurs. */
  function Times(steps: seq<Step>, step: Step): nat {
    multiset(steps)[step]
  }

  ghost predicate Reached(s: State, i: nat, stages: set<Stage>) {
    i < |s.runs| && s.runs[i].stage in stages
  }

  lemma TimesFirst(steps: seq<Step>, step: Step)
    requires |steps| > 0
    ensures Times(steps, step) == Times(steps[1..], step) + One(steps[0] == step)
  {
    assert steps == [steps[0]] + steps[1..];
  }

  lemma StagesOfStep(c: Config, s: State, step: Step, i: nat)
    requires |c.items| > 0 && Enabled(c, s, step)
    ensures var s' := Apply(c, s, step);
      One(Reached(s', i, {Left, Counted, Passed, Ended})) ==
        One(Reached(s, i, {Left, Counted, Passed, Ended})) + One(step == Leave(i)) &&
      One(Reached(s', i, {Counted, Passed, Ended})) ==
        One(Reached(s, i, {Counted, Passed, Ended})) + One(step == Count(i)) &&
      |s'.runs| == |s.runs| + One(step == Schedule)
  {
    if OfRun(step) {
      RunAdvances(c, s, step, step.i);
    }
  }

  /** A run gives its client back as often as it has reached that point, and counts as finished as often: once. */
  lemma {:induction false} StepsOfRun(c: Config, s: State, steps: seq<Step>, i: nat)
    requires |c.items| > 0 && CanRun(c, s, steps)
    ensures var s' := After(c, s, steps);
      One(Reached(s', i, {Left, Counted, Passed, Ended})) ==
        One(Reached(s, i, {Left, Counted, Passed, Ended})) + Times(steps, Leave(i)) &&
      One(Reached(s', i, {Counted, Passed, Ended})) ==
        One(Reached(s, i, {Counted, Passed, Ended})) + Times(steps, Count(i)) &&
      |s'.runs| == |s.runs| + Times(steps, Schedule)
    decreases |steps|
  {
    if |steps| != 0 {
      StagesOfStep(c, s, steps[0], i);
      StepsOfRun(c, Apply(c, s, steps[0]), steps[1..], i);
      TimesFirst(steps, Leave(i));
      TimesFirst(steps, Count(i));
      TimesFirst(steps, Schedule);
    }
  }

  /** After the final wait every scheduled run has given back its client once and has finished once. */
  lemma EveryRunFinishedOnce(c: Config, s: State, steps: seq<Step>, i: nat)
    requires |c.items| > 0 && Initial(s) && CanRun(c, s, steps) && Enabled(c, After(c, s, steps), EndPhase)
    ensures Times(steps, Schedule) == |After(c, s, steps).runs|
    ensures i < Times(steps, Schedule) ==> Times(steps, Leave(i)) == 1 && Times(steps, Count(i)) == 1
  {
    StepsOfRun(c, s, steps, i);
  }

  // ---------------------------------------------------------------- the limit on runs

  /**
   A shuffled phase schedules at most `maxRuns` runs, the clients and the runs caught between the two
   counters, less the runs of the warm-ups before it: these use the limit up, and if they reach it,
   the phase schedules nothing.
   */
  lemma ShuffledLimit(c: Config, s: State)
    requires Reachable(c, s) && c.maxRuns >= 0 && s.pc != Start && InPhase(c, s) && c.phases[s.phase].Shuffled?
    ensures s.first <= |s.runs|
    ensures |s.runs| - s.first <= if s.first < c.maxRuns then c.maxRuns - s.first + c.clients + s.left else 0
  {
    ReachableInv(c, s);
  }

  /** An ordered phase is limited by its own results, the clients, and the runs that have not left their result yet. */
  lemma OrderedLimit(c: Config, s: State)
    requires Reachable(c, s) && c.maxRuns >= 0 && s.pc != Start && InPhase(c, s) && c.phases[s.phase].Ordered?
    ensures s.first <= |s.runs| <= s.first + c.maxRuns + c.clients + s.unrecorded
  {
    ReachableInv(c, s);
  }

  // ---------------------------------------------------------------- rounds

  /**
   Every item has been picked in every round but the last as often as its weight says, and in that at most
   as often.
   */
  lemma RoundsAreFair(c: Config, s: State, item: Item)
    requires Reachable(c, s)
    ensures var weight := multiset(c.items)[item];
      (s.rounds - 1) * weight <= multiset(s.picked)[item] <= s.rounds * weight
  {
    ReachableInv(c, s);
    var weight := multiset(c.items)[item];
    assert multiset(s.picked)[item] + multiset(s.remaining)[item] == s.rounds * weight;
    assert (s.rounds - 1) * weight == s.rounds * weight - weight;
  }

  /** The runs of a warm-up or of an ordered phase are of its item. */
  lemma RunsAreOfItem(c: Config, s: State, k: nat)
    requires Reachable(c, s) && s.pc != Start && InPhase(c, s) && !c.phases[s.phase].Shuffled?
    requires s.first + k < |s.runs|
    ensures s.runs[s.first + k].item == c.phases[s.phase].item
  {
    ReachableInv(c, s);
  }

  /** Run `k` of a shuffled phase is of the item that was picked for it. */
  lemma RunsAreAsPicked(c: Config, s: State, k: nat)
    requires Reachable(c, s) && s.pc != Start && InPhase(c, s) && c.phases[s.phase].Shuffled?
    requires s.first + k < |s.runs|
    ensures var behind := |s.runs| - (s.first + k) + (if s.pc.Spawn? then 1 else 0);
      behind <= |s.picked| && s.runs[s.first + k].item == s.picked[|s.picked| - behind]
  {
    ReachableInv(c, s);
  }

  // ---------------------------------------------------------------- what a warm-up leaves behind

  /**
   A warm-up clears its results, but a run that has already found the benchmark running adds its result
   after that.  Once the warm-up is over, what is kept of its item are the results of exactly those runs.
   */
  lemma WarmupKeepsCaught(c: Config, s: State, i: int)
    requires Reachable(c, s) && Enabled(c, s, EndPhase) && InPhase(c, s) && c.phases[s.phase].Warmup?
    ensures Kept(s, i, c.phases[s.phase].item) <==> i in s.caught
  {
    ReachableInv(c, s);
    assert i in s.caught <==> HasStage(s, i, Passed) || Kept(s, i, c.phases[s.phase].item);
  }

  lemma {:induction false} RunNext(c: Config, s: State, steps: seq<Step>, step: Step)
    requires |c.items| > 0 && CanRun(c, s, steps) && Enabled(c, After(c, s, steps), step)
    ensures LeadsTo(c, s, steps + [step], Apply(c, After(c, s, steps), step))
    decreases |steps|
  {
    var steps' := steps + [step];
    if |steps| == 0 {
      assert steps' == [step] && steps'[1..] == [];
      assert CanRun(c, Apply(c, s, step), steps'[1..]);
    } else {
      RunNext(c, Apply(c, s, steps[0]), steps[1..], step);
      assert steps'[1..] == steps[1..] + [step];
    }
  }

  lemma ReachableNext(c: Config, s: State, step: Step)
    requires Reachable(c, s) && Enabled(c, s, step)
    ensures Reachable(c, Apply(c, s, step))
  {
    var s0, steps :| Initial(s0) && LeadsTo(c, s0, steps, s);
    RunNext(c, s0, steps, step);
  }

  lemma InitialReachable(c: Config, s: State)
    requires |c.items| > 0 && Initial(s)
    ensures Reachable(c, s)
  {
    var none: seq<Step> := [];
    assert LeadsTo(c, s, none, s);
  }

  /** A warm-up and another phase, one item, one client, one run. */
  predicate OneOfEach(c: Config) {
    |c.phases| == 2 && c.phases[0] == Warmup(0) && c.clients == 1 && c.maxRuns == 1 && c.items == [0]
  }

  lemma WarmupStarts(c: Config) returns (s: State)
    requires OneOfEach(c)
    ensures Reachable(c, s) && s == State(0, Clients, Running, 0, 0, [], [], [], 0, [], 0, 0, 0, {})
  {
    s := State(0, Start, NotStarted, 0, 0, [], [], [], 0, [], 0, 0, 0, {});
    InitialReachable(c, s);
    ReachableNext(c, s, Begin);
    s := Apply(c, s, Begin);
    ReachableNext(c, s, KeepRunning(false));
    s := Apply(c, s, KeepRunning(false));
    ReachableNext(c, s, CheckLimit);
    s := Apply(c, s, CheckLimit);
  }

  lemma WarmupSchedules(c: Config) returns (s: State)
    requires OneOfEach(c)
    ensures Reachable(c, s) && s == State(0, Time, Running, 1, 0, [Run(0, Executing)], [], [], 0, [], 0, 0, 0, {})
  {
    s := WarmupStarts(c);
    ReachableNext(c, s, CheckClients);
    s := Apply(c, s, CheckClients);
    ReachableNext(c, s, Pick([0]));
    s := Apply(c, s, Pick([0]));
    ReachableNext(c, s, Schedule);
    s := Apply(c, s, Schedule);
  }

  /** The warm-up of the example below: a run passes the check, the time is up, the results are cleared. */
  lemma WarmupCatchesRun(c: Config) returns (s: State)
    requires OneOfEach(c)
    ensures Reachable(c, s)
    ensures s == State(0, SetDone, Over, 0, 1, [Run(0, Passed)], [], [], 0, [], 0, 1, 1, {0})
  {
    s := WarmupSchedules(c);
    s := RunPasses(c, s);
    ReachableNext(c, s, KeepRunning(true));
    s := Apply(c, s, KeepRunning(true));
    ReachableNext(c, s, ClearResults);
    s := Apply(c, s, ClearResults);
  }

  lemma RunPasses(c: Config, s0: State) returns (s: State)
    requires Reachable(c, s0) && s0 == State(0, Time, Running, 1, 0, [Run(0, Executing)], [], [], 0, [], 0, 0, 0, {})
    ensures Reachable(c, s) && s == State(0, Time, Running, 0, 1, [Run(0, Passed)], [], [], 0, [], 0, 1, 1, {})
  {
    s := s0;
    ReachableNext(c, s, Leave(0));
    CountOne(Run(0, Left));
    s := Apply(c, s, Leave(0));
    assert s.runs == [Run(0, Left)];
    ReachableNext(c, s, Count(0));
    s := Apply(c, s, Count(0));
    assert s.runs == [Run(0, Counted)];
    ReachableNext(c, s, CheckDone(0));
    s := Apply(c, s, CheckDone(0));
    assert s.runs == [Run(0, Passed)];
  }

  lemma CountOne(r: Run)
    ensures forall stage :: CountAt([r], stage) == One(r.stage == stage)
  {
    assert [r][..0] == [];
  }

  lemma WarmupEnds(c: Config) returns (s: State)
    requires OneOfEach(c)
    ensures Reachable(c, s) && s == State(1, Start, Over, 0, 1, [Run(0, Ended)], [0], [], 0, [], 0, 1, 1, {0})
  {
    s := WarmupCatchesRun(c);
    ReachableNext(c, s, Push(0));
    s := Apply(c, s, Push(0));
    assert s.runs == [Run(0, Ended)] && s.results == [0];
    ReachableNext(c, s, Finish);
    s := Apply(c, s, Finish);
    ReachableNext(c, s, EndPhase);
    s := Apply(c, s, EndPhase);
  }

  /**
   With a limit of one run, the result that a warm-up leaves behind can stand for the whole benchmark:
   the loop ends without having scheduled a run of its own.
   */
  lemma WarmupRunTakesTheLimit(c: Config) returns (s: State)
    requires c == Config([Warmup(0), Ordered(0)], 1, 1, [0])
    ensures Reachable(c, s) && s.phase == 1 && s.pc == SetDone
    ensures s.first == |s.runs| == 1 && ResultsOf(s.results, s.runs, 0) == [0]
  {
    s := WarmupEnds(c);
    ReachableNext(c, s, Begin);
    s := Apply(c, s, Begin);
    ReachableNext(c, s, KeepRunning(false));
    s := Apply(c, s, KeepRunning(false));
    assert [0][..0] == [] && ResultsOf([0], s.runs, 0) == [0];
    ReachableNext(c, s, CheckLimit);
    s := Apply(c, s, CheckLimit);
  }

  lemma ShuffledStarts(c: Config) returns (s: State)
    requires c == Config([Warmup(0), Shuffled], 1, 1, [0])
    ensures Reachable(c, s) && s == State(1, Limit, Running, 0, 1, [Run(0, Ended)], [0], [], 0, [], 1, 0, 0, {})
  {
    s := WarmupEnds(c);
    ReachableNext(c, s, Begin);
    s := Apply(c, s, Begin);
    ReachableNext(c, s, KeepRunning(false));
    s := Apply(c, s, KeepRunning(false));
  }

  /** The run of a warm-up uses up the limit: a shuffled phase that ends without having scheduled anything. */
  lemma WarmupUsesUpTheLimit(c: Config) returns (s: State)
    requires c == Config([Warmup(0), Shuffled], 1, 1, [0])
    ensures Reachable(c, s) && s.phase == 1 && Enabled(c, s, EndPhase) && s.first == |s.runs| == 1
  {
    s := ShuffledStarts(c);
    ReachableNext(c, s, CheckLimit);
    s := Apply(c, s, CheckLimit);
    ReachableNext(c, s, Finish);
    s := Apply(c, s, Finish);
  }

  // ---------------------------------------------------------------- whether a phase schedules anything

  /** Some run of the phase that starts in `s0` gets scheduled. */
  ghost predicate SchedulesIn(c: Config, s0: State, steps: seq<Step>)
    requires |c.items| > 0
  {
    CanRun(c, s0, steps) && After(c, s0, steps).phase == s0.phase && |After(c, s0, steps).runs| > |s0.runs|
  }

  ghost predicate MaySchedule(c: Config, s0: State)
    requires |c.items| > 0
  {
    exists steps :: SchedulesIn(c, s0, steps)
  }

  /** How far the phase that started in `s0` has come, unless it is over. */
  ghost predicate Since(c: Config, s0: State, s: State)
    requires InPhase(c, s0)
  {
    s.phase >= s0.phase && (s.phase == s0.phase ==>
      |s.runs| >= |s0.runs| &&
      (|s.runs| == |s0.runs| ==> Untouched(s0, s)) &&
      (MayAddRun(s) ==> BelowLimit(c, s0)) &&
      (|s.runs| > |s0.runs| || s.pc.Spawn? ==> BelowLimit(c, s0) && c.clients > 0))
  }

  /** No run has taken a step. */
  ghost predicate Untouched(s0: State, s: State) {
    s.runs == s0.runs && s.finished == s0.finished && (s.pc == SetDone || s.pc == Wait || s.results == s0.results)
  }

  ghost predicate AllEnded(s: State) {
    forall i :: 0 <= i < |s.runs| ==> s.runs[i].stage == Ended
  }

  lemma StepSince(c: Config, s0: State, s: State, step: Step)
    requires |c.items| > 0 && Enabled(c, s, step) && Inv(c, s) && InPhase(c, s0) && AllEnded(s0) && Since(c, s0, s)
    ensures Since(c, s0, Apply(c, s, step))
  {
    if OfRun(step) {
      RunAdvances(c, s, step, step.i);
    } else if step.Pick? {
      PickLeaves(c, s, step.shuffle);
    }
  }

  lemma {:induction false} RunSince(c: Config, s0: State, s: State, steps: seq<Step>)
    requires |c.items| > 0 && CanRun(c, s, steps) && Inv(c, s) && InPhase(c, s0) && AllEnded(s0) && Since(c, s0, s)
    ensures Since(c, s0, After(c, s, steps))
    decreases |steps|
  {
    if |steps| != 0 {
      KeepInv(c, s, steps[0]);
      StepSince(c, s0, s, steps[0]);
      RunSince(c, s0, Apply(c, s, steps[0]), steps[1..]);
    }
  }

  lemma CanRunNext(c: Config, s: State, step: Step, rest: seq<Step>)
    requires |c.items| > 0 && Enabled(c, s, step) && CanRun(c, Apply(c, s, step), rest)
    ensures CanRun(c, s, [step] + rest) && After(c, s, [step] + rest) == After(c, Apply(c, s, step), rest)
  {
    assert ([step] + rest)[1..] == rest;
  }

  /** From the loop's check of the limit to its next run. */
  lemma SchedulesNext(c: Config, s: State)
    requires |c.items| > 0 && InPhase(c, s) && s.pc == Limit && BelowLimit(c, s) && s.running < c.clients
    ensures var steps := [CheckLimit, CheckClients, Pick(c.items), Schedule];
      CanRun(c, s, steps) && After(c, s, steps).phase == s.phase && |After(c, s, steps).runs| == |s.runs| + 1
  {
    var none: seq<Step> := [];
    var s1 := Apply(c, s, CheckLimit);
    var s2 := Apply(c, s1, CheckClients);
    PickLeaves(c, s2, c.items);
    var s3 := Apply(c, s2, Pick(c.items));
    CanRunNext(c, s3, Schedule, none);
    CanRunNext(c, s2, Pick(c.items), [Schedule]);
    CanRunNext(c, s1, CheckClients, [Pick(c.items), Schedule]);
    CanRunNext(c, s, CheckLimit, [CheckClients, Pick(c.items), Schedule]);
  }

  lemma PhaseSchedules(c: Config, s0: State)
    requires |c.items| > 0 && s0.pc == Start && InPhase(c, s0) && BelowLimit(c, s0) && s0.running < c.clients
    ensures MaySchedule(c, s0)
  {
    var rest := [CheckLimit, CheckClients, Pick(c.items), Schedule];
    var s1 := Apply(c, s0, Begin);
    var s2 := Apply(c, s1, KeepRunning(false));
    SchedulesNext(c, s2);
    CanRunNext(c, s1, KeepRunning(false), rest);
    CanRunNext(c, s0, Begin, [KeepRunning(false)] + rest);
    assert SchedulesIn(c, s0, [Begin] + ([KeepRunning(false)] + rest));
  }

  /**
   A phase can schedule a run, in some interleaving, exactly when there is a client and the limit is not
   reached by what is there when it starts.
   */
  lemma PhaseSchedulesIff(c: Config, s0: State)
    requires Reachable(c, s0) && s0.pc == Start && InPhase(c, s0)
    ensures MaySchedule(c, s0) <==> c.clients > 0 && BelowLimit(c, s0)
  {
    ReachableInv(c, s0);
    NothingOutstanding(c, s0);
    if c.clients > 0 && BelowLimit(c, s0) {
      PhaseSchedules(c, s0);
    }
    if steps :| SchedulesIn(c, s0, steps) {
      RunSince(c, s0, s0, steps);
    }
  }

  /** For a shuffled phase with a limit: when the runs of the warm-ups before it are fewer. */
  lemma ShuffledSchedulesIff(c: Config, s0: State)
    requires Reachable(c, s0) && s0.pc == Start && InPhase(c, s0) && c.phases[s0.phase].Shuffled? && c.maxRuns >= 0
    ensures MaySchedule(c, s0) <==> c.clients > 0 && |s0.runs| < c.maxRuns
  {
    PhaseSchedulesIff(c, s0);
    ReachableInv(c, s0);
    NothingOutstanding(c, s0);
  }

  /** For an ordered phase with a limit: when fewer results of its item are kept at its start. */
  lemma OrderedSchedulesIff(c: Config, s0: State)
    requires Reachable(c, s0) && s0.pc == Start && InPhase(c, s0) && c.phases[s0.phase].Ordered? && c.maxRuns >= 0
    ensures MaySchedule(c, s0) <==> c.clients > 0 && |KeptIn(s0.results, s0.runs, c.phases[s0.phase].item)| < c.maxRuns
  {
    PhaseSchedulesIff(c, s0);
    ReachableInv(c, s0);
    ResultsCounted(s0.results, s0.runs, c.phases[s0.phase].item);
  }

  /** Warm-ups, and phases without a limit, schedule whenever there is a client. */
  lemma UnlimitedSchedulesIff(c: Config, s0: State)
    requires Reachable(c, s0) && s0.pc == Start && InPhase(c, s0) && (c.phases[s0.phase].Warmup? || c.maxRuns < 0)
    ensures MaySchedule(c, s0) <==> c.clients > 0
  {
    PhaseSchedulesIff(c, s0);
  }

  /**
   A loop that has ended while the benchmark still runs has done all of its runs: an ordered one has at least
   the results of its limit, a shuffled one at least as many finished runs, and no warm-up ends like this.
   */
  lemma EndedBeforeTime(c: Config, s: State)
    requires Reachable(c, s) && s.pc == SetDone && s.bench == Running
    ensures InPhase(c, s) && !c.phases[s.phase].Warmup? && c.maxRuns >= 0
    ensures c.phases[s.phase].Ordered? ==> |KeptIn(s.results, s.runs, c.phases[s.phase].item)| >= c.maxRuns
    ensures c.phases[s.phase].Shuffled? ==>
      CountAt(s.runs, Counted) + CountAt(s.runs, Passed) + CountAt(s.runs, Ended) >= c.maxRuns
  {
    ReachableInv(c, s);
    if c.phases[s.phase].Ordered? {
      ResultsCounted(s.results, s.runs, c.phases[s.phase].item);
    }
  }
}

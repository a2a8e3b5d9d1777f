/**
 The benchmark runner: one scheduling thread that starts runs under a bound on clients and a limit on
 runs, and the runs themselves, interleaved step by step.
 */
module Scheduler {

  type Item = int

  /** What the scheduling thread goes through: warm-ups, then the shuffled loop, or warm-up and loop for each item. */
  datatype Phase = Warmup(item: Item) | Ordered(item: Item) | Shuffled

  /** `maxRuns` below zero: no limit.  `items` holds every item as often as its weight says. */
  datatype Config = Config(phases: seq<Phase>, clients: nat, maxRuns: int, items: seq<Item>)

  datatype Bench = NotStarted | Running | Over

  /** Where the scheduling thread stands. */
  datatype Pc = Start | Time | Limit | Clients | Increment | Spawn(item: Item) | Clear | SetDone | Wait

  /** How far a run has come: executing, client given back, counted as finished, found the benchmark running, ended. */
  datatype Stage = Executing | Left | Counted | Passed | Ended

  datatype Run = Run(item: Item, stage: Stage)

  datatype State = State(
    phase: nat, pc: Pc, bench: Bench,
    running: int,            // _currently_running_clients
    finished: nat,           // _total_finished_runs
    runs: seq<Run>,          // every run ever scheduled
    results: seq<nat>,       // the runs whose results are kept, in the order in which they were added
    remaining: seq<Item>,    // item_ids_shuffled
    rounds: nat,             // how often it was filled
    picked: seq<Item>,       // what was taken from it
    first: nat,              // the first run of this phase
    left: nat,               // the most runs of this phase at once between the two counters
    unrecorded: nat,         // the most runs of this phase at once between the client counter and their result
    caught: set<nat>)        // the runs that had passed the check when a warm-up cleared its results

  datatype Step =
    | Begin
    | KeepRunning(expired: bool)
    | CheckLimit
    | CheckClients
    | Pick(shuffle: seq<Item>)   // what std::shuffle makes of the items, should a new round begin
    | Schedule
    | ClearResults
    | Finish
    | EndPhase
    | Leave(i: nat)
    | Count(i: nat)
    | CheckDone(i: nat)
    | Push(i: nat)

  function Max(a: nat, b: nat): nat {
    if a < b then b else a
  }

  /** The number of runs at a stage. */
  function CountAt(runs: seq<Run>, stage: Stage): nat {
    if |runs| == 0 then 0
    else CountAt(runs[..|runs| - 1], stage) + if runs[|runs| - 1].stage == stage then 1 else 0
  }

  /** The runs of an item whose results are kept. */
  function ResultsOf(results: seq<nat>, runs: seq<Run>, item: Item): (kept: seq<nat>) {
    if |results| == 0 then []
    else
      var init, last := ResultsOf(results[..|results| - 1], runs, item), results[|results| - 1];
      if last < |runs| && runs[last].item == item then init + [last] else init
  }

  function ResultsWithout(results: seq<nat>, runs: seq<Run>, item: Item): (kept: seq<nat>) {
    if |results| == 0 then []
    else
      var init, last := ResultsWithout(results[..|results| - 1], runs, item), results[|results| - 1];
      if last < |runs| && runs[last].item == item then init else init + [last]
  }

  predicate InPhase(c: Config, s: State) {
    s.phase < |c.phases|
  }

  /** The condition of the loop that compares with max_runs; a warm-up has none. */
  predicate BelowLimit(c: Config, s: State)
    requires InPhase(c, s)
  {
    match c.phases[s.phase]
    case Warmup(_) => true
    case Shuffled => c.maxRuns < 0 || s.finished < c.maxRuns
    case Ordered(item) => c.maxRuns < 0 || |ResultsOf(s.results, s.runs, item)| < c.maxRuns
  }

  predicate HasStage(s: State, i: int, stage: Stage) {
    0 <= i < |s.runs| && s.runs[i].stage == stage
  }

  ghost predicate Enabled(c: Config, s: State, step: Step) {
    match step
    case Begin => InPhase(c, s) && s.pc == Start
    case KeepRunning(_) => s.pc == Time
    case CheckLimit => InPhase(c, s) && s.pc == Limit
    case CheckClients => s.pc == Clients
    case Pick(shuffle) => InPhase(c, s) && s.pc == Increment && multiset(shuffle) == multiset(c.items)
    case Schedule => s.pc.Spawn?
    case ClearResults => InPhase(c, s) && s.pc == Clear && c.phases[s.phase].Warmup?
    case Finish => s.pc == SetDone
    case EndPhase => s.pc == Wait && forall i :: 0 <= i < |s.runs| ==> s.runs[i].stage == Ended
    case Leave(i) => HasStage(s, i, Executing)
    case Count(i) => HasStage(s, i, Left)
    case CheckDone(i) => HasStage(s, i, Counted)
    case Push(i) => HasStage(s, i, Passed)
  }

  function Advance(s: State, i: nat, stage: Stage): State
    requires i < |s.runs|
  {
    s.(runs := s.runs[i := s.runs[i].(stage := stage)])
  }

  /** Where a loop goes when it ends. */
  function AfterLoop(c: Config, s: State): Pc {
    if InPhase(c, s) && c.phases[s.phase].Warmup? then Clear else SetDone
  }

  /** The next item: the last of the shuffled items, which are filled again when they have run out. */
  function PickItem(c: Config, s: State, shuffle: seq<Item>): State
    requires InPhase(c, s) && multiset(shuffle) == multiset(c.items) && |c.items| > 0
  {
    match c.phases[s.phase]
    case Warmup(item) => s.(pc := Spawn(item))
    case Ordered(item) => s.(pc := Spawn(item))
    case Shuffled =>
      var filled := if |s.remaining| == 0 then s.(remaining := shuffle, rounds := s.rounds + 1) else s;
      assert |multiset(shuffle)| == |multiset(c.items)|;
      var item := filled.remaining[|filled.remaining| - 1];
      filled.(pc := Spawn(item), remaining := filled.remaining[..|filled.remaining| - 1], picked := s.picked + [item])
  }

  ghost function Apply(c: Config, s: State, step: Step): State
    requires Enabled(c, s, step) && |c.items| > 0
  {
    match step
    case Begin => s.(pc := Time, bench := NotStarted, first := |s.runs|, caught := {}, left := 0, unrecorded := 0)
    case KeepRunning(expired) =>
      if s.bench == Over then s.(pc := AfterLoop(c, s))
      else if expired then s.(bench := Over, pc := AfterLoop(c, s))
      else s.(bench := Running, pc := Limit)
    case CheckLimit => s.(pc := if BelowLimit(c, s) then Clients else AfterLoop(c, s))
    case CheckClients => s.(pc := if s.running < c.clients then Increment else Time)
    case Pick(shuffle) => PickItem(c, s, shuffle).(running := s.running + 1)
    case Schedule => s.(pc := Time, runs := s.runs + [Run(s.pc.item, Executing)])
    case ClearResults =>
      s.(pc := SetDone, results := ResultsWithout(s.results, s.runs, c.phases[s.phase].item),
         caught := set i | 0 <= i < |s.runs| && s.runs[i].stage == Passed)
    case Finish => s.(pc := Wait, bench := Over)
    case EndPhase => s.(pc := Start, phase := s.phase + 1)
    case Leave(i) =>
      var s' := Advance(s, i, Left).(running := s.running - 1);
      s'.(left := Max(s.left, CountAt(s'.runs, Left)),
          unrecorded := Max(s.unrecorded,
                            CountAt(s'.runs, Left) + CountAt(s'.runs, Counted) + CountAt(s'.runs, Passed)))
    case Count(i) => Advance(s, i, Counted).(finished := s.finished + 1)
    case CheckDone(i) => Advance(s, i, if s.bench == Over then Ended else Passed)
    case Push(i) => Advance(s, i, Ended).(results := s.results + [i])
  }

  // ---------------------------------------------------------------- what every step keeps

  /** The client counter counts the runs that execute, and the one about to be scheduled. */
  ghost predicate ClientsCounted(s: State) {
    s.running == CountAt(s.runs, Executing) + if s.pc.Spawn? then 1 else 0
  }

  ghost predicate ClientsBounded(c: Config, s: State) {
    s.running <= c.clients && (s.pc == Increment ==> s.running < c.clients)
  }

  ghost predicate FinishedCounted(s: State) {
    s.finished == CountAt(s.runs, Counted) + CountAt(s.runs, Passed) + CountAt(s.runs, Ended)
  }

  /** Runs of earlier phases have ended; those of a warm-up or an ordered phase are of its item. */
  ghost predicate RunsInPhase(c: Config, s: State) {
    s.first <= |s.runs| &&
    (forall i :: 0 <= i < s.first ==> s.runs[i].stage == Ended) &&
    (s.pc == Start ==> forall i :: 0 <= i < |s.runs| ==> s.runs[i].stage == Ended)
  }

  ghost predicate RunsOfItem(c: Config, s: State) {
    s.pc != Start && InPhase(c, s) && !c.phases[s.phase].Shuffled? ==>
      (forall i :: s.first <= i < |s.runs| ==> s.runs[i].item == c.phases[s.phase].item) &&
      (s.pc.Spawn? ==> s.pc.item == c.phases[s.phase].item)
  }

  ghost predicate BenchInPhase(c: Config, s: State) {
    match s.pc
    case Start => s.bench != Running
    case Time => s.bench != Over
    case Clear => s.bench == Over
    case Wait => s.bench == Over
    case SetDone => InPhase(c, s) && c.phases[s.phase].Warmup? ==> s.bench == Over
    case _ => s.bench == Running
  }

  ghost predicate PhaseValid(c: Config, s: State) {
    s.pc != Start ==> InPhase(c, s)
  }

  /** Kept results are of runs that have ended, each kept once. */
  ghost predicate ResultsOnce(s: State) {
    (forall k :: 0 <= k < |s.results| ==> HasStage(s, s.results[k], Ended)) &&
    forall j, k :: 0 <= j < k < |s.results| ==> s.results[j] != s.results[k]
  }

  ghost predicate PeaksReached(s: State) {
    CountAt(s.runs, Left) <= s.left &&
    CountAt(s.runs, Left) + CountAt(s.runs, Counted) + CountAt(s.runs, Passed) <= s.unrecorded
  }

  /** Rounds of shuffled items: what was picked and what remains are whole rounds, and what remains is part of one. */
  ghost predicate RoundsWhole(c: Config, s: State) {
    Whole(s.picked, s.remaining, s.rounds, c.items)
  }

  ghost predicate Whole(picked: seq<Item>, remaining: seq<Item>, rounds: nat, items: seq<Item>) {
    forall item ::
      multiset(picked)[item] + multiset(remaining)[item] == rounds * multiset(items)[item] &&
      multiset(remaining)[item] <= multiset(items)[item]
  }

  /** The runs of a shuffled phase are of the items last picked, in their order; the last one may be about to start. */
  ghost predicate PickedRuns(c: Config, s: State) {
    s.pc != Start && InPhase(c, s) && c.phases[s.phase].Shuffled? ==>
      s.first <= |s.runs| &&
      var from := |s.picked| - (|s.runs| - s.first) - (if s.pc.Spawn? then 1 else 0);
      0 <= from && (s.pc.Spawn? ==> s.picked[|s.picked| - 1] == s.pc.item) &&
      forall i :: s.first <= i < |s.runs| ==> s.runs[i].item == s.picked[from + (i - s.first)]
  }

  ghost predicate MayAddRun(s: State) {
    s.pc == Clients || s.pc == Increment || s.pc.Spawn?
  }

  /** In a shuffled phase with a limit: what was scheduled so far, and the run that may be next. */
  ghost predicate ShuffledBound(c: Config, s: State) {
    s.pc != Start && InPhase(c, s) && c.phases[s.phase].Shuffled? && c.maxRuns >= 0 ==>
      (|s.runs| > s.first ==> s.first < c.maxRuns && |s.runs| <= c.maxRuns + c.clients + s.left) &&
      (MayAddRun(s) ==> s.first < c.maxRuns && |s.runs| + 1 <= c.maxRuns + c.clients + s.left)
  }

  /** While an ordered phase runs, every run of it that has ended has left its result. */
  ghost predicate OrderedRecorded(c: Config, s: State) {
    s.pc != Start && InPhase(c, s) && c.phases[s.phase].Ordered? && s.bench != Over ==>
      CountAt(s.runs, Ended) <= s.first + |ResultsOf(s.results, s.runs, c.phases[s.phase].item)|
  }

  ghost predicate OrderedBound(c: Config, s: State) {
    s.pc != Start && InPhase(c, s) && c.phases[s.phase].Ordered? && c.maxRuns >= 0 ==>
      (|s.runs| > s.first ==> |s.runs| - s.first <= c.maxRuns + c.clients + s.unrecorded) &&
      (MayAddRun(s) ==> |s.runs| + 1 - s.first <= c.maxRuns + c.clients + s.unrecorded)
  }

  /** A loop that ends while the benchmark still runs has come to its limit. */
  ghost predicate EndedByLimit(c: Config, s: State) {
    s.pc == SetDone && s.bench == Running ==> InPhase(c, s) && !BelowLimit(c, s)
  }

  /** After a warm-up has cleared its results, what is kept of its item comes from the runs caught then. */
  ghost predicate OnlyCaughtLeak(c: Config, s: State) {
    (s.pc == SetDone || s.pc == Wait) && InPhase(c, s) && c.phases[s.phase].Warmup? ==>
      forall i :: i in s.caught <==> HasStage(s, i, Passed) || Kept(s, i, c.phases[s.phase].item)
  }

  /** The result of run `i` is kept, and is one of `item`. */
  ghost predicate Kept(s: State, i: int, item: Item) {
    0 <= i < |s.runs| && i in s.results && s.runs[i].item == item
  }

  ghost predicate Inv(c: Config, s: State) {
    PhaseValid(c, s) && ClientsCounted(s) && ClientsBounded(c, s) && FinishedCounted(s) && RunsInPhase(c, s) &&
    RunsOfItem(c, s) && BenchInPhase(c, s) && ResultsOnce(s) && PeaksReached(s) && RoundsWhole(c, s) &&
    PickedRuns(c, s) && ShuffledBound(c, s) && OrderedRecorded(c, s) && OrderedBound(c, s) && EndedByLimit(c, s) &&
    OnlyCaughtLeak(c, s)
  }
}

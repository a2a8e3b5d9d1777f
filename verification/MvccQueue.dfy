/** What every interleaving at all keeps: the logical delete and the queue of chunks for the physical delete. */
module MvccQueue {
  import opened Basics
  import opened Mvcc

  ghost predicate OnlyCleaner(s: State, t: nat) {
    forall t' :: t' in s.txns && s.txns[t'].job.Cleaner? ==> t' == t
  }

  /** The chunk of a logical delete: not the last one, and stamped once. */
  ghost predicate JobOk(s: State, t: nat)
    requires t in s.txns && s.txns[t].job.Cleaner?
  {
    var x := s.txns[t];
    && x.job.chunk + 1 < |s.slots| && OnlyCleaner(s, t)
    && (x.phase.Committed? ==> 0 < x.phase.cid)
    && match x.job.stage {
         case Stamped => Queueable(s, x.job.chunk) && x.job.chunk !in s.log
         case Queued => true
         case _ => IsPresent(s, x.job.chunk) && s.slots[x.job.chunk].cleanup == 0
       }
  }

  ghost predicate JobsOk(s: State) {
    forall t :: t in s.txns && s.txns[t].job.Cleaner? ==> JobOk(s, t)
  }

  ghost predicate Queueable(s: State, c: nat) {
    IsPresent(s, c) && s.slots[c].cleanup != 0
  }

  ghost predicate QueuedOk(s: State) {
    forall c :: c in s.queue ==> c in s.log && Queueable(s, c)
  }

  ghost predicate LoggedOk(s: State) {
    forall c :: c in s.log ==> c < |s.slots| && (s.slots[c].Removed? || Queueable(s, c))
  }

  ghost predicate FrontCleared(s: State) {
    s.physical.Cleared? ==> |s.queue| > 0 && s.queue[0] == s.physical.chunk
  }

  ghost predicate Orderly(s: State) {
    JobsOk(s) && QueuedOk(s) && LoggedOk(s) && FrontCleared(s) && Distinct(s.queue) && Distinct(s.log)
  }

  // ---------------------------------------------------------------- the steps

  lemma JobIsOk(s: State, t: nat)
    requires JobsOk(s) && t in s.txns && s.txns[t].job.Cleaner?
    ensures JobOk(s, t)
  {
  }

  lemma KeepEnqueue(s: State, t: nat)
    requires Orderly(s) && Enabled(s, Enqueue(t))
    ensures Orderly(Apply(s, Enqueue(t)))
  {
    JobIsOk(s, t);
    var c, s' := s.txns[t].job.chunk, Apply(s, Enqueue(t));
    assert c !in s.log && c !in s.queue;
    assert forall x :: x in s'.queue ==> x in s.queue || x == c;
    assert forall x :: x in s'.log ==> x in s.log || x == c;
    assert c in s'.log && forall x :: x in s.log ==> x in s'.log;
    assert s'.txns.Keys == s.txns.Keys;
  }

  lemma KeepStamp(s: State, t: nat)
    requires Orderly(s) && Enabled(s, Stamp(t))
    ensures Orderly(Apply(s, Stamp(t)))
  {
    JobIsOk(s, t);
    var s' := Apply(s, Stamp(t));
    assert s.txns[t].job.chunk !in s.log;
    assert s'.queue == s.queue && s'.log == s.log;
  }

  lemma KeepRemove(s: State)
    requires Orderly(s) && Enabled(s, RemoveChunk)
    ensures Orderly(Apply(s, RemoveChunk))
  {
    var c, s' := s.queue[0], Apply(s, RemoveChunk);
    assert c in s.queue;
    assert forall x :: x in s'.queue ==> x in s.queue && x != c;
    forall t | t in s'.txns && s'.txns[t].job.Cleaner? ensures JobOk(s', t) {
      assert JobOk(s, t);
    }
  }

  /** The other steps leave the queue alone, and the slots of chunks that are stamped or gone. */
  ghost predicate QueueUntouched(s: State, s': State) {
    && s'.queue == s.queue && s'.log == s.log && |s.slots| <= |s'.slots|
    && (s'.physical == s.physical || (s'.physical.Cleared? && |s.queue| > 0 && s.queue[0] == s'.physical.chunk))
    && forall c :: 0 <= c < |s.slots| ==> SlotUntouched(s.slots[c], s'.slots[c])
  }

  predicate SlotUntouched(a: Slot, b: Slot) {
    match a case Removed => b == a case Present(_, cleanup) => b.Present? && b.cleanup == cleanup
  }

  /** The steps that the queue and its chunks are about. */
  predicate OfQueue(step: Step) {
    step.Enqueue? || step.Stamp? || step.RemoveChunk? || step.Stop?
  }

  lemma StepsOffQueue(s: State, step: Step)
    requires Enabled(s, step) && !OfQueue(step)
    ensures QueueUntouched(s, Apply(s, step))
  {
  }

  /** What such a step leaves of a logical delete. */
  lemma JobsOffQueue(s: State, step: Step, t: nat)
    requires Enabled(s, step) && !OfQueue(step) && JobsOk(s) && IsCleaner(Apply(s, step), t)
    ensures JobOk(Apply(s, step), t)
  {
    var s' := Apply(s, step);
    StepsOffQueue(s, step);
    if IsCleaner(s, t) {
      assert JobOk(s, t);
      assert s'.txns[t].job.chunk == s.txns[t].job.chunk;
    }
  }

  /** Every step, in whatever order the steps are taken. */
  lemma KeepOrderly(s: State, step: Step)
    requires Orderly(s) && Enabled(s, step)
    ensures Orderly(Apply(s, step))
  {
    var s' := Apply(s, step);
    if step.Enqueue? {
      KeepEnqueue(s, step.t);
    } else if step.Stamp? {
      KeepStamp(s, step.t);
    } else if step.RemoveChunk? {
      KeepRemove(s);
    } else if !step.Stop? {
      StepsOffQueue(s, step);
      forall t | IsCleaner(s', t) ensures JobOk(s', t) {
        JobsOffQueue(s, step, t);
      }
    }
  }

  // ---------------------------------------------------------------- whole runs

  ghost predicate CanRun(s: State, steps: seq<Step>)
    decreases |steps|
  {
    |steps| == 0 || (Enabled(s, steps[0]) && CanRun(Apply(s, steps[0]), steps[1..]))
  }

  /** The state at the end of a run. */
  ghost function Run(s: State, steps: seq<Step>): State
    requires CanRun(s, steps)
    decreases |steps|
  {
    if |steps| == 0 then s else Run(Apply(s, steps[0]), steps[1..])
  }

  /** A table just loaded: no transactions, nothing deleted (INITIAL_COMMIT_ID and INITIAL_TRANSACTION_ID are 1). */
  ghost predicate Initial(s: State) {
    && s.txns == map[] && s.nextTid == 1 && s.last == s.issued == 1
    && s.queue == [] && s.log == [] && s.physical.Idle? && s.cleaned == map[]
    && (forall c :: 0 <= c < |s.slots| ==> s.slots[c].Present? && s.slots[c].cleanup == 0)
    && (forall r :: r in s.rows <==> r.chunk < |s.slots| && r.offset < s.slots[r.chunk].size)
    && (forall r :: r in s.rows ==> s.rows[r].begin <= 1 && s.rows[r].end == MAX_COMMIT_ID && s.rows[r].tid == 0)
  }

  lemma {:induction false} RunKeepsOrderly(s: State, steps: seq<Step>)
    requires Orderly(s) && CanRun(s, steps)
    ensures Orderly(Run(s, steps))
    decreases |steps|
  {
    if |steps| != 0 {
      KeepOrderly(s, steps[0]);
      RunKeepsOrderly(Apply(s, steps[0]), steps[1..]);
    }
  }

  /**
   Over every run from a loaded table no chunk enters the physical delete queue twice, and every chunk
   in the queue exists and carries a cleanup commit id.
   */
  lemma EnqueuedOnce(s: State, steps: seq<Step>)
    requires Initial(s) && CanRun(s, steps)
    ensures Distinct(Run(s, steps).log)
    ensures forall c :: c in Run(s, steps).queue ==> c in Run(s, steps).log && Queueable(Run(s, steps), c)
  {
    RunKeepsOrderly(s, steps);
  }

  /**
   The assertions of both loops hold at every step of every run: the chunk of a logical delete exists
   and is not the last one until it is stamped, it is stamped for the first time, it is stamped when it
   is queued, and the chunk that is removed exists and is stamped.
   */
  lemma AssertionsHold(s: State, steps: seq<Step>, step: Step)
    requires Initial(s) && CanRun(s, steps) && Enabled(Run(s, steps), step)
    ensures var s' := Run(s, steps);
      match step {
        case ValidateChunk(t) => var c := s'.txns[t].job.chunk; c + 1 < |s'.slots| && IsPresent(s', c)
        case Stamp(t) => var c := s'.txns[t].job.chunk; IsPresent(s', c) && s'.slots[c].cleanup == 0
        case Enqueue(t) => Queueable(s', s'.txns[t].job.chunk)
        case RemoveChunk => Queueable(s', s'.physical.chunk) && s'.queue[0] == s'.physical.chunk
        case _ => true
      }
  {
    RunKeepsOrderly(s, steps);
    var s' := Run(s, steps);
    if step.ValidateChunk? || step.Stamp? || step.Enqueue? {
      assert JobOk(s', step.t);
    } else if step.RemoveChunk? {
      assert s'.queue[0] in s'.queue;
    }
  }
}

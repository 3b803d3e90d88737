/**
 Stopping a handler.  Once `running` is clear in memory and no producer is inside
 log_impl, the consumer exits after a bounded number of steps; what it has delivered by
 then is everything accepted, exactly when it had not already failed the last peek of a
 drain pass with a record outstanding.
 */
module Shutdown {
  import opened AsyncHandler
  import opened AsyncInvariant
  import opened WakeUp
  import opened RingFifo

  /** Stopped, with the producers finished: what `destroy` asks of its callers. */
  predicate Quiet(s: State) {
    !s.running && AllIdle(s)
  }

  /** The consumer has left its last drain pass and, with `running` clear, will not peek again. */
  predicate PastDraining(c: Config, pc: ConsumerPc) {
    pc in {FinalFlush, Exited} || (!c.repeek && pc in {IdleFlush, CheckStop})
  }

  ghost predicate NoCalls(steps: seq<Step>) {
    forall i :: 0 <= i < |steps| ==> !steps[i].Call?
  }

  // ------------------------------------------------------------------ termination

  function ConsumerRank(pc: ConsumerPc, behind: bool): nat {
    match pc
    case Exited => 0
    case FinalFlush => 1
    case FinalPeek => if behind then 10 else 2
    case CheckStop => if behind then 11 else 3
    case IdleFlush => if behind then 12 else 4
    case Consume => 5
    case Format => 6
    case Drain => 7
    case Unlock => 8
    case ClearSleeping => 10
    case RunCheck => 11
    case RePeek => 12
    case SetSleeping => 13
    case Waking => 13
    case Lock => 14
    case Parked => 14
    case WaitEnter => 15
  }

  function DestroyerRank(pc: DestroyerPc): nat {
    match pc
    case NotStarted => 6
    case Storing => 5
    case Stopped => 4
    case Broadcasting => 3
    case Unlocking => 2
    case Joining => 1
    case Done => 0
  }

  /** Records outstanding first, then program points, then buffered stores. */
  function Measure(s: State): nat
    requires s.consumer.freed <= s.consumer.tail <= s.head
  {
    20 * (s.head - s.consumer.tail)
    + ConsumerRank(s.consumer.pc, s.consumer.tail < s.head)
    + DestroyerRank(s.destroyer)
    + (s.consumer.tail - s.consumer.freed)
    + if s.consumer.zeroPending then 1 else 0
  }

  lemma QuietStep(c: Config, s: State, step: Step)
    requires Drains(c) && Inv(c, s) && Quiet(s) && Enabled(c, s, step) && !step.Call?
    ensures !ByProducer(step)
    ensures Quiet(Apply(c, s, step)) && Inv(c, Apply(c, s, step))
    ensures Apply(c, s, step).head == s.head && Apply(c, s, step).claims == s.claims
  {
    StepOk(c, s, step);
    NoStoresPending(c, s);
    IdleProducersWait(c, s, step);
    if ByDestroyer(step) {
      DestroyerKeepsQuiet(c, s, step);
    } else {
      ConsumerKeepsQuiet(c, s, step);
    }
  }

  lemma IdleProducersWait(c: Config, s: State, step: Step)
    requires WellFormed(c, s) && AllIdle(s) && Enabled(c, s, step) && !step.Call?
    requires forall p: nat | p < |s.producers| :: s.producers[p].visible == s.producers[p].issued
    ensures !ByProducer(step)
  {
  }

  lemma DestroyerKeepsQuiet(c: Config, s: State, step: Step)
    requires WellFormed(c, s) && Quiet(s) && Enabled(c, s, step) && ByDestroyer(step)
    ensures Quiet(Apply(c, s, step))
    ensures Apply(c, s, step).head == s.head && Apply(c, s, step).claims == s.claims
  {
  }

  lemma ConsumerKeepsQuiet(c: Config, s: State, step: Step)
    requires WellFormed(c, s) && Quiet(s) && Enabled(c, s, step) && !ByProducer(step) && !ByDestroyer(step)
    ensures Quiet(Apply(c, s, step))
    ensures Apply(c, s, step).head == s.head && Apply(c, s, step).claims == s.claims
  {
  }

  lemma NoStoresPending(c: Config, s: State)
    requires Inv(c, s) && AllIdle(s)
    ensures forall p: nat | p < |s.producers| :: s.producers[p].visible == s.producers[p].issued
  {
    forall p: nat | p < |s.producers| ensures s.producers[p].visible == s.producers[p].issued {
      assert ProducerOk(c, s, p);
    }
  }

  /** Stopped, with a peek at tail succeeding exactly while a record is outstanding. */
  predicate Counting(c: Config, s: State) {
    && WellFormed(c, s) && !s.running
    && s.consumer.freed <= s.consumer.tail <= s.head
    && (s.consumer.tail < s.head <==> Ready(c, s, s.consumer.tail))
    && (s.consumer.pc in {Format, Consume} ==> s.consumer.tail < s.head)
  }

  lemma QuietCounts(c: Config, s: State)
    requires Inv(c, s) && Quiet(s)
    ensures Counting(c, s)
  {
    NobodyWritingMeansReady(c, s);
    if Ready(c, s, s.consumer.tail) {
      ReadyIsClaimed(c, s);
    }
  }

  lemma MeasureOfDestroyer(c: Config, s: State, step: Step)
    requires Counting(c, s) && Enabled(c, s, step) && ByDestroyer(step)
    ensures Measure(Apply(c, s, step)) < Measure(s)
  {
  }

  lemma MeasureOfConsumer(c: Config, s: State, step: Step)
    requires Counting(c, s) && Enabled(c, s, step) && !ByProducer(step) && !ByDestroyer(step)
    requires var t := Apply(c, s, step); t.consumer.freed <= t.consumer.tail <= t.head
    ensures Measure(Apply(c, s, step)) < Measure(s)
  {
  }

  lemma MeasureDecreases(c: Config, s: State, step: Step)
    requires Drains(c) && Inv(c, s) && Quiet(s) && Enabled(c, s, step) && !step.Call?
    ensures Inv(c, Apply(c, s, step)) && Measure(Apply(c, s, step)) < Measure(s)
  {
    QuietStep(c, s, step);
    QuietCounts(c, s);
    if ByDestroyer(step) {
      MeasureOfDestroyer(c, s, step);
    } else {
      MeasureOfConsumer(c, s, step);
    }
  }

  /** However the threads are scheduled, a quiet handler runs for at most Measure(s) steps. */
  lemma {:induction false} QuietRunBounded(c: Config, s: State, steps: seq<Step>, t: State)
    requires Drains(c) && Inv(c, s) && Quiet(s) && Run(c, s, steps, t) && NoCalls(steps)
    ensures Inv(c, t) && Quiet(t) && t.claims == s.claims
    ensures |steps| + Measure(t) <= Measure(s)
    decreases |steps|
  {
    if steps != [] {
      MeasureDecreases(c, s, steps[0]);
      QuietStep(c, s, steps[0]);
      QuietRunBounded(c, Apply(c, s, steps[0]), steps[1..], t);
    }
  }

  /** In numbers: at most 20 steps for each record outstanding, one for each free still
      buffered, and 22 more. */
  lemma QuietRunShort(c: Config, s: State, steps: seq<Step>, t: State)
    requires Drains(c) && Inv(c, s) && Quiet(s) && Run(c, s, steps, t) && NoCalls(steps)
    ensures |steps| <= 20 * (s.head - s.consumer.tail) + (s.consumer.tail - s.consumer.freed) + 22
  {
    QuietRunBounded(c, s, steps, t);
    MeasureInNumbers(s);
  }

  lemma MeasureInNumbers(s: State)
    requires s.consumer.freed <= s.consumer.tail <= s.head
    ensures Measure(s) <= 20 * (s.head - s.consumer.tail) + (s.consumer.tail - s.consumer.freed) + 22
  {
  }

  /** Who can hold the mutex of a quiet handler. */
  lemma QuietHolders(c: Config, s: State)
    requires Inv(c, s) && Quiet(s)
    ensures s.consumer.pc in {Lock, Waking} ==> s.mutex == Nobody || s.destroyer in {Broadcasting, Unlocking}
    ensures s.consumer.pc == Parked ==> s.destroyer == Broadcasting || (s.destroyer == Stopped && s.mutex == Nobody)
  {
  }

  /** ... and it does not stop early: until the consumer has exited some step that is
      neither a new call nor a spurious wake-up is enabled. */
  lemma QuietProgress(c: Config, s: State) returns (step: Step)
    requires Drains(c) && Inv(c, s) && Quiet(s) && s.consumer.pc != Exited
    ensures Enabled(c, s, step) && !step.Call? && !step.CSpurious?
  {
    QuietHolders(c, s);
    if s.consumer.pc in {SetSleeping, Lock, Waking, Parked} {
      step := StepWhenHeldUp(c, s);
    } else {
      step := NextOfConsumer(c, s);
    }
  }

  /** Where the consumer waits for nobody. */
  lemma NextOfConsumer(c: Config, s: State) returns (step: Step)
    requires WellFormed(c, s) && s.consumer.pc !in {SetSleeping, Lock, Waking, Parked, Exited}
    ensures Enabled(c, s, step) && !step.Call? && !step.CSpurious?
  {
    match s.consumer.pc
    case Drain => step := CPeek;
    case Format => step := CFormat;
    case Consume => step := CConsume;
    case IdleFlush => step := CIdleFlush;
    case CheckStop => step := CReadRunning;
    case FinalPeek => step := CFinalPeek;
    case FinalFlush => step := CFinalFlush;
    case RePeek => step := CRePeek;
    case RunCheck => step := CRunCheck;
    case WaitEnter => step := CWait;
    case ClearSleeping => step := CClear;
    case Unlock => step := CUnlock;
  }

  /** Where it waits for its store buffer, for the mutex or for the broadcast. */
  lemma StepWhenHeldUp(c: Config, s: State) returns (step: Step)
    requires WellFormed(c, s) && s.consumer.freed <= s.consumer.tail
    requires s.consumer.pc in {SetSleeping, Lock, Waking, Parked}
    requires s.consumer.pc in {Lock, Waking} ==> s.mutex == Nobody || s.destroyer in {Broadcasting, Unlocking}
    requires s.consumer.pc == Parked ==> s.destroyer == Broadcasting || (s.destroyer == Stopped && s.mutex == Nobody)
    ensures Enabled(c, s, step) && !step.Call? && !step.CSpurious?
  {
    if s.consumer.pc == SetSleeping {
      step := if s.consumer.zeroPending then FlushZero
              else if s.consumer.freed < s.consumer.tail then FlushFree else CSetSleeping;
    } else if s.consumer.pc == Parked {
      step := if s.destroyer == Stopped then DLock else DBroadcast;
    } else if s.mutex == Nobody {
      step := if s.consumer.pc == Lock then CLock else CRelock;
    } else {
      step := if s.destroyer == Broadcasting then DBroadcast else DUnlock;
    }
  }

  // ------------------------------------------------------------- what is delivered

  /** The consumer will not come back for the records outstanding. */
  predicate LeavesRecords(c: Config, s: State) {
    PastDraining(c, s.consumer.pc) && s.consumer.tail < s.head
  }

  lemma LeavingIsStable(c: Config, s: State, step: Step)
    requires Drains(c) && Inv(c, s) && Quiet(s) && Enabled(c, s, step) && !step.Call?
    ensures LeavesRecords(c, Apply(c, s, step)) <==> LeavesRecords(c, s)
  {
    QuietStep(c, s, step);
    NobodyWritingMeansReady(c, s);
  }

  lemma {:induction false} LeavingAlongRun(c: Config, s: State, steps: seq<Step>, t: State)
    requires Drains(c) && Inv(c, s) && Quiet(s) && Run(c, s, steps, t) && NoCalls(steps)
    ensures LeavesRecords(c, t) <==> LeavesRecords(c, s)
    decreases |steps|
  {
    if steps != [] {
      LeavingIsStable(c, s, steps[0]);
      QuietStep(c, s, steps[0]);
      LeavingAlongRun(c, Apply(c, s, steps[0]), steps[1..], t);
    }
  }

  /** At exit everything accepted has been delivered if and only if, when the handler
      became quiet, the consumer was not past its last drain pass with a record outstanding. */
  lemma ShutdownExact(c: Config, s: State, steps: seq<Step>, t: State)
    requires Drains(c) && Inv(c, s) && Quiet(s) && Run(c, s, steps, t) && NoCalls(steps)
    requires t.consumer.pc == Exited
    ensures t.claims == s.claims && t.consumer.tail <= |t.claims|
    ensures t.delivered == Records(c, t)[..t.consumer.tail]
    ensures t.delivered == Records(c, t) <==> !(PastDraining(c, s.consumer.pc) && s.consumer.tail < s.head)
  {
    QuietRunBounded(c, s, steps, t);
    LeavingAlongRun(c, s, steps, t);
    if t.consumer.tail == t.head {
      assert Records(c, t)[..t.consumer.tail] == Records(c, t);
    } else {
      assert |t.delivered| < |Records(c, t)|;
    }
  }

  /** The variant that peeks once more after seeing running == 0 loses nothing: it is enough
      that the producers are finished when the clearing of `running` reaches memory. */
  lemma RepeekDeliversAll(c: Config, s: State, steps: seq<Step>, t: State)
    requires Drains(c) && c.repeek && Inv(c, s)
    requires AllIdle(s) && Enabled(c, s, FlushStop)
    requires Run(c, Apply(c, s, FlushStop), steps, t) && NoCalls(steps)
    requires t.consumer.pc == Exited
    ensures t.claims == s.claims && t.delivered == Records(c, t)
  {
    StepOk(c, s, FlushStop);
    ShutdownExact(c, Apply(c, s, FlushStop), steps, t);
  }

  // -------------------------------------------------- the last drain peek, in any run

  /** What is known about the drain peek that ended the last drain pass. */
  predicate SnapOk(c: Config, s: State) {
    && (s.consumer.pc == FinalPeek ==> c.repeek)
    && (s.consumer.pc in {IdleFlush, CheckStop, FinalFlush, Exited} && !c.repeek ==>
          && s.consumer.tail <= s.snap.head <= s.head
          && (s.snap.allReady <==> s.consumer.tail == s.snap.head))
  }

  lemma SnapProducerStepOk(c: Config, s: State, step: Step)
    requires WellFormed(c, s) && SnapOk(c, s) && Enabled(c, s, step) && ByProducer(step)
    ensures SnapOk(c, Apply(c, s, step))
  {
  }

  lemma SnapDestroyerStepOk(c: Config, s: State, step: Step)
    requires WellFormed(c, s) && SnapOk(c, s) && Enabled(c, s, step) && ByDestroyer(step)
    ensures SnapOk(c, Apply(c, s, step))
  {
  }

  /** The failing peek takes the snapshot. */
  lemma SnapPeekOk(c: Config, s: State)
    requires WellFormed(c, s) && s.consumer.tail <= s.head && SnapOk(c, s) && Enabled(c, s, CPeek)
    ensures SnapOk(c, Apply(c, s, CPeek))
  {
    if s.consumer.tail < s.head && AllReady(c, s) {
      assert Ready(c, s, s.consumer.tail);
    }
  }

  lemma SnapConsumerStepOk(c: Config, s: State, step: Step)
    requires WellFormed(c, s) && SnapOk(c, s) && Enabled(c, s, step)
    requires !ByProducer(step) && !ByDestroyer(step) && !step.CPeek?
    ensures SnapOk(c, Apply(c, s, step))
  {
  }

  lemma SnapStepOk(c: Config, s: State, step: Step)
    requires Drains(c) && Inv(c, s) && SnapOk(c, s) && Enabled(c, s, step)
    ensures SnapOk(c, Apply(c, s, step))
  {
    if ByProducer(step) {
      SnapProducerStepOk(c, s, step);
    } else if ByDestroyer(step) {
      SnapDestroyerStepOk(c, s, step);
    } else if step.CPeek? {
      SnapPeekOk(c, s);
    } else {
      SnapConsumerStepOk(c, s, step);
    }
  }

  lemma {:induction false} SnapRunOk(c: Config, s: State, steps: seq<Step>, t: State)
    requires Drains(c) && Inv(c, s) && SnapOk(c, s) && Run(c, s, steps, t)
    ensures Inv(c, t) && SnapOk(c, t)
    decreases |steps|
  {
    if steps != [] {
      StepOk(c, s, steps[0]);
      SnapStepOk(c, s, steps[0]);
      SnapRunOk(c, Apply(c, s, steps[0]), steps[1..], t);
    }
  }

  /** With no assumption on the producers: an exited consumer has delivered the claims below
      its tail, and these are all claims exactly when at its last drain peek every claim ever
      made had been made and published. */
  lemma ExitDeliversBelowTail(c: Config, t: State)
    requires Drains(c) && !c.repeek && c.n >= 2 && Reachable(c, t) && t.consumer.pc == Exited
    ensures |t.claims| >= t.consumer.tail && t.delivered == Records(c, t)[..t.consumer.tail]
    ensures t.delivered == Records(c, t) <==> t.snap.head == t.head && t.snap.allReady
  {
    var s, steps :| Init(c, s) && Run(c, s, steps, t);
    InitOk(c, s);
    SnapRunOk(c, s, steps, t);
    if t.consumer.tail == t.head {
      assert Records(c, t)[..t.consumer.tail] == Records(c, t);
    } else {
      assert |t.delivered| < |Records(c, t)|;
    }
  }
}

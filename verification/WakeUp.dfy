/**
 No lost wake-up.  Whenever the consumer is parked although the slot at its tail is
 ready, the producer that published that slot is still on its way to the signal;
 whenever it is parked although the handler is stopped, the destroyer is still on its
 way to the broadcast.
 */
module WakeUp {
  import opened AsyncHandler
  import opened AsyncInvariant

  predicate AllIdle(s: State) {
    forall p :: 0 <= p < |s.producers| ==> s.producers[p].pc == Idle
  }

  /** Steps left until the producer has signalled. */
  function StepsToSignal(pc: ProducerPc): nat {
    match pc
    case Writing => 5
    case Fence => 4
    case LoadSleeping => 3
    case WakeLock => 2
    case WakeSignal => 1
    case _ => 0
  }

  /** Parked for good is impossible: with nobody left to signal there is nothing to do. */
  lemma ParkedOnlyWhenIdle(c: Config, s: State)
    requires Drains(c) && c.n >= 2 && Reachable(c, s)
    requires s.consumer.pc == Parked
    requires AllIdle(s) && s.destroyer !in {Stopped, Broadcasting}
    ensures WellFormed(c, s) && !Ready(c, s, s.consumer.tail) && s.running
    ensures s.consumer.tail == s.head == |s.claims| == |s.delivered|
  {
    ReachableOk(c, s);
    NobodyWritingMeansReady(c, s);
  }

  /** The producer that has to wake a parked consumer, and what it will find. */
  lemma WakerExists(c: Config, s: State) returns (p: nat)
    requires Drains(c) && Inv(c, s)
    requires GoingToSleep(s) && Ready(c, s, s.consumer.tail)
    ensures MustWake(s, p) && s.sleeping && s.consumer.tail < |s.claims|
    ensures s.claims[s.consumer.tail].who == p
    ensures s.producers[p].visible == s.producers[p].issued == Stores(s.producers[p].rec)
  {
    p := s.claims[s.consumer.tail].who;
    assert ProducerOk(c, s, p);
  }

  /** The consumer is awake, or still parked on the same ready slot with the same waker. */
  predicate DutyKept(c: Config, s: State, t: State, p: nat)
    requires WellFormed(c, t)
  {
    || t.consumer.pc == Waking
    || (&& t.consumer.pc == Parked && t.consumer.tail == s.consumer.tail && Ready(c, t, t.consumer.tail)
        && MustWake(t, p) && p < |s.producers|
        && StepsToSignal(t.producers[p].pc) <= StepsToSignal(s.producers[p].pc))
  }

  lemma DutyByOtherProducer(c: Config, s: State, step: Step, p: nat)
    requires WellFormed(c, s) && Enabled(c, s, step) && ByProducer(step) && step.p != p
    requires s.consumer.pc == Parked && Ready(c, s, s.consumer.tail) && MustWake(s, p)
    requires step.FlushStore? ==> Ready(c, Apply(c, s, step), s.consumer.tail)
    ensures DutyKept(c, s, Apply(c, s, step), p)
  {
  }

  lemma DutyByItself(c: Config, s: State, step: Step, p: nat)
    requires WellFormed(c, s) && Enabled(c, s, step) && ByProducer(step) && step.p == p
    requires s.consumer.pc == Parked && Ready(c, s, s.consumer.tail) && MustWake(s, p) && s.sleeping
    requires s.producers[p].visible == s.producers[p].issued == Stores(s.producers[p].rec)
    ensures var t := Apply(c, s, step);
      && DutyKept(c, s, t, p)
      && (t.consumer.pc == Waking || StepsToSignal(t.producers[p].pc) < StepsToSignal(s.producers[p].pc))
  {
    assert step == NextStep(s, p);
  }

  lemma DutyByOthers(c: Config, s: State, step: Step, p: nat)
    requires WellFormed(c, s) && Enabled(c, s, step) && !ByProducer(step)
    requires s.consumer.pc == Parked && Ready(c, s, s.consumer.tail) && MustWake(s, p)
    requires s.consumer.freed == s.consumer.tail
    ensures DutyKept(c, s, Apply(c, s, step), p)
  {
  }

  /** The duty stays with that producer until it signals: no step of another thread
      takes it back or delays it, each of its own steps brings it closer, and its
      signal un-parks the consumer. */
  lemma DutyPersists(c: Config, s: State, step: Step, p: nat)
    requires Drains(c) && Inv(c, s) && Enabled(c, s, step)
    requires s.consumer.pc == Parked && Ready(c, s, s.consumer.tail) && MustWake(s, p)
    ensures var t := Apply(c, s, step);
      && WellFormed(c, t) && DutyKept(c, s, t, p)
      && (ByProducer(step) && step.p == p ==>
            t.consumer.pc == Waking || StepsToSignal(t.producers[p].pc) < StepsToSignal(s.producers[p].pc))
  {
    if ByProducer(step) {
      var q := WakerExists(c, s);
      OnlyWaker(c, s, p, q);
      if step.FlushStore? {
        FlushStoreTailOk(c, s, step.p);
      }
      if step.p == p {
        DutyByItself(c, s, step, p);
      } else {
        DutyByOtherProducer(c, s, step, p);
      }
    } else {
      DutyByOthers(c, s, step, p);
    }
  }

  /** At most one producer has claimed the slot at tail. */
  lemma OnlyWaker(c: Config, s: State, p: nat, q: nat)
    requires Inv(c, s) && MustWake(s, p) && s.consumer.tail < |s.claims| && s.claims[s.consumer.tail].who == q
    ensures p == q
  {
    assert ProducerOk(c, s, p);
  }

  /** The next step of the producer that must wake the consumer. */
  function NextStep(s: State, p: nat): Step
    requires MustWake(s, p)
  {
    match s.producers[p].pc
    case Writing => AddLogged(p)
    case Fence => DoFence(p)
    case LoadSleeping => ReadSleeping(p)
    case WakeLock => LockToWake(p)
    case WakeSignal => Signal(p)
  }

  /** The duty is never blocked for good: the producer's next step is enabled, unless it
      waits for a mutex whose holder can move, and then wakes the consumer or unlocks. */
  lemma DutyNotBlocked(c: Config, s: State, p: nat) returns (step: Step)
    requires Drains(c) && Inv(c, s)
    requires s.consumer.pc == Parked && Ready(c, s, s.consumer.tail) && MustWake(s, p)
    ensures Enabled(c, s, step) && Continues(step)
    ensures step == NextStep(s, p)
         || Apply(c, s, step).consumer.pc == Waking
         || (s.producers[p].pc == WakeLock && s.mutex != Nobody && Apply(c, s, step).mutex == Nobody)
  {
    assert ProducerOk(c, s, p);
    if s.producers[p].pc == WakeLock && s.mutex != Nobody {
      step := HolderMoves(c, s);
    } else {
      step := NextStep(s, p);
    }
  }

  lemma HolderMoves(c: Config, s: State) returns (step: Step)
    requires Inv(c, s) && s.consumer.pc == Parked && s.mutex != Nobody
    ensures Enabled(c, s, step) && Continues(step)
    ensures var t := Apply(c, s, step);
      t.consumer.pc == Waking || (t.consumer == s.consumer && t.mutex == Nobody && t.running == s.running)
  {
    if s.mutex.TheProducer? {
      step := if s.producers[s.mutex.p].pc == WakeSignal then Signal(s.mutex.p) else UnlockAfterWake(s.mutex.p);
    } else {
      assert s.mutex == TheDestroyer;
      step := if s.destroyer == Broadcasting then DBroadcast else DUnlock;
    }
  }

  /** The step continues what some thread is already doing: it is no new call, no new stop
      and no spurious wake-up. */
  predicate Continues(step: Step) {
    !step.Call? && !step.DStart? && !step.CSpurious?
  }

  ghost predicate UnderWay(steps: seq<Step>) {
    forall i :: 0 <= i < |steps| ==> Continues(steps[i])
  }

  lemma OneMoreStep(c: Config, s: State, step: Step, steps: seq<Step>, t: State)
    requires WellFormed(c, s) && Enabled(c, s, step) && Continues(step)
    requires Run(c, Apply(c, s, step), steps, t) && UnderWay(steps)
    ensures Run(c, s, [step] + steps, t) && UnderWay([step] + steps)
  {
    RunCons(c, s, step, steps, t);
  }

  /** From every reachable state with a parked consumer and something to do, finitely
      many steps of threads already under way, none of them spurious, wake it. */
  lemma WakeRun(c: Config, s: State) returns (steps: seq<Step>, t: State)
    requires Drains(c) && Inv(c, s)
    requires s.consumer.pc == Parked && (Ready(c, s, s.consumer.tail) || !s.running)
    ensures Run(c, s, steps, t) && t.consumer.pc == Waking
    ensures |steps| <= 6
    ensures UnderWay(steps)
  {
    if Ready(c, s, s.consumer.tail) {
      var p := WakerExists(c, s);
      steps, t := WakeRunBy(c, s, p);
    } else {
      steps, t := WakeRunByDestroyer(c, s);
    }
  }

  /** Steps until the signal, one more while somebody else has the mutex. */
  function WakeCost(s: State, p: nat): nat
    requires p < |s.producers|
  {
    StepsToSignal(s.producers[p].pc) + if s.mutex != Nobody && s.producers[p].pc != WakeSignal then 1 else 0
  }

  lemma DutyStep(c: Config, s: State, p: nat) returns (step: Step)
    requires Drains(c) && Inv(c, s)
    requires s.consumer.pc == Parked && Ready(c, s, s.consumer.tail) && MustWake(s, p)
    ensures Enabled(c, s, step) && Continues(step)
    ensures Inv(c, Apply(c, s, step))
    ensures var t := Apply(c, s, step);
      t.consumer.pc == Waking
      || (t.consumer.pc == Parked && Ready(c, t, t.consumer.tail) && MustWake(t, p) && WakeCost(t, p) < WakeCost(s, p))
  {
    step := DutyNotBlocked(c, s, p);
    StepOk(c, s, step);
    DutyPersists(c, s, step, p);
    if step == NextStep(s, p) {
      NextStepKeepsMutex(c, s, p);
    }
  }

  lemma {:induction false} WakeRunBy(c: Config, s: State, p: nat) returns (steps: seq<Step>, t: State)
    requires Drains(c) && Inv(c, s)
    requires s.consumer.pc == Parked && Ready(c, s, s.consumer.tail) && MustWake(s, p)
    ensures Run(c, s, steps, t) && t.consumer.pc == Waking
    ensures |steps| <= WakeCost(s, p)
    ensures UnderWay(steps)
    decreases WakeCost(s, p)
  {
    var step := DutyStep(c, s, p);
    var u := Apply(c, s, step);
    if u.consumer.pc == Waking {
      steps, t := [], u;
    } else {
      steps, t := WakeRunBy(c, u, p);
    }
    OneMoreStep(c, s, step, steps, t);
    steps := [step] + steps;
  }

  lemma NextStepKeepsMutex(c: Config, s: State, p: nat)
    requires WellFormed(c, s) && MustWake(s, p) && Enabled(c, s, NextStep(s, p))
    ensures s.mutex != Apply(c, s, NextStep(s, p)).mutex ==> s.producers[p].pc == WakeLock && s.mutex == Nobody
  {
  }

  /** Steps until the broadcast. */
  function StopCost(s: State): nat {
    if s.destroyer == Broadcasting then 1 else if s.mutex == Nobody then 2 else 3
  }

  /** Stopping wakes the consumer: the destroyer, or whoever holds the mutex, can move. */
  lemma StopStep(c: Config, s: State) returns (step: Step)
    requires Drains(c) && Inv(c, s) && s.consumer.pc == Parked && !s.running
    ensures Enabled(c, s, step) && Continues(step)
    ensures Inv(c, Apply(c, s, step))
    ensures var t := Apply(c, s, step);
      t.consumer.pc == Waking || (t.consumer.pc == Parked && !t.running && StopCost(t) < StopCost(s))
  {
    if s.destroyer == Broadcasting {
      step := DBroadcast;
    } else if s.mutex == Nobody {
      step := DLock;
    } else {
      step := HolderMoves(c, s);
    }
    StepOk(c, s, step);
  }

  lemma {:induction false} WakeRunByDestroyer(c: Config, s: State) returns (steps: seq<Step>, t: State)
    requires Drains(c) && Inv(c, s)
    requires s.consumer.pc == Parked && !s.running
    ensures Run(c, s, steps, t) && t.consumer.pc == Waking
    ensures |steps| <= StopCost(s) <= 3
    ensures UnderWay(steps)
    decreases StopCost(s)
  {
    var step := StopStep(c, s);
    var u := Apply(c, s, step);
    if u.consumer.pc == Waking {
      steps, t := [], u;
    } else {
      steps, t := WakeRunByDestroyer(c, u);
    }
    OneMoreStep(c, s, step, steps, t);
    steps := [step] + steps;
  }

  // ------------------------------------------------------------ signals only if needed

  /** From its store of 1, under the lock, to its store of 0. */
  predicate MayBeWaiting(pc: ConsumerPc) {
    pc in {RePeek, RunCheck, WaitEnter, Parked, Waking, ClearSleeping}
  }

  /** sleeping is 1 in memory exactly while the consumer may be waiting and, after that,
      until its store of 0 arrives. */
  predicate FlagOk(s: State) {
    && (s.sleeping <==> MayBeWaiting(s.consumer.pc) || s.consumer.zeroPending)
    && !(MayBeWaiting(s.consumer.pc) && s.consumer.zeroPending)
  }

  lemma FlagByProducer(c: Config, s: State, step: Step)
    requires WellFormed(c, s) && FlagOk(s) && Enabled(c, s, step) && ByProducer(step)
    ensures FlagOk(Apply(c, s, step))
  {
  }

  lemma FlagByDestroyer(c: Config, s: State, step: Step)
    requires WellFormed(c, s) && FlagOk(s) && Enabled(c, s, step) && ByDestroyer(step)
    ensures FlagOk(Apply(c, s, step))
  {
  }

  lemma FlagByConsumer(c: Config, s: State, step: Step)
    requires WellFormed(c, s) && FlagOk(s) && Enabled(c, s, step) && !ByProducer(step) && !ByDestroyer(step)
    ensures FlagOk(Apply(c, s, step))
  {
  }

  lemma {:induction false} FlagAlongRun(c: Config, s: State, steps: seq<Step>, t: State)
    requires FlagOk(s) && Run(c, s, steps, t)
    ensures FlagOk(t)
    decreases |steps|
  {
    if steps != [] {
      if ByProducer(steps[0]) {
        FlagByProducer(c, s, steps[0]);
      } else if ByDestroyer(steps[0]) {
        FlagByDestroyer(c, s, steps[0]);
      } else {
        FlagByConsumer(c, s, steps[0]);
      }
      FlagAlongRun(c, Apply(c, s, steps[0]), steps[1..], t);
    }
  }

  /** In every reachable state of every variant the flag says whether the consumer may be
      waiting; so while it is busy a producer goes home without touching the mutex. */
  lemma FlagExact(c: Config, t: State)
    requires Reachable(c, t)
    ensures t.sleeping <==>
              || t.consumer.pc in {RePeek, RunCheck, WaitEnter, Parked, Waking, ClearSleeping}
              || t.consumer.zeroPending
    ensures forall p: nat | WellFormed(c, t) && Enabled(c, t, ReadSleeping(p)) ::
              ProducerAt(Apply(c, t, ReadSleeping(p)), p, if t.sleeping then WakeLock else Idle)
    ensures t.consumer.pc in {Drain, Format, Consume, IdleFlush} && !t.consumer.zeroPending ==> !t.sleeping
  {
    var s, steps :| Init(c, s) && Run(c, s, steps, t);
    FlagAlongRun(c, s, steps, t);
  }
}

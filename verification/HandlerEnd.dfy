/**
 The end of a handler: what the return of `destroy` guarantees, what calls that come too
 late can still do, and the last drain peek as a point of the run.
 */
module HandlerEnd {
  import opened AsyncHandler
  import opened AsyncInvariant
  import opened AsyncCounting
  import opened WakeUp
  import opened RingFifo
  import opened Shutdown

  // ------------------------------------------------------------ destroy has returned

  /** Once destroy is past its join the consumer is gone, with nothing left in its buffer. */
  predicate JoinOk(s: State) {
    s.destroyer == Done ==>
      s.consumer.pc == Exited && s.consumer.freed == s.consumer.tail && !s.consumer.zeroPending
  }

  lemma JoinByProducer(c: Config, s: State, step: Step)
    requires WellFormed(c, s) && JoinOk(s) && Enabled(c, s, step) && ByProducer(step)
    ensures JoinOk(Apply(c, s, step))
  {
  }

  lemma JoinByConsumer(c: Config, s: State, step: Step)
    requires WellFormed(c, s) && JoinOk(s) && Enabled(c, s, step) && !ByProducer(step) && !ByDestroyer(step)
    ensures JoinOk(Apply(c, s, step))
  {
  }

  lemma JoinByDestroyer(c: Config, s: State, step: Step)
    requires WellFormed(c, s) && JoinOk(s) && Enabled(c, s, step) && ByDestroyer(step)
    ensures JoinOk(Apply(c, s, step))
  {
  }

  lemma {:induction false} JoinAlongRun(c: Config, s: State, steps: seq<Step>, t: State)
    requires JoinOk(s) && Run(c, s, steps, t)
    ensures JoinOk(t)
    decreases |steps|
  {
    if steps != [] {
      if ByProducer(steps[0]) {
        JoinByProducer(c, s, steps[0]);
      } else if ByDestroyer(steps[0]) {
        JoinByDestroyer(c, s, steps[0]);
      } else {
        JoinByConsumer(c, s, steps[0]);
      }
      JoinAlongRun(c, Apply(c, s, steps[0]), steps[1..], t);
    }
  }

  /** destroy returns only after the consumer has exited, in every run of every variant. */
  lemma ReturnsAfterExit(c: Config, t: State)
    requires Reachable(c, t) && t.destroyer == Done
    ensures t.consumer.pc == Exited && t.consumer.freed == t.consumer.tail && !t.consumer.zeroPending
  {
    var s, steps :| Init(c, s) && Run(c, s, steps, t);
    JoinAlongRun(c, s, steps, t);
  }

  /** What has been delivered when destroy has returned: the claims below tail, and all of
      them exactly if the last drain peek left none behind. */
  lemma ReturnedDelivers(c: Config, t: State)
    requires Drains(c) && !c.repeek && c.n >= 2 && Reachable(c, t) && t.destroyer == Done
    ensures |t.delivered| == t.consumer.tail <= |t.claims|
    ensures forall i | 0 <= i < |t.delivered| :: DeliveredAs(c.name, t.claims[i].rec, t.delivered[i])
    ensures |t.delivered| == |t.claims| <==> t.snap.head == t.head && t.snap.allReady
  {
    ReturnsAfterExit(c, t);
    DeliveredIsPrefix(c, t);
    ExitDeliversBelowTail(c, t);
    if |t.delivered| == |t.claims| {
      assert Records(c, t)[..Taken(t)] == Records(c, t);
    }
  }

  /** With destroy returned and no producer inside log_impl nobody will touch the ring again:
      the only step possible is a new call. */
  lemma RingIsFree(c: Config, t: State, step: Step)
    requires Drains(c) && c.n >= 2 && Reachable(c, t) && t.destroyer == Done && AllIdle(t)
    requires WellFormed(c, t) && Enabled(c, t, step)
    ensures step.Call? && !t.running
  {
    ReachableOk(c, t);
    ReturnsAfterExit(c, t);
    NoStoresPending(c, t);
    if !step.Call? {
      IdleProducersWait(c, t, step);
    }
  }

  /** And it does return: after a stop, with the producers finished, some step that is
      neither a new call nor spurious is enabled until destroy has returned.  As every quiet
      run is bounded, each ends there. */
  lemma DestroyProgress(c: Config, s: State) returns (step: Step)
    requires Drains(c) && Inv(c, s) && Quiet(s) && s.destroyer != Done
    ensures Enabled(c, s, step) && !step.Call? && !step.CSpurious?
  {
    if s.consumer.pc != Exited {
      step := QuietProgress(c, s);
    } else {
      ExitedHolders(c, s);
      step := LastSteps(c, s);
    }
  }

  lemma ExitedHolders(c: Config, s: State)
    requires Inv(c, s) && Quiet(s) && s.consumer.pc == Exited && s.destroyer != Done
    ensures s.destroyer in {Stopped, Broadcasting, Unlocking, Joining}
    ensures s.destroyer == Stopped ==> s.mutex == Nobody
  {
  }

  lemma LastSteps(c: Config, s: State) returns (step: Step)
    requires WellFormed(c, s) && s.consumer.pc == Exited && s.consumer.freed <= s.consumer.tail
    requires s.destroyer in {Stopped, Broadcasting, Unlocking, Joining}
    requires s.destroyer == Stopped ==> s.mutex == Nobody
    ensures Enabled(c, s, step) && !step.Call? && !step.CSpurious?
  {
    match s.destroyer
    case Stopped => step := DLock;
    case Broadcasting => step := DBroadcast;
    case Unlocking => step := DUnlock;
    case Joining =>
      step := if s.consumer.zeroPending then FlushZero
              else if s.consumer.freed < s.consumer.tail then FlushFree else DJoin;
  }

  // ----------------------------------------------------------------- calls too late

  /** Past the check of `running` and not yet claimed, dropped or gone. */
  const PAST_CHECK: set<ProducerPc> := {LoadHead, LoadStamp, TryClaim}

  /** A call that finds running == 0 returns at once: nothing is claimed, counted or stored. */
  lemma LateCallReturns(c: Config, s: State, p: nat)
    requires WellFormed(c, s) && Enabled(c, s, ReadRunning(p)) && !s.running
    ensures Apply(c, s, ReadRunning(p)) == s.(producers := s.producers[p := s.producers[p].(pc := Idle)])
  {
  }

  /** Claims still to be expected. */
  predicate ClaimsBounded(s: State, t: State) {
    && !t.running && t.admitted == s.admitted
    && |s.claims| <= |t.claims|
    && |t.claims| + CountAt(t.producers, PAST_CHECK) <= |s.claims| + CountAt(s.producers, PAST_CHECK)
  }

  lemma LateProducerStep(c: Config, s: State, step: Step)
    requires WellFormed(c, s) && !s.running && Enabled(c, s, step) && ByProducer(step)
    ensures ClaimsBounded(s, Apply(c, s, step))
  {
    var t := Apply(c, s, step);
    assert t.producers == s.producers[step.p := t.producers[step.p]];
    CountAtUpdate(s.producers, step.p, t.producers[step.p], PAST_CHECK);
  }

  lemma LateDestroyerStep(c: Config, s: State, step: Step)
    requires WellFormed(c, s) && !s.running && Enabled(c, s, step) && ByDestroyer(step)
    ensures ClaimsBounded(s, Apply(c, s, step))
  {
  }

  lemma LateConsumerStep(c: Config, s: State, step: Step)
    requires WellFormed(c, s) && !s.running && Enabled(c, s, step) && !ByProducer(step) && !ByDestroyer(step)
    ensures ClaimsBounded(s, Apply(c, s, step))
  {
  }

  /** Once running == 0 is in memory no further call gets past the check, and at most the
      producers that were past it then can still claim, once each. */
  lemma {:induction false} LateCallsClaimNothing(c: Config, s: State, steps: seq<Step>, t: State)
    requires WellFormed(c, s) && !s.running && Run(c, s, steps, t)
    ensures !t.running && t.admitted == s.admitted
    ensures |s.claims| <= |t.claims| <= |s.claims| + CountAt(s.producers, PAST_CHECK)
    ensures ClaimsBounded(s, t)
    decreases |steps|
  {
    if steps != [] {
      if ByProducer(steps[0]) {
        LateProducerStep(c, s, steps[0]);
      } else if ByDestroyer(steps[0]) {
        LateDestroyerStep(c, s, steps[0]);
      } else {
        LateConsumerStep(c, s, steps[0]);
      }
      LateCallsClaimNothing(c, Apply(c, s, steps[0]), steps[1..], t);
    }
  }

  // ----------------------------------------------------------- what nobody can prevent

  /** The environment is left free: an idle producer may call with any record, a weak
      compare-and-swap may fail for no reason, a parked consumer may wake for no reason, and
      every buffered store may reach memory at any time. */
  lemma EnvironmentIsFree(c: Config, s: State, p: nat, rec: Record)
    requires WellFormed(c, s)
    ensures ProducerAt(s, p, Idle) && s.producers[p].visible == s.producers[p].issued ==> Enabled(c, s, Call(p, rec))
    ensures ProducerAt(s, p, TryClaim) ==> Enabled(c, s, CasFails(p))
    ensures p < |s.producers| && s.producers[p].visible < s.producers[p].issued <= Stores(s.producers[p].rec) ==>
              Enabled(c, s, FlushStore(p))
    ensures s.consumer.pc == Parked ==> Enabled(c, s, CSpurious)
    ensures s.consumer.zeroPending ==> Enabled(c, s, FlushZero)
    ensures s.consumer.freed < s.consumer.tail && !s.consumer.zeroPending ==> Enabled(c, s, FlushFree)
    ensures s.destroyer == Storing ==> Enabled(c, s, FlushStop)
    ensures s.destroyer == NotStarted ==> Enabled(c, s, DStart)
  {
  }

  // --------------------------------------------------------------- the last drain peek

  ghost predicate NoPeek(steps: seq<Step>) {
    forall i :: 0 <= i < |steps| ==> !steps[i].CPeek?
  }

  lemma {:induction false} LastPeek(steps: seq<Step>) returns (k: nat)
    requires !NoPeek(steps)
    ensures k < |steps| && steps[k].CPeek? && NoPeek(steps[k + 1..])
    decreases |steps|
  {
    if NoPeek(steps[1..]) {
      k := 0;
      assert forall i | 1 <= i < |steps| :: steps[i] == steps[1..][i - 1];
    } else {
      k := LastPeek(steps[1..]);
      assert steps[1..][k + 1..] == steps[k + 2..];
      k := k + 1;
    }
  }

  lemma {:induction false} SplitRun(c: Config, s: State, steps: seq<Step>, k: nat, t: State) returns (u: State)
    requires Run(c, s, steps, t) && k <= |steps|
    ensures Run(c, s, steps[..k], u) && Run(c, u, steps[k..], t)
    decreases k
  {
    if k == 0 {
      u := s;
      assert steps[0..] == steps;
    } else {
      u := SplitRun(c, Apply(c, s, steps[0]), steps[1..], k - 1, t);
      assert steps[..k] == [steps[0]] + steps[1..][..k - 1] && steps[1..][k - 1..] == steps[k..];
    }
  }

  predicate InDrain(pc: ConsumerPc) {
    pc in {Drain, Format, Consume}
  }

  lemma ProducerKeepsPass(c: Config, s: State, step: Step)
    requires WellFormed(c, s) && Enabled(c, s, step) && ByProducer(step)
    ensures var t := Apply(c, s, step); t.snap == s.snap && (InDrain(s.consumer.pc) ==> InDrain(t.consumer.pc))
  {
  }

  lemma OthersKeepPass(c: Config, s: State, step: Step)
    requires WellFormed(c, s) && Enabled(c, s, step) && !ByProducer(step) && !step.CPeek?
    ensures var t := Apply(c, s, step); t.snap == s.snap && (InDrain(s.consumer.pc) ==> InDrain(t.consumer.pc))
  {
  }

  /** Only a peek ends a drain pass. */
  lemma {:induction false} PassGoesOn(c: Config, s: State, steps: seq<Step>, t: State)
    requires Run(c, s, steps, t) && NoPeek(steps)
    ensures t.snap == s.snap && (InDrain(s.consumer.pc) ==> InDrain(t.consumer.pc))
    decreases |steps|
  {
    if steps != [] {
      if ByProducer(steps[0]) {
        ProducerKeepsPass(c, s, steps[0]);
      } else {
        OthersKeepPass(c, s, steps[0]);
      }
      PassGoesOn(c, Apply(c, s, steps[0]), steps[1..], t);
    }
  }

  /** A run that peeks at all, split at its last peek. */
  lemma SplitAtLastPeek(c: Config, s: State, steps: seq<Step>, t: State) returns (a: seq<Step>, u: State, b: seq<Step>)
    requires Run(c, s, steps, t) && !NoPeek(steps)
    ensures steps == a + [CPeek] + b && NoPeek(b) && Run(c, s, a, u)
    ensures WellFormed(c, u) && Enabled(c, u, CPeek) && Run(c, Apply(c, u, CPeek), b, t)
  {
    var k := LastPeek(steps);
    u := SplitRun(c, s, steps, k, t);
    a, b := steps[..k], steps[k + 1..];
    assert steps[k..] == [CPeek] + b;
    assert steps[k..][0] == CPeek && steps[k..][1..] == b;
  }

  lemma ExitNeedsPeek(c: Config, s: State, steps: seq<Step>, t: State)
    requires Init(c, s) && Run(c, s, steps, t) && t.consumer.pc == Exited
    ensures !NoPeek(steps)
  {
    if NoPeek(steps) {
      PassGoesOn(c, s, steps, t);
    }
  }

  /** Every run to an exited consumer has a last drain peek, which fails; and everything ever
      claimed has been delivered if and only if, in the state u of that peek, everything that
      would ever be claimed had been claimed and every outstanding claim was published. */
  lemma ExitExactly(c: Config, s: State, steps: seq<Step>, t: State) returns (a: seq<Step>, u: State, b: seq<Step>)
    requires Drains(c) && !c.repeek && c.n >= 2 && Init(c, s) && Run(c, s, steps, t) && t.consumer.pc == Exited
    ensures steps == a + [CPeek] + b && NoPeek(b) && Run(c, s, a, u)
    ensures WellFormed(c, u) && Enabled(c, u, CPeek) && Run(c, Apply(c, u, CPeek), b, t)
    ensures !Ready(c, u, u.consumer.tail)
    ensures |t.delivered| == |t.claims| <==> |u.claims| == |t.claims| && AllReady(c, u)
  {
    ExitNeedsPeek(c, s, steps, t);
    a, u, b := SplitAtLastPeek(c, s, steps, t);
    PassGoesOn(c, Apply(c, u, CPeek), b, t);
    SnapOfLastPeek(c, u, t);
    BothReachable(c, s, a, u, steps, t);
    CompleteAtExit(c, u, t);
  }

  lemma BothReachable(c: Config, s: State, a: seq<Step>, u: State, steps: seq<Step>, t: State)
    requires Init(c, s) && Run(c, s, a, u) && Run(c, s, steps, t)
    ensures Reachable(c, u) && Reachable(c, t)
  {
  }

  lemma CompleteAtExit(c: Config, u: State, t: State)
    requires Drains(c) && !c.repeek && c.n >= 2 && Reachable(c, u) && Reachable(c, t) && t.consumer.pc == Exited
    requires WellFormed(c, u) && t.snap == Snapshot(u.head, AllReady(c, u))
    ensures |t.delivered| == |t.claims| <==> |u.claims| == |t.claims| && AllReady(c, u)
  {
    DeliveredIsPrefix(c, u);
    DeliveredIsPrefix(c, t);
    ExitDeliversBelowTail(c, t);
    if |t.delivered| == |t.claims| {
      assert Records(c, t)[..Taken(t)] == Records(c, t);
    }
  }

  lemma SnapOfLastPeek(c: Config, u: State, t: State)
    requires WellFormed(c, u) && Enabled(c, u, CPeek) && t.consumer.pc == Exited
    requires var v := Apply(c, u, CPeek); t.snap == v.snap && (InDrain(v.consumer.pc) ==> InDrain(t.consumer.pc))
    ensures !Ready(c, u, u.consumer.tail) && t.snap == Snapshot(u.head, AllReady(c, u))
  {
  }
}

/** Counters of the handler: `nr_log_calls`, `dropped` and the cursor account for every call. */
module AsyncCounting {
  import opened AsyncHandler
  import opened AsyncInvariant

  function CountAt(ps: seq<Producer>, pcs: set<ProducerPc>): nat {
    if ps == [] then 0 else CountAt(ps[1..], pcs) + if ps[0].pc in pcs then 1 else 0
  }

  /** Admitted calls that have neither been counted as logged nor as dropped. */
  const IN_FLIGHT: set<ProducerPc> := {LoadHead, LoadStamp, TryClaim, Writing, CountDropped}

  /** Claimed and not yet counted as logged. */
  const UNCOUNTED: set<ProducerPc> := {Writing}

  lemma {:induction false} CountAtUpdate(ps: seq<Producer>, p: nat, x: Producer, pcs: set<ProducerPc>)
    requires p < |ps|
    ensures CountAt(ps[p := x], pcs) + (if ps[p].pc in pcs then 1 else 0)
         == CountAt(ps, pcs) + (if x.pc in pcs then 1 else 0)
  {
    if p == 0 {
      assert ps[p := x][1..] == ps[1..];
    } else {
      assert ps[p := x][1..] == ps[1..][p - 1 := x];
      CountAtUpdate(ps[1..], p - 1, x, pcs);
    }
  }

  lemma {:induction false} CountAtNone(ps: seq<Producer>, pcs: set<ProducerPc>)
    requires forall p :: 0 <= p < |ps| ==> ps[p].pc !in pcs
    ensures CountAt(ps, pcs) == 0
  {
    if ps != [] {
      CountAtNone(ps[1..], pcs);
    }
  }

  predicate CountsOk(s: State) {
    && s.admitted == s.dropped + s.logged + CountAt(s.producers, IN_FLIGHT)
    && s.head == s.logged + CountAt(s.producers, UNCOUNTED)
  }

  lemma CountsMove(s: State, t: State, p: nat)
    requires CountsOk(s) && p < |s.producers| == |t.producers|
    requires t.producers == s.producers[p := t.producers[p]]
    requires var x, y := s.producers[p].pc, t.producers[p].pc;
      && t.admitted - s.admitted == t.dropped - s.dropped + t.logged - s.logged
           + (if y in IN_FLIGHT then 1 else 0) - (if x in IN_FLIGHT then 1 else 0)
      && t.head - s.head == t.logged - s.logged
           + (if y in UNCOUNTED then 1 else 0) - (if x in UNCOUNTED then 1 else 0)
    ensures CountsOk(t)
  {
    CountAtUpdate(s.producers, p, t.producers[p], IN_FLIGHT);
    CountAtUpdate(s.producers, p, t.producers[p], UNCOUNTED);
  }

  lemma DestroyerKeepsCounts(c: Config, s: State, step: Step)
    requires WellFormed(c, s) && Enabled(c, s, step) && ByDestroyer(step)
    ensures var t := Apply(c, s, step);
      && t.producers == s.producers && t.admitted == s.admitted && t.dropped == s.dropped
      && t.logged == s.logged && t.head == s.head
  {
  }

  lemma ConsumerKeepsCounts(c: Config, s: State, step: Step)
    requires WellFormed(c, s) && Enabled(c, s, step) && !ByProducer(step) && !ByDestroyer(step)
    ensures var t := Apply(c, s, step);
      && t.producers == s.producers && t.admitted == s.admitted && t.dropped == s.dropped
      && t.logged == s.logged && t.head == s.head
  {
  }

  lemma CountsStepOk(c: Config, s: State, step: Step)
    requires WellFormed(c, s) && CountsOk(s) && Enabled(c, s, step)
    ensures CountsOk(Apply(c, s, step))
  {
    if ByProducer(step) {
      CountsMove(s, Apply(c, s, step), step.p);
    } else if ByDestroyer(step) {
      DestroyerKeepsCounts(c, s, step);
    } else {
      ConsumerKeepsCounts(c, s, step);
    }
  }

  lemma {:induction false} CountsRunOk(c: Config, s: State, steps: seq<Step>, t: State)
    requires WellFormed(c, s) && CountsOk(s) && Run(c, s, steps, t)
    ensures CountsOk(t)
    decreases |steps|
  {
    if steps != [] {
      CountsStepOk(c, s, steps[0]);
      CountsRunOk(c, Apply(c, s, steps[0]), steps[1..], t);
    }
  }

  /** In every reachable state the counters account for every admitted call. */
  lemma CountersExact(c: Config, t: State)
    requires Reachable(c, t)
    ensures t.admitted == t.dropped + t.logged + CountAt(t.producers, IN_FLIGHT)
    ensures t.head == t.logged + CountAt(t.producers, UNCOUNTED)
  {
    var s, steps :| Init(c, s) && Run(c, s, steps, t);
    CountAtNone(s.producers, IN_FLIGHT);
    CountAtNone(s.producers, UNCOUNTED);
    CountsRunOk(c, s, steps, t);
  }

  /** With no producer inside log_impl: calls = dropped + logged, and what is logged
      but not yet taken is the occupancy of the ring, at most its size. */
  lemma CountersAtRest(c: Config, t: State)
    requires Drains(c) && c.n >= 2 && Reachable(c, t)
    requires forall p :: 0 <= p < |t.producers| ==> t.producers[p].pc == Idle
    ensures t.admitted == t.dropped + t.logged
    ensures t.logged == t.head == |t.claims|
    ensures t.consumer.tail <= t.logged <= t.consumer.tail + c.n
  {
    CountersExact(c, t);
    ReachableOk(c, t);
    CountAtNone(t.producers, IN_FLIGHT);
    CountAtNone(t.producers, UNCOUNTED);
  }
}

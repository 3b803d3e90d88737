/**
 The ring under any number of producers and any interleaving is a bounded FIFO
 queue: records come out once each, whole, in the order of the winning
 compare-and-swaps, and a producer is told "full" only when the ring is full.
 */
module RingFifo {
  import opened AsyncHandler
  import opened AsyncInvariant
  import opened Modulo

  // ------------------------------------------------------- abstract bounded queue

  datatype Fifo = Fifo(queue: seq<Message>, out: seq<Message>)

  datatype FifoStep = Put(m: Message) | Take | Skip

  predicate FifoEnabled(n: nat, f: Fifo, a: FifoStep) {
    match a
    case Put(_) => |f.queue| < n
    case Take => f.queue != []
    case Skip => true
  }

  function FifoApply(n: nat, f: Fifo, a: FifoStep): Fifo
    requires FifoEnabled(n, f, a)
  {
    match a
    case Put(m) => Fifo(f.queue + [m], f.out)
    case Take => Fifo(f.queue[1..], f.out + [f.queue[0]])
    case Skip => f
  }

  ghost predicate FifoRun(n: nat, f: Fifo, labels: seq<FifoStep>, g: Fifo)
    decreases |labels|
  {
    if labels == [] then f == g
    else FifoEnabled(n, f, labels[0]) && FifoRun(n, FifoApply(n, f, labels[0]), labels[1..], g)
  }

  // ------------------------------------------------------------------ refinement

  function Records(c: Config, s: State): (r: seq<Message>)
    ensures |r| == |s.claims|
  {
    seq(|s.claims|, i requires 0 <= i < |s.claims| => Accepted(c, s.claims[i].rec))
  }

  function Abs(c: Config, s: State): Fifo
    requires Taken(s) <= |s.claims|
  {
    Fifo(Records(c, s)[Taken(s)..], s.delivered)
  }

  /** The queue operation a step stands for. */
  function Label(c: Config, s: State, step: Step): FifoStep {
    match step
    case CasWins(p) => if p < |s.producers| then Put(Accepted(c, s.producers[p].rec)) else Skip
    case CFormat => Take
    case _ => Skip
  }

  lemma EnteringKeepsQueue(c: Config, s: State, step: Step)
    requires WellFormed(c, s) && Enabled(c, s, step) && Entering(step)
    ensures var t := Apply(c, s, step);
      t.claims == s.claims && t.delivered == s.delivered && t.consumer == s.consumer
  {
  }

  lemma SignallingKeepsQueue(c: Config, s: State, step: Step)
    requires WellFormed(c, s) && Enabled(c, s, step) && ByProducer(step) && !Entering(step) && !step.CasWins?
    ensures var t := Apply(c, s, step);
      t.claims == s.claims && t.delivered == s.delivered && Taken(t) == Taken(s)
  {
  }

  lemma OtherStepsKeepQueue(c: Config, s: State, step: Step)
    requires WellFormed(c, s) && Enabled(c, s, step) && !ByProducer(step) && !step.CFormat?
    ensures var t := Apply(c, s, step);
      t.claims == s.claims && t.delivered == s.delivered && Taken(t) == Taken(s)
  {
  }

  lemma StepRefines(c: Config, s: State, step: Step)
    requires Drains(c) && Inv(c, s) && Enabled(c, s, step)
    ensures Inv(c, Apply(c, s, step))
    ensures FifoEnabled(c.n, Abs(c, s), Label(c, s, step))
    ensures Abs(c, Apply(c, s, step)) == FifoApply(c.n, Abs(c, s), Label(c, s, step))
  {
    StepOk(c, s, step);
    if step.CasWins? {
      ClaimPuts(c, s, step.p);
    } else if step.CFormat? {
      FormatTakes(c, s);
    } else if Entering(step) {
      EnteringKeepsQueue(c, s, step);
    } else if ByProducer(step) {
      SignallingKeepsQueue(c, s, step);
    } else {
      OtherStepsKeepQueue(c, s, step);
    }
  }

  lemma ClaimPuts(c: Config, s: State, p: nat)
    requires Inv(c, s) && Enabled(c, s, CasWins(p))
    ensures FifoEnabled(c.n, Abs(c, s), Label(c, s, CasWins(p)))
    ensures Taken(Apply(c, s, CasWins(p))) <= |Apply(c, s, CasWins(p)).claims|
    ensures Abs(c, Apply(c, s, CasWins(p))) == FifoApply(c.n, Abs(c, s), Label(c, s, CasWins(p)))
  {
    assert ProducerOk(c, s, p);
    assert Records(c, Apply(c, s, CasWins(p))) == Records(c, s) + [Accepted(c, s.producers[p].rec)];
  }

  lemma FormatTakes(c: Config, s: State)
    requires Inv(c, s) && Enabled(c, s, CFormat)
    requires Inv(c, Apply(c, s, CFormat))
    ensures FifoEnabled(c.n, Abs(c, s), Take)
    ensures Abs(c, Apply(c, s, CFormat)) == FifoApply(c.n, Abs(c, s), Take)
  {
    var k := Taken(s);
    var t := Apply(c, s, CFormat);
    assert Records(c, s)[k..][0] == Accepted(c, s.claims[k].rec) == t.delivered[k];
    assert t.delivered == s.delivered + [t.delivered[k]];
    assert Records(c, t) == Records(c, s);
  }

  function Labels(c: Config, s: State, steps: seq<Step>): seq<FifoStep>
    decreases |steps|
  {
    if steps == [] || !WellFormed(c, s) || !Enabled(c, s, steps[0]) then []
    else [Label(c, s, steps[0])] + Labels(c, Apply(c, s, steps[0]), steps[1..])
  }

  /** Every run of the threads is a run of the bounded queue. */
  lemma {:induction false} RunRefines(c: Config, s: State, steps: seq<Step>, t: State)
    requires Drains(c) && Inv(c, s) && Run(c, s, steps, t)
    ensures Inv(c, t)
    ensures FifoRun(c.n, Abs(c, s), Labels(c, s, steps), Abs(c, t))
    decreases |steps|
  {
    if steps != [] {
      StepRefines(c, s, steps[0]);
      RunRefines(c, Apply(c, s, steps[0]), steps[1..], t);
      assert Labels(c, s, steps)[1..] == Labels(c, Apply(c, s, steps[0]), steps[1..]);
    }
  }

  /** Exactly once, untorn, cut to 2047 bytes, in claim order. */
  lemma DeliveredIsPrefix(c: Config, t: State)
    requires Drains(c) && c.n >= 2 && Reachable(c, t)
    ensures Taken(t) <= t.head == |t.claims| <= t.consumer.tail + c.n
    ensures t.delivered == Records(c, t)[..Taken(t)] && |t.delivered| == Taken(t)
    ensures forall i | 0 <= i < |t.delivered| :: DeliveredAs(c.name, t.claims[i].rec, t.delivered[i])
  {
    ReachableOk(c, t);
    forall i | 0 <= i < |t.delivered| ensures DeliveredAs(c.name, t.claims[i].rec, t.delivered[i]) {
      AcceptedExactly(c, t.claims[i].rec);
    }
  }

  /** While the consumer works on a slot no other thread's step changes it. */
  lemma SlotStableWhileRead(c: Config, s: State, step: Step)
    requires Drains(c) && Inv(c, s) && Enabled(c, s, step)
    requires s.consumer.pc in {Format, Consume}
    ensures SlotOf(c, Apply(c, s, step), s.consumer.tail) == SlotOf(c, s, s.consumer.tail)
  {
    if step.FlushStore? {
      FlushMissesTail(c, s, step.p);
    } else if step.FlushFree? {
      FreeMissesTail(c, s);
    } else if ByProducer(step) {
      ProducerStepsKeepSlots(c, s, step);
    } else {
      OtherStepsKeepSlots(c, s, step);
    }
  }

  lemma ProducerStepsKeepSlots(c: Config, s: State, step: Step)
    requires WellFormed(c, s) && Enabled(c, s, step) && ByProducer(step) && !step.FlushStore?
    ensures Apply(c, s, step).slots == s.slots
  {
  }

  lemma OtherStepsKeepSlots(c: Config, s: State, step: Step)
    requires WellFormed(c, s) && Enabled(c, s, step) && !ByProducer(step) && !step.FlushFree?
    ensures Apply(c, s, step).slots == s.slots
  {
  }

  lemma FlushMissesTail(c: Config, s: State, p: nat)
    requires Drains(c) && Inv(c, s) && Enabled(c, s, FlushStore(p)) && Ready(c, s, s.consumer.tail)
    requires s.consumer.tail < s.head
    ensures s.producers[p].pos % c.n != s.consumer.tail % c.n
  {
    assert ProducerOk(c, s, p);
    if s.producers[p].pos % c.n == s.consumer.tail % c.n {
      SlotsDistinct(c.n, s.consumer.tail, s.producers[p].pos);
    }
  }

  lemma FreeMissesTail(c: Config, s: State)
    requires RingInv(c, s) && s.consumer.freed < s.consumer.tail < s.head
    ensures s.consumer.freed % c.n != s.consumer.tail % c.n
  {
    if s.consumer.freed % c.n == s.consumer.tail % c.n {
      SlotsDistinct(c.n, s.consumer.tail, s.consumer.freed);
    }
  }

  // ---------------------------------------------------------- verdicts of enqueue

  /** The position of the current window that shares its slot with a stale position. */
  lemma {:induction false} WindowTwin(n: nat, freed: nat, pos: nat) returns (q: nat)
    requires n > 0 && pos < freed + n
    ensures freed <= q < freed + n && pos <= q && q % n == pos % n
    decreases freed + n - pos
  {
    if pos >= freed {
      q := pos;
    } else {
      AddLap(n, pos);
      q := WindowTwin(n, freed, pos + n);
    }
  }

  /** What a stamp tells about the position it was looked up for. */
  lemma StampVerdict(c: Config, s: State, pos: nat)
    requires RingInv(c, s) && pos <= s.head
    ensures SlotOf(c, s, pos).stamp < pos <==> pos == s.head == s.consumer.freed + c.n
    ensures SlotOf(c, s, pos).stamp > pos ==> pos < s.head
  {
    if pos == s.consumer.freed + c.n {
      OwnStampMeansFree(c, s);
    } else {
      var q := WindowTwin(c.n, s.consumer.freed, pos);
      assert InWindow(c, s, q) && StampOk(c, s, q);
      TwinVerdict(c, s, pos, q);
    }
  }

  lemma TwinVerdict(c: Config, s: State, pos: nat, q: nat)
    requires WellFormed(c, s) && StampOk(c, s, q) && q % c.n == pos % c.n && pos <= q
    requires pos <= s.head
    ensures SlotOf(c, s, pos).stamp >= pos
    ensures SlotOf(c, s, pos).stamp > pos && q == pos ==> pos < s.head || pos < s.consumer.tail
    ensures q > pos ==> q >= pos + c.n
  {
    assert SlotOf(c, s, pos) == SlotOf(c, s, q);
    if pos < q < pos + c.n {
      SlotsDistinct(c.n, q, pos);
    }
  }

  /** enqueue gives up exactly when no slot is free at the moment it reads the stamp:
      a stale cursor never makes it give up. */
  lemma FullVerdictExact(c: Config, s: State, p: nat)
    requires Drains(c) && Inv(c, s) && Enabled(c, s, ReadStamp(p))
    ensures Apply(c, s, ReadStamp(p)).producers[p].pc == CountDropped <==>
              s.producers[p].pos == s.head && s.head - s.consumer.freed == c.n
  {
    assert ProducerOk(c, s, p);
    StampVerdict(c, s, s.producers[p].pos);
  }

  /** Lock-freedom: unless the weak compare-and-swap fails spuriously, a producer goes
      round its loop only because another producer has advanced `head` since it loaded it. */
  lemma RetryMeansOthersAdvanced(c: Config, s: State, step: Step)
    requires Drains(c) && Inv(c, s) && Enabled(c, s, step)
    requires step.ReadStamp? || (step.CasFails? && s.head != s.producers[step.p].pos)
    requires Apply(c, s, step).producers[step.p].pc in {LoadHead, LoadStamp}
    ensures s.producers[step.p].pos < s.head
  {
    assert ProducerOk(c, s, step.p);
    StampVerdict(c, s, s.producers[step.p].pos);
  }

  /** With `head` just loaded, by the load itself or by a failed compare-and-swap, and nobody
      else moving, the next look at the stamp settles the call: it is dropped if n slots are
      not free, and otherwise the compare-and-swap that follows succeeds. */
  lemma UndisturbedDecides(c: Config, s: State, step: Step, p: nat)
    requires Drains(c) && Inv(c, s) && Enabled(c, s, step) && step in {ReadHead(p), CasFails(p)}
    ensures WellFormed(c, Apply(c, s, step)) && Enabled(c, Apply(c, s, step), ReadStamp(p))
    ensures var u := Apply(c, Apply(c, s, step), ReadStamp(p));
      && WellFormed(c, u)
      && (if s.head - s.consumer.freed == c.n then Enabled(c, u, AddDropped(p)) else Enabled(c, u, CasWins(p)))
  {
    var t := Apply(c, s, step);
    StepOk(c, s, step);
    StampVerdict(c, t, s.head);
  }
}

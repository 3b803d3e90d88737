/**
 Runs that show what goes wrong.  Where nothing empties the store buffer between the
 stores of a slot and the load of `sleeping`, a published record can stay in the ring with
 the consumer parked and nobody left to wake it.  On TSO proper both the fence of
 `maybe_wake` and the atomic add before it empty the buffer, and either is enough; the
 stuck run needs a machine on which the fence is missing and the add, relaxed in the
 source, lets earlier stores stay behind.  With the loop as it is, on any of these
 machines, a record accepted between the last drain peek and the load of `running` is
 never delivered.  The runs exist for every ring size and every record.
 */
module AsyncWitness {
  import opened AsyncHandler
  import opened WakeUp
  import opened AsyncInvariant

  lemma {:induction false} IssueAll(c: Config, s: State, p: nat) returns (steps: seq<Step>, t: State)
    requires WellFormed(c, s) && ProducerAt(s, p, Writing) && s.producers[p].issued <= Stores(s.producers[p].rec)
    ensures Run(c, s, steps, t)
    ensures t == SetProducer(s, p, s.producers[p].(issued := Stores(s.producers[p].rec)))
    decreases Stores(s.producers[p].rec) - s.producers[p].issued
  {
    if s.producers[p].issued == Stores(s.producers[p].rec) {
      steps, t := [], s;
    } else {
      steps, t := IssueAll(c, Apply(c, s, Issue(p)), p);
      RunCons(c, s, Issue(p), steps, t);
      steps := [Issue(p)] + steps;
    }
  }

  lemma {:induction false} FlushAll(c: Config, s: State, p: nat) returns (steps: seq<Step>, t: State)
    requires WellFormed(c, s) && p < |s.producers|
    requires s.producers[p].visible < s.producers[p].issued == Stores(s.producers[p].rec)
    ensures Run(c, s, steps, t) && WellFormed(c, t)
    ensures t == SetProducer(s, p, s.producers[p].(visible := s.producers[p].issued)).(slots := t.slots)
    ensures Ready(c, t, s.producers[p].pos)
    decreases s.producers[p].issued - s.producers[p].visible
  {
    var u := Apply(c, s, FlushStore(p));
    if u.producers[p].visible == u.producers[p].issued {
      steps, t := [], u;
    } else {
      steps, t := FlushAll(c, u, p);
    }
    RunCons(c, s, FlushStore(p), steps, t);
    steps := [FlushStore(p)] + steps;
  }

  lemma Run1(c: Config, s: State, a: Step)
    requires WellFormed(c, s) && Enabled(c, s, a)
    ensures Run(c, s, [a], Apply(c, s, a))
  {
    RunCons(c, s, a, [], Apply(c, s, a));
    assert [a] + [] == [a];
  }

  lemma Run2(c: Config, s: State, a: Step, b: Step)
    requires WellFormed(c, s) && Enabled(c, s, a)
    requires WellFormed(c, Apply(c, s, a)) && Enabled(c, Apply(c, s, a), b)
    ensures Run(c, s, [a, b], Apply(c, Apply(c, s, a), b))
  {
    Run1(c, Apply(c, s, a), b);
    RunCons(c, s, a, [b], Apply(c, Apply(c, s, a), b));
    assert [a] + [b] == [a, b];
  }

  /** The call up to the verdict on the stamp. */
  lemma LookUpRun(c: Config, s: State, p: nat, rec: Record) returns (steps: seq<Step>, t: State)
    requires WellFormed(c, s) && ProducerAt(s, p, Idle) && s.running
    requires s.producers[p].visible == s.producers[p].issued
    requires SlotOf(c, s, s.head).stamp == s.head
    ensures Run(c, s, steps, t)
    ensures t == SetProducer(s, p, s.producers[p].(pc := TryClaim, rec := rec, pos := s.head))
                   .(admitted := s.admitted + 1)
  {
    var u := SetProducer(s, p, s.producers[p].(pc := LoadHead, rec := rec)).(admitted := s.admitted + 1);
    EnterRun(c, s, p, rec, u);
    FindRun(c, u, p);
    steps := [Call(p, rec), ReadRunning(p)] + [ReadHead(p), ReadStamp(p)];
    t := SetProducer(u, p, u.producers[p].(pc := TryClaim, pos := u.head));
    RunAppend(c, s, [Call(p, rec), ReadRunning(p)], u, [ReadHead(p), ReadStamp(p)], t);
  }

  lemma EnterRun(c: Config, s: State, p: nat, rec: Record, u: State)
    requires WellFormed(c, s) && ProducerAt(s, p, Idle) && s.running
    requires s.producers[p].visible == s.producers[p].issued
    requires u == SetProducer(s, p, s.producers[p].(pc := LoadHead, rec := rec)).(admitted := s.admitted + 1)
    ensures Run(c, s, [Call(p, rec), ReadRunning(p)], u)
  {
    Run2(c, s, Call(p, rec), ReadRunning(p));
    assert u == Apply(c, Apply(c, s, Call(p, rec)), ReadRunning(p));
  }

  lemma FindRun(c: Config, s: State, p: nat)
    requires WellFormed(c, s) && ProducerAt(s, p, LoadHead)
    requires SlotOf(c, s, s.head).stamp == s.head
    ensures Run(c, s, [ReadHead(p), ReadStamp(p)], SetProducer(s, p, s.producers[p].(pc := TryClaim, pos := s.head)))
  {
    Run2(c, s, ReadHead(p), ReadStamp(p));
    assert Apply(c, Apply(c, s, ReadHead(p)), ReadStamp(p))
        == SetProducer(s, p, s.producers[p].(pc := TryClaim, pos := s.head));
  }

  /** A call that claims the next position and has issued, but not yet flushed, its stores. */
  lemma ClaimRun(c: Config, s: State, p: nat, rec: Record) returns (steps: seq<Step>, t: State)
    requires WellFormed(c, s) && ProducerAt(s, p, Idle) && s.running
    requires s.producers[p].visible == s.producers[p].issued
    requires SlotOf(c, s, s.head).stamp == s.head
    ensures Run(c, s, steps, t)
    ensures t == SetProducer(s, p, Producer(Writing, rec, s.head, Stores(rec), 0))
                   .(head := s.head + 1, claims := s.claims + [Claim(rec, p)], admitted := s.admitted + 1)
  {
    var look, u := LookUpRun(c, s, p, rec);
    Run1(c, u, CasWins(p));
    var v := Apply(c, u, CasWins(p));
    RunAppend(c, s, look, u, [CasWins(p)], v);
    var issue;
    issue, t := IssueAll(c, v, p);
    steps := look + [CasWins(p)] + issue;
    RunAppend(c, s, look + [CasWins(p)], v, issue, t);
  }

  /** The rest of the call when the consumer is not seen sleeping. */
  lemma ReturnRun(c: Config, s: State, p: nat) returns (steps: seq<Step>, t: State)
    requires WellFormed(c, s) && ProducerAt(s, p, Writing) && !s.sleeping
    requires s.producers[p].issued == Stores(s.producers[p].rec)
    requires Drains(c) ==> s.producers[p].visible == s.producers[p].issued
    ensures Run(c, s, steps, t)
    ensures t == Goto(s, p, Idle).(logged := s.logged + 1)
  {
    var u := Goto(s, p, LoadSleeping).(logged := s.logged + 1);
    PassFenceRun(c, s, p, u);
    Run1(c, u, ReadSleeping(p));
    t := Apply(c, u, ReadSleeping(p));
    steps := [AddLogged(p), DoFence(p)] + [ReadSleeping(p)];
    RunAppend(c, s, [AddLogged(p), DoFence(p)], u, [ReadSleeping(p)], t);
  }

  lemma PassFenceRun(c: Config, s: State, p: nat, u: State)
    requires WellFormed(c, s) && ProducerAt(s, p, Writing)
    requires s.producers[p].issued == Stores(s.producers[p].rec)
    requires Drains(c) ==> s.producers[p].visible == s.producers[p].issued
    requires u == Goto(s, p, LoadSleeping).(logged := s.logged + 1)
    ensures Run(c, s, [AddLogged(p), DoFence(p)], u)
  {
    Run2(c, s, AddLogged(p), DoFence(p));
    assert u == Apply(c, Apply(c, s, AddLogged(p)), DoFence(p));
  }

  /** A drain pass over an empty ring. */
  lemma EmptyPassRun(c: Config, s: State) returns (steps: seq<Step>, t: State)
    requires WellFormed(c, s) && s.consumer.pc == Drain && !Ready(c, s, s.consumer.tail)
    ensures Run(c, s, steps, t)
    ensures t == CGoto(s, CheckStop).(snap := t.snap)
  {
    Run2(c, s, CPeek, CIdleFlush);
    steps, t := [CPeek, CIdleFlush], Apply(c, Apply(c, s, CPeek), CIdleFlush);
  }

  /** From holding the mutex to sleeping inside cond_wait. */
  lemma ParkRun(c: Config, s: State) returns (steps: seq<Step>, t: State)
    requires WellFormed(c, s) && s.consumer.pc == SetSleeping && !Ready(c, s, s.consumer.tail) && s.running
    requires s.consumer.freed == s.consumer.tail && !s.consumer.zeroPending
    ensures Run(c, s, steps, t)
    ensures t == CGoto(s, Parked).(sleeping := true, mutex := Nobody)
  {
    Run2(c, s, CSetSleeping, CRePeek);
    var u := CGoto(s, RunCheck).(sleeping := true);
    assert u == Apply(c, Apply(c, s, CSetSleeping), CRePeek);
    Run2(c, u, CRunCheck, CWait);
    t := Apply(c, Apply(c, u, CRunCheck), CWait);
    steps := [CSetSleeping, CRePeek] + [CRunCheck, CWait];
    RunAppend(c, s, [CSetSleeping, CRePeek], u, [CRunCheck, CWait], t);
  }

  /** Only a new call, a stop or a spurious wake-up could change anything. */
  ghost predicate Stuck(c: Config, s: State) {
    && WellFormed(c, s)
    && s.consumer.pc == Parked && Ready(c, s, s.consumer.tail)
    && (forall step | Enabled(c, s, step) :: step.Call? || step.DStart? || step.CSpurious?)
  }

  /** Neither the fence nor the add empties the store buffer: a run to a stuck state. */
  lemma UndrainedCanGetStuck(c: Config, s: State, rec: Record) returns (steps: seq<Step>, t: State)
    requires Init(c, s) && |s.producers| == 1 && !Drains(c)
    ensures Run(c, s, steps, t)
    ensures Stuck(c, t) && t.head == 1 && t.delivered == []
  {
    FirstSlotFree(c, s);
    var pass, a := EmptyPassRun(c, s);
    Run2(c, a, CReadRunning, CLock);
    var b := CGoto(a, SetSleeping).(mutex := TheConsumer);
    assert b == Apply(c, Apply(c, a, CReadRunning), CLock);
    var missed;
    missed, t := MissedRun(c, b, rec);
    RunAppend(c, a, [CReadRunning, CLock], b, missed, t);
    RunAppend(c, s, pass, a, [CReadRunning, CLock] + missed, t);
    steps := pass + ([CReadRunning, CLock] + missed);
    NothingElseEnabled(c, t);
  }

  /** The producer reads sleeping == 0 with its stores still buffered; the consumer's peek
      under the mutex misses the record; only then do the stores reach memory. */
  lemma MissedRun(c: Config, s: State, rec: Record) returns (steps: seq<Step>, t: State)
    requires WellFormed(c, s) && !Drains(c) && |s.producers| == 1 && s.producers[0].pc == Idle
    requires s.producers[0].visible == s.producers[0].issued
    requires s.consumer == Consumer(SetSleeping, 0, 0, false) && s.head == 0 && s.running && !s.sleeping
    requires SlotOf(c, s, 0).stamp == 0
    ensures Run(c, s, steps, t) && WellFormed(c, t) && Ready(c, t, 0)
    ensures t.consumer == Consumer(Parked, 0, 0, false) && t.mutex == Nobody && t.destroyer == s.destroyer
    ensures t.producers == [Producer(Idle, rec, 0, Stores(rec), Stores(rec))]
    ensures t.head == 1 && t.delivered == s.delivered
  {
    var sleep, f := UnseenThenPark(c, s, rec);
    var flush;
    flush, t := FlushAll(c, f, 0);
    RunAppend(c, s, sleep, f, flush, t);
    steps := sleep + flush;
  }

  lemma UnseenThenPark(c: Config, s: State, rec: Record) returns (steps: seq<Step>, t: State)
    requires WellFormed(c, s) && !Drains(c) && |s.producers| == 1 && s.producers[0].pc == Idle
    requires s.producers[0].visible == s.producers[0].issued
    requires s.consumer == Consumer(SetSleeping, 0, 0, false) && s.head == 0 && s.running && !s.sleeping
    requires SlotOf(c, s, 0).stamp == 0
    ensures Run(c, s, steps, t) && WellFormed(c, t)
    ensures t.producers == [Producer(Idle, rec, 0, Stores(rec), 0)]
    ensures t.consumer == Consumer(Parked, 0, 0, false) && t.mutex == Nobody && t.destroyer == s.destroyer
    ensures t.head == 1 && t.delivered == s.delivered
  {
    var call, e := UnseenCallRun(c, s, rec);
    var park;
    park, t := ParkRun(c, e);
    RunAppend(c, s, call, e, park, t);
    steps := call + park;
  }

  /** A whole call whose stores are all still buffered when it returns. */
  lemma UnseenCallRun(c: Config, s: State, rec: Record) returns (steps: seq<Step>, t: State)
    requires WellFormed(c, s) && !Drains(c) && |s.producers| == 1 && s.producers[0].pc == Idle
    requires s.producers[0].visible == s.producers[0].issued && s.running && !s.sleeping
    requires SlotOf(c, s, s.head).stamp == s.head
    ensures Run(c, s, steps, t)
    ensures t == s.(producers := [Producer(Idle, rec, s.head, Stores(rec), 0)],
                    head := s.head + 1, logged := s.logged + 1, admitted := s.admitted + 1,
                    claims := s.claims + [Claim(rec, 0)])
  {
    var claim, d := ClaimRun(c, s, 0, rec);
    var back;
    back, t := ReturnRun(c, d, 0);
    RunAppend(c, s, claim, d, back, t);
    steps := claim + back;
  }

  lemma NothingElseEnabled(c: Config, t: State)
    requires WellFormed(c, t) && Ready(c, t, 0)
    requires t.consumer == Consumer(Parked, 0, 0, false) && t.mutex == Nobody && t.destroyer == NotStarted
    requires |t.producers| == 1 && t.producers[0].pc == Idle && t.producers[0].visible == t.producers[0].issued
    ensures Stuck(c, t)
  {
  }

  /** A fresh handler with one thread that may log. */
  function Fresh(c: Config, rec: Record, req: Request): (s: State)
    requires c.n > 0
    ensures Init(c, s) && |s.producers| == 1
  {
    State(seq(c.n, i requires 0 <= i < c.n => Slot(i, req)), 0, false, true, Nobody, [Producer(Idle, rec, 0, 0, 0)],
          Consumer(Drain, 0, 0, false), NotStarted, 0, 0, 0, [], [], Snapshot(0, true))
  }

  /** A state from which only new calls, a stop or luck can wake the consumer is reachable
      exactly if neither the fence nor the add empties the store buffer. */
  lemma StuckExactly(c: Config)
    requires c.n >= 2
    ensures (exists t :: Reachable(c, t) && Stuck(c, t)) <==> !Drains(c)
  {
    if Drains(c) {
      forall t | Reachable(c, t) ensures !Stuck(c, t) {
        ReachableOk(c, t);
        if Stuck(c, t) {
          var p := WakerExists(c, t);
          var step := DutyNotBlocked(c, t, p);
        }
      }
    } else {
      var rec := Record(0, 0, "", []);
      var s := Fresh(c, rec, Request(0, 0, "", "", seq(MSG_MAX, _ => 0)));
      var steps, t := UndrainedCanGetStuck(c, s, rec);
    }
  }

  lemma FirstSlotFree(c: Config, s: State)
    requires Init(c, s)
    ensures SlotOf(c, s, 0).stamp == 0 && !Ready(c, s, 0)
  {
    assert 0 % c.n == 0;
  }

  /** One whole call of log_impl while the consumer is between its drain and its check. */
  lemma LogRun(c: Config, s: State, rec: Record) returns (steps: seq<Step>, t: State)
    requires WellFormed(c, s) && |s.producers| == 1 && s.producers[0].pc == Idle && s.running && !s.sleeping
    requires s.producers[0].visible == s.producers[0].issued
    requires SlotOf(c, s, s.head).stamp == s.head
    ensures Run(c, s, steps, t) && WellFormed(c, t) && Ready(c, t, s.head)
    ensures |t.producers| == 1 && t.producers[0].pc == Idle && t.producers[0].visible == t.producers[0].issued
    ensures t == s.(slots := t.slots, producers := t.producers, head := s.head + 1, logged := s.logged + 1,
                    admitted := s.admitted + 1, claims := s.claims + [Claim(rec, 0)])
  {
    var claim, b := ClaimRun(c, s, 0, rec);
    var flush, d := FlushAll(c, b, 0);
    var back;
    back, t := ReturnRun(c, d, 0);
    RunAppend(c, b, flush, d, back, t);
    RunAppend(c, s, claim, b, flush + back, t);
    steps := claim + (flush + back);
  }

  /** The loop as written: a call that completes before `running` is cleared, accepted and
      counted, whose record the consumer leaves behind when it exits. */
  lemma AcceptedButLost(c: Config, s: State, rec: Record)
      returns (before: seq<Step>, m: State, after: seq<Step>, t: State)
    requires Init(c, s) && |s.producers| == 1 && !c.repeek
    ensures Run(c, s, before, m) && AllIdle(m) && m.logged == 1 && m.destroyer == NotStarted
    ensures Run(c, m, after, t) && t.consumer.pc == Exited
    ensures |t.claims| == 1 && t.dropped == 0 && t.delivered == []
  {
    before, m := MissedByDrainRun(c, s, rec);
    after, t := StopRun(c, m);
  }

  lemma MissedByDrainRun(c: Config, s: State, rec: Record) returns (steps: seq<Step>, t: State)
    requires Init(c, s) && |s.producers| == 1
    ensures Run(c, s, steps, t) && WellFormed(c, t) && AllIdle(t)
    ensures t.consumer.pc == CheckStop && t.destroyer == NotStarted
    ensures t.logged == 1 && |t.claims| == 1 && t.dropped == 0 && t.delivered == []
  {
    FirstSlotFree(c, s);
    steps, t := DrainThenLogRun(c, s, rec);
  }

  lemma DrainThenLogRun(c: Config, s: State, rec: Record) returns (steps: seq<Step>, t: State)
    requires WellFormed(c, s) && |s.producers| == 1 && s.producers[0].pc == Idle && s.running && !s.sleeping
    requires s.producers[0].visible == s.producers[0].issued
    requires SlotOf(c, s, s.head).stamp == s.head && s.consumer.pc == Drain && !Ready(c, s, s.consumer.tail)
    ensures Run(c, s, steps, t) && WellFormed(c, t)
    ensures |t.producers| == 1 && t.producers[0].pc == Idle
    ensures t.consumer.pc == CheckStop && t.destroyer == s.destroyer && t.delivered == s.delivered
    ensures t.logged == s.logged + 1 && |t.claims| == |s.claims| + 1 && t.dropped == s.dropped
  {
    var pass, a := EmptyPassRun(c, s);
    var log;
    log, t := LogRun(c, a, rec);
    RunAppend(c, s, pass, a, log, t);
    steps := pass + log;
  }

  lemma StopRun(c: Config, s: State) returns (steps: seq<Step>, t: State)
    requires WellFormed(c, s) && !c.repeek && s.consumer.pc == CheckStop && s.destroyer == NotStarted
    ensures Run(c, s, steps, t)
    ensures t == CGoto(s, Exited).(running := false, destroyer := Stopped)
  {
    Run2(c, s, DStart, FlushStop);
    var u := s.(running := false, destroyer := Stopped);
    assert u == Apply(c, Apply(c, s, DStart), FlushStop);
    Run2(c, u, CReadRunning, CFinalFlush);
    t := Apply(c, Apply(c, u, CReadRunning), CFinalFlush);
    steps := [DStart, FlushStop] + [CReadRunning, CFinalFlush];
    RunAppend(c, s, [DStart, FlushStop], u, [CReadRunning, CFinalFlush], t);
  }

  /** A ring of one slot is no ring: "ready" and "free for the next lap" are the same stamp,
      so two calls in a row are both accepted although nothing has been consumed. */
  lemma OneSlotOverfills(c: Config, s: State, first: Record, second: Record) returns (steps: seq<Step>, t: State)
    requires Init(c, s) && |s.producers| == 1 && c.n == 1
    ensures Run(c, s, steps, t)
    ensures t.head == 2 > t.consumer.tail + c.n && t.dropped == 0 && t.delivered == []
  {
    FirstSlotFree(c, s);
    var log, a := LogRun(c, s, first);
    assert 1 % c.n == 0 % c.n;
    var again;
    again, t := ClaimRun(c, a, 0, second);
    RunAppend(c, s, log, a, again, t);
    steps := log + again;
  }
}

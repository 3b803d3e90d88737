/** The invariant of the handler's state machine and its preservation by every step. */
module AsyncInvariant {
  import opened AsyncHandler
  import opened Modulo

  /** From the winning compare-and-swap until log_impl returns. */
  predicate Holding(pc: ProducerPc) {
    pc in {Writing, Fence, LoadSleeping, WakeLock, WakeSignal, WakeUnlock}
  }

  predicate PastFence(pc: ProducerPc) {
    pc in {LoadSleeping, WakeLock, WakeSignal, WakeUnlock}
  }

  /** Has loaded `head` into pos and not yet used it up. */
  predicate HasPos(pc: ProducerPc) {
    pc in {LoadStamp, TryClaim, CountDropped} || Holding(pc)
  }

  /** The first v stores of the claim have reached the request. */
  predicate Written(req: Request, rec: Record, name: string, v: nat) {
    && (v > 0 ==> req.level == rec.level)
    && (v > 1 ==> req.line == rec.line)
    && (v > 2 ==> req.file == rec.file)
    && (v > 3 ==> req.handler == name)
    && (forall i :: 0 <= i < Copied(rec) && i < v - 4 ==> req.data[i] == rec.data[i])
    && (v > 4 + Copied(rec) ==> req.data[Copied(rec)] == 0)
  }

  predicate Complete(req: Request, rec: Record, name: string) {
    Written(req, rec, name, Stores(rec))
  }

  // --------------------------------------------------------------------- ring

  /** Position q lies in the window of positions the slots currently stand for. */
  predicate InWindow(c: Config, s: State, q: int) {
    s.consumer.freed <= q < s.consumer.freed + c.n
  }

  /** Some producer has claimed q and its stamp store is not visible yet. */
  predicate BeingWritten(s: State, q: nat) {
    && q < |s.claims|
    && var p := s.claims[q].who;
       p < |s.producers| && Holding(s.producers[p].pc) && s.producers[p].pos == q
       && s.producers[p].visible < Stores(s.producers[p].rec)
  }

  predicate StampOk(c: Config, s: State, q: nat)
    requires WellFormed(c, s)
  {
    var stamp := SlotOf(c, s, q).stamp;
    if q < s.consumer.tail then stamp == q + 1
    else if q < s.head then stamp == q + 1 || (stamp == q && BeingWritten(s, q))
    else stamp == q
  }

  predicate ContentOk(c: Config, s: State, q: nat)
    requires WellFormed(c, s)
  {
    q < s.head && q < |s.claims| && Ready(c, s, q) ==> Complete(SlotOf(c, s, q).req, s.claims[q].rec, c.name)
  }

  ghost predicate RingInv(c: Config, s: State) {
    && WellFormed(c, s) && c.n >= 2
    && |s.claims| == s.head
    && s.consumer.freed <= s.consumer.tail <= s.head <= s.consumer.freed + c.n
    && (forall q: nat | InWindow(c, s, q) :: StampOk(c, s, q) && ContentOk(c, s, q))
    && (s.consumer.pc in {Format, Consume} ==> s.consumer.tail < s.head && Ready(c, s, s.consumer.tail))
  }

  predicate ProducerOk(c: Config, s: State, p: nat)
    requires WellFormed(c, s) && p < |s.producers|
  {
    var me := s.producers[p];
    && (!Holding(me.pc) ==> me.visible == me.issued)
    && (HasPos(me.pc) ==> me.pos <= s.head)
    && (me.pc == TryClaim && me.pos == s.head ==> s.head < s.consumer.freed + c.n)
    && (Holding(me.pc) ==>
          && me.visible <= me.issued <= Stores(me.rec)
          && (me.pc != Writing ==> me.issued == Stores(me.rec))
          && (PastFence(me.pc) || (c.addDrains && me.pc == Fence) ==> me.visible == Stores(me.rec))
          && me.pos < s.head && me.pos < |s.claims| && s.claims[me.pos] == Claim(me.rec, p)
          && (me.visible < Stores(me.rec) ==>
                && s.consumer.tail <= me.pos
                && SlotOf(c, s, me.pos).stamp == me.pos
                && Written(SlotOf(c, s, me.pos).req, me.rec, c.name, me.visible)))
  }

  ghost predicate ProducersOk(c: Config, s: State)
    requires WellFormed(c, s)
  {
    forall p: nat | p < |s.producers| :: ProducerOk(c, s, p)
  }

  // ---------------------------------------------------------------- hand-shake

  predicate ConsumerHolds(pc: ConsumerPc) {
    pc in {SetSleeping, RePeek, RunCheck, WaitEnter, ClearSleeping, Unlock}
  }

  ghost predicate MutexOk(s: State) {
    && (s.mutex == TheConsumer <==> ConsumerHolds(s.consumer.pc))
    && (forall p: nat | p < |s.producers| ::
          s.mutex == TheProducer(p) <==> s.producers[p].pc in {WakeSignal, WakeUnlock})
    && (s.mutex == TheDestroyer <==> s.destroyer in {Broadcasting, Unlocking})
    && (s.mutex.TheProducer? ==> s.mutex.p < |s.producers|)
  }

  predicate SleepingOk(s: State) {
    && (s.consumer.pc in {RePeek, RunCheck, WaitEnter, Parked, Waking, ClearSleeping} ==>
          s.sleeping && !s.consumer.zeroPending && s.consumer.freed == s.consumer.tail)
    && (s.running <==> s.destroyer in {NotStarted, Storing})
    && (s.consumer.pc in {FinalPeek, FinalFlush, Exited} ==> !s.running)
  }

  /** The producer whose claim is the slot at tail, not yet at its signal. */
  predicate MustWake(s: State, p: nat) {
    && p < |s.producers|
    && s.producers[p].pos == s.consumer.tail
    && s.producers[p].pc in {Writing, Fence, LoadSleeping, WakeLock, WakeSignal}
  }

  /** The consumer has failed its peek under the mutex and is on its way to, or inside, cond_wait. */
  predicate GoingToSleep(s: State) {
    s.consumer.pc in {RunCheck, WaitEnter, Parked}
  }

  predicate WakeOk(c: Config, s: State)
    requires WellFormed(c, s)
  {
    && (GoingToSleep(s) && Ready(c, s, s.consumer.tail) ==>
          s.consumer.tail < |s.claims| && MustWake(s, s.claims[s.consumer.tail].who))
    && (s.consumer.pc in {WaitEnter, Parked} && !s.running ==> s.destroyer in {Stopped, Broadcasting})
  }

  // ------------------------------------------------------------------ history

  function Accepted(c: Config, rec: Record): Message {
    Message(rec.level, rec.line, rec.file, c.name, CString(rec.data[..Copied(rec)]))
  }

  /** Number of records handed to the formatter. */
  function Taken(s: State): nat {
    s.consumer.tail + if s.consumer.pc == Consume then 1 else 0
  }

  predicate HistoryOk(c: Config, s: State) {
    && |s.delivered| == Taken(s) <= |s.claims|
    && (forall i :: 0 <= i < Taken(s) ==> s.delivered[i] == Accepted(c, s.claims[i].rec))
  }

  ghost predicate Inv(c: Config, s: State) {
    && RingInv(c, s) && ProducersOk(c, s) && MutexOk(s) && SleepingOk(s) && WakeOk(c, s) && HistoryOk(c, s)
  }

  // ------------------------------------------------------------- preservation

  lemma {:induction false} CStringOfBuffer(d: seq<Byte>, e: seq<Byte>, k: nat)
    requires k < |d| && k <= |e|
    requires d[..k] == e[..k] && d[k] == 0
    ensures CString(d) == CString(e[..k])
  {
    if k > 0 && d[0] != 0 {
      assert d[0] == d[..k][0] == e[..k][0] == e[0];
      assert d[1..][..k - 1] == d[..k][1..] == e[..k][1..] == e[1..][..k - 1];
      CStringOfBuffer(d[1..], e[1..], k - 1);
      assert e[..k][1..] == e[1..][..k - 1];
    } else if k > 0 {
      assert d[0] == d[..k][0] == e[..k][0];
    }
  }

  /** What the consumer reads from a ready slot is the record its claimant was given. */
  lemma ReadsAccepted(c: Config, req: Request, rec: Record)
    requires Complete(req, rec, c.name)
    ensures Read(req) == Accepted(c, rec) && DeliveredAs(c.name, rec, Read(req))
  {
    AcceptedExactly(c, rec);
    var k := Copied(rec);
    assert req.data[..k] == rec.data[..k];
    CStringOfBuffer(req.data, rec.data, k);
  }

  /** What a caller may expect of its data: all bytes before the first NUL, at most 2047. */
  predicate CutText(data: seq<Byte>, text: seq<Byte>) {
    && text <= data && |text| <= 2047 && (forall i :: 0 <= i < |text| ==> text[i] != 0)
    && (|text| == |data| || |text| == 2047 || data[|text|] == 0)
  }

  /** ... and of its whole record. */
  predicate DeliveredAs(name: string, rec: Record, m: Message) {
    m.level == rec.level && m.line == rec.line && m.file == rec.file && m.handler == name && CutText(rec.data, m.text)
  }

  /** In plain words: data without a NUL arrives whole up to 2047 bytes and is cut there
      beyond that; otherwise it ends before its first NUL. */
  lemma CutExactly(data: seq<Byte>, text: seq<Byte>)
    requires CutText(data, text)
    ensures (forall i :: 0 <= i < |data| ==> data[i] != 0) ==> text == if |data| <= 2047 then data else data[..2047]
    ensures forall k: nat | k < |data| && k < 2047 && data[k] == 0 && (forall i :: 0 <= i < k ==> data[i] != 0) ::
              text == data[..k]
  {
    assert text == data[..|text|];
    assert forall i | 0 <= i < |text| :: text[i] == data[i];
  }

  lemma {:induction false} CStringCuts(d: seq<Byte>)
    ensures CString(d) <= d && (forall i :: 0 <= i < |CString(d)| ==> CString(d)[i] != 0)
    ensures |CString(d)| == |d| || d[|CString(d)|] == 0
  {
    if d != [] && d[0] != 0 {
      CStringCuts(d[1..]);
      assert d == [d[0]] + d[1..];
    }
  }

  /** The message that stands for an accepted record is what its caller may expect. */
  lemma AcceptedExactly(c: Config, rec: Record)
    ensures DeliveredAs(c.name, rec, Accepted(c, rec))
  {
    var d := rec.data[..Copied(rec)];
    CStringCuts(d);
    assert d <= rec.data;
  }

  lemma InitOk(c: Config, s: State)
    requires Init(c, s) && Drains(c) && c.n >= 2
    ensures Inv(c, s)
  {
    forall q: nat | InWindow(c, s, q) ensures StampOk(c, s, q) && ContentOk(c, s, q) {
      assert q % c.n == q;
    }
  }

  /** Steps of one thread that touch no slot, no cursor and no history of claims. */
  lemma RingFrame(c: Config, s: State, t: State, p: nat)
    requires RingInv(c, s) && ProducersOk(c, s)
    requires t.slots == s.slots && t.head == s.head && t.claims == s.claims
    requires t.consumer.tail == s.consumer.tail && t.consumer.freed == s.consumer.freed
    requires t.consumer.pc in {Format, Consume} ==> t.consumer.tail < t.head && Ready(c, t, t.consumer.tail)
    requires |t.producers| == |s.producers|
    requires forall r: nat | r < |s.producers| && r != p :: t.producers[r] == s.producers[r]
    requires p < |s.producers| ==> ProducerOk(c, t, p)
    requires p < |s.producers| && Holding(s.producers[p].pc) && s.producers[p].visible < Stores(s.producers[p].rec) ==>
               && Holding(t.producers[p].pc)
               && t.producers[p].(pc := Idle, issued := 0) == s.producers[p].(pc := Idle, issued := 0)
    ensures RingInv(c, t) && ProducersOk(c, t)
  {
    forall q: nat | InWindow(c, t, q) ensures StampOk(c, t, q) && ContentOk(c, t, q) {
      assert InWindow(c, s, q) && StampOk(c, s, q) && ContentOk(c, s, q);
    }
    forall r: nat | r < |t.producers| ensures ProducerOk(c, t, r) {
      assert ProducerOk(c, s, r);
    }
  }

  /** A producer that neither holds a claim nor the mutex moves on by itself. */
  lemma LocalFrame(c: Config, s: State, t: State, p: nat)
    requires Inv(c, s) && p < |s.producers| == |t.producers|
    requires t == SetProducer(s, p, t.producers[p]).(admitted := t.admitted, dropped := t.dropped)
    requires ProducerOk(c, t, p)
    requires !Holding(s.producers[p].pc) && !Holding(t.producers[p].pc)
    ensures Inv(c, t)
  {
    RingFrame(c, s, t, p);
    assert ProducerOk(c, s, p);
    assert MutexOk(t);
  }

  lemma CallOk(c: Config, s: State, p: nat, rec: Record)
    requires Drains(c) && Inv(c, s) && Enabled(c, s, Call(p, rec))
    ensures Inv(c, Apply(c, s, Call(p, rec)))
  {
    assert ProducerOk(c, s, p);
    LocalFrame(c, s, Apply(c, s, Call(p, rec)), p);
  }

  lemma ReadRunningOk(c: Config, s: State, p: nat)
    requires Drains(c) && Inv(c, s) && Enabled(c, s, ReadRunning(p))
    ensures Inv(c, Apply(c, s, ReadRunning(p)))
  {
    assert ProducerOk(c, s, p);
    LocalFrame(c, s, Apply(c, s, ReadRunning(p)), p);
  }

  lemma AddDroppedOk(c: Config, s: State, p: nat)
    requires Drains(c) && Inv(c, s) && Enabled(c, s, AddDropped(p))
    ensures Inv(c, Apply(c, s, AddDropped(p)))
  {
    assert ProducerOk(c, s, p);
    LocalFrame(c, s, Apply(c, s, AddDropped(p)), p);
  }

  lemma ReadHeadOk(c: Config, s: State, p: nat)
    requires Drains(c) && Inv(c, s) && Enabled(c, s, ReadHead(p))
    ensures Inv(c, Apply(c, s, ReadHead(p)))
  {
    assert ProducerOk(c, s, p);
    LocalFrame(c, s, Apply(c, s, ReadHead(p)), p);
  }

  lemma CasFailsOk(c: Config, s: State, p: nat)
    requires Drains(c) && Inv(c, s) && Enabled(c, s, CasFails(p))
    ensures Inv(c, Apply(c, s, CasFails(p)))
  {
    assert ProducerOk(c, s, p);
    LocalFrame(c, s, Apply(c, s, CasFails(p)), p);
  }

  /** A position one lap ahead of an unfreed slot never reads its own stamp there. */
  lemma OwnStampMeansFree(c: Config, s: State)
    requires RingInv(c, s) && s.head == s.consumer.freed + c.n
    ensures SlotOf(c, s, s.head) == SlotOf(c, s, s.consumer.freed)
    ensures SlotOf(c, s, s.head).stamp < s.head
  {
    AddLap(c.n, s.consumer.freed);
    assert InWindow(c, s, s.consumer.freed);
    assert StampOk(c, s, s.consumer.freed);
  }

  /** A stamp equal to the cursor just read means the position is inside the window. */
  lemma OwnStampInWindow(c: Config, s: State)
    requires RingInv(c, s) && SlotOf(c, s, s.head).stamp == s.head
    ensures s.head < s.consumer.freed + c.n
  {
    if s.head == s.consumer.freed + c.n {
      OwnStampMeansFree(c, s);
    }
  }

  lemma ReadStampLocal(c: Config, s: State, p: nat)
    requires RingInv(c, s) && Enabled(c, s, ReadStamp(p)) && ProducerOk(c, s, p)
    ensures var t := Apply(c, s, ReadStamp(p));
      t == SetProducer(s, p, t.producers[p]) && ProducerOk(c, t, p) && !Holding(t.producers[p].pc)
  {
    if SlotOf(c, s, s.head).stamp == s.head {
      OwnStampInWindow(c, s);
    }
  }

  lemma ReadStampOk(c: Config, s: State, p: nat)
    requires Drains(c) && Inv(c, s) && Enabled(c, s, ReadStamp(p))
    ensures Inv(c, Apply(c, s, ReadStamp(p)))
  {
    assert ProducerOk(c, s, p);
    ReadStampLocal(c, s, p);
    LocalFrame(c, s, Apply(c, s, ReadStamp(p)), p);
  }

  lemma IssueOk(c: Config, s: State, p: nat)
    requires Drains(c) && Inv(c, s) && Enabled(c, s, Issue(p))
    ensures Inv(c, Apply(c, s, Issue(p)))
  {
    assert ProducerOk(c, s, p);
    RingFrame(c, s, Apply(c, s, Issue(p)), p);
  }

  lemma AddLoggedOk(c: Config, s: State, p: nat)
    requires Drains(c) && Inv(c, s) && Enabled(c, s, AddLogged(p))
    ensures Inv(c, Apply(c, s, AddLogged(p)))
  {
    assert ProducerOk(c, s, p);
    RingFrame(c, s, Apply(c, s, AddLogged(p)), p);
  }

  lemma DoFenceOk(c: Config, s: State, p: nat)
    requires Drains(c) && Inv(c, s) && Enabled(c, s, DoFence(p))
    ensures Inv(c, Apply(c, s, DoFence(p)))
  {
    assert ProducerOk(c, s, p);
    RingFrame(c, s, Apply(c, s, DoFence(p)), p);
  }

  lemma ReadSleepingOk(c: Config, s: State, p: nat)
    requires Drains(c) && Inv(c, s) && Enabled(c, s, ReadSleeping(p))
    ensures Inv(c, Apply(c, s, ReadSleeping(p)))
  {
    assert ProducerOk(c, s, p);
    RingFrame(c, s, Apply(c, s, ReadSleeping(p)), p);
  }

  lemma LockToWakeOk(c: Config, s: State, p: nat)
    requires Drains(c) && Inv(c, s) && Enabled(c, s, LockToWake(p))
    ensures Inv(c, Apply(c, s, LockToWake(p)))
  {
    assert ProducerOk(c, s, p);
    RingFrame(c, s, Apply(c, s, LockToWake(p)), p);
  }

  lemma UnlockAfterWakeOk(c: Config, s: State, p: nat)
    requires Drains(c) && Inv(c, s) && Enabled(c, s, UnlockAfterWake(p))
    ensures Inv(c, Apply(c, s, UnlockAfterWake(p)))
  {
    assert ProducerOk(c, s, p);
    RingFrame(c, s, Apply(c, s, UnlockAfterWake(p)), p);
  }

  lemma SignalOk(c: Config, s: State, p: nat)
    requires Drains(c) && Inv(c, s) && Enabled(c, s, Signal(p))
    ensures Inv(c, Apply(c, s, Signal(p)))
  {
    assert ProducerOk(c, s, p);
    RingFrame(c, s, Apply(c, s, Signal(p)), p);
  }

  lemma CasWinsOk(c: Config, s: State, p: nat)
    requires Drains(c) && Inv(c, s) && Enabled(c, s, CasWins(p))
    ensures Inv(c, Apply(c, s, CasWins(p)))
  {
    var t := Apply(c, s, CasWins(p));
    assert ProducerOk(c, s, p);
    assert InWindow(c, s, s.head) && StampOk(c, s, s.head);
    forall q: nat | InWindow(c, t, q) ensures StampOk(c, t, q) && ContentOk(c, t, q) {
      assert InWindow(c, s, q) && StampOk(c, s, q) && ContentOk(c, s, q);
    }
    forall r: nat | r < |t.producers| ensures ProducerOk(c, t, r) {
      assert ProducerOk(c, s, r);
    }
  }

  lemma StoreEffect(slot: Slot, rec: Record, name: string, pos: nat, v: nat)
    requires v < Stores(rec) && Written(slot.req, rec, name, v)
    ensures var x := ApplyStore(slot, rec, name, pos, v);
      && Written(x.req, rec, name, v + 1)
      && x.stamp == if v == Stores(rec) - 1 then pos + 1 else slot.stamp
  {
  }

  lemma FlushStoreRingOk(c: Config, s: State, p: nat, q: nat)
    requires Drains(c) && Inv(c, s) && Enabled(c, s, FlushStore(p))
    requires InWindow(c, s, q)
    ensures StampOk(c, Apply(c, s, FlushStore(p)), q) && ContentOk(c, Apply(c, s, FlushStore(p)), q)
  {
    var t := Apply(c, s, FlushStore(p));
    var me := s.producers[p];
    assert ProducerOk(c, s, p);
    assert InWindow(c, s, q) && StampOk(c, s, q) && ContentOk(c, s, q);
    if q % c.n == me.pos % c.n {
      SlotsDistinct(c.n, q, me.pos);
      StoreEffect(SlotOf(c, s, q), me.rec, c.name, me.pos, me.visible);
    } else {
      assert SlotOf(c, t, q) == SlotOf(c, s, q);
    }
  }

  lemma FlushStoreProducersOk(c: Config, s: State, p: nat)
    requires Drains(c) && Inv(c, s) && Enabled(c, s, FlushStore(p))
    ensures ProducersOk(c, Apply(c, s, FlushStore(p)))
  {
    var t := Apply(c, s, FlushStore(p));
    var me := s.producers[p];
    assert ProducerOk(c, s, p);
    forall r: nat | r < |t.producers| ensures ProducerOk(c, t, r) {
      assert ProducerOk(c, s, r);
      var you := s.producers[r];
      if r == p {
        StoreEffect(SlotOf(c, s, me.pos), me.rec, c.name, me.pos, me.visible);
      } else if Holding(you.pc) && you.visible < Stores(you.rec) {
        if you.pos % c.n == me.pos % c.n { SlotsDistinct(c.n, you.pos, me.pos); assert false; }
      }
    }
  }

  /** What the flush does to the readiness of the slot at tail. */
  lemma FlushStoreTailOk(c: Config, s: State, p: nat)
    requires Drains(c) && Inv(c, s) && Enabled(c, s, FlushStore(p))
    ensures Ready(c, s, s.consumer.tail) ==> Ready(c, Apply(c, s, FlushStore(p)), s.consumer.tail)
    ensures Ready(c, Apply(c, s, FlushStore(p)), s.consumer.tail) ==>
              Ready(c, s, s.consumer.tail) || s.producers[p].pos == s.consumer.tail
  {
    var me := s.producers[p];
    assert ProducerOk(c, s, p);
    if me.pos % c.n == s.consumer.tail % c.n {
      SlotsDistinct(c.n, s.consumer.tail, me.pos);
    }
  }

  lemma FlushStoreOk(c: Config, s: State, p: nat)
    requires Drains(c) && Inv(c, s) && Enabled(c, s, FlushStore(p))
    ensures Inv(c, Apply(c, s, FlushStore(p)))
  {
    var t := Apply(c, s, FlushStore(p));
    var me := s.producers[p];
    assert ProducerOk(c, s, p);
    forall q: nat | InWindow(c, t, q) ensures StampOk(c, t, q) && ContentOk(c, t, q) {
      FlushStoreRingOk(c, s, p, q);
    }
    FlushStoreProducersOk(c, s, p);
    FlushStoreTailOk(c, s, p);
  }

  /** Consumer and destroyer steps that write no slot leave ring and producers alone. */
  lemma OtherFrame(c: Config, s: State, t: State)
    requires RingInv(c, s) && ProducersOk(c, s)
    requires t.slots == s.slots && t.head == s.head && t.claims == s.claims && t.producers == s.producers
    requires t.consumer.tail == s.consumer.tail && t.consumer.freed == s.consumer.freed
    requires t.consumer.pc in {Format, Consume} ==> t.consumer.tail < t.head && Ready(c, t, t.consumer.tail)
    ensures RingInv(c, t) && ProducersOk(c, t)
  {
    RingFrame(c, s, t, |s.producers|);
  }

  /** A peek never succeeds on a position nobody has claimed. */
  lemma ReadyIsClaimed(c: Config, s: State)
    requires RingInv(c, s) && Ready(c, s, s.consumer.tail)
    ensures s.consumer.tail < s.head
  {
    if s.head == s.consumer.freed + c.n {
      OwnStampMeansFree(c, s);
    } else {
      assert InWindow(c, s, s.consumer.tail) && StampOk(c, s, s.consumer.tail);
    }
  }

  /** With no producer under way every claim is published. */
  lemma NobodyWritingMeansReady(c: Config, s: State)
    requires RingInv(c, s)
    requires forall p :: 0 <= p < |s.producers| ==> !Holding(s.producers[p].pc)
    ensures AllReady(c, s)
  {
    forall q | s.consumer.tail <= q < s.head ensures Ready(c, s, q) {
      assert InWindow(c, s, q) && StampOk(c, s, q);
    }
  }

  lemma CPeekOk(c: Config, s: State)
    requires Drains(c) && Inv(c, s) && Enabled(c, s, CPeek)
    ensures Inv(c, Apply(c, s, CPeek))
  {
    if Ready(c, s, s.consumer.tail) {
      ReadyIsClaimed(c, s);
    }
    OtherFrame(c, s, Apply(c, s, CPeek));
  }

  lemma CFinalPeekOk(c: Config, s: State)
    requires Drains(c) && Inv(c, s) && Enabled(c, s, CFinalPeek)
    ensures Inv(c, Apply(c, s, CFinalPeek))
  {
    if Ready(c, s, s.consumer.tail) {
      ReadyIsClaimed(c, s);
    }
    OtherFrame(c, s, Apply(c, s, CFinalPeek));
  }

  lemma CIdleFlushOk(c: Config, s: State)
    requires Drains(c) && Inv(c, s) && Enabled(c, s, CIdleFlush)
    ensures Inv(c, Apply(c, s, CIdleFlush))
  {
    OtherFrame(c, s, Apply(c, s, CIdleFlush));
  }

  lemma CReadRunningOk(c: Config, s: State)
    requires Drains(c) && Inv(c, s) && Enabled(c, s, CReadRunning)
    ensures Inv(c, Apply(c, s, CReadRunning))
  {
    OtherFrame(c, s, Apply(c, s, CReadRunning));
  }

  lemma CFinalFlushOk(c: Config, s: State)
    requires Drains(c) && Inv(c, s) && Enabled(c, s, CFinalFlush)
    ensures Inv(c, Apply(c, s, CFinalFlush))
  {
    OtherFrame(c, s, Apply(c, s, CFinalFlush));
  }

  lemma CFormatOk(c: Config, s: State)
    requires Drains(c) && Inv(c, s) && Enabled(c, s, CFormat)
    ensures Inv(c, Apply(c, s, CFormat))
  {
    var t := Apply(c, s, CFormat);
    var q := s.consumer.tail;
    assert InWindow(c, s, q) && ContentOk(c, s, q);
    ReadsAccepted(c, SlotOf(c, s, q).req, s.claims[q].rec);
    OtherFrame(c, s, t);
  }

  lemma CConsumeOk(c: Config, s: State)
    requires Drains(c) && Inv(c, s) && Enabled(c, s, CConsume)
    ensures Inv(c, Apply(c, s, CConsume))
  {
    var t := Apply(c, s, CConsume);
    forall q: nat | InWindow(c, t, q) ensures StampOk(c, t, q) && ContentOk(c, t, q) {
      assert InWindow(c, s, q) && StampOk(c, s, q) && ContentOk(c, s, q);
    }
    forall r: nat | r < |t.producers| ensures ProducerOk(c, t, r) {
      assert ProducerOk(c, s, r);
    }
  }

  lemma FlushFreeRingOk(c: Config, s: State, q: nat)
    requires Inv(c, s) && Enabled(c, s, FlushFree)
    requires s.consumer.freed < q <= s.consumer.freed + c.n
    ensures StampOk(c, Apply(c, s, FlushFree), q) && ContentOk(c, Apply(c, s, FlushFree), q)
  {
    var t := Apply(c, s, FlushFree);
    var f := s.consumer.freed;
    AddLap(c.n, f);
    if q == f + c.n {
      assert t.slots[q % c.n].stamp == q;
    } else {
      assert InWindow(c, s, q) && StampOk(c, s, q) && ContentOk(c, s, q);
      if q % c.n == f % c.n { SlotsDistinct(c.n, q, f); assert false; }
      assert SlotOf(c, t, q) == SlotOf(c, s, q);
    }
  }

  lemma FlushFreeProducerOk(c: Config, s: State, r: nat)
    requires Inv(c, s) && Enabled(c, s, FlushFree) && r < |s.producers|
    ensures ProducerOk(c, Apply(c, s, FlushFree), r)
  {
    var f := s.consumer.freed;
    assert ProducerOk(c, s, r);
    var you := s.producers[r];
    if Holding(you.pc) && you.visible < Stores(you.rec) {
      if you.pos % c.n == f % c.n { SlotsDistinct(c.n, you.pos, f); assert false; }
    }
  }

  lemma FlushFreeOk(c: Config, s: State)
    requires Drains(c) && Inv(c, s) && Enabled(c, s, FlushFree)
    ensures Inv(c, Apply(c, s, FlushFree))
  {
    var t := Apply(c, s, FlushFree);
    var f := s.consumer.freed;
    forall q: nat | InWindow(c, t, q) ensures StampOk(c, t, q) && ContentOk(c, t, q) {
      FlushFreeRingOk(c, s, q);
    }
    forall r: nat | r < |t.producers| ensures ProducerOk(c, t, r) {
      FlushFreeProducerOk(c, s, r);
    }
    if s.consumer.pc in {Format, Consume} {
      if s.consumer.tail % c.n == f % c.n { SlotsDistinct(c.n, s.consumer.tail, f); assert false; }
    }
  }

  lemma CLockOk(c: Config, s: State)
    requires Drains(c) && Inv(c, s) && Enabled(c, s, CLock)
    ensures Inv(c, Apply(c, s, CLock))
  {
    OtherFrame(c, s, Apply(c, s, CLock));
  }

  lemma CRelockOk(c: Config, s: State)
    requires Drains(c) && Inv(c, s) && Enabled(c, s, CRelock)
    ensures Inv(c, Apply(c, s, CRelock))
  {
    OtherFrame(c, s, Apply(c, s, CRelock));
  }

  lemma CSetSleepingOk(c: Config, s: State)
    requires Drains(c) && Inv(c, s) && Enabled(c, s, CSetSleeping)
    ensures Inv(c, Apply(c, s, CSetSleeping))
  {
    OtherFrame(c, s, Apply(c, s, CSetSleeping));
  }

  lemma CClearOk(c: Config, s: State)
    requires Drains(c) && Inv(c, s) && Enabled(c, s, CClear)
    ensures Inv(c, Apply(c, s, CClear))
  {
    OtherFrame(c, s, Apply(c, s, CClear));
  }

  lemma FlushZeroOk(c: Config, s: State)
    requires Drains(c) && Inv(c, s) && Enabled(c, s, FlushZero)
    ensures Inv(c, Apply(c, s, FlushZero))
  {
    OtherFrame(c, s, Apply(c, s, FlushZero));
  }

  lemma CUnlockOk(c: Config, s: State)
    requires Drains(c) && Inv(c, s) && Enabled(c, s, CUnlock)
    ensures Inv(c, Apply(c, s, CUnlock))
  {
    OtherFrame(c, s, Apply(c, s, CUnlock));
  }

  lemma CRePeekOk(c: Config, s: State)
    requires Drains(c) && Inv(c, s) && Enabled(c, s, CRePeek)
    ensures Inv(c, Apply(c, s, CRePeek))
  {
    OtherFrame(c, s, Apply(c, s, CRePeek));
  }

  lemma CRunCheckOk(c: Config, s: State)
    requires Drains(c) && Inv(c, s) && Enabled(c, s, CRunCheck)
    ensures Inv(c, Apply(c, s, CRunCheck))
  {
    OtherFrame(c, s, Apply(c, s, CRunCheck));
  }

  lemma CWaitOk(c: Config, s: State)
    requires Drains(c) && Inv(c, s) && Enabled(c, s, CWait)
    ensures Inv(c, Apply(c, s, CWait))
  {
    OtherFrame(c, s, Apply(c, s, CWait));
  }

  lemma CSpuriousOk(c: Config, s: State)
    requires Drains(c) && Inv(c, s) && Enabled(c, s, CSpurious)
    ensures Inv(c, Apply(c, s, CSpurious))
  {
    OtherFrame(c, s, Apply(c, s, CSpurious));
  }

  lemma DStartOk(c: Config, s: State)
    requires Drains(c) && Inv(c, s) && Enabled(c, s, DStart)
    ensures Inv(c, Apply(c, s, DStart))
  {
    OtherFrame(c, s, Apply(c, s, DStart));
  }

  lemma FlushStopOk(c: Config, s: State)
    requires Drains(c) && Inv(c, s) && Enabled(c, s, FlushStop)
    ensures Inv(c, Apply(c, s, FlushStop))
  {
    OtherFrame(c, s, Apply(c, s, FlushStop));
  }

  lemma DJoinOk(c: Config, s: State)
    requires Drains(c) && Inv(c, s) && Enabled(c, s, DJoin)
    ensures Inv(c, Apply(c, s, DJoin))
  {
    OtherFrame(c, s, Apply(c, s, DJoin));
  }

  lemma DLockOk(c: Config, s: State)
    requires Drains(c) && Inv(c, s) && Enabled(c, s, DLock)
    ensures Inv(c, Apply(c, s, DLock))
  {
    OtherFrame(c, s, Apply(c, s, DLock));
  }

  lemma DBroadcastOk(c: Config, s: State)
    requires Drains(c) && Inv(c, s) && Enabled(c, s, DBroadcast)
    ensures Inv(c, Apply(c, s, DBroadcast))
  {
    OtherFrame(c, s, Apply(c, s, DBroadcast));
  }

  lemma DUnlockOk(c: Config, s: State)
    requires Drains(c) && Inv(c, s) && Enabled(c, s, DUnlock)
    ensures Inv(c, Apply(c, s, DUnlock))
  {
    OtherFrame(c, s, Apply(c, s, DUnlock));
  }

  // ------------------------------------------------------ by phase of each thread

  /** Up to the winning compare-and-swap. */
  predicate Entering(step: Step) {
    step.Call? || step.ReadRunning? || step.ReadHead? || step.ReadStamp? || step.CasFails? || step.AddDropped?
  }

  /** The stores of a claim. */
  predicate Publishing(step: Step) {
    step.CasWins? || step.Issue? || step.FlushStore?
  }

  lemma EnteringOk(c: Config, s: State, step: Step)
    requires Drains(c) && Inv(c, s) && Enabled(c, s, step) && Entering(step)
    ensures Inv(c, Apply(c, s, step))
  {
    match step
    case ReadHead(p) => ReadHeadOk(c, s, p);
    case CasFails(p) => CasFailsOk(c, s, p);
    case ReadStamp(p) => ReadStampOk(c, s, p);
    case Call(p, rec) => CallOk(c, s, p, rec);
    case ReadRunning(p) => ReadRunningOk(c, s, p);
    case AddDropped(p) => AddDroppedOk(c, s, p);
  }

  lemma PublishingOk(c: Config, s: State, step: Step)
    requires Drains(c) && Inv(c, s) && Enabled(c, s, step) && Publishing(step)
    ensures Inv(c, Apply(c, s, step))
  {
    match step
    case CasWins(p) => CasWinsOk(c, s, p);
    case FlushStore(p) => FlushStoreOk(c, s, p);
    case Issue(p) => IssueOk(c, s, p);
  }

  lemma SignallingOk(c: Config, s: State, step: Step)
    requires Drains(c) && Inv(c, s) && Enabled(c, s, step) && ByProducer(step) && !Entering(step) && !Publishing(step)
    ensures Inv(c, Apply(c, s, step))
  {
    match step
    case LockToWake(p) => LockToWakeOk(c, s, p);
    case Signal(p) => SignalOk(c, s, p);
    case UnlockAfterWake(p) => UnlockAfterWakeOk(c, s, p);
    case AddLogged(p) => AddLoggedOk(c, s, p);
    case DoFence(p) => DoFenceOk(c, s, p);
    case ReadSleeping(p) => ReadSleepingOk(c, s, p);
  }

  lemma ProducerStepOk(c: Config, s: State, step: Step)
    requires Drains(c) && Inv(c, s) && Enabled(c, s, step) && ByProducer(step)
    ensures Inv(c, Apply(c, s, step))
  {
    if Entering(step) {
      EnteringOk(c, s, step);
    } else if Publishing(step) {
      PublishingOk(c, s, step);
    } else {
      SignallingOk(c, s, step);
    }
  }

  /** From a drain peek to the exit. */
  predicate Draining(step: Step) {
    step.CPeek? || step.CFormat? || step.CConsume? || step.FlushFree?
  }

  predicate Leaving(step: Step) {
    step.CIdleFlush? || step.CReadRunning? || step.CFinalPeek? || step.CFinalFlush?
  }

  lemma DrainingOk(c: Config, s: State, step: Step)
    requires Drains(c) && Inv(c, s) && Enabled(c, s, step) && Draining(step)
    ensures Inv(c, Apply(c, s, step))
  {
    match step
    case CPeek => CPeekOk(c, s);
    case CFormat => CFormatOk(c, s);
    case CConsume => CConsumeOk(c, s);
    case FlushFree => FlushFreeOk(c, s);
  }

  lemma LeavingOk(c: Config, s: State, step: Step)
    requires Drains(c) && Inv(c, s) && Enabled(c, s, step) && Leaving(step)
    ensures Inv(c, Apply(c, s, step))
  {
    match step
    case CFinalPeek => CFinalPeekOk(c, s);
    case CIdleFlush => CIdleFlushOk(c, s);
    case CReadRunning => CReadRunningOk(c, s);
    case CFinalFlush => CFinalFlushOk(c, s);
  }

  lemma SleepingStepOk(c: Config, s: State, step: Step)
    requires Drains(c) && Inv(c, s) && Enabled(c, s, step)
    requires !ByProducer(step) && !ByDestroyer(step) && !Draining(step) && !Leaving(step)
    ensures Inv(c, Apply(c, s, step))
  {
    match step
    case CSetSleeping => CSetSleepingOk(c, s);
    case CUnlock => CUnlockOk(c, s);
    case CLock => CLockOk(c, s);
    case CRelock => CRelockOk(c, s);
    case CRePeek => CRePeekOk(c, s);
    case CRunCheck => CRunCheckOk(c, s);
    case CWait => CWaitOk(c, s);
    case CSpurious => CSpuriousOk(c, s);
    case CClear => CClearOk(c, s);
    case FlushZero => FlushZeroOk(c, s);
  }

  lemma ConsumerStepOk(c: Config, s: State, step: Step)
    requires Drains(c) && Inv(c, s) && Enabled(c, s, step) && !ByProducer(step) && !ByDestroyer(step)
    ensures Inv(c, Apply(c, s, step))
  {
    if Draining(step) {
      DrainingOk(c, s, step);
    } else if Leaving(step) {
      LeavingOk(c, s, step);
    } else {
      SleepingStepOk(c, s, step);
    }
  }

  lemma DestroyerOk(c: Config, s: State, step: Step)
    requires Drains(c) && Inv(c, s) && Enabled(c, s, step) && ByDestroyer(step)
    ensures Inv(c, Apply(c, s, step))
  {
    match step
    case DStart => DStartOk(c, s);
    case FlushStop => FlushStopOk(c, s);
    case DLock => DLockOk(c, s);
    case DBroadcast => DBroadcastOk(c, s);
    case DUnlock => DUnlockOk(c, s);
    case DJoin => DJoinOk(c, s);
  }

  /** Every step of every thread keeps the invariant. */
  lemma StepOk(c: Config, s: State, step: Step)
    requires Drains(c) && Inv(c, s) && Enabled(c, s, step)
    ensures Inv(c, Apply(c, s, step))
  {
    if ByProducer(step) {
      ProducerStepOk(c, s, step);
    } else if ByDestroyer(step) {
      DestroyerOk(c, s, step);
    } else {
      ConsumerStepOk(c, s, step);
    }
  }

  lemma {:induction false} RunOk(c: Config, s: State, steps: seq<Step>, t: State)
    requires Drains(c) && Inv(c, s) && Run(c, s, steps, t)
    ensures Inv(c, t)
    decreases |steps|
  {
    if steps != [] {
      StepOk(c, s, steps[0]);
      RunOk(c, Apply(c, s, steps[0]), steps[1..], t);
    }
  }

  /** The invariant holds in every state any interleaving can reach. */
  lemma ReachableOk(c: Config, t: State)
    requires Drains(c) && c.n >= 2 && Reachable(c, t)
    ensures Inv(c, t)
  {
    var s, steps :| Init(c, s) && Run(c, s, steps, t);
    InitOk(c, s);
    RunOk(c, s, steps, t);
  }
}

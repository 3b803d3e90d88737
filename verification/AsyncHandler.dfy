/**
 One asynchronous log handler as a state machine: any number of producer threads
 inside `log_impl`, the handler's background consumer thread, and one thread in
 `destroy`.  Every step is one load, one store, one atomic read-modify-write or
 one mutex/condition-variable operation.

 Memory is TSO.  A plain or release store first sits in the FIFO store buffer of
 its thread and reaches memory in a later flush step; a sequentially consistent
 store, a compare-and-swap, a full fence and a mutex acquisition wait for the
 buffer to empty.  So does, on TSO proper, the atomic add on nr_log_calls; it is
 relaxed in the source, and Config also allows for a weaker machine on which it
 does not.  What a thread has buffered is always a contiguous piece of a store
 list fixed by its program, so a buffer is a pair of counters: stores issued and
 stores visible.  A sequentially consistent execution is a run that flushes each
 store right after issuing it.
 */
module AsyncHandler {

  type Byte = b: nat | b < 256

  /** LMK_LOG_MSG_MAX_SIZE. */
  const MSG_MAX: nat := 2048

  type Buffer = d: seq<Byte> | |d| == MSG_MAX witness seq(MSG_MAX, _ => 0)

  /** What a caller of `log_impl` passes in: data_len is |data|. */
  datatype Record = Record(level: int, line: int, file: string, data: seq<Byte>)

  /** The request held by a ring slot. */
  datatype Request = Request(level: int, line: int, file: string, handler: string, data: Buffer)

  /** What the formatter sees of a request: `data` is read as a C string. */
  datatype Message = Message(level: int, line: int, file: string, handler: string, text: seq<Byte>)

  datatype Slot = Slot(stamp: nat, req: Request)

  /** `fenced`: maybe_wake executes its fence.  `addDrains`: the atomic add on nr_log_calls
      empties the store buffer, as every locked instruction does on x86; without it the add
      is treated as a relaxed operation that earlier stores may overtake.  `repeek`: the
      consumer peeks once more after seeing running == 0.  The code on TSO is fenced,
      addDrains and not repeek; the other values are the variants compared against. */
  datatype Config = Config(n: nat, name: string, fenced: bool, addDrains: bool, repeek: bool)

  /** The stores of a call reach memory before it reads `sleeping`. */
  predicate Drains(c: Config) {
    c.fenced || c.addDrains
  }

  // ---------------------------------------------------------------- producers

  datatype ProducerPc =
    | Idle           // outside log_impl
    | CheckRunning   // about to load `running`
    | LoadHead       // about to load `head` into pos
    | LoadStamp      // about to load the stamp of slot pos
    | TryClaim       // about to compare-and-swap `head`
    | Writing        // claimed pos; issuing the stores of the slot
    | Fence          // about to execute the fence of maybe_wake
    | LoadSleeping   // about to load `sleeping`
    | WakeLock       // about to lock the wake-up mutex
    | WakeSignal     // holds the mutex, about to signal
    | WakeUnlock     // holds the mutex, about to unlock
    | CountDropped   // ring full, about to count the drop

  datatype Producer = Producer(pc: ProducerPc, rec: Record, pos: nat, issued: nat, visible: nat)

  /** Bytes of the record that are copied: min(data_len, 2047). */
  function Copied(rec: Record): nat {
    if |rec.data| < MSG_MAX - 1 then |rec.data| else MSG_MAX - 1
  }

  /** Stores a producer issues for one claim: four fields, the bytes, the NUL, the stamp. */
  function Stores(rec: Record): nat {
    Copied(rec) + 6
  }

  /** The effect of the j-th of those stores on the claimed slot. */
  function ApplyStore(slot: Slot, rec: Record, name: string, pos: nat, j: nat): Slot
    requires j < Stores(rec)
  {
    var n := Copied(rec);
    if j == 0 then slot.(req := slot.req.(level := rec.level))
    else if j == 1 then slot.(req := slot.req.(line := rec.line))
    else if j == 2 then slot.(req := slot.req.(file := rec.file))
    else if j == 3 then slot.(req := slot.req.(handler := name))
    else if j < 4 + n then slot.(req := slot.req.(data := slot.req.data[j - 4 := rec.data[j - 4]]))
    else if j == 4 + n then slot.(req := slot.req.(data := slot.req.data[n := 0]))
    else slot.(stamp := pos + 1)
  }

  /** The bytes of a buffer before its first NUL. */
  function CString(d: seq<Byte>): seq<Byte> {
    if d == [] || d[0] == 0 then [] else [d[0]] + CString(d[1..])
  }

  function Read(req: Request): Message {
    Message(req.level, req.line, req.file, req.handler, CString(req.data))
  }

  // ----------------------------------------------------------------- consumer

  datatype ConsumerPc =
    | Drain          // about to peek at slot tail
    | Format         // the slot is ready, about to format it
    | Consume        // about to free the slot
    | IdleFlush      // drained, about to flush the staging buffer
    | CheckStop      // about to load `running`
    | FinalPeek      // variant only: about to peek once more after running == 0
    | Lock           // about to lock the wake-up mutex
    | SetSleeping    // about to store sleeping = 1
    | RePeek         // about to peek under the mutex
    | RunCheck       // the peek under the mutex failed, about to load `running`
    | WaitEnter      // about to enter cond_wait
    | Parked         // inside cond_wait, mutex released
    | Waking         // signalled, about to re-acquire the mutex
    | ClearSleeping  // about to store sleeping = 0
    | Unlock         // about to unlock the mutex
    | FinalFlush     // left the loop, about to do the last flush
    | Exited

  /** `freed` counts the frees that reached memory, `tail` those issued. */
  datatype Consumer = Consumer(pc: ConsumerPc, tail: nat, freed: nat, zeroPending: bool)

  // ---------------------------------------------------------------- destroyer

  datatype DestroyerPc = NotStarted | Storing | Stopped | Broadcasting | Unlocking | Joining | Done

  datatype Owner = Nobody | TheConsumer | TheProducer(p: nat) | TheDestroyer

  datatype Claim = Claim(rec: Record, who: nat)

  /** History of the last drain peek that found nothing. */
  datatype Snapshot = Snapshot(head: nat, allReady: bool)

  /** `claims` and `delivered` are histories; the program reads neither. */
  datatype State = State(
    slots: seq<Slot>,
    head: nat,
    sleeping: bool,
    running: bool,
    mutex: Owner,
    producers: seq<Producer>,
    consumer: Consumer,
    destroyer: DestroyerPc,
    logged: nat,
    dropped: nat,
    admitted: nat,
    claims: seq<Claim>,
    delivered: seq<Message>,
    snap: Snapshot)

  predicate WellFormed(c: Config, s: State) {
    c.n > 0 && |s.slots| == c.n
  }

  function SlotOf(c: Config, s: State, pos: nat): Slot
    requires WellFormed(c, s)
  {
    s.slots[pos % c.n]
  }

  /** `lmk_ring_peek_slot` succeeds. */
  predicate Ready(c: Config, s: State, pos: nat)
    requires WellFormed(c, s)
  {
    SlotOf(c, s, pos).stamp == pos + 1
  }

  predicate AllReady(c: Config, s: State)
    requires WellFormed(c, s)
  {
    forall q :: s.consumer.tail <= q < s.head ==> Ready(c, s, q)
  }

  /** A freshly initialised handler with `k` threads that may log. */
  ghost predicate Init(c: Config, s: State) {
    && WellFormed(c, s)
    && (forall i :: 0 <= i < c.n ==> s.slots[i].stamp == i)
    && s.head == 0 && !s.sleeping && s.running && s.mutex == Nobody
    && (forall p :: 0 <= p < |s.producers| ==>
          s.producers[p].pc == Idle && s.producers[p].issued == s.producers[p].visible == 0)
    && s.consumer == Consumer(Drain, 0, 0, false)
    && s.destroyer == NotStarted
    && s.logged == s.dropped == s.admitted == 0
    && s.claims == [] && s.delivered == []
  }

  // -------------------------------------------------------------------- steps

  datatype Step =
    | Call(p: nat, rec: Record)
    | ReadRunning(p: nat)
    | ReadHead(p: nat)
    | ReadStamp(p: nat)
    | CasWins(p: nat)
    | CasFails(p: nat)
    | Issue(p: nat)
    | FlushStore(p: nat)
    | AddLogged(p: nat)
    | DoFence(p: nat)
    | ReadSleeping(p: nat)
    | LockToWake(p: nat)
    | Signal(p: nat)
    | UnlockAfterWake(p: nat)
    | AddDropped(p: nat)
    | CPeek | CFormat | CConsume | CIdleFlush | CReadRunning | CFinalPeek
    | CLock | CSetSleeping | CRePeek | CRunCheck | CWait | CSpurious | CRelock
    | CClear | CUnlock | CFinalFlush
    | FlushFree | FlushZero
    | DStart | FlushStop | DLock | DBroadcast | DUnlock | DJoin

  /** The step is one of producer step.p, or a flush of its store buffer. */
  predicate ByProducer(step: Step) {
    step.Call? || step.ReadRunning? || step.ReadHead? || step.ReadStamp? || step.CasWins? || step.CasFails?
    || step.Issue? || step.FlushStore? || step.AddLogged? || step.DoFence? || step.ReadSleeping?
    || step.LockToWake? || step.Signal? || step.UnlockAfterWake? || step.AddDropped?
  }

  predicate ByDestroyer(step: Step) {
    step.DStart? || step.FlushStop? || step.DLock? || step.DBroadcast? || step.DUnlock? || step.DJoin?
  }

  predicate ProducerAt(s: State, p: nat, pc: ProducerPc) {
    p < |s.producers| && s.producers[p].pc == pc
  }

  predicate EnabledProducer(c: Config, s: State, step: Step)
    requires WellFormed(c, s) && ByProducer(step)
  {
    match step
    case Call(p, rec) => ProducerAt(s, p, Idle) && s.producers[p].visible == s.producers[p].issued
    case ReadRunning(p) => ProducerAt(s, p, CheckRunning)
    case ReadHead(p) => ProducerAt(s, p, LoadHead)
    case ReadStamp(p) => ProducerAt(s, p, LoadStamp)
    case CasWins(p) => ProducerAt(s, p, TryClaim) && s.head == s.producers[p].pos
    case CasFails(p) => ProducerAt(s, p, TryClaim)
    case Issue(p) => ProducerAt(s, p, Writing) && s.producers[p].issued < Stores(s.producers[p].rec)
    case FlushStore(p) =>
      && p < |s.producers|
      && s.producers[p].visible < s.producers[p].issued <= Stores(s.producers[p].rec)
    case AddLogged(p) =>
      && ProducerAt(s, p, Writing) && s.producers[p].issued == Stores(s.producers[p].rec)
      && (c.addDrains ==> s.producers[p].visible == s.producers[p].issued)
    case DoFence(p) =>
      && ProducerAt(s, p, Fence)
      && (c.fenced ==> s.producers[p].visible == s.producers[p].issued)
    case ReadSleeping(p) => ProducerAt(s, p, LoadSleeping)
    case LockToWake(p) => ProducerAt(s, p, WakeLock) && s.mutex == Nobody
    case Signal(p) => ProducerAt(s, p, WakeSignal)
    case UnlockAfterWake(p) => ProducerAt(s, p, WakeUnlock)
    case AddDropped(p) => ProducerAt(s, p, CountDropped)
  }

  predicate EnabledConsumer(s: State, step: Step)
    requires !ByProducer(step) && !ByDestroyer(step)
  {
    match step
    case CPeek => s.consumer.pc == Drain
    case CFormat => s.consumer.pc == Format
    case CConsume => s.consumer.pc == Consume
    case CIdleFlush => s.consumer.pc == IdleFlush
    case CReadRunning => s.consumer.pc == CheckStop
    case CFinalPeek => s.consumer.pc == FinalPeek
    case CLock => s.consumer.pc == Lock && s.mutex == Nobody
    case CSetSleeping =>
      s.consumer.pc == SetSleeping && s.consumer.freed == s.consumer.tail && !s.consumer.zeroPending
    case CRePeek => s.consumer.pc == RePeek
    case CRunCheck => s.consumer.pc == RunCheck
    case CWait => s.consumer.pc == WaitEnter
    case CSpurious => s.consumer.pc == Parked
    case CRelock => s.consumer.pc == Waking && s.mutex == Nobody
    case CClear => s.consumer.pc == ClearSleeping
    case CUnlock => s.consumer.pc == Unlock
    case CFinalFlush => s.consumer.pc == FinalFlush
    case FlushFree => s.consumer.freed < s.consumer.tail && !s.consumer.zeroPending
    case FlushZero => s.consumer.zeroPending
  }

  predicate EnabledDestroyer(s: State, step: Step)
    requires ByDestroyer(step)
  {
    match step
    case DStart => s.destroyer == NotStarted
    case FlushStop => s.destroyer == Storing
    case DLock => s.destroyer == Stopped && s.mutex == Nobody
    case DBroadcast => s.destroyer == Broadcasting
    case DUnlock => s.destroyer == Unlocking
    case DJoin => // the join waits for the thread, and its stores are visible afterwards
      && s.destroyer == Joining && s.consumer.pc == Exited
      && s.consumer.freed == s.consumer.tail && !s.consumer.zeroPending
  }

  predicate Enabled(c: Config, s: State, step: Step)
    requires WellFormed(c, s)
  {
    if ByProducer(step) then EnabledProducer(c, s, step)
    else if ByDestroyer(step) then EnabledDestroyer(s, step)
    else EnabledConsumer(s, step)
  }

  function SetProducer(s: State, p: nat, x: Producer): State
    requires p < |s.producers|
  {
    s.(producers := s.producers[p := x])
  }

  function Goto(s: State, p: nat, pc: ProducerPc): State
    requires p < |s.producers|
  {
    SetProducer(s, p, s.producers[p].(pc := pc))
  }

  function CGoto(s: State, pc: ConsumerPc): State {
    s.(consumer := s.consumer.(pc := pc))
  }

  /** Both signal and broadcast: the consumer is the only waiter. */
  function WakeIfParked(s: State): State {
    if s.consumer.pc == Parked then CGoto(s, Waking) else s
  }

  function ApplyProducer(c: Config, s: State, step: Step): (t: State)
    requires WellFormed(c, s) && ByProducer(step) && EnabledProducer(c, s, step)
    ensures WellFormed(c, t)
  {
    match step
    case Call(p, rec) => SetProducer(s, p, s.producers[p].(pc := CheckRunning, rec := rec))
    case ReadRunning(p) =>
      if s.running then Goto(s, p, LoadHead).(admitted := s.admitted + 1) else Goto(s, p, Idle)
    case ReadHead(p) => SetProducer(s, p, s.producers[p].(pc := LoadStamp, pos := s.head))
    case ReadStamp(p) =>
      var stamp := SlotOf(c, s, s.producers[p].pos).stamp;
      if stamp == s.producers[p].pos then Goto(s, p, TryClaim)
      else if stamp < s.producers[p].pos then Goto(s, p, CountDropped)
      else Goto(s, p, LoadHead)
    case CasWins(p) =>
      SetProducer(s, p, s.producers[p].(pc := Writing, issued := 0, visible := 0))
        .(head := s.head + 1, claims := s.claims + [Claim(s.producers[p].rec, p)])
    case CasFails(p) => SetProducer(s, p, s.producers[p].(pc := LoadStamp, pos := s.head))
    case Issue(p) => SetProducer(s, p, s.producers[p].(issued := s.producers[p].issued + 1))
    case FlushStore(p) =>
      var me := s.producers[p];
      var i := me.pos % c.n;
      SetProducer(s, p, me.(visible := me.visible + 1))
        .(slots := s.slots[i := ApplyStore(s.slots[i], me.rec, c.name, me.pos, me.visible)])
    case AddLogged(p) => Goto(s, p, Fence).(logged := s.logged + 1)
    case DoFence(p) => Goto(s, p, LoadSleeping)
    case ReadSleeping(p) => Goto(s, p, if s.sleeping then WakeLock else Idle)
    case LockToWake(p) => Goto(s, p, WakeSignal).(mutex := TheProducer(p))
    case Signal(p) => WakeIfParked(Goto(s, p, WakeUnlock))
    case UnlockAfterWake(p) => Goto(s, p, Idle).(mutex := Nobody)
    case AddDropped(p) => Goto(s, p, Idle).(dropped := s.dropped + 1)
  }

  function ApplyConsumer(c: Config, s: State, step: Step): (t: State)
    requires WellFormed(c, s) && !ByProducer(step) && !ByDestroyer(step) && EnabledConsumer(s, step)
    ensures WellFormed(c, t)
  {
    match step
    case CPeek =>
      if Ready(c, s, s.consumer.tail) then CGoto(s, Format)
      else CGoto(s, IdleFlush).(snap := Snapshot(s.head, AllReady(c, s)))
    case CFormat => CGoto(s, Consume).(delivered := s.delivered + [Read(SlotOf(c, s, s.consumer.tail).req)])
    case CConsume => s.(consumer := s.consumer.(pc := Drain, tail := s.consumer.tail + 1))
    case CIdleFlush => CGoto(s, CheckStop)
    case CReadRunning => CGoto(s, if s.running then Lock else if c.repeek then FinalPeek else FinalFlush)
    case CFinalPeek => CGoto(s, if Ready(c, s, s.consumer.tail) then Drain else FinalFlush)
    case CLock => CGoto(s, SetSleeping).(mutex := TheConsumer)
    case CSetSleeping => CGoto(s, RePeek).(sleeping := true)
    case CRePeek => CGoto(s, if Ready(c, s, s.consumer.tail) then ClearSleeping else RunCheck)
    case CRunCheck => CGoto(s, if s.running then WaitEnter else ClearSleeping)
    case CWait => CGoto(s, Parked).(mutex := Nobody)
    case CSpurious => CGoto(s, Waking)
    case CRelock => CGoto(s, RePeek).(mutex := TheConsumer)
    case CClear => s.(consumer := s.consumer.(pc := Unlock, zeroPending := true))
    case CUnlock => CGoto(s, Drain).(mutex := Nobody)
    case CFinalFlush => CGoto(s, Exited)
    case FlushFree =>
      var q := s.consumer.freed;
      s.(slots := s.slots[q % c.n := s.slots[q % c.n].(stamp := q + c.n)],
         consumer := s.consumer.(freed := q + 1))
    case FlushZero => s.(sleeping := false, consumer := s.consumer.(zeroPending := false))
  }

  function ApplyDestroyer(s: State, step: Step): (t: State)
    requires ByDestroyer(step) && EnabledDestroyer(s, step)
    ensures t.slots == s.slots
  {
    match step
    case DStart => s.(destroyer := Storing)
    case FlushStop => s.(destroyer := Stopped, running := false)
    case DLock => s.(destroyer := Broadcasting, mutex := TheDestroyer)
    case DBroadcast => WakeIfParked(s).(destroyer := Unlocking)
    case DUnlock => s.(destroyer := Joining, mutex := Nobody)
    case DJoin => s.(destroyer := Done)
  }

  function Apply(c: Config, s: State, step: Step): (t: State)
    requires WellFormed(c, s)
    requires Enabled(c, s, step)
    ensures WellFormed(c, t)
  {
    if ByProducer(step) then ApplyProducer(c, s, step)
    else if ByDestroyer(step) then ApplyDestroyer(s, step)
    else ApplyConsumer(c, s, step)
  }

  /** `steps` is a run from s to t. */
  ghost predicate Run(c: Config, s: State, steps: seq<Step>, t: State)
    decreases |steps|
  {
    if steps == [] then s == t
    else WellFormed(c, s) && Enabled(c, s, steps[0]) && Run(c, Apply(c, s, steps[0]), steps[1..], t)
  }

  ghost predicate Reachable(c: Config, t: State) {
    exists s, steps :: Init(c, s) && Run(c, s, steps, t)
  }

  lemma RunCons(c: Config, s: State, step: Step, steps: seq<Step>, t: State)
    requires WellFormed(c, s) && Enabled(c, s, step)
    requires Run(c, Apply(c, s, step), steps, t)
    ensures Run(c, s, [step] + steps, t)
  {
    assert ([step] + steps)[1..] == steps;
  }

  lemma {:induction false} RunAppend(c: Config, s: State, a: seq<Step>, m: State, b: seq<Step>, t: State)
    requires Run(c, s, a, m) && Run(c, m, b, t)
    ensures Run(c, s, a + b, t)
    decreases |a|
  {
    if a == [] {
      assert a + b == b;
    } else {
      RunAppend(c, Apply(c, s, a[0]), a[1..], m, b, t);
      assert (a + b)[1..] == a[1..] + b;
    }
  }
}

/**
 The ring over 64-bit words.  First, the word computations of the concurrent ring agree
 with the unbounded ones of the state machine.  Second, the ring functions themselves,
 on arrays and wrapping words, used by one thread at a time: a bounded queue for ever,
 across any number of wrap-arounds of the cursors.
 */
module WordRing {
  import opened Words
  import opened Modulo
  import opened AsyncHandler
  import opened AsyncInvariant
  import opened RingFifo

  // ------------------------------------------------------ words against integers

  /** Wrapping keeps the slot index: the size of the ring divides the size of a word. */
  lemma WrapKeepsIndex(x: nat, k: nat)
    requires k <= 64
    ensures And(Wrap(x), Pow2(k) - 1) == x % Pow2(k)
  {
    Pow2Sizes();
    Pow2Add(k, 64 - k);
    ModOfMultiple(x, Pow2(k), Pow2(64 - k));
    MaskIsMod(Wrap(x), k);
  }

  /** The signed difference of two wrapped counters is their true difference exactly when
      that lies in the range of the signed type. */
  lemma DiffExact(a: nat, b: nat)
    ensures Diff(Wrap(a), Wrap(b)) == a - b <==> a - b < HALF && b - a <= HALF
  {
    assert a == SIZE * (a / SIZE) + a % SIZE;
    assert b == SIZE * (b / SIZE) + b % SIZE;
    var d := Wrap(Wrap(a) - Wrap(b));
    assert d == Wrap(a - b);
  }

  /** Where the C subtraction overflows, for counters less than half a word apart: exactly
      where they lie on different sides of an odd multiple of 2^63.  Elsewhere C and the
      wrapping difference agree. */
  lemma OverflowExactly(a: nat, b: nat)
    requires a - b < HALF && b - a <= HALF
    ensures Diff(Wrap(a), Wrap(b)) == Signed(Wrap(a)) - Signed(Wrap(b)) <==> DifferenceDefined(Wrap(a), Wrap(b))
    ensures DifferenceDefined(Wrap(a), Wrap(b)) <==>
              a / HALF == b / HALF || (if a < b then b / HALF else a / HALF) % 2 == 0
  {
    DiffExact(a, b);
    HalfWords(a);
    HalfWords(b);
    var i, j := a / HALF, b / HALF;
    assert i - 1 <= j <= i + 1;
  }

  lemma HalfWords(a: nat)
    ensures Signed(Wrap(a)) == a % HALF - (if (a / HALF) % 2 == 1 then HALF else 0)
    ensures a == HALF * (a / HALF) + a % HALF
  {
  }

  /** Until a cursor first comes near 2^63 no subtraction of the ring overflows. */
  lemma NoOverflowBelowHalf(c: Config, s: State, pos: nat)
    requires RingInv(c, s) && pos <= s.head && s.head + c.n < HALF
    ensures DifferenceDefined(Wrap(SlotOf(c, s, pos).stamp), Wrap(pos))
    ensures pos == s.consumer.tail ==> DifferenceDefined(Wrap(SlotOf(c, s, pos).stamp), Wrap(pos + 1))
  {
    StampRange(c, s, pos);
    SmallDefined(SlotOf(c, s, pos).stamp, pos);
    if pos == s.consumer.tail {
      SmallDefined(SlotOf(c, s, pos).stamp, pos + 1);
    }
  }

  lemma SmallDefined(a: nat, b: nat)
    requires a < HALF && b < HALF
    ensures DifferenceDefined(Wrap(a), Wrap(b))
  {
  }

  lemma WrapEqual(a: nat, b: nat)
    requires a - b < SIZE && b - a < SIZE
    ensures Wrap(a) == Wrap(b) <==> a == b
  {
    if Wrap(a) == Wrap(b) {
      SlotsDistinct(SIZE, a, b);
    }
  }

  /** How far the stamp of a slot can be from the position it is looked up for. */
  lemma StampRange(c: Config, s: State, pos: nat)
    requires RingInv(c, s) && pos <= s.head
    ensures pos - c.n <= SlotOf(c, s, pos).stamp <= s.head + c.n
  {
    if pos == s.consumer.freed + c.n {
      OwnStampMeansFree(c, s);
      assert InWindow(c, s, s.consumer.freed) && StampOk(c, s, s.consumer.freed);
    } else {
      var q := WindowTwin(c.n, s.consumer.freed, pos);
      assert InWindow(c, s, q) && StampOk(c, s, q);
      assert SlotOf(c, s, pos) == SlotOf(c, s, q);
    }
  }

  /** The enqueue loop over words takes the branch the state machine takes, and looks at the
      same slot, as long as a cursor value in use is less than 2^62 claims old. */
  lemma WordVerdict(c: Config, s: State, p: nat, k: nat)
    requires Drains(c) && Inv(c, s) && Enabled(c, s, ReadStamp(p))
    requires k <= 32 && c.n == Pow2(k) && s.head - s.producers[p].pos < HALF / 2
    ensures var me := s.producers[p];
      && And(Wrap(me.pos), c.n - 1) == me.pos % c.n
      && Diff(Wrap(SlotOf(c, s, me.pos).stamp), Wrap(me.pos)) == SlotOf(c, s, me.pos).stamp - me.pos
  {
    var pos := s.producers[p].pos;
    assert ProducerOk(c, s, p);
    StampRange(c, s, pos);
    StaleWords(SlotOf(c, s, pos).stamp, pos, c.n, k);
  }

  lemma StaleWords(stamp: nat, pos: nat, n: nat, k: nat)
    requires k <= 32 && n == Pow2(k) && pos - n <= stamp < pos + HALF / 2 + n
    ensures And(Wrap(pos), n - 1) == pos % n
    ensures Diff(Wrap(stamp), Wrap(pos)) == stamp - pos
  {
    WrapKeepsIndex(pos, k);
    Pow2Sizes();
    Pow2Monotone(k, 32);
    DiffExact(stamp, pos);
  }

  /** Under the same bound the compare-and-swap over words succeeds for the same states. */
  lemma WordCas(c: Config, s: State, p: nat)
    requires Drains(c) && Inv(c, s) && ProducerAt(s, p, TryClaim)
    requires s.head - s.producers[p].pos < HALF / 2
    ensures Wrap(s.head) == Wrap(s.producers[p].pos) <==> s.head == s.producers[p].pos
  {
    assert ProducerOk(c, s, p);
    WrapEqual(s.head, s.producers[p].pos);
  }

  /** The consumer's peek and free over words need no bound at all. */
  lemma WordPeek(c: Config, s: State, k: nat)
    requires Drains(c) && Inv(c, s) && k <= 32 && c.n == Pow2(k)
    ensures And(Wrap(s.consumer.tail), c.n - 1) == s.consumer.tail % c.n
    ensures Diff(Wrap(SlotOf(c, s, s.consumer.tail).stamp), Wrap(s.consumer.tail + 1)) == 0 <==>
              Ready(c, s, s.consumer.tail)
    ensures Wrap(Wrap(s.consumer.tail) + (c.n - 1) + 1) == Wrap(s.consumer.tail + c.n)
  {
    var tail := s.consumer.tail;
    StampRange(c, s, tail);
    PeekWords(SlotOf(c, s, tail).stamp, tail, c.n, k);
  }

  lemma PeekWords(stamp: nat, tail: nat, n: nat, k: nat)
    requires k <= 32 && n == Pow2(k) && tail - n <= stamp <= tail + 2 * n
    ensures And(Wrap(tail), n - 1) == tail % n
    ensures Diff(Wrap(stamp), Wrap(tail + 1)) == stamp - (tail + 1)
    ensures Wrap(Wrap(tail) + (n - 1) + 1) == Wrap(tail + n)
  {
    WrapKeepsIndex(tail, k);
    NearbyDiff(stamp, tail + 1, k);
    WrapAdd(tail, n);
  }

  lemma NearbyDiff(a: nat, b: nat, k: nat)
    requires k <= 32 && a - b <= 2 * Pow2(k) && b - a <= 2 * Pow2(k)
    ensures Diff(Wrap(a), Wrap(b)) == a - b
  {
    Pow2Sizes();
    Pow2Monotone(k, 32);
    DiffExact(a, b);
  }

  lemma WrapAdd(x: nat, d: nat)
    ensures Wrap(Wrap(x) + d) == Wrap(x + d)
  {
  }

  // ------------------------------------------------------------ the ring functions

  /** The slot of a position, q % n by repeated subtraction. */
  function SlotAt(q: nat, n: nat): (i: nat)
    requires n > 0
    ensures i < n
    decreases q
  {
    if q < n then q else SlotAt(q - n, n)
  }

  lemma {:induction false} SlotAtIsMod(q: nat, n: nat)
    requires n > 0
    ensures SlotAt(q, n) == q % n
    decreases q
  {
    if q < n {
      SmallMod(q, n);
    } else {
      SlotAtIsMod(q - n, n);
      AddLap(n, q - n);
    }
  }

  lemma SlotAtNextLap(q: nat, n: nat)
    requires n > 0
    ensures SlotAt(q + n, n) == SlotAt(q, n)
  {
  }

  /** Positions less than one lap apart have different slots. */
  lemma ApartSlots(n: nat, a: nat, b: nat)
    requires n > 0 && a < b < a + n
    ensures SlotAt(a, n) != SlotAt(b, n)
  {
    SlotAtIsMod(a, n);
    SlotAtIsMod(b, n);
    if a % n == b % n {
      SlotsDistinct(n, a, b);
    }
  }

  /** Names a position, so that what is known of its slot is only used where it is named. */
  predicate Position(q: nat) {
    true
  }

  /** Slots of the positions in [freed, claimed) are ready with the queued messages, those
      of the rest of the lap are free. */
  ghost predicate SlotsHold(stamps: seq<Word>, requests: seq<Request>, n: nat, freed: nat, claimed: nat,
                            queue: seq<Message>)
  {
    && |stamps| == |requests| == n && n > 0
    && freed <= claimed <= freed + n && |queue| == claimed - freed
    && (forall q: nat {:trigger Position(q)} | Position(q) && freed <= q < claimed ::
          stamps[SlotAt(q, n)] == Wrap(q + 1) && Read(requests[SlotAt(q, n)]) == queue[q - freed])
    && (forall q: nat {:trigger Position(q)} | Position(q) && claimed <= q < freed + n ::
          stamps[SlotAt(q, n)] == Wrap(q))
  }

  lemma FreshSlotsHold(stamps: seq<Word>, requests: seq<Request>, n: nat)
    requires |stamps| == |requests| == n && 0 < n < SIZE
    requires forall i :: 0 <= i < n ==> stamps[i] == i
    ensures SlotsHold(stamps, requests, n, 0, 0, [])
  {
    forall q: nat | q < n ensures stamps[SlotAt(q, n)] == Wrap(q) {
      SmallMod(q, SIZE);
    }
  }

  lemma PushHolds(stamps: seq<Word>, requests: seq<Request>, n: nat, freed: nat, claimed: nat,
                  queue: seq<Message>, req: Request)
    requires SlotsHold(stamps, requests, n, freed, claimed, queue) && claimed < freed + n
    ensures SlotsHold(stamps[SlotAt(claimed, n) := Wrap(claimed + 1)], requests[SlotAt(claimed, n) := req], n,
                      freed, claimed + 1, queue + [Read(req)])
  {
    forall q: nat | freed <= q < freed + n && q != claimed ensures SlotAt(q, n) != SlotAt(claimed, n) {
      if q < claimed {
        ApartSlots(n, q, claimed);
      } else {
        ApartSlots(n, claimed, q);
      }
    }
  }

  lemma PopHolds(stamps: seq<Word>, requests: seq<Request>, n: nat, freed: nat, claimed: nat, queue: seq<Message>)
    requires SlotsHold(stamps, requests, n, freed, claimed, queue) && freed < claimed
    ensures SlotsHold(stamps[SlotAt(freed, n) := Wrap(freed + n)], requests, n, freed + 1, claimed, queue[1..])
  {
    forall q: nat | freed < q < freed + n ensures SlotAt(q, n) != SlotAt(freed, n) {
      ApartSlots(n, freed, q);
    }
  }

  /** The words stand for the unbounded cursors, and the slots hold the queue. */
  ghost predicate RingOk(k: nat, n: nat, mask: Word, head: Word, tail: Word, stamps: seq<Word>, requests: seq<Request>,
                         freed: nat, claimed: nat, queue: seq<Message>)
  {
    && 1 <= k <= 32 && n == Pow2(k) && n == mask + 1
    && head == Wrap(claimed) && tail == Wrap(freed)
    && SlotsHold(stamps, requests, n, freed, claimed, queue)
  }

  lemma PushKeeps(k: nat, n: nat, mask: Word, head: Word, tail: Word, stamps: seq<Word>, requests: seq<Request>,
                  freed: nat, claimed: nat, queue: seq<Message>, req: Request, i: nat)
    requires RingOk(k, n, mask, head, tail, stamps, requests, freed, claimed, queue)
    requires claimed < freed + n && i == SlotAt(claimed, n)
    ensures i < |stamps| == |requests|
    ensures RingOk(k, n, mask, Wrap(head + 1), tail, stamps[i := Wrap(head + 1)], requests[i := req],
                   freed, claimed + 1, queue + [Read(req)])
  {
    WrapAdd(claimed, 1);
    PushHolds(stamps, requests, n, freed, claimed, queue, req);
  }

  lemma PopSlot(k: nat, n: nat, mask: Word, head: Word, tail: Word, stamps: seq<Word>, requests: seq<Request>,
                freed: nat, claimed: nat, queue: seq<Message>, i: nat, stamp: Word, next: Word)
    requires RingOk(k, n, mask, head, tail, stamps, requests, freed, claimed, queue) && queue != []
    requires i == SlotAt(freed, n) && stamp == Wrap(freed + n) && next == Wrap(freed + 1)
    ensures i < |stamps|
    ensures RingOk(k, n, mask, head, next, stamps[i := stamp], requests, freed + 1, claimed, queue[1..])
  {
    PopHolds(stamps, requests, n, freed, claimed, queue);
  }

  /** The words enqueue computes at the head, free or one lap ahead of an unfreed slot. */
  lemma HeadWords(k: nat, n: nat, freed: nat, claimed: nat)
    requires 1 <= k <= 32 && n == Pow2(k) && freed <= claimed <= freed + n
    ensures And(Wrap(claimed), n - 1) == SlotAt(claimed, n)
    ensures Diff(Wrap(claimed), Wrap(claimed)) == 0
    ensures claimed == freed + n ==> Diff(Wrap(freed + 1), Wrap(claimed)) < 0
  {
    WrapKeepsIndex(claimed, k);
    SlotAtIsMod(claimed, n);
    NearbyDiff(claimed, claimed, k);
    if claimed == freed + n {
      NearbyDiff(freed + 1, claimed, k);
    }
  }

  /** The words peek computes at the tail: ready and free differ by one. */
  lemma TailWords(k: nat, n: nat, freed: nat)
    requires 1 <= k <= 32 && n == Pow2(k)
    ensures And(Wrap(freed), n - 1) == SlotAt(freed, n)
    ensures Diff(Wrap(freed + 1), Wrap(Wrap(freed) + 1)) == 0
    ensures Diff(Wrap(freed), Wrap(Wrap(freed) + 1)) == -1
  {
    WrapKeepsIndex(freed, k);
    SlotAtIsMod(freed, n);
    WrapAdd(freed, 1);
    NearbyDiff(freed + 1, freed + 1, k);
    NearbyDiff(freed, freed + 1, k);
  }

  /** The words consume computes. */
  lemma FreeWords(k: nat, n: nat, freed: nat)
    requires 1 <= k <= 32 && n == Pow2(k)
    ensures And(Wrap(freed), n - 1) == SlotAt(freed, n)
    ensures Wrap(Wrap(freed) + (n - 1) + 1) == Wrap(freed + n) && Wrap(Wrap(freed) + 1) == Wrap(freed + 1)
  {
    WrapKeepsIndex(freed, k);
    SlotAtIsMod(freed, n);
    WrapAdd(freed, n);
    WrapAdd(freed, 1);
  }

  lemma PopKeeps(k: nat, n: nat, mask: Word, head: Word, tail: Word, stamps: seq<Word>, requests: seq<Request>,
                 freed: nat, claimed: nat, queue: seq<Message>)
    requires RingOk(k, n, mask, head, tail, stamps, requests, freed, claimed, queue) && queue != []
    ensures And(tail, mask) < |stamps|
    ensures RingOk(k, n, mask, head, Wrap(tail + 1), stamps[And(tail, mask) := Wrap(tail + mask + 1)], requests,
                   freed + 1, claimed, queue[1..])
  {
    FreeWords(k, n, freed);
    PopSlot(k, n, mask, head, tail, stamps, requests, freed, claimed, queue,
            And(tail, mask), Wrap(tail + mask + 1), Wrap(tail + 1));
    var after := stamps[And(tail, mask) := Wrap(tail + mask + 1)];
    var kept := RingOk(k, n, mask, head, Wrap(tail + 1), after, requests, freed + 1, claimed, queue[1..]);
    assert kept;
  }

  class Ring {
    const stamps: array<Word>
    const requests: array<Request>
    const mask: Word
    const name: string
    var head: Word
    var tail: Word
    ghost const k: nat
    ghost const n: nat            // the number of slots, 2^k
    ghost var claimed: nat        // head without its wrap-around
    ghost var freed: nat          // tail without its wrap-around
    ghost var queue: seq<Message> // accepted and not yet consumed

    ghost predicate Valid()
      reads this, stamps, requests
    {
      && stamps.Length == requests.Length == n && freed <= claimed
      && RingOk(k, n, mask, head, tail, stamps[..], requests[..], freed, claimed, queue)
    }

    /** As in the handlers' init: the configured size, an unsigned int, rounded up. */
    constructor (v: Word, name: string)
      requires v < 0x1_0000_0000
      ensures Valid() && queue == [] && this.name == name
      ensures IsLeastPow2(n, v) && fresh(stamps) && fresh(requests)
    {
      var size, e := RingSize(v);
      k, n := e, Pow2(e);
      stamps := new Word[size](_ => 0);
      requests := new Request[size](_ => Request(0, 0, "", "", seq(MSG_MAX, _ => 0)));
      mask := size - 1;
      this.name := name;
      head, tail := 0, 0;
      claimed, freed, queue := 0, 0, [];
      new;
      InitStamps(stamps);
      FreshSlotsHold(stamps[..], requests[..], n);
    }

    /** What enqueue reads at its own cursor. */
    lemma HeadSlot()
      requires Valid()
      ensures And(head, mask) == SlotAt(claimed, n)
      ensures Diff(stamps[SlotAt(claimed, n)], head) < 0 <==> claimed == freed + n
      ensures Diff(stamps[SlotAt(claimed, n)], head) <= 0
    {
      HeadWords(k, n, freed, claimed);
      assert Position(claimed);
      if claimed == freed + n {
        SlotAtNextLap(freed, n);
        assert Position(freed);
      }
    }

    /** The copy of a record into a claimed slot, byte by byte. */
    method FillSlot(i: nat, rec: Record)
      requires i < requests.Length
      modifies requests
      ensures Complete(requests[i], rec, name)
      ensures requests[i].level == rec.level && requests[i].line == rec.line
      ensures requests[i].file == rec.file && requests[i].handler == name
      ensures var m := if |rec.data| < 2047 then |rec.data| else 2047;
        requests[i].data[..m] == rec.data[..m] && requests[i].data[m] == 0
      ensures requests[..] == old(requests[..])[i := requests[i]]
    {
      var n := if |rec.data| < MSG_MAX - 1 then |rec.data| else MSG_MAX - 1;
      var d := requests[i].data;
      var j := 0;
      while j < n
        invariant 0 <= j <= n
        invariant forall l :: 0 <= l < j ==> d[l] == rec.data[l]
      {
        d := d[j := rec.data[j]];
        j := j + 1;
      }
      d := d[n := 0];
      requests[i] := Request(rec.level, rec.line, rec.file, name, d);
    }

    /** Write the record into the slot just claimed and publish it. */
    method Publish(i: nat, rec: Record)
      requires Valid() && claimed < freed + n && i == SlotAt(claimed, n)
      modifies this, stamps, requests
      ensures Valid() && freed == old(freed)
      ensures queue == old(queue) + [Accepted(Config(n, name, true, true, false), rec)]
      ensures DeliveredAs(name, rec, queue[|queue| - 1])
    {
      ghost var c := Config(n, name, true, true, false);
      ghost var was := requests[..];
      FillSlot(i, rec);
      ReadsAccepted(c, requests[i], rec);
      PushKeeps(k, n, mask, head, tail, stamps[..], was, freed, claimed, queue, requests[i], i);
      head := Wrap(head + 1);
      Store(i, head);
      claimed := claimed + 1;
      queue := queue + [Accepted(c, rec)];
      ghost var kept := RingOk(k, n, mask, head, tail, stamps[..], requests[..], freed, claimed, queue);
      assert kept;
    }

    /** lmk_ring_enqueue.  `spurious` bounds how often the weak compare-and-swap fails for
        no reason; with no other thread about it never fails for any other. */
    method Enqueue(rec: Record, spurious: nat) returns (ok: bool)
      requires Valid()
      modifies this, stamps, requests
      ensures Valid() && freed == old(freed)
      ensures ok <==> |old(queue)| < n
      ensures queue == if ok then old(queue) + [Accepted(Config(n, name, true, true, false), rec)] else old(queue)
      ensures ok ==> DeliveredAs(name, rec, queue[|queue| - 1])
      ensures !ok ==> unchanged(this, stamps, requests)
    {
      HeadSlot();
      var pos, left := head, spurious;
      while true
        invariant pos == head && Valid() && unchanged(this, stamps, requests)
        decreases left
      {
        var i := And(pos, mask);
        var diff := Diff(stamps[i], pos);
        if diff == 0 {
          if head == pos && left == 0 {
            Publish(i, rec);
            return true;
          }
          pos, left := head, left - 1;
        } else if diff < 0 {
          return false;
        } else {
          assert false;
        }
      }
    }

    /** lmk_ring_peek_slot. */
    method Peek() returns (ready: bool, i: nat)
      requires Valid()
      ensures i < requests.Length && (ready <==> queue != [])
      ensures ready ==> Read(requests[i]) == queue[0]
    {
      TailSlot();
      assert Position(freed);
      i := And(tail, mask);
      ready := Diff(stamps[i], Wrap(tail + 1)) == 0;
    }

    /** What the consumer reads at its own cursor. */
    lemma TailSlot()
      requires Valid()
      ensures And(tail, mask) == SlotAt(freed, n)
      ensures Diff(stamps[SlotAt(freed, n)], Wrap(tail + 1)) == 0 <==> freed < claimed
    {
      TailWords(k, n, freed);
      assert Position(freed);
    }

    /** The release store of a stamp. */
    method Store(i: nat, stamp: Word)
      requires i < stamps.Length
      modifies stamps
      ensures stamps[..] == old(stamps[..])[i := stamp]
    {
      stamps[i] := stamp;
    }

    /** lmk_ring_consume. */
    method Release()
      requires Valid() && queue != []
      modifies this, stamps
      ensures Valid() && claimed == old(claimed) && queue == old(queue)[1..]
    {
      PopKeeps(k, n, mask, head, tail, stamps[..], requests[..], freed, claimed, queue);
      var pos := tail;
      Store(And(pos, mask), Wrap(pos + mask + 1));
      tail := Wrap(pos + 1);
      freed := freed + 1;
      queue := queue[1..];
      ghost var kept := RingOk(k, n, mask, head, tail, stamps[..], requests[..], freed, claimed, queue);
      assert kept;
    }
  }

  method RingSize(v: Word) returns (size: Word, ghost e: nat)
    requires v < 0x1_0000_0000
    ensures 1 <= e <= 32 && size == Pow2(e) < SIZE && IsLeastPow2(size, v)
  {
    Pow2Sizes();
    size := NextPow2(v);
    e :| e >= 1 && size == Pow2(e) && IsLeastPow2(size, v);
    assert size <= Pow2(32);
    if e > 32 {
      Pow2Monotone(33, e);
    }
  }

  /** lmk_ring_init. */
  method InitStamps(stamps: array<Word>)
    requires stamps.Length <= SIZE
    modifies stamps
    ensures forall i :: 0 <= i < stamps.Length ==> stamps[i] == i
  {
    var i := 0;
    while i < stamps.Length
      invariant 0 <= i <= stamps.Length
      invariant forall j :: 0 <= j < i ==> stamps[j] == j
    {
      stamps[i] := i;
      i := i + 1;
    }
  }
}

/**
 fmtlog's variable-size queue between one logging thread and the polling thread, as a
 state machine whose steps are single loads and stores.  A message takes a run of 8-byte
 blocks; the first word of its first block is its size, published last.  Size 0 ends the
 written part, size 1 tells the reader to continue at block 0.
 */
module SpscQueue {

  /** The two 32-bit words of a block: in a header they are `size` and `logId`. */
  datatype Block = Block(size: nat, rest: nat)

  const HEADER: nat := 8
  const WRAP: nat := 1

  /** A pushed message: all its blocks, header included. */
  type Item = seq<Block>

  function BlocksOf(bytes: nat): nat {
    (bytes + HEADER - 1) / HEADER
  }

  datatype WriterPc =
    | Ready                          // between calls
    | LoadRead(sz: nat)              // the cached count is too small, about to load read_idx
    | ClearFirst(sz: nat, seen: nat) // wrapping: about to store blk[0].size = 0
    | Mark(sz: nat, seen: nat)       // wrapping: about to store blk[write_idx].size = 1
    | Terminate(sz: nat)             // space found, about to store the size 0 behind the message
    | Filling(sz: nat, at: nat)      // alloc has returned blk[at]; writing the message

  datatype ReaderPc =
    | Idle
    | Follow              // front has seen the marker, about to store read_idx = 0
    | Reload              // about to load blk[0].size
    | Holding             // front has returned blk[read_idx]
    | Popping(blocks: nat) // pop has computed the length, about to store read_idx

  /** `front` and `back` are histories: the unread messages before and after the marker. */
  datatype State = State(
    blk: seq<Block>,
    writeIdx: nat,
    freeCount: nat,
    readIdx: nat,
    writer: WriterPc,
    reader: ReaderPc,
    marker: int,
    front: seq<Item>,
    back: seq<Item>)

  const NO_MARKER := -1

  ghost predicate Init(s: State) {
    && |s.blk| >= 1 && (forall i :: 0 <= i < |s.blk| ==> s.blk[i].size == 0)
    && s.writeIdx == 0 && s.freeCount == |s.blk| && s.readIdx == 0
    && s.writer == Ready && s.reader == Idle
    && s.marker == NO_MARKER && s.front == [] && s.back == []
  }

  /** The unread messages, oldest first. */
  function Items(s: State): seq<Item> {
    s.front + s.back
  }

  function Need(sz: nat): nat {
    BlocksOf(sz + HEADER)
  }

  datatype Step =
    | Alloc(sz: nat) | ReadIndex | StoreFirst | StoreMarker | StoreEnd
    | FillBlock(i: nat, b: Block) | FillRest(rest: nat) | Push
    | Front | FollowMarker | FrontAgain | Pop | StoreRead

  /** alloc is only ever given sizes whose block arithmetic stays within 32 bits. */
  predicate Enabled(s: State, x: Step) {
    match x
    case Alloc(sz) => s.writer == Ready && sz + 2 * HEADER <= 0x1_0000_0000
    case ReadIndex => s.writer.LoadRead?
    case StoreFirst => s.writer.ClearFirst? && 0 < |s.blk|
    case StoreMarker => s.writer.Mark? && s.writeIdx < |s.blk|
    case StoreEnd => s.writer.Terminate? && s.writeIdx + Need(s.writer.sz) < |s.blk| && Need(s.writer.sz) <= s.freeCount
    case FillBlock(i, _) => s.writer.Filling? && s.writer.at < i < s.writer.at + Need(s.writer.sz) <= |s.blk|
    case FillRest(_) => s.writer.Filling? && s.writer.at < |s.blk|
    case Push => s.writer.Filling? && s.writer.at + Need(s.writer.sz) <= |s.blk| && 0 < Need(s.writer.sz)
    case Front => s.reader == Idle && s.readIdx < |s.blk|
    case FollowMarker => s.reader == Follow
    case FrontAgain => s.reader == Reload && 0 < |s.blk|
    case Pop => s.reader == Holding && s.readIdx < |s.blk|
    case StoreRead => s.reader.Popping?
  }

  /** The last test of alloc: more than `need` blocks must be free, one for the end mark. */
  function Settle(s: State, sz: nat): State {
    s.(writer := if s.freeCount <= Need(sz) then Ready else Terminate(sz))
  }

  function Apply(s: State, x: Step): State
    requires Enabled(s, x)
  {
    match x
    case Alloc(sz) =>
      s.(writer := if Need(sz) >= s.freeCount then LoadRead(sz) else Terminate(sz))
    case ReadIndex =>
      var sz := s.writer.sz;
      if s.readIdx <= s.writeIdx then
        var free := if s.writeIdx <= |s.blk| then |s.blk| - s.writeIdx else 0;
        var t := s.(freeCount := free);
        if Need(sz) >= free && s.readIdx != 0 then t.(writer := ClearFirst(sz, s.readIdx))
        else Settle(t, sz)
      else Settle(s.(freeCount := s.readIdx - s.writeIdx), sz)
    case StoreFirst =>
      s.(blk := s.blk[0 := s.blk[0].(size := 0)], writer := Mark(s.writer.sz, s.writer.seen))
    case StoreMarker =>
      Settle(
        s.(blk := s.blk[s.writeIdx := s.blk[s.writeIdx].(size := WRAP)],
           writeIdx := 0, freeCount := s.writer.seen, marker := s.writeIdx),
        s.writer.sz)
    case StoreEnd =>
      var n := Need(s.writer.sz);
      var end := s.writeIdx + n;
      s.(blk := s.blk[end := s.blk[end].(size := 0)],
         writeIdx := end, freeCount := s.freeCount - n,
         writer := Filling(s.writer.sz, s.writeIdx))
    case FillBlock(i, b) => s.(blk := s.blk[i := b])
    case FillRest(rest) => s.(blk := s.blk[s.writer.at := s.blk[s.writer.at].(rest := rest)])
    case Push =>
      var at, n := s.writer.at, Need(s.writer.sz);
      var blk := s.blk[at := s.blk[at].(size := s.writer.sz + HEADER)];
      var t := s.(blk := blk, writer := Ready);
      if s.marker == NO_MARKER then t.(front := s.front + [blk[at..at + n]])
      else t.(back := s.back + [blk[at..at + n]])
    case Front =>
      var size := s.blk[s.readIdx].size;
      s.(reader := if size == WRAP then Follow else if size == 0 then Idle else Holding)
    case FollowMarker =>
      s.(readIdx := 0, reader := Reload, marker := NO_MARKER, front := s.front + s.back, back := [])
    case FrontAgain => s.(reader := if s.blk[0].size == 0 then Idle else Holding)
    case Pop => s.(reader := Popping(BlocksOf(s.blk[s.readIdx].size)))
    case StoreRead =>
      s.(readIdx := s.readIdx + s.reader.blocks, reader := Idle,
         front := if s.front == [] then [] else s.front[1..])
  }

  ghost predicate Run(s: State, steps: seq<Step>, t: State)
    decreases |steps|
  {
    if steps == [] then s == t else Enabled(s, steps[0]) && Run(Apply(s, steps[0]), steps[1..], t)
  }

  // ---------------------------------------------------------------- invariant

  function Flat(items: seq<Item>): seq<Block> {
    if items == [] then [] else items[0] + Flat(items[1..])
  }

  /** A message is as long as its header says, so its size is never 0 or the marker. */
  predicate ItemOk(m: Item) {
    |m| >= 1 && m[0].size >= HEADER && |m| == BlocksOf(m[0].size)
  }

  /** Blocks [lo, hi) hold exactly these messages, back to back. */
  ghost predicate Holds(blk: seq<Block>, items: seq<Item>, lo: nat, hi: nat) {
    && lo <= hi <= |blk| && blk[lo..hi] == Flat(items)
    && (forall i :: 0 <= i < |items| ==> ItemOk(items[i]))
  }

  /** Where the next message to be pushed starts. */
  function Tip(s: State): nat {
    if s.writer.Filling? then s.writer.at else s.writeIdx
  }

  /** First block the writer may not touch. */
  function Limit(s: State): nat {
    if s.marker == NO_MARKER then |s.blk| else s.readIdx
  }

  ghost predicate Inv(s: State) {
    && s.marker >= NO_MARKER
    && s.freeCount >= 1 && Tip(s) <= s.writeIdx && s.writeIdx + s.freeCount <= Limit(s) <= |s.blk|
    && s.blk[Tip(s)].size == 0 && s.blk[s.writeIdx].size == 0
    && (s.marker == NO_MARKER ==>
          s.back == [] && Holds(s.blk, s.front, s.readIdx, Tip(s)))
    && (s.marker != NO_MARKER ==>
          && s.marker < |s.blk| && s.blk[s.marker].size == WRAP
          && Holds(s.blk, s.front, s.readIdx, s.marker) && Holds(s.blk, s.back, 0, Tip(s)))
    && WriterOk(s) && ReaderOk(s)
  }

  predicate WriterOk(s: State) {
    match s.writer
    case Ready => true
    case LoadRead(_) => true
    case ClearFirst(_, seen) => s.marker == NO_MARKER && 0 < seen <= s.readIdx && seen <= s.writeIdx
    case Mark(_, seen) =>
      s.marker == NO_MARKER && 0 < seen <= s.readIdx && seen <= s.writeIdx && 0 < |s.blk| && s.blk[0].size == 0
    case Terminate(sz) => Need(sz) < s.freeCount
    case Filling(sz, at) => at + Need(sz) == s.writeIdx
  }

  predicate ReaderOk(s: State) {
    match s.reader
    case Idle => true
    case Follow => s.marker != NO_MARKER && s.front == []
    case Reload => s.readIdx == 0 && s.marker == NO_MARKER
    case Holding => s.front != []
    case Popping(n) => s.front != [] && n == |s.front[0]|
  }

  lemma NeedOk(sz: nat)
    ensures Need(sz) >= 2 || (sz == 0 && Need(sz) == 1)
    ensures Need(sz) == BlocksOf(sz + HEADER)
  {
  }

  lemma {:induction false} FlatAppend(items: seq<Item>, m: Item)
    ensures Flat(items + [m]) == Flat(items) + m
  {
    if items == [] {
      assert [m][1..] == [];
    } else {
      assert (items + [m])[1..] == items[1..] + [m];
      FlatAppend(items[1..], m);
    }
  }

  /** Writes outside [lo, hi) are invisible to what it holds. */
  lemma HoldsFrame(a: seq<Block>, b: seq<Block>, items: seq<Item>, lo: nat, hi: nat)
    requires Holds(a, items, lo, hi) && |a| == |b|
    requires forall i :: lo <= i < hi ==> a[i] == b[i]
    ensures Holds(b, items, lo, hi)
  {
    assert a[lo..hi] == b[lo..hi];
  }

  lemma HoldsPush(blk: seq<Block>, items: seq<Item>, lo: nat, mid: nat, hi: nat)
    requires Holds(blk, items, lo, mid) && mid <= hi <= |blk| && ItemOk(blk[mid..hi])
    ensures Holds(blk, items + [blk[mid..hi]], lo, hi)
  {
    FlatAppend(items, blk[mid..hi]);
    assert blk[lo..hi] == blk[lo..mid] + blk[mid..hi];
  }

  /** The first message starts at lo, and without it the rest starts behind it. */
  lemma HoldsFirst(blk: seq<Block>, items: seq<Item>, lo: nat, hi: nat)
    requires Holds(blk, items, lo, hi) && items != []
    ensures lo + |items[0]| <= hi && blk[lo..lo + |items[0]|] == items[0]
    ensures blk[lo].size == items[0][0].size
    ensures Holds(blk, items[1..], lo + |items[0]|, hi)
  {
    var n := |items[0]|;
    assert |blk[lo..hi]| == n + |Flat(items[1..])|;
    assert blk[lo..lo + n] == blk[lo..hi][..n] == items[0];
    assert blk[lo + n..hi] == blk[lo..hi][n..] == Flat(items[1..]);
    assert blk[lo] == blk[lo..lo + n][0];
  }

  // ------------------------------------------------------------- preservation

  lemma WriterLocalStepOk(s: State, x: Step)
    requires Inv(s) && Enabled(s, x) && (x.Alloc? || x.ReadIndex?)
    ensures Inv(Apply(s, x))
  {
  }

  lemma StoreFirstOk(s: State)
    requires Inv(s) && Enabled(s, StoreFirst)
    ensures Inv(Apply(s, StoreFirst))
  {
    HoldsFrame(s.blk, Apply(s, StoreFirst).blk, s.front, s.readIdx, Tip(s));
  }

  lemma StoreMarkerOk(s: State)
    requires Inv(s) && Enabled(s, StoreMarker)
    ensures Inv(Apply(s, StoreMarker))
  {
    HoldsFrame(s.blk, Apply(s, StoreMarker).blk, s.front, s.readIdx, Tip(s));
  }

  /** Stores into the free part keep both runs of unread messages. */
  lemma FreeStoreKeeps(s: State, i: nat, b: Block)
    requires Inv(s) && Tip(s) <= i < Limit(s)
    ensures s.marker == NO_MARKER ==> Holds(s.blk[i := b], s.front, s.readIdx, Tip(s))
    ensures s.marker != NO_MARKER ==> i != s.marker && Holds(s.blk[i := b], s.front, s.readIdx, s.marker)
    ensures s.marker != NO_MARKER ==> Holds(s.blk[i := b], s.back, 0, Tip(s))
  {
    if s.marker == NO_MARKER {
      HoldsFrame(s.blk, s.blk[i := b], s.front, s.readIdx, Tip(s));
    } else {
      HoldsFrame(s.blk, s.blk[i := b], s.front, s.readIdx, s.marker);
      HoldsFrame(s.blk, s.blk[i := b], s.back, 0, Tip(s));
    }
  }

  lemma StoreEndOk(s: State)
    requires Inv(s) && Enabled(s, StoreEnd)
    ensures Inv(Apply(s, StoreEnd))
  {
    var end := s.writeIdx + Need(s.writer.sz);
    NeedOk(s.writer.sz);
    FreeStoreKeeps(s, end, s.blk[end].(size := 0));
  }

  lemma FillOk(s: State, x: Step)
    requires Inv(s) && Enabled(s, x) && (x.FillBlock? || x.FillRest?)
    ensures Inv(Apply(s, x))
  {
    var i := if x.FillBlock? then x.i else s.writer.at;
    NeedOk(s.writer.sz);
    FreeStoreKeeps(s, i, Apply(s, x).blk[i]);
  }

  /** Publishing the size makes the blocks of the message one more item. */
  lemma PushHeld(s: State, items: seq<Item>, lo: nat)
    requires Inv(s) && Enabled(s, Push)
    requires Holds(Apply(s, Push).blk, items, lo, s.writer.at)
    ensures var at, blk := s.writer.at, Apply(s, Push).blk;
      Holds(blk, items + [blk[at..at + Need(s.writer.sz)]], lo, s.writeIdx)
  {
    var at, n := s.writer.at, Need(s.writer.sz);
    var blk := Apply(s, Push).blk;
    NeedOk(s.writer.sz);
    assert blk[at..at + n][0] == blk[at];
    HoldsPush(blk, items, lo, at, at + n);
  }

  lemma PushOk(s: State)
    requires Inv(s) && Enabled(s, Push)
    ensures Inv(Apply(s, Push))
  {
    NeedOk(s.writer.sz);
    FreeStoreKeeps(s, s.writer.at, Apply(s, Push).blk[s.writer.at]);
    if s.marker == NO_MARKER {
      PushHeld(s, s.front, s.readIdx);
    } else {
      PushHeld(s, s.back, 0);
    }
  }

  /** The oldest unread message before the marker lies at the read index. */
  lemma FirstHeld(s: State)
    requires Inv(s) && s.front != []
    ensures ItemOk(s.front[0]) && s.readIdx + |s.front[0]| <= |s.blk|
    ensures s.blk[s.readIdx..s.readIdx + |s.front[0]|] == s.front[0]
    ensures s.blk[s.readIdx].size == s.front[0][0].size
  {
    HoldsFirst(s.blk, s.front, s.readIdx, if s.marker == NO_MARKER then Tip(s) else s.marker);
  }

  lemma ReaderLookOk(s: State, x: Step)
    requires Inv(s) && Enabled(s, x) && (x.Front? || x.FrontAgain? || x.Pop?)
    ensures Inv(Apply(s, x))
  {
    if s.front != [] {
      FirstHeld(s);
    }
  }

  lemma FollowMarkerOk(s: State)
    requires Inv(s) && Enabled(s, FollowMarker)
    ensures Inv(Apply(s, FollowMarker))
  {
    assert s.front + s.back == s.back;
  }

  lemma StoreReadOk(s: State)
    requires Inv(s) && Enabled(s, StoreRead)
    ensures Inv(Apply(s, StoreRead))
  {
    HoldsFirst(s.blk, s.front, s.readIdx, if s.marker == NO_MARKER then Tip(s) else s.marker);
  }

  /** Every load and store of either thread keeps the invariant. */
  lemma StepOk(s: State, x: Step)
    requires Inv(s) && Enabled(s, x)
    ensures Inv(Apply(s, x))
  {
    match x
    case Alloc(_) => WriterLocalStepOk(s, x);
    case ReadIndex => WriterLocalStepOk(s, x);
    case StoreFirst => StoreFirstOk(s);
    case StoreMarker => StoreMarkerOk(s);
    case StoreEnd => StoreEndOk(s);
    case FillBlock(_, _) => FillOk(s, x);
    case FillRest(_) => FillOk(s, x);
    case Push => PushOk(s);
    case FollowMarker => FollowMarkerOk(s);
    case StoreRead => StoreReadOk(s);
    case _ => ReaderLookOk(s, x);
  }

  lemma InitOk(s: State)
    requires Init(s)
    ensures Inv(s)
  {
  }

  lemma {:induction false} RunOk(s: State, steps: seq<Step>, t: State)
    requires Inv(s) && Run(s, steps, t)
    ensures Inv(t)
    decreases |steps|
  {
    if steps != [] {
      StepOk(s, steps[0]);
      RunOk(Apply(s, steps[0]), steps[1..], t);
    }
  }

  // ------------------------------------------------------------------ theorems

  /** Whatever either thread is about to do stays inside the array: no bound in Enabled ever
      stands in its way. */
  ghost predicate StaysInside(s: State) {
    && (s.writer.LoadRead? ==> Enabled(s, ReadIndex))
    && (s.writer.ClearFirst? ==> Enabled(s, StoreFirst))
    && (s.writer.Mark? ==> Enabled(s, StoreMarker))
    && (s.writer.Terminate? ==> Enabled(s, StoreEnd))
    && (s.writer.Filling? ==> Enabled(s, FillRest(0)) && Enabled(s, Push))
    && (s.writer.Filling? ==>
          forall i, b | s.writer.at < i < s.writer.at + Need(s.writer.sz) :: Enabled(s, FillBlock(i, b)))
    && (s.reader == Idle ==> Enabled(s, Front))
    && (s.reader == Follow ==> Enabled(s, FollowMarker))
    && (s.reader == Reload ==> Enabled(s, FrontAgain))
    && (s.reader == Holding ==> Enabled(s, Pop))
    && (s.reader.Popping? ==> Enabled(s, StoreRead))
  }

  lemma WriterStaysInside(s: State)
    requires Inv(s)
    ensures StaysInside(s)
  {
    if s.writer.Terminate? || s.writer.Filling? {
      NeedOk(s.writer.sz);
    }
  }

  /** In every reachable state the layout is intact and the next access of either thread,
      whatever the other one has done, is inside the array. */
  lemma ReachableOk(s0: State, steps: seq<Step>, s: State)
    requires Init(s0) && Run(s0, steps, s)
    ensures Inv(s) && StaysInside(s)
  {
    InitOk(s0);
    RunOk(s0, steps, s);
    WriterStaysInside(s);
  }

  /** What a step does to the queue of unread messages: push appends the blocks as written,
      the store of pop removes the oldest message, everything else leaves it alone. */
  lemma StepRefinesFifo(s: State, x: Step)
    requires Inv(s) && Enabled(s, x)
    ensures Inv(Apply(s, x))
    ensures Items(Apply(s, x)) ==
              if x.Push? then Items(s) + [Apply(s, x).blk[s.writer.at..s.writer.at + Need(s.writer.sz)]]
              else if x.StoreRead? then Items(s)[1..]
              else Items(s)
  {
    StepOk(s, x);
    if x.Push? {
      PushAppends(s);
    } else if x.StoreRead? {
      PopRemovesFirst(s);
    } else {
      OthersKeepItems(s, x);
    }
  }

  lemma PushAppends(s: State)
    requires Enabled(s, Push) && (s.marker == NO_MARKER ==> s.back == [])
    ensures Items(Apply(s, Push)) == Items(s) + [Apply(s, Push).blk[s.writer.at..s.writer.at + Need(s.writer.sz)]]
  {
  }

  lemma PopRemovesFirst(s: State)
    requires Enabled(s, StoreRead) && s.front != []
    ensures Items(Apply(s, StoreRead)) == Items(s)[1..]
  {
    assert Items(s)[1..] == s.front[1..] + s.back;
  }

  lemma OthersKeepItems(s: State, x: Step)
    requires Enabled(s, x) && !x.Push? && !x.StoreRead?
    ensures Items(Apply(s, x)) == Items(s)
  {
  }

  /** What a step pushes: the blocks as they are when their size is published. */
  function PushedBy(s: State, x: Step): seq<Item>
    requires Enabled(s, x)
  {
    if x.Push? then [Apply(s, x).blk[s.writer.at..s.writer.at + Need(s.writer.sz)]] else []
  }

  /** What a step pops: the blocks the reader steps over, as they are then. */
  function PoppedBy(s: State, x: Step): seq<Item> {
    if x.StoreRead? && s.reader.Popping? && s.readIdx + s.reader.blocks <= |s.blk|
    then [s.blk[s.readIdx..s.readIdx + s.reader.blocks]] else []
  }

  function Pushed(s: State, steps: seq<Step>): seq<Item>
    decreases |steps|
  {
    if steps == [] || !Enabled(s, steps[0]) then []
    else PushedBy(s, steps[0]) + Pushed(Apply(s, steps[0]), steps[1..])
  }

  function Popped(s: State, steps: seq<Step>): seq<Item>
    decreases |steps|
  {
    if steps == [] || !Enabled(s, steps[0]) then []
    else PoppedBy(s, steps[0]) + Popped(Apply(s, steps[0]), steps[1..])
  }

  lemma {:induction false} RunRefinesFifo(s: State, steps: seq<Step>, t: State)
    requires Inv(s) && Run(s, steps, t)
    ensures Items(s) + Pushed(s, steps) == Popped(s, steps) + Items(t)
    decreases |steps|
  {
    if steps == [] {
      assert Items(s) + [] == [] + Items(s);
    } else {
      var u := Apply(s, steps[0]);
      StepOk(s, steps[0]);
      StepBalances(s, steps[0]);
      RunRefinesFifo(u, steps[1..], t);
      Chained(Items(s), PushedBy(s, steps[0]), PoppedBy(s, steps[0]), Items(u),
              Pushed(u, steps[1..]), Popped(u, steps[1..]), Items(t));
    }
  }

  lemma Chained<T>(a: seq<T>, p: seq<T>, o: seq<T>, b: seq<T>, p': seq<T>, o': seq<T>, d: seq<T>)
    requires a + p == o + b && b + p' == o' + d
    ensures a + (p + p') == (o + o') + d
  {
    assert a + (p + p') == (a + p) + p' == (o + b) + p' == o + (b + p') == o + (o' + d);
  }

  /** One step: what is unread and pushed is what is popped and unread. */
  lemma StepBalances(s: State, x: Step)
    requires Inv(s) && Enabled(s, x)
    ensures Items(s) + PushedBy(s, x) == PoppedBy(s, x) + Items(Apply(s, x))
  {
    StepRefinesFifo(s, x);
    if x.StoreRead? {
      PopsFirst(s);
    }
  }

  lemma PopsFirst(s: State)
    requires Inv(s) && Enabled(s, StoreRead)
    ensures Items(s) != [] && PoppedBy(s, StoreRead) == [Items(s)[0]]
  {
    FirstHeld(s);
  }

  /** From the empty queue, over every interleaving: the blocks the reader stepped over,
      followed by what is unread, are the messages pushed, whole, once each and in order. */
  lemma PoppedInPushOrder(s0: State, steps: seq<Step>, s: State)
    requires Init(s0) && Run(s0, steps, s)
    ensures Popped(s0, steps) + Items(s) == Pushed(s0, steps)
  {
    InitOk(s0);
    RunRefinesFifo(s0, steps, s);
    assert Items(s0) + Pushed(s0, steps) == Pushed(s0, steps);
  }

  /** front returns null exactly when nothing is unread at its last load, and otherwise
      points at the oldest unread message, all of whose blocks are as they were pushed. */
  lemma FrontIsOldest(s: State, x: Step)
    requires Inv(s) && Enabled(s, x) && (x.Front? || x.FrontAgain?)
    ensures var t := Apply(s, x);
      && (t.reader == Idle <==> (if x.Front? then Items(s) == [] && s.marker == NO_MARKER else Items(s) == []))
      && (t.reader == Follow <==> x.Front? && s.front == [] && s.marker != NO_MARKER)
      && (t.reader == Holding ==>
            && Items(s) != [] && s.readIdx + |Items(s)[0]| <= |s.blk|
            && s.blk[s.readIdx..s.readIdx + |Items(s)[0]|] == Items(s)[0])
  {
    if s.front != [] {
      FirstHeld(s);
    }
  }

  /** While the reader holds a message no step of the writer changes a block of it. */
  lemma HeldMessageStable(s: State, x: Step)
    requires Inv(s) && Enabled(s, x) && !x.StoreRead?
    requires s.reader == Holding || s.reader.Popping?
    ensures var t := Apply(s, x);
      && Items(t) != [] && Items(s) != [] && Items(t)[0] == Items(s)[0] && t.readIdx == s.readIdx
      && t.readIdx + |Items(s)[0]| <= |t.blk|
      && t.blk[t.readIdx..t.readIdx + |Items(s)[0]|] == Items(s)[0]
  {
    StepOk(s, x);
    OldestStays(s, x);
    OldestHeld(Apply(s, x));
  }

  lemma OldestHeld(s: State)
    requires Inv(s) && s.front != []
    ensures Items(s) != [] && Items(s)[0] == s.front[0]
    ensures s.readIdx + |s.front[0]| <= |s.blk| && s.blk[s.readIdx..s.readIdx + |s.front[0]|] == s.front[0]
  {
    FirstHeld(s);
  }

  lemma OldestStays(s: State, x: Step)
    requires Enabled(s, x) && !x.StoreRead? && s.front != []
    requires s.reader == Holding || s.reader.Popping?
    ensures Apply(s, x).front != [] && Apply(s, x).front[0] == s.front[0] && Apply(s, x).readIdx == s.readIdx
  {
  }

  /** A block handed out by alloc lies inside the array and apart from everything unread;
      the writer's cached count never promises more than is free. */
  lemma AllocIsSafe(s: State)
    requires Inv(s) && s.writer.Filling?
    ensures s.writer.sz + 8 <= 8 * (s.writeIdx - s.writer.at) < s.writer.sz + 16
    ensures s.writer.at + Need(s.writer.sz) == s.writeIdx < s.writeIdx + s.freeCount <= |s.blk|
    ensures s.marker == NO_MARKER ==> s.readIdx + |Flat(Items(s))| == s.writer.at
    ensures s.marker != NO_MARKER ==>
              && |Flat(s.back)| == s.writer.at && s.writeIdx + s.freeCount <= s.readIdx
              && s.readIdx + |Flat(s.front)| == s.marker < |s.blk|
  {
    assert s.front + [] == s.front;
  }

  /** pop steps over the blocks that the size in the header fills, the last one perhaps in
      part. */
  lemma PopLength(s: State)
    requires Inv(s) && s.reader.Popping?
    ensures s.readIdx < |s.blk| && s.blk[s.readIdx].size <= 8 * s.reader.blocks < s.blk[s.readIdx].size + 8
  {
    FirstHeld(s);
  }

  /** push publishes the size asked of alloc and the header's own 8 bytes. */
  lemma PushedSize(s: State)
    requires Inv(s) && Enabled(s, Push)
    ensures PushedBy(s, Push) != [] && PushedBy(s, Push)[0] != []
    ensures PushedBy(s, Push)[0][0].size == s.writer.sz + 8
    ensures s.writer.sz + 8 <= 8 * |PushedBy(s, Push)[0]| < s.writer.sz + 16
  {
    NeedOk(s.writer.sz);
  }

  /** What the writer puts into its block stays there until it is pushed. */
  lemma FilledStays(s: State, x: Step, i: nat)
    requires Inv(s) && Enabled(s, x) && s.writer.Filling? && s.writer.at <= i < s.writeIdx
    ensures i < |s.blk| == |Apply(s, x).blk|
    ensures var b := Apply(s, x).blk[i];
      match x
      case FillBlock(k, put) => b == if k == i then put else s.blk[i]
      case FillRest(rest) => b == if i == s.writer.at then Block(s.blk[i].size, rest) else s.blk[i]
      case Push => b == if i == s.writer.at then Block(s.writer.sz + 8, s.blk[i].rest) else s.blk[i]
      case _ => b == s.blk[i]
  {
  }

  /** The longest free run a message could go into, behind the write index or at the front;
      one block of it is needed for the end mark. */
  function LongestRun(s: State): int {
    var behind := Limit(s) - s.writeIdx;
    if s.marker == NO_MARKER && s.readIdx > behind then s.readIdx else behind
  }

  /** The call of alloc for sz has failed, has found space, or is wrapping with a run that
      settles it; `room` was the longest run when it loaded read_idx. */
  predicate Deciding(s: State, sz: nat, room: int) {
    match s.writer
    case Ready => room <= Need(sz)
    case Terminate(z) => z == sz && room > Need(sz)
    case ClearFirst(z, seen) => z == sz && (seen > Need(sz) <==> room > Need(sz))
    case Mark(z, seen) => z == sz && (seen > Need(sz) <==> room > Need(sz))
    case _ => false
  }

  lemma LoadDecides(s: State)
    requires Inv(s) && Enabled(s, ReadIndex)
    ensures Deciding(Apply(s, ReadIndex), s.writer.sz, LongestRun(s))
  {
  }

  lemma {:induction false} DecidingAlongRun(s: State, steps: seq<Step>, t: State, sz: nat, room: int)
    requires Deciding(s, sz, room) && Run(s, steps, t)
    requires forall i :: 0 <= i < |steps| ==> !steps[i].Alloc? && !steps[i].StoreEnd?
    ensures Deciding(t, sz, room)
    decreases |steps|
  {
    if steps != [] {
      DecidingAlongRun(Apply(s, steps[0]), steps[1..], t, sz, room);
    }
  }

  /** A call of alloc that has to load read_idx fails if and only if at that load neither the
      blocks behind the write index, up to the end or to the reader, nor, before wrapping,
      those in front of the reader were more than the message fills, whatever the reader does
      until the call is decided. */
  lemma AllocVerdictExact(s: State, steps: seq<Step>, t: State)
    requires Inv(s) && Enabled(s, ReadIndex) && Run(Apply(s, ReadIndex), steps, t)
    requires forall i :: 0 <= i < |steps| ==> !steps[i].Alloc? && !steps[i].StoreEnd?
    ensures var fills := (s.writer.sz + 15) / 8;
      var behind := (if s.marker == NO_MARKER then |s.blk| else s.readIdx) - s.writeIdx;
      var room := behind > fills || (s.marker == NO_MARKER && s.readIdx > fills);
      && (t.writer == Ready ==> !room)
      && (t.writer.Terminate? ==> room)
    ensures t.writer == Ready || t.writer.Terminate? || t.writer.ClearFirst? || t.writer.Mark?
  {
    LoadDecides(s);
    DecidingAlongRun(Apply(s, ReadIndex), steps, t, s.writer.sz, LongestRun(s));
  }

  /** A call that trusts its cached count never gets less than it was promised. */
  lemma CachedVerdictSound(s: State, sz: nat)
    requires Inv(s) && Enabled(s, Alloc(sz)) && Apply(s, Alloc(sz)).writer.Terminate?
    ensures Need(sz) < s.freeCount <= Limit(s) - s.writeIdx <= LongestRun(s)
  {
  }
}

/**
 The sink end of the file handler's consumer: lines are staged in a 64 KiB buffer,
 flushed to the active file, and the file is rotated once it has reached its limit.
 `Sink` is the same at the level of whole lines; `FileSink` is the code over bytes,
 and its `Valid` ties every file and the staging buffer to whole lines.
 */
module FileSink {
  import opened AsyncHandler
  import opened Rotation

  /** LMK_WRITE_BUF_SIZE and LMK_MAX_LINE_SIZE. */
  const BUFFER_SIZE: nat := 64 * 1024
  const MAX_LINE: nat := MSG_MAX + 512

  type Line = seq<Byte>

  // ------------------------------------------------------------ line by line

  /** `placed` is a history: every line ever staged, after what the files held at first. */
  datatype Sink = Sink(closed: seq<seq<Line>>, active: seq<Line>, staged: seq<Line>, open: bool, placed: seq<Line>)

  /** What snprintf leaves of a line in a buffer of `room` bytes. */
  function Clamp(text: Line, room: nat): Line
    requires room > 0
  {
    if |text| < room then text else text[..room - 1]
  }

  /** Write the staged lines out; rotate if the file has reached the limit. */
  function Flush(k: Sink, max: int, reopen: bool): Sink {
    var file := k.active + k.staged;
    if max > 0 && |Concat(file)| >= max
    then k.(closed := k.closed + [file], active := [], staged := [], open := reopen)
    else k.(active := file, staged := [])
  }

  /** Make room for a line of maximal length. */
  function MakeRoom(k: Sink, max: int, reopen: bool): Sink {
    if |Concat(k.staged)| + MAX_LINE > BUFFER_SIZE then Flush(k, max, reopen) else k
  }

  function Room(k: Sink): int {
    BUFFER_SIZE - |Concat(k.staged)|
  }

  function Accept(k: Sink, max: int, text: Line, reopen: bool): Sink {
    if !k.open then k
    else
      var m := MakeRoom(k, max, reopen);
      if Room(m) > 0 then
        var line := Clamp(text, Room(m));
        m.(staged := m.staged + [line], placed := m.placed + [line])
      else m
  }

  function FlushIdle(k: Sink, max: int, reopen: bool): Sink {
    if Concat(k.staged) != [] && k.open then Flush(k, max, reopen) else k
  }

  function Finish(k: Sink): Sink {
    if Concat(k.staged) != [] && k.open then k.(active := k.active + k.staged, staged := []) else k
  }

  datatype Event = Write(text: Line, reopen: bool) | EndOfPass(reopen: bool) | Leave

  function Step(k: Sink, max: int, e: Event): Sink {
    match e
    case Write(text, reopen) => Accept(k, max, text, reopen)
    case EndOfPass(reopen) => FlushIdle(k, max, reopen)
    case Leave => Finish(k)
  }

  function Run(k: Sink, max: int, events: seq<Event>): Sink
    decreases |events|
  {
    if events == [] then k else Run(Step(k, max, events[0]), max, events[1..])
  }

  function Flatten(files: seq<seq<Line>>): seq<Line> {
    if files == [] then [] else files[0] + Flatten(files[1..])
  }

  lemma {:induction false} FlattenAppend(a: seq<seq<Line>>, file: seq<Line>)
    ensures Flatten(a + [file]) == Flatten(a) + file
  {
    if a == [] {
      assert [file][1..] == [];
    } else {
      assert (a + [file])[1..] == a[1..] + [file];
      FlattenAppend(a[1..], file);
    }
  }

  /** Closed files, active file and staging buffer together are all lines, in order, each
      inside one file; and the buffer always has room for the next NUL. */
  ghost predicate Conserved(k: Sink) {
    && Flatten(k.closed) + k.active + k.staged == k.placed
    && |Concat(k.staged)| <= 65535
  }

  lemma FlushConserves(k: Sink, max: int, reopen: bool)
    requires Conserved(k)
    ensures Conserved(Flush(k, max, reopen))
    ensures Flush(k, max, reopen).staged == [] && Flush(k, max, reopen).placed == k.placed
  {
    FlattenAppend(k.closed, k.active + k.staged);
    Associative(Flatten(k.closed), k.active, k.staged);
  }

  /** What became of a text that was accepted: a prefix, whole up to 2559 bytes. */
  predicate CutOf(line: Line, text: Line) {
    line <= text && (|text| <= 2559 ==> line == text) && (|text| > 2559 ==> |line| >= 2559)
  }

  /** An open sink stages exactly one line for each text, never truncating one of at most
      2559 bytes; a sink that could not reopen its file stages nothing. */
  lemma AcceptConserves(k: Sink, max: int, text: Line, reopen: bool)
    requires Conserved(k)
    ensures var r := Accept(k, max, text, reopen);
      && Conserved(r)
      && (!k.open ==> r == k)
      && (k.open ==> |r.placed| == |k.placed| + 1 && r.placed[..|k.placed|] == k.placed
                     && CutOf(r.placed[|k.placed|], text))
  {
    if k.open {
      FlushConserves(k, max, reopen);
      var m := MakeRoom(k, max, reopen);
      var line := Clamp(text, Room(m));
      ConcatAppend(m.staged, [line]);
      assert Concat([line]) == line + Concat([]);
      Associative(Flatten(m.closed) + m.active, m.staged, [line]);
    }
  }

  lemma StepConserves(k: Sink, max: int, e: Event)
    requires Conserved(k)
    ensures Conserved(Step(k, max, e))
    ensures !e.Write? ==> Step(k, max, e).placed == k.placed
  {
    match e
    case Write(text, reopen) => AcceptConserves(k, max, text, reopen);
    case EndOfPass(reopen) => FlushConserves(k, max, reopen);
    case Leave => Associative(Flatten(k.closed), k.active, k.staged);
  }

  // -------------------------------------------------------- when a file is rotated

  /** The event writes the staging buffer out: a line comes while fewer than 2560 of the
      65536 bytes are free, or a drain pass ends with something staged. */
  predicate WritesOut(k: Sink, e: Event) {
    && k.open
    && match e
       case Write(_, _) => |Concat(k.staged)| + 2560 > 65536
       case EndOfPass(_) => |Concat(k.staged)| > 0
       case Leave => |Concat(k.staged)| > 0
  }

  /** Whether the file can be opened again if the event rotates it. */
  function Reopens(e: Event): bool {
    match e
    case Write(_, reopen) => reopen
    case EndOfPass(reopen) => reopen
    case Leave => true
  }

  /** A file is closed exactly by an event before the final flush that writes it out to a
      length of at least a positive limit; what is staged then belongs to it. */
  lemma RotatesExactly(k: Sink, max: int, e: Event)
    requires !e.Leave?
    ensures var r := Step(k, max, e);
      var size := |Concat(k.active)| + |Concat(k.staged)|;
      && (WritesOut(k, e) && max > 0 && size >= max ==>
            r.closed == k.closed + [k.active + k.staged] && r.active == [] && r.open == Reopens(e))
      && (WritesOut(k, e) && (max <= 0 || size < max) ==>
            r.closed == k.closed && r.active == k.active + k.staged && r.open)
      && (!WritesOut(k, e) ==> r.closed == k.closed && r.active == k.active && r.open == k.open)
  {
    ConcatAppend(k.active, k.staged);
  }

  /** What a line adds to the staging buffer: all of it, or as much as leaves room for the
      NUL in 65536 bytes. */
  lemma StagesExactly(k: Sink, max: int, text: Line, reopen: bool)
    requires k.open && |Concat(k.staged)| < 65536
    ensures var base := if |Concat(k.staged)| + 2560 > 65536 then [] else k.staged;
      var room := 65535 - |Concat(base)|;
      Step(k, max, Write(text, reopen)).staged == base + [if |text| <= room then text else text[..room]]
  {
  }

  /** With a positive limit every event that writes out leaves the active file below it,
      whatever the file held at first. */
  lemma BelowLimitAfterWriting(k: Sink, max: int, e: Event)
    requires max > 0 && !e.Leave? && WritesOut(k, e)
    ensures |Concat(Step(k, max, e).active)| < max
  {
    RotatesExactly(k, max, e);
    ConcatAppend(k.active, k.staged);
  }

  /** Along a run: nothing has been written out yet, or the active file is below the limit. */
  lemma {:induction false} RunStaysBelowLimit(k: Sink, max: int, events: seq<Event>)
    requires max > 0 && forall i :: 0 <= i < |events| ==> !events[i].Leave?
    ensures var r := Run(k, max, events);
      (r.closed == k.closed && r.active == k.active) || |Concat(r.active)| < max
    decreases |events|
  {
    if events != [] {
      RotatesExactly(k, max, events[0]);
      if WritesOut(k, events[0]) {
        BelowLimitAfterWriting(k, max, events[0]);
      }
      RunStaysBelowLimit(Step(k, max, events[0]), max, events[1..]);
    }
  }

  /** Without a positive limit no run ever closes a file. */
  lemma {:induction false} NoLimitNoRotation(k: Sink, max: int, events: seq<Event>)
    requires max <= 0
    ensures Run(k, max, events).closed == k.closed
    decreases |events|
  {
    if events != [] {
      if !events[0].Leave? {
        RotatesExactly(k, max, events[0]);
      }
      NoLimitNoRotation(Step(k, max, events[0]), max, events[1..]);
    }
  }

  // ------------------------------------------------------------- sizes of files

  /** Every file begun by a rotation, i.e. after the first `begun`, was closed with a size
      in [max, max + 65534]; the file that was open at first with at least max. */
  ghost predicate SizesOk(k: Sink, max: int, begun: nat) {
    && begun <= |k.closed|
    && (forall i | begun <= i < |k.closed| :: |Concat(k.closed[i])| >= max)
    && (forall i | begun < i < |k.closed| :: |Concat(k.closed[i])| <= max + 65534)
    && (begun < |k.closed| ==> |Concat(k.active)| < max)
  }

  lemma FlushSizes(k: Sink, max: int, reopen: bool, begun: nat)
    requires max > 0 && Conserved(k) && SizesOk(k, max, begun)
    ensures SizesOk(Flush(k, max, reopen), max, begun)
  {
    ConcatAppend(k.active, k.staged);
  }

  lemma StepSizes(k: Sink, max: int, e: Event, begun: nat)
    requires max > 0 && Conserved(k) && SizesOk(k, max, begun) && !e.Leave?
    ensures SizesOk(Step(k, max, e), max, begun)
  {
    match e
    case Write(text, reopen) =>
      FlushSizes(k, max, reopen, begun);
    case EndOfPass(reopen) => FlushSizes(k, max, reopen, begun);
  }

  lemma {:induction false} RunSizes(k: Sink, max: int, events: seq<Event>, begun: nat)
    requires max > 0 && Conserved(k) && SizesOk(k, max, begun)
    requires forall i :: 0 <= i < |events| ==> !events[i].Leave?
    ensures Conserved(Run(k, max, events)) && SizesOk(Run(k, max, events), max, begun)
    decreases |events|
  {
    if events != [] {
      StepConserves(k, max, events[0]);
      StepSizes(k, max, events[0], begun);
      RunSizes(Step(k, max, events[0]), max, events[1..], begun);
    }
  }

  /** From any starting content, with a constant positive limit. */
  lemma RotatedFileSizes(files: seq<seq<Line>>, first: seq<Line>, max: int, events: seq<Event>)
    requires max > 0 && forall i :: 0 <= i < |events| ==> !events[i].Leave?
    ensures var k := Run(Sink(files, first, [], true, Flatten(files) + first), max, events);
      && |files| <= |k.closed|
      && (forall i | |files| < i < |k.closed| :: max <= |Concat(k.closed[i])| <= max + 65534)
  {
    var k := Sink(files, first, [], true, Flatten(files) + first);
    assert Flatten(files) + first + [] == Flatten(files) + first;
    RunSizes(k, max, events, |files|);
  }

  // ---------------------------------------------------------------- the code

  function Contents(files: seq<seq<Line>>): (r: seq<seq<Byte>>)
    ensures |r| == |files|
  {
    seq(|files|, i requires 0 <= i < |files| => Concat(files[i]))
  }

  /** The backups of a sink whose first `before` files were closed before it was opened; if
      the directory was `tidy` then, it holds no backups but the newest closed files. */
  ghost predicate BackupsOk(d: Directory, max: int, closed: seq<seq<Line>>, before: nat, tidy: bool) {
    && before <= |closed| && Newest(d, max, Contents(closed[before..]))
    && (tidy ==> Chain(d, max, Contents(closed)))
  }

  lemma BackupsFrame(d: Directory, r: Directory, max: int, closed: seq<seq<Line>>, before: nat, tidy: bool)
    requires BackupsOk(d, max, closed, before, tidy) && forall j: nat | j >= 1 :: File(r, j) == File(d, j)
    ensures BackupsOk(r, max, closed, before, tidy)
  {
  }

  lemma BackupsAfterRotation(d: Directory, r: Directory, max: int, closed: seq<seq<Line>>, file: seq<Line>,
                             before: nat, tidy: bool)
    requires BackupsOk(d, max, closed, before, tidy) && 0 in d && d[0] == Concat(file)
    requires forall j: nat | j >= 1 :: File(r, j) == Shifted(d, max, j)
    ensures BackupsOk(r, max, closed + [file], before, tidy)
  {
    var since := closed[before..];
    RotationKeepsNewest(d, r, max, Contents(since));
    assert (closed + [file])[before..] == since + [file];
    assert Contents(since + [file]) == Contents(since) + [d[0]];
    if tidy {
      RotationKeepsChain(d, r, max, Contents(closed));
      assert Contents(closed + [file]) == Contents(closed) + [d[0]];
    }
  }

  class FileSink {
    var dir: Directory
    var open: bool             // log_fp != NULL
    const wbuf: array<Byte>
    var wpos: nat
    var currentSize: nat
    const maxSize: int
    const maxBackups: int
    ghost var lines: Sink
    ghost const before: nat    // files closed before this sink was opened
    ghost const tidy: bool     // the directory then held just the newest of them

    ghost predicate Valid()
      reads this, wbuf
    {
      && wbuf.Length == BUFFER_SIZE && wpos < BUFFER_SIZE
      && wbuf[..wpos] == Concat(lines.staged)
      && open == lines.open
      && (open ==> 0 in dir && dir[0] == Concat(lines.active) && currentSize == |dir[0]|)
      && BackupsOk(dir, maxBackups, lines.closed, before, tidy)
    }

    /** Opening for append in any directory.  `files` are the files closed earlier, of which
        it may hold backups, some of them missing or left over from a higher limit. */
    constructor (dir: Directory, maxSize: int, maxBackups: int, ghost files: seq<seq<Line>>)
      ensures before == |files| && tidy == Chain(dir, maxBackups, Contents(files))
      ensures Valid() && open && fresh(wbuf) && wpos == 0
      ensures this.maxSize == maxSize && this.maxBackups == maxBackups
      ensures this.dir == if 0 in dir then dir else dir[0 := []]
      ensures lines == Sink(files, [this.dir[0]], [], true, Flatten(files) + [this.dir[0]])
    {
      this.dir := if 0 in dir then dir else dir[0 := []];
      var content := if 0 in dir then dir[0] else [];
      this.open := true;
      wbuf := new Byte[BUFFER_SIZE];
      wpos := 0;
      currentSize := |content|;
      this.maxSize := maxSize;
      this.maxBackups := maxBackups;
      lines := Sink(files, [content], [], true, Flatten(files) + [content]);
      before, tidy := |files|, Chain(dir, maxBackups, Contents(files));
      new;
      assert Concat([content]) == content + Concat([]);
      BackupsFrame(dir, this.dir, maxBackups, files, |files|, tidy);
    }

    /** lmk_rotate_log_file; `reopen` says whether fopen succeeds. */
    method Rotate(reopen: bool)
      requires open && 0 in dir
      modifies this`dir, this`open, this`currentSize
      ensures open == reopen && currentSize == 0
      ensures reopen ==> 0 in dir && dir[0] == []
      ensures forall j: nat | j >= 1 :: File(dir, j) == Shifted(old(dir), maxBackups, j)
      ensures !reopen ==> File(dir, 0) == Shifted(old(dir), maxBackups, 0)
    {
      open := false;
      dir := ShiftBackups(dir, maxBackups);
      if reopen {
        dir := dir[0 := []];
        open := true;
      }
      currentSize := 0;
    }

    /** fwrite of the staging buffer. */
    method WriteOut()
      requires Valid() && open
      modifies this`dir, this`currentSize
      ensures 0 in dir && dir[0] == Concat(lines.active + lines.staged) && currentSize == |dir[0]|
      ensures dir == old(dir)[0 := old(dir[0]) + wbuf[..wpos]] && currentSize == old(currentSize) + wpos
      ensures BackupsOk(dir, maxBackups, lines.closed, before, tidy)
    {
      ConcatAppend(lines.active, lines.staged);
      ghost var was := dir;
      dir := dir[0 := dir[0] + wbuf[..wpos]];
      currentSize := currentSize + wpos;
      BackupsFrame(was, dir, maxBackups, lines.closed, before, tidy);
    }

    /** Write the staging buffer out and rotate if the file has reached its limit. */
    method FlushBuffer(reopen: bool)
      requires Valid() && open
      modifies this
      ensures Valid() && wpos == 0
      ensures lines == Flush(old(lines), maxSize, reopen)
      ensures maxSize > 0 ==> currentSize < maxSize
      ensures |lines.closed| > |old(lines.closed)| <==> maxSize > 0 && old(|dir[0]| + wpos) >= maxSize
      ensures lines.closed == old(lines.closed) ==>
                open && dir == old(dir)[0 := old(dir[0]) + old(wbuf[..wpos])]
    {
      WriteOut();
      if maxSize > 0 && currentSize >= maxSize {
        ghost var full := dir;
        Rotate(reopen);
        BackupsAfterRotation(full, dir, maxBackups, lines.closed, lines.active + lines.staged, before, tidy);
      }
      wpos := 0;
      lines := Flush(lines, maxSize, reopen);
    }

    /** snprintf into the rest of the staging buffer: text, cut to fit, and a NUL. */
    method FormatInto(text: Line) returns (n: nat)
      requires Valid() && wpos + MAX_LINE <= BUFFER_SIZE
      modifies wbuf
      ensures Valid() && n == |Clamp(text, BUFFER_SIZE - wpos)| && wpos + n < BUFFER_SIZE
      ensures wbuf[..wpos + n] == Concat(lines.staged) + Clamp(text, BUFFER_SIZE - wpos)
      ensures wbuf[wpos + n] == 0
    {
      ghost var line := Clamp(text, BUFFER_SIZE - wpos);
      n := if |text| < BUFFER_SIZE - wpos then |text| else BUFFER_SIZE - wpos - 1;
      var i := 0;
      while i < n
        invariant 0 <= i <= n
        invariant wbuf[..wpos] == Concat(lines.staged)
        invariant wbuf[wpos..wpos + i] == line[..i]
      {
        wbuf[wpos + i] := text[i];
        i := i + 1;
      }
      wbuf[wpos + n] := 0;
      assert wbuf[..wpos + n] == wbuf[..wpos] + wbuf[wpos..wpos + n];
    }

    /** One ready slot of the drain loop. */
    method WriteLine(text: Line, reopen: bool)
      requires Valid()
      modifies this, wbuf
      ensures Valid()
      ensures lines == Accept(old(lines), maxSize, text, reopen)
    {
      if open {
        if wpos + MAX_LINE > BUFFER_SIZE {
          FlushBuffer(reopen);
        }
        var n := FormatInto(text);
        ghost var line := Clamp(text, BUFFER_SIZE - wpos);
        wpos := wpos + n;
        ConcatAppend(lines.staged, [line]);
        assert Concat([line]) == line + Concat([]);
        lines := lines.(staged := lines.staged + [line], placed := lines.placed + [line]);
      }
    }

    /** The idle flush at the end of a drain pass. */
    method IdleFlush(reopen: bool)
      requires Valid()
      modifies this
      ensures Valid()
      ensures lines == FlushIdle(old(lines), maxSize, reopen)
    {
      if wpos > 0 && open {
        FlushBuffer(reopen);
      }
    }

    /** The flush after the loop; it neither counts the bytes nor rotates. */
    method FinalFlush()
      requires Valid()
      modifies this
      ensures lines == Finish(old(lines)) && open == old(open) && currentSize == old(currentSize)
      ensures open ==> 0 in dir && dir[0] == Concat(lines.active) && wpos == 0
      ensures forall j: nat | j >= 1 || !open :: File(dir, j) == File(old(dir), j)
      ensures old(!open || Concat(lines.staged) == []) ==> Valid() && unchanged(this`dir)
    {
      if wpos > 0 && open {
        ConcatAppend(lines.active, lines.staged);
        dir := dir[0 := dir[0] + wbuf[..wpos]];
        wpos := 0;
      }
      lines := Finish(lines);
    }

    /** In any directory: the newest backups and the active file are the newest part of all
        that was written since the sink was opened, with only whole old files gone. */
    lemma NewestOnDisk()
      requires Valid() && open
      ensures var since := Contents(lines.closed[before..]);
        var m := Kept(maxBackups, since);
        && (forall j: nat | 1 <= j <= m :: j in dir)
        && Concat(since) + dir[0] == Concat(since[..|since| - m]) + (Backups(dir, m) + dir[0])
    {
      var since := Contents(lines.closed[before..]);
      var m := Kept(maxBackups, since);
      BackupsAreNewest(dir, maxBackups, since, m);
      SplitStream(since, |since| - m, dir[0]);
    }

    /** What is on disk, oldest backup to active file, is the newest part of everything
        written: only whole files from the old end are gone, and at most maxBackups remain. */
    lemma DiskIsSuffix()
      requires Valid() && open && tidy
      ensures var m := Kept(maxBackups, Contents(lines.closed));
        && (forall j: nat | 1 <= j <= m :: j in dir)
        && (forall j: nat | j >= 1 && j in dir :: j <= m)
        && var lost := Contents(lines.closed)[..|lines.closed| - m];
           Concat(Contents(lines.closed)) + Concat(lines.active) == Concat(lost) + (Backups(dir, m) + dir[0])
    {
      ChainIsSuffix(dir, maxBackups, Contents(lines.closed));
    }
  }

  // ------------------------------------------------------- whole runs of the consumer

  /** The flush after the loop comes only when there is nothing left for it to write. */
  predicate FinishesClean(k: Sink, max: int, events: seq<Event>)
    decreases |events|
  {
    events == []
    || (&& (events[0].Leave? ==> !k.open || Concat(k.staged) == [])
        && FinishesClean(Step(k, max, events[0]), max, events[1..]))
  }

  /** The consumer's calls, one after the other, on the file and its staging buffer. */
  method Consume(sink: FileSink, events: seq<Event>)
    requires sink.Valid() && FinishesClean(sink.lines, sink.maxSize, events)
    modifies sink, sink.wbuf
    ensures sink.Valid() && sink.lines == Run(old(sink.lines), sink.maxSize, events)
  {
    var i := 0;
    assert events[0..] == events;
    while i < |events|
      invariant 0 <= i <= |events| && sink.Valid() && FinishesClean(sink.lines, sink.maxSize, events[i..])
      invariant Run(sink.lines, sink.maxSize, events[i..]) == Run(old(sink.lines), sink.maxSize, events)
      decreases |events| - i
    {
      assert events[i..][1..] == events[i + 1..];
      match events[i] {
        case Write(text, reopen) => sink.WriteLine(text, reopen);
        case EndOfPass(reopen) => sink.IdleFlush(reopen);
        case Leave => sink.FinalFlush();
      }
      i := i + 1;
    }
  }

  /** Files once closed stay in the history. */
  lemma {:induction false} ClosedGrows(k: Sink, max: int, events: seq<Event>)
    ensures k.closed <= Run(k, max, events).closed
    decreases |events|
  {
    if events != [] {
      ClosedGrows(Step(k, max, events[0]), max, events[1..]);
    }
  }
}

/**
 Producers, ring, consumer and file together.  The formatter is any function of the
 message and the time; each format step may see a different time, and each rotation may
 or may not manage to reopen the file.
 */
module EndToEnd {
  import opened AsyncHandler
  import opened AsyncInvariant
  import opened RingFifo
  import opened WakeUp
  import opened Shutdown
  import opened Rotation
  import S = FileSink

  type Formatter = (Message, nat) -> S.Line

  /** `texts` is a history of what the formatter produced. */
  datatype Pipeline = Pipeline(s: State, sink: S.Sink, texts: seq<S.Line>)

  datatype PStep = PStep(step: Step, time: nat, reopen: bool)

  function SinkEvent(c: Config, fmt: Formatter, s: State, x: PStep): seq<S.Event>
    requires WellFormed(c, s)
  {
    match x.step
    case CFormat => [S.Write(fmt(Read(SlotOf(c, s, s.consumer.tail).req), x.time), x.reopen)]
    case CIdleFlush => [S.EndOfPass(x.reopen)]
    case CFinalFlush => [S.Leave]
    case _ => []
  }

  function PApply(c: Config, fmt: Formatter, max: int, p: Pipeline, x: PStep): Pipeline
    requires WellFormed(c, p.s) && Enabled(c, p.s, x.step)
  {
    var events := SinkEvent(c, fmt, p.s, x);
    Pipeline(
      Apply(c, p.s, x.step),
      if events == [] then p.sink else S.Step(p.sink, max, events[0]),
      if x.step.CFormat? then p.texts + [fmt(Read(SlotOf(c, p.s, p.s.consumer.tail).req), x.time)] else p.texts)
  }

  ghost predicate PRun(c: Config, fmt: Formatter, max: int, p: Pipeline, steps: seq<PStep>, q: Pipeline)
    decreases |steps|
  {
    if steps == [] then p == q
    else
      && WellFormed(c, p.s) && Enabled(c, p.s, steps[0].step)
      && PRun(c, fmt, max, PApply(c, fmt, max, p, steps[0]), steps[1..], q)
  }

  /** A new handler on a file that holds `content`, beside backups `files`. */
  ghost predicate PInit(c: Config, p: Pipeline, files: seq<seq<S.Line>>, content: S.Line) {
    && Init(c, p.s)
    && p.sink == S.Sink(files, [content], [], true, S.Flatten(files) + [content])
    && p.texts == []
  }

  /** The consumer has flushed since it last formatted a line. */
  predicate AfterIdleFlush(pc: ConsumerPc) {
    pc !in {Drain, Format, Consume, IdleFlush}
  }

  ghost predicate TextOf(c: Config, fmt: Formatter, claim: Claim, text: S.Line) {
    exists time: nat :: text == fmt(Accepted(c, claim.rec), time)
  }

  /** Each line is the formatted text of the record with the same claim number. */
  ghost predicate LinesOk(c: Config, fmt: Formatter, s: State, lines: seq<S.Line>, texts: seq<S.Line>) {
    && |lines| == |texts| == Taken(s) <= |s.claims|
    && (forall i | 0 <= i < |texts| :: TextOf(c, fmt, s.claims[i], texts[i]))
    && (forall i | 0 <= i < |texts| :: S.CutOf(lines[i], texts[i]))
  }

  lemma LinesExtend(c: Config, fmt: Formatter, s: State, t: State, lines: seq<S.Line>, texts: seq<S.Line>,
                    line: S.Line, text: S.Line)
    requires LinesOk(c, fmt, s, lines, texts)
    requires t.claims == s.claims && Taken(t) == Taken(s) + 1 <= |s.claims|
    requires S.CutOf(line, text) && TextOf(c, fmt, s.claims[Taken(s)], text)
    ensures LinesOk(c, fmt, t, lines + [line], texts + [text])
  {
  }

  ghost predicate PInv(c: Config, fmt: Formatter, p: Pipeline, before: seq<S.Line>) {
    && Inv(c, p.s) && S.Conserved(p.sink)
    && (p.sink.open ==>
          && before <= p.sink.placed
          && LinesOk(c, fmt, p.s, p.sink.placed[|before|..], p.texts)
          && (AfterIdleFlush(p.s.consumer.pc) ==> Concat(p.sink.staged) == []))
  }

  lemma FormatStepKeeps(c: Config, fmt: Formatter, max: int, p: Pipeline, x: PStep, before: seq<S.Line>)
    requires Drains(c) && PInv(c, fmt, p, before) && Enabled(c, p.s, x.step) && x.step.CFormat?
    ensures PInv(c, fmt, PApply(c, fmt, max, p, x), before)
  {
    var q := PApply(c, fmt, max, p, x);
    var text := fmt(Read(SlotOf(c, p.s, p.s.consumer.tail).req), x.time);
    StepOk(c, p.s, CFormat);
    S.AcceptConserves(p.sink, max, text, x.reopen);
    if p.sink.open {
      FormatsAccepted(c, fmt, p.s, x.time);
      LinesPlaced(c, fmt, p.s, q.s, p.sink.placed, q.sink.placed, |before|, p.texts, text);
    }
  }

  lemma LinesPlaced(c: Config, fmt: Formatter, s: State, t: State, was: seq<S.Line>, now: seq<S.Line>, k: nat,
                    texts: seq<S.Line>, text: S.Line)
    requires k <= |was| && |now| == |was| + 1 && now[..|was|] == was
    requires LinesOk(c, fmt, s, was[k..], texts)
    requires t.claims == s.claims && Taken(t) == Taken(s) + 1 <= |s.claims|
    requires S.CutOf(now[|was|], text) && TextOf(c, fmt, s.claims[Taken(s)], text)
    ensures now[..k] == was[..k] && LinesOk(c, fmt, t, now[k..], texts + [text])
  {
    assert now[k..] == was[k..] + [now[|was|]];
    LinesExtend(c, fmt, s, t, was[k..], texts, now[|was|], text);
  }

  /** The text formatted is that of the record whose turn it is. */
  lemma FormatsAccepted(c: Config, fmt: Formatter, s: State, time: nat)
    requires Drains(c) && Inv(c, s) && Enabled(c, s, CFormat)
    requires Inv(c, Apply(c, s, CFormat))
    ensures Taken(s) < |s.claims| && Taken(Apply(c, s, CFormat)) == Taken(s) + 1
    ensures TextOf(c, fmt, s.claims[Taken(s)], fmt(Read(SlotOf(c, s, s.consumer.tail).req), time))
  {
    var t := Apply(c, s, CFormat);
    assert t.delivered[s.consumer.tail] == Read(SlotOf(c, s, s.consumer.tail).req);
  }

  lemma OtherStepKeeps(c: Config, fmt: Formatter, max: int, p: Pipeline, x: PStep, before: seq<S.Line>)
    requires Drains(c) && PInv(c, fmt, p, before) && Enabled(c, p.s, x.step) && !x.step.CFormat?
    ensures PInv(c, fmt, PApply(c, fmt, max, p, x), before)
  {
    var q := PApply(c, fmt, max, p, x);
    StepOk(c, p.s, x.step);
    if x.step.CIdleFlush? {
      S.StepConserves(p.sink, max, S.EndOfPass(x.reopen));
    } else if x.step.CFinalFlush? {
      S.StepConserves(p.sink, max, S.Leave);
    }
    if ByProducer(x.step) {
      ProducerStepsKeepLines(c, p.s, x.step);
    } else {
      OtherStepsKeepLines(c, p.s, x.step);
    }
  }

  lemma ProducerStepsKeepLines(c: Config, s: State, step: Step)
    requires WellFormed(c, s) && Enabled(c, s, step) && ByProducer(step)
    ensures var t := Apply(c, s, step);
      && Taken(t) == Taken(s) && s.claims <= t.claims
      && (AfterIdleFlush(t.consumer.pc) ==> AfterIdleFlush(s.consumer.pc))
  {
  }

  lemma OtherStepsKeepLines(c: Config, s: State, step: Step)
    requires WellFormed(c, s) && Enabled(c, s, step) && !ByProducer(step) && !step.CFormat?
    ensures var t := Apply(c, s, step);
      && Taken(t) == Taken(s) && s.claims <= t.claims
      && (AfterIdleFlush(t.consumer.pc) ==> AfterIdleFlush(s.consumer.pc) || step.CIdleFlush?)
  {
  }

  lemma {:induction false} PRunKeeps(c: Config, fmt: Formatter, max: int, p: Pipeline, steps: seq<PStep>, q: Pipeline,
                                     before: seq<S.Line>)
    requires Drains(c) && PInv(c, fmt, p, before) && PRun(c, fmt, max, p, steps, q)
    ensures PInv(c, fmt, q, before)
    decreases |steps|
  {
    if steps != [] {
      if steps[0].step.CFormat? {
        FormatStepKeeps(c, fmt, max, p, steps[0], before);
      } else {
        OtherStepKeeps(c, fmt, max, p, steps[0], before);
      }
      PRunKeeps(c, fmt, max, PApply(c, fmt, max, p, steps[0]), steps[1..], q, before);
    }
  }

  lemma {:induction false} ConcatFlatten(files: seq<seq<S.Line>>)
    ensures Concat(S.Contents(files)) == Concat(S.Flatten(files))
  {
    if files != [] {
      assert S.Contents(files)[1..] == S.Contents(files[1..]);
      ConcatFlatten(files[1..]);
      ConcatAppend(files[0], S.Flatten(files[1..]));
    }
  }

  /** As long as every rotation could reopen the file: everything ever written, followed by
      what is staged, is what was there at first followed by the formatted lines of the
      accepted records, once each and in claim order. */
  lemma WrittenInClaimOrder(c: Config, fmt: Formatter, max: int, p: Pipeline, steps: seq<PStep>, q: Pipeline,
                            files: seq<seq<S.Line>>, content: S.Line) returns (lines: seq<S.Line>)
    requires Drains(c) && c.n >= 2 && PInit(c, p, files, content) && PRun(c, fmt, max, p, steps, q)
    requires q.sink.open
    ensures LinesOk(c, fmt, q.s, lines, q.texts)
    ensures Concat(S.Contents(q.sink.closed)) + Concat(q.sink.active) + Concat(q.sink.staged)
         == Concat(S.Contents(files)) + content + Concat(lines)
    ensures |Concat(q.sink.staged)| <= 65535
    ensures AfterIdleFlush(q.s.consumer.pc) ==> Concat(q.sink.staged) == []
  {
    var before := S.Flatten(files) + [content];
    PInitOk(c, fmt, p, files, content);
    PRunKeeps(c, fmt, max, p, steps, q, before);
    lines := q.sink.placed[|before|..];
    WrittenNow(c, fmt, q, files, content, lines);
  }

  lemma PInitOk(c: Config, fmt: Formatter, p: Pipeline, files: seq<seq<S.Line>>, content: S.Line)
    requires Drains(c) && c.n >= 2 && PInit(c, p, files, content)
    ensures PInv(c, fmt, p, S.Flatten(files) + [content])
  {
    InitOk(c, p.s);
    var before := S.Flatten(files) + [content];
    assert p.sink.placed[|before|..] == [];
    assert before + [] == before;
  }

  lemma WrittenNow(c: Config, fmt: Formatter, q: Pipeline, files: seq<seq<S.Line>>, content: S.Line, lines: seq<S.Line>)
    requires PInv(c, fmt, q, S.Flatten(files) + [content]) && q.sink.open
    requires lines == q.sink.placed[|S.Flatten(files) + [content]|..]
    ensures LinesOk(c, fmt, q.s, lines, q.texts)
    ensures Concat(S.Contents(q.sink.closed)) + Concat(q.sink.active) + Concat(q.sink.staged)
         == Concat(S.Contents(files)) + content + Concat(lines)
    ensures |Concat(q.sink.staged)| <= 65535
    ensures AfterIdleFlush(q.s.consumer.pc) ==> Concat(q.sink.staged) == []
  {
    assert S.Flatten(files) + [content] + lines == q.sink.placed;
    BytesOfLines(q.sink, files, content, lines);
  }

  lemma ConcatThree(a: seq<S.Line>, b: seq<S.Line>, d: seq<S.Line>)
    ensures Concat(a + b + d) == Concat(a) + Concat(b) + Concat(d)
  {
    ConcatAppend(a + b, d);
    ConcatAppend(a, b);
  }

  lemma ConcatOne(line: S.Line)
    ensures Concat([line]) == line
  {
    assert Concat([line]) == line + Concat([]);
  }

  lemma BytesOfLines(k: S.Sink, files: seq<seq<S.Line>>, content: S.Line, lines: seq<S.Line>)
    requires S.Flatten(k.closed) + k.active + k.staged == S.Flatten(files) + [content] + lines
    ensures Concat(S.Contents(k.closed)) + Concat(k.active) + Concat(k.staged)
         == Concat(S.Contents(files)) + content + Concat(lines)
  {
    ConcatFlatten(k.closed);
    ConcatFlatten(files);
    ConcatThree(S.Flatten(k.closed), k.active, k.staged);
    ConcatThree(S.Flatten(files), [content], lines);
    ConcatOne(content);
  }

  /** With every producer back from log_impl and the consumer parked, the files hold every
      record ever accepted and nothing is staged. */
  lemma FilesCompleteAtRest(c: Config, fmt: Formatter, max: int, p: Pipeline, steps: seq<PStep>, q: Pipeline,
                            files: seq<seq<S.Line>>, content: S.Line) returns (lines: seq<S.Line>)
    requires Drains(c) && c.n >= 2 && PInit(c, p, files, content) && PRun(c, fmt, max, p, steps, q)
    requires q.sink.open
    requires q.s.consumer.pc == Parked && AllIdle(q.s) && q.s.destroyer !in {Stopped, Broadcasting}
    ensures LinesOk(c, fmt, q.s, lines, q.texts) && |lines| == |q.s.claims|
    ensures Concat(q.sink.staged) == []
    ensures Concat(S.Contents(q.sink.closed)) + Concat(q.sink.active)
         == Concat(S.Contents(files)) + content + Concat(lines)
  {
    lines := WrittenInClaimOrder(c, fmt, max, p, steps, q, files, content);
    PReachable(c, fmt, max, p, steps, q);
    ParkedOnlyWhenIdle(c, q.s);
    var written := Concat(S.Contents(q.sink.closed)) + Concat(q.sink.active);
    assert written + [] == written;
  }

  /** When the consumer has exited nothing is staged, the files hold a line for every record
      taken, and they hold every record ever accepted exactly if, at the last drain peek that
      found nothing, every claim ever made had been made and published. */
  lemma FilesAtExit(c: Config, fmt: Formatter, max: int, p: Pipeline, steps: seq<PStep>, q: Pipeline,
                    files: seq<seq<S.Line>>, content: S.Line) returns (lines: seq<S.Line>)
    requires Drains(c) && !c.repeek && c.n >= 2 && PInit(c, p, files, content) && PRun(c, fmt, max, p, steps, q)
    requires q.sink.open && q.s.consumer.pc == Exited
    ensures LinesOk(c, fmt, q.s, lines, q.texts)
    ensures |lines| == |q.s.claims| <==> q.s.snap.head == q.s.head && q.s.snap.allReady
    ensures Concat(q.sink.staged) == []
    ensures Concat(S.Contents(q.sink.closed)) + Concat(q.sink.active)
         == Concat(S.Contents(files)) + content + Concat(lines)
  {
    lines := WrittenInClaimOrder(c, fmt, max, p, steps, q, files, content);
    PReachable(c, fmt, max, p, steps, q);
    ExitComplete(c, q.s);
    var written := Concat(S.Contents(q.sink.closed)) + Concat(q.sink.active);
    assert written + [] == written;
  }

  lemma ExitComplete(c: Config, s: State)
    requires Drains(c) && !c.repeek && c.n >= 2 && Reachable(c, s) && s.consumer.pc == Exited
    ensures Taken(s) == |s.claims| <==> s.snap.head == s.head && s.snap.allReady
  {
    ExitDeliversBelowTail(c, s);
    DeliveredIsPrefix(c, s);
    if Taken(s) == |s.claims| {
      assert Records(c, s)[..Taken(s)] == Records(c, s);
    }
  }

  lemma PReachable(c: Config, fmt: Formatter, max: int, p: Pipeline, steps: seq<PStep>, q: Pipeline)
    requires Init(c, p.s) && PRun(c, fmt, max, p, steps, q)
    ensures Reachable(c, q.s)
  {
    var plain := PlainRun(c, fmt, max, p, steps, q);
  }

  /** Forgetting the sink leaves a run of the threads. */
  lemma {:induction false} PlainRun(c: Config, fmt: Formatter, max: int, p: Pipeline, steps: seq<PStep>, q: Pipeline)
      returns (plain: seq<Step>)
    requires PRun(c, fmt, max, p, steps, q)
    ensures Run(c, p.s, plain, q.s)
    decreases |steps|
  {
    if steps == [] {
      plain := [];
    } else {
      plain := PlainRun(c, fmt, max, PApply(c, fmt, max, p, steps[0]), steps[1..], q);
      RunCons(c, p.s, steps[0].step, plain, q.s);
      plain := [steps[0].step] + plain;
    }
  }

  /** The flush after the loop never has anything to write while the file is open. */
  lemma FinalFlushIsEmpty(c: Config, fmt: Formatter, max: int, p: Pipeline, steps: seq<PStep>, q: Pipeline,
                          files: seq<seq<S.Line>>, content: S.Line)
    requires Drains(c) && c.n >= 2 && PInit(c, p, files, content) && PRun(c, fmt, max, p, steps, q)
    requires q.s.consumer.pc == FinalFlush
    ensures S.Finish(q.sink) == q.sink
  {
    if q.sink.open {
      var lines := WrittenInClaimOrder(c, fmt, max, p, steps, q, files, content);
    }
  }

  // ---------------------------------------------------------------------- on disk

  /** What a run makes the consumer do to its file. */
  function Events(c: Config, fmt: Formatter, s: State, steps: seq<PStep>): seq<S.Event>
    decreases |steps|
  {
    if steps == [] || !WellFormed(c, s) || !Enabled(c, s, steps[0].step) then []
    else SinkEvent(c, fmt, s, steps[0]) + Events(c, fmt, Apply(c, s, steps[0].step), steps[1..])
  }

  lemma {:induction false} EventsDrive(c: Config, fmt: Formatter, max: int, p: Pipeline, steps: seq<PStep>, q: Pipeline,
                                       before: seq<S.Line>)
    requires Drains(c) && PInv(c, fmt, p, before) && PRun(c, fmt, max, p, steps, q)
    ensures q.sink == S.Run(p.sink, max, Events(c, fmt, p.s, steps))
    ensures S.FinishesClean(p.sink, max, Events(c, fmt, p.s, steps))
    decreases |steps|
  {
    if steps != [] {
      var x := steps[0];
      var u := PApply(c, fmt, max, p, x);
      if x.step.CFormat? {
        FormatStepKeeps(c, fmt, max, p, x, before);
      } else {
        OtherStepKeeps(c, fmt, max, p, x, before);
      }
      EventsDrive(c, fmt, max, u, steps[1..], q, before);
      var first, rest := SinkEvent(c, fmt, p.s, x), Events(c, fmt, u.s, steps[1..]);
      if first == [] {
        assert first + rest == rest;
      } else {
        assert (first + rest)[0] == first[0] && (first + rest)[1..] == rest;
      }
    }
  }

  /** The file class driven by a run ends up with the sink of the run. */
  method ConsumeRun(c: Config, fmt: Formatter, ghost p: Pipeline, steps: seq<PStep>, ghost q: Pipeline,
                    ghost before: seq<S.Line>, s0: State, sink: S.FileSink)
    requires Drains(c) && PInv(c, fmt, p, before) && PRun(c, fmt, sink.maxSize, p, steps, q)
    requires s0 == p.s && sink.Valid() && sink.lines == p.sink
    modifies sink, sink.wbuf
    ensures sink.Valid() && sink.lines == q.sink && p.sink.closed <= q.sink.closed
  {
    ghost var events := Events(c, fmt, p.s, steps);
    EventsDrive(c, fmt, sink.maxSize, p, steps, q, before);
    S.ClosedGrows(p.sink, sink.maxSize, events);
    S.Consume(sink, Events(c, fmt, s0, steps));
  }

  /** The bytes on disk, the oldest backup kept to the newest and then the active file, stand
      behind whatever whole files have been rotated away and before what is staged. */
  ghost predicate OnDisk(dir: Directory, maxBackups: int, since: seq<seq<Byte>>, staged: seq<Byte>, all: seq<Byte>) {
    var m := Kept(maxBackups, since);
    && 0 in dir && (forall j: nat | 1 <= j <= m :: j in dir)
    && Concat(since[..|since| - m]) + (Backups(dir, m) + dir[0]) + staged == all
  }

  /** Any run on a real directory: on disk are the old content and one line per record taken,
      in claim order, but for whole files rotated away and for what is staged. */
  method FilesOnDisk(c: Config, fmt: Formatter, ghost p: Pipeline, steps: seq<PStep>, ghost q: Pipeline,
                     ghost files: seq<seq<S.Line>>, ghost content: S.Line, s0: State, sink: S.FileSink)
      returns (ghost lines: seq<S.Line>)
    requires Drains(c) && c.n >= 2 && PInit(c, p, files, content) && PRun(c, fmt, sink.maxSize, p, steps, q)
    requires s0 == p.s && sink.Valid() && sink.lines == p.sink && sink.before == |files|
    modifies sink, sink.wbuf
    ensures sink.Valid() && sink.lines == q.sink
    ensures q.sink.open ==>
      && LinesOk(c, fmt, q.s, lines, q.texts) && |files| <= |q.sink.closed|
      && OnDisk(sink.dir, sink.maxBackups, S.Contents(q.sink.closed[|files|..]), Concat(q.sink.staged),
                content + Concat(lines))
    ensures q.sink.open && sink.tidy ==> forall j: nat | j >= 1 && j in sink.dir :: j <= sink.maxBackups
  {
    PInitOk(c, fmt, p, files, content);
    ConsumeRun(c, fmt, p, steps, q, S.Flatten(files) + [content], s0, sink);
    lines := [];
    if sink.open {
      lines := WrittenInClaimOrder(c, fmt, sink.maxSize, p, steps, q, files, content);
      SinceOpening(q.sink, files, content, lines);
      DiskNow(sink, content + Concat(lines));
    }
  }

  lemma DiskNow(sink: S.FileSink, all: seq<Byte>)
    requires sink.Valid() && sink.open
    requires sink.before <= |sink.lines.closed|
    requires var k := sink.lines;
      Concat(S.Contents(k.closed[sink.before..])) + Concat(k.active) + Concat(k.staged) == all
    ensures var k := sink.lines;
      OnDisk(sink.dir, sink.maxBackups, S.Contents(k.closed[sink.before..]), Concat(k.staged), all)
    ensures sink.tidy ==> forall j: nat | j >= 1 && j in sink.dir :: j <= sink.maxBackups
  {
    sink.NewestOnDisk();
    if sink.tidy {
      sink.DiskIsSuffix();
    }
  }

  /** Taking away what had been written before the file was opened. */
  lemma SinceOpening(k: S.Sink, files: seq<seq<S.Line>>, content: S.Line, lines: seq<S.Line>)
    requires files <= k.closed
    requires Concat(S.Contents(k.closed)) + Concat(k.active) + Concat(k.staged)
          == Concat(S.Contents(files)) + content + Concat(lines)
    ensures Concat(S.Contents(k.closed[|files|..])) + Concat(k.active) + Concat(k.staged) == content + Concat(lines)
  {
    var since := k.closed[|files|..];
    assert S.Contents(k.closed) == S.Contents(files) + S.Contents(since);
    ConcatAppend(S.Contents(files), S.Contents(since));
    Cancel(Concat(S.Contents(files)), Concat(S.Contents(since)), Concat(k.active), Concat(k.staged),
           content, Concat(lines));
  }

  lemma Cancel<T>(a: seq<T>, b: seq<T>, d: seq<T>, e: seq<T>, x: seq<T>, y: seq<T>)
    requires (a + b) + d + e == a + x + y
    ensures b + d + e == x + y
  {
    assert (a + b) + d + e == a + (b + d + e);
    assert a + x + y == a + (x + y);
    assert (a + (b + d + e))[|a|..] == b + d + e;
    assert (a + (x + y))[|a|..] == x + y;
  }
}

/**
 The clock parameters of fmtlog's TSCNS: `saveParam` publishes a triple under a sequence
 counter, `tsc2ns` retries until it has read one triple undisturbed.  Steps are single
 loads and stores; the counter is a 32-bit word.
 */
module Seqlock {
  import opened Wrappers

  datatype Params = Params(baseTsc: int, baseNs: int, nsPerTsc: real)

  const WORD: nat := 0x1_0000_0000

  datatype WriterPc = Rest | StoreTsc(p: Params) | StoreNs(p: Params) | StoreRate(p: Params) | StoreEven(p: Params)

  /** The three fields are loaded in any order; `got` remembers which. */
  datatype ReaderPc =
    | Start
    | Reading(before: nat)
    | Returned(value: int)

  /** What the reader has loaded so far. */
  datatype Loaded = Loaded(tsc: Option<int>, ns: Option<int>, rate: Option<real>)

  /** `stored` is the history of completed and started calls of saveParam, `count` the
      counter without its wrap-around, `seen` the count when the reader loaded it first. */
  datatype State = State(
    seqWord: nat,
    fields: Params,
    writer: WriterPc,
    reader: ReaderPc,
    loaded: Loaded,
    stored: seq<Params>,
    count: nat,
    seen: nat)

  /** (int64_t)x: truncation toward zero. */
  function Truncate(x: real): int {
    if x >= 0.0 then x.Floor else -(-x).Floor
  }

  function Convert(p: Params, tsc: int): int {
    p.baseNs + Truncate((tsc - p.baseTsc) as real * p.nsPerTsc)
  }

  datatype Step =
    | Save(p: Params) | WriteTsc | WriteNs | WriteRate | WriteEven
    | LoadBefore | LoadTsc | LoadNs | LoadRate | LoadAfter(tsc: int)

  predicate Enabled(s: State, x: Step) {
    match x
    case Save(_) => s.writer == Rest
    case WriteTsc => s.writer.StoreTsc?
    case WriteNs => s.writer.StoreNs?
    case WriteRate => s.writer.StoreRate?
    case WriteEven => s.writer.StoreEven?
    case LoadBefore => !s.reader.Reading?
    case LoadTsc => s.reader.Reading?
    case LoadNs => s.reader.Reading?
    case LoadRate => s.reader.Reading?
    case LoadAfter(_) => s.reader.Reading? && s.loaded.tsc.Some? && s.loaded.ns.Some? && s.loaded.rate.Some?
  }

  /** The word with its lowest bit cleared: seq & ~1. */
  function ClearLowBit(w: nat): nat {
    w - w % 2
  }

  function Apply(s: State, x: Step): State
    requires Enabled(s, x)
  {
    match x
    case Save(p) =>
      s.(seqWord := (s.seqWord + 1) % WORD, count := s.count + 1, stored := s.stored + [p], writer := StoreTsc(p))
    case WriteTsc => s.(fields := s.fields.(baseTsc := s.writer.p.baseTsc), writer := StoreNs(s.writer.p))
    case WriteNs => s.(fields := s.fields.(baseNs := s.writer.p.baseNs), writer := StoreRate(s.writer.p))
    case WriteRate => s.(fields := s.fields.(nsPerTsc := s.writer.p.nsPerTsc), writer := StoreEven(s.writer.p))
    case WriteEven => s.(seqWord := (s.seqWord + 1) % WORD, count := s.count + 1, writer := Rest)
    case LoadBefore =>
      s.(reader := Reading(ClearLowBit(s.seqWord)), loaded := Loaded(None, None, None), seen := s.count)
    case LoadTsc => s.(loaded := s.loaded.(tsc := Some(s.fields.baseTsc)))
    case LoadNs => s.(loaded := s.loaded.(ns := Some(s.fields.baseNs)))
    case LoadRate => s.(loaded := s.loaded.(rate := Some(s.fields.nsPerTsc)))
    case LoadAfter(tsc) =>
      if s.seqWord == s.reader.before
      then s.(reader := Returned(Convert(Params(s.loaded.tsc.value, s.loaded.ns.value, s.loaded.rate.value), tsc)))
      else s.(reader := Start)
  }

  ghost predicate Run(s: State, steps: seq<Step>, t: State)
    decreases |steps|
  {
    if steps == [] then s == t else Enabled(s, steps[0]) && Run(Apply(s, steps[0]), steps[1..], t)
  }

  /** After init has saved its first triple, before anybody reads. */
  ghost predicate Init(s: State, first: Params) {
    && s.seqWord == s.count == 2 && s.fields == first && s.stored == [first]
    && s.writer == Rest && s.reader == Start
  }

  predicate Matches(l: Loaded, p: Params) {
    && (l.tsc.Some? ==> l.tsc.value == p.baseTsc)
    && (l.ns.Some? ==> l.ns.value == p.baseNs)
    && (l.rate.Some? ==> l.rate.value == p.nsPerTsc)
  }

  predicate WriterOk(s: State) {
    && |s.stored| >= 1 && s.count >= 2
    && s.count == 2 * |s.stored| - (if s.writer == Rest then 0 else 1)
    && s.seqWord == s.count % WORD
    && match s.writer
       case Rest => s.fields == s.stored[|s.stored| - 1]
       case StoreTsc(p) => p == s.stored[|s.stored| - 1]
       case StoreNs(p) => p == s.stored[|s.stored| - 1] && s.fields.baseTsc == p.baseTsc
       case StoreRate(p) =>
         p == s.stored[|s.stored| - 1] && s.fields.baseTsc == p.baseTsc && s.fields.baseNs == p.baseNs
       case StoreEven(p) => p == s.stored[|s.stored| - 1] && s.fields == p
  }

  /** While the counter stands where an even first load found it, everything loaded since
      belongs to the triple last stored. */
  predicate ReaderOk(s: State) {
    s.reader.Reading? ==>
      && 2 <= s.seen <= s.count && s.seen / 2 <= |s.stored|
      && s.reader.before == ClearLowBit(s.seen % WORD)
      && (s.seen == s.count && s.seen % 2 == 0 ==> Matches(s.loaded, s.stored[s.seen / 2 - 1]))
  }

  predicate Inv(s: State) {
    WriterOk(s) && ReaderOk(s)
  }

  lemma StepOk(s: State, x: Step)
    requires Inv(s) && Enabled(s, x)
    ensures Inv(Apply(s, x))
  {
  }

  lemma {:induction false} RunOk(s: State, steps: seq<Step>, t: State)
    requires Inv(s) && Run(s, steps, t)
    ensures Inv(t)
    decreases |steps|
  {
    if steps != [] {
      StepOk(s, steps[0]);
      RunOk(Apply(s, steps[0]), steps[1..], t);
    }
  }

  /** When the reader accepts: the counter has come back to the even value below the one
      first seen, i.e. it has not moved at all or has gone round the whole 32-bit word. */
  lemma AcceptsExactly(s: State)
    requires Inv(s) && s.reader.Reading?
    ensures s.seqWord == s.reader.before <==> (s.count - s.seen + s.seen % 2) % WORD == 0
  {
    var w := s.seen % WORD;
    assert w % 2 == s.seen % 2;
    var d := s.count - s.seen + s.seen % 2;
    assert (s.count - d) == s.seen - s.seen % 2;
  }

  /** In any run in which the counter does not go round between the two loads of one read,
      a value returned is computed from one triple of one saveParam: the last one complete
      when the read began.  A first load that saw an odd counter never leads to a return. */
  lemma ReturnsOneTriple(first: Params, s0: State, steps: seq<Step>, s: State, tsc: int)
    requires Init(s0, first) && Run(s0, steps, s)
    requires Enabled(s, LoadAfter(tsc)) && Apply(s, LoadAfter(tsc)).reader.Returned?
    requires s.count - s.seen < WORD - 1
    ensures s.seen == s.count && s.seen % 2 == 0 && 1 <= s.seen / 2 <= |s.stored|
    ensures Apply(s, LoadAfter(tsc)).reader == Returned(Convert(s.stored[s.seen / 2 - 1], tsc))
  {
    RunOk(s0, steps, s);
    AcceptsExactly(s);
  }

  // ------------------------------------------------------------------ the conversion

  /** The fraction is cut off, toward zero. */
  lemma TruncateExactly(x: real)
    ensures x >= 0.0 ==> Truncate(x) as real <= x < Truncate(x) as real + 1.0
    ensures x <= 0.0 ==> Truncate(x) as real - 1.0 < x <= Truncate(x) as real
  {
  }

  /** A base time converts to its base nanoseconds, any other to less than one nanosecond
      from baseNs + (tsc - baseTsc) * nsPerTsc, on the side of baseNs. */
  lemma ConvertExactly(p: Params, tsc: int)
    ensures tsc == p.baseTsc ==> Convert(p, tsc) == p.baseNs
    ensures var exact := (tsc - p.baseTsc) as real * p.nsPerTsc;
      var d := (Convert(p, tsc) - p.baseNs) as real;
      && (exact >= 0.0 ==> d <= exact < d + 1.0)
      && (exact <= 0.0 ==> d - 1.0 < exact <= d)
  {
    TruncateExactly((tsc - p.baseTsc) as real * p.nsPerTsc);
    if tsc == p.baseTsc {
      assert (tsc - p.baseTsc) as real * p.nsPerTsc == 0.0;
    }
  }

  lemma TruncateMonotone(x: real, y: real)
    requires x <= y
    ensures Truncate(x) <= Truncate(y)
  {
  }

  lemma ScaleMonotone(x: real, y: real, r: real)
    requires x <= y && r >= 0.0
    ensures x * r <= y * r
  {
    assert y * r - x * r == (y - x) * r;
  }

  /** Time does not run backwards within one triple. */
  lemma ConvertMonotone(p: Params, a: int, b: int)
    requires p.nsPerTsc >= 0.0 && a <= b
    ensures Convert(p, a) <= Convert(p, b)
  {
    var x, y := (a - p.baseTsc) as real, (b - p.baseTsc) as real;
    ScaleMonotone(x, y, p.nsPerTsc);
    TruncateMonotone(x * p.nsPerTsc, y * p.nsPerTsc);
  }
}

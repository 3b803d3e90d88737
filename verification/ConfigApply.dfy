/**
 Applying a parsed configuration to the registry.  Initialising without a path applies the
 same configuration twice, so what matters is that the second time changes nothing.
 */
module ConfigApply {
  import opened Wrappers
  import opened Registry

  datatype HandlerSection = HandlerSection(
    name: string, kind: Option<Kind>, level: int, filename: string,
    maxSize: int, maxBackups: int, format: string, psk: string)

  datatype LoggerSection = LoggerSection(name: string, level: int, handlers: seq<string>)

  datatype Config = Config(
    logBuffer: int, ringBuffer: int, handlers: seq<HandlerSection>, loggers: seq<LoggerSection>)

  /** The buffer sizes of the process-wide lmk_config. */
  class Settings {
    var logBuffer: int
    var ringBuffer: int

    constructor ()
      ensures logBuffer == 0 && ringBuffer == 0
    {
      logBuffer, ringBuffer := 0, 0;
    }
  }

  const DEFAULT_LOG_BUFFER := 2048
  const DEFAULT_RING_BUFFER := 1024

  function SizeOr(size: int, standard: int): int {
    if size > 0 then size else standard
  }

  function Lower(c: char): char {
    if 'A' <= c <= 'Z' then c + 32 as char else c
  }

  predicate SameIgnoringCase(a: string, b: string) {
    |a| == |b| && forall i | 0 <= i < |a| :: Lower(a[i]) == Lower(b[i])
  }

  /** lmk_get_format_fn. */
  function FormatOf(name: string): Format {
    if SameIgnoringCase(name, "simple") then Simple
    else if SameIgnoringCase(name, "json") then Json
    else Default
  }

  // ------------------------------------------------- what a section does to a handler

  /** A section without a known type does nothing, nor does a file section without a file name. */
  predicate Skipped(sec: HandlerSection) {
    sec.kind == None || (sec.kind == Some(File) && sec.filename == "")
  }

  /** All console sections are about the one console handler, whatever they are called. */
  function Target(sec: HandlerSection): string {
    if sec.kind == Some(Console) then "console" else sec.name
  }

  predicate About(sec: HandlerSection, name: string) {
    !Skipped(sec) && Target(sec) == name
  }

  function SectionLimits(sec: HandlerSection): Limits {
    Limits(SizeOr(sec.maxSize, MAX_FILE_SIZE), SizeOr(sec.maxBackups, MAX_BACKUPS))
  }

  predicate SetsLimits(sec: HandlerSection, kind: Kind) {
    sec.kind == Some(File) && kind == File && (sec.maxSize > 0 || sec.maxBackups > 0)
  }

  predicate SetsPsk(sec: HandlerSection, kind: Kind) {
    sec.kind == Some(Socket) && kind == Socket && sec.psk != ""
  }

  /** A handler after one section; a clashing name leaves its kind as it was. */
  function Touch(sec: HandlerSection, h: Handler): Handler {
    if !About(sec, h.name) then h
    else h.(limits := if SetsLimits(sec, h.kind) then SectionLimits(sec) else h.limits,
            psk := if SetsPsk(sec, h.kind) then Some(sec.psk) else h.psk,
            level := if ValidLevel(sec.level) then sec.level else h.level,
            format := if sec.format != "" then FormatOf(sec.format) else h.format)
  }

  /** The same handler after all the sections. */
  function TouchAll(secs: seq<HandlerSection>, h: Handler): Handler {
    if secs == [] then h else Touch(secs[|secs| - 1], TouchAll(secs[..|secs| - 1], h))
  }

  ghost function Got(hs: seq<Handler>, name: string, kind: Kind): seq<Handler> {
    if HasHandler(hs, name) then hs else hs + [NewHandler(name, kind)]
  }

  function Touched(hs: seq<Handler>, sec: HandlerSection): seq<Handler> {
    seq(|hs|, i requires 0 <= i < |hs| => Touch(sec, hs[i]))
  }

  ghost function HandlerStep(hs: seq<Handler>, sec: HandlerSection): seq<Handler> {
    if Skipped(sec) then hs else Touched(Got(hs, Target(sec), sec.kind.value), sec)
  }

  ghost function HandlerPass(hs: seq<Handler>, secs: seq<HandlerSection>): seq<Handler> {
    if secs == [] then hs else HandlerStep(HandlerPass(hs, secs[..|secs| - 1]), secs[|secs| - 1])
  }

  // -------------------------------------------------- what a section does to a logger

  function Known(hs: seq<Handler>): set<string> {
    set h | h in hs :: h.name
  }

  function AttachAll(known: set<string>, l: Logger, names: seq<string>): Logger {
    if names == [] then l
    else
      var name, m := names[|names| - 1], AttachAll(known, l, names[..|names| - 1]);
      if name in known then WithRef(m, name) else m
  }

  function Levelled(l: Logger, level: int): Logger {
    if ValidLevel(level) then l.(level := level) else l
  }

  function TouchLogger(known: set<string>, sec: LoggerSection, l: Logger): Logger {
    if sec.name == l.name then AttachAll(known, Levelled(l, sec.level), sec.handlers) else l
  }

  ghost predicate HasLogger(ls: seq<Logger>, name: string) {
    exists i :: 0 <= i < |ls| && ls[i].name == name
  }

  ghost function GotLogger(ls: seq<Logger>, name: string): seq<Logger> {
    if HasLogger(ls, name) then ls else ls + [NewLogger(name)]
  }

  function TouchedLoggers(known: set<string>, ls: seq<Logger>, sec: LoggerSection): seq<Logger> {
    seq(|ls|, i requires 0 <= i < |ls| => TouchLogger(known, sec, ls[i]))
  }

  ghost function LoggerPass(known: set<string>, ls: seq<Logger>, secs: seq<LoggerSection>): seq<Logger> {
    if secs == [] then ls
    else
      var sec := secs[|secs| - 1];
      TouchedLoggers(known, GotLogger(LoggerPass(known, ls, secs[..|secs| - 1]), sec.name), sec)
  }

  /** The registry after the configuration; reference counts follow from the registry invariant. */
  ghost predicate Outcome(hs: seq<Handler>, ls: seq<Logger>, cfg: Config, hs': seq<Handler>, ls': seq<Logger>) {
    var gs := HandlerPass(hs, cfg.handlers);
    RegistryOk(hs', ls') && SameButCounts(gs, hs') && ls' == LoggerPass(Known(gs), ls, cfg.loggers)
  }

  // -------------------------------------------------------------- handlers settle

  /** More sections leave this handler as it is. */
  predicate Settled(secs: seq<HandlerSection>, h: Handler) {
    TouchAll(secs, h) == h
  }

  lemma {:induction false} TouchAllKeeps(secs: seq<HandlerSection>, h: Handler)
    ensures TouchAll(secs, h).name == h.name && TouchAll(secs, h).kind == h.kind
    ensures TouchAll(secs, h).nrLoggerRef == h.nrLoggerRef
  {
    if secs != [] {
      TouchAllKeeps(secs[..|secs| - 1], h);
    }
  }

  /** The last section that sets something. */
  function LastOf(secs: seq<HandlerSection>, sets: HandlerSection -> bool): (r: Option<HandlerSection>)
    ensures r.None? ==> forall i :: 0 <= i < |secs| ==> !sets(secs[i])
    ensures r.Some? ==> exists i :: 0 <= i < |secs| && secs[i] == r.value && sets(secs[i])
                                    && forall j :: i < j < |secs| ==> !sets(secs[j])
  {
    if secs == [] then None
    else if sets(secs[|secs| - 1]) then Some(secs[|secs| - 1])
    else LastOf(secs[..|secs| - 1], sets)
  }

  function LevelFor(name: string): HandlerSection -> bool {
    sec => About(sec, name) && ValidLevel(sec.level)
  }

  function FormatFor(name: string): HandlerSection -> bool {
    sec => About(sec, name) && sec.format != ""
  }

  function LimitsFor(name: string, kind: Kind): HandlerSection -> bool {
    sec => About(sec, name) && SetsLimits(sec, kind)
  }

  function PskFor(name: string, kind: Kind): HandlerSection -> bool {
    sec => About(sec, name) && SetsPsk(sec, kind)
  }

  /** Every setting is the one in the last section that gives it, or as it was. */
  lemma {:induction false} LastWriterWins(secs: seq<HandlerSection>, h: Handler)
    ensures var t := TouchAll(secs, h);
      && t == h.(level := t.level, format := t.format, limits := t.limits, psk := t.psk)
      && t.level == (match LastOf(secs, LevelFor(h.name)) case None => h.level case Some(sec) => sec.level)
      && t.format == (match LastOf(secs, FormatFor(h.name))
                      case None => h.format
                      case Some(sec) => FormatOf(sec.format))
      && t.limits == (match LastOf(secs, LimitsFor(h.name, h.kind))
                      case None => h.limits
                      case Some(sec) => SectionLimits(sec))
      && t.psk == (match LastOf(secs, PskFor(h.name, h.kind)) case None => h.psk case Some(sec) => Some(sec.psk))
  {
    if secs != [] {
      LastWriterWins(secs[..|secs| - 1], h);
    }
  }

  lemma SettledBySection(secs: seq<HandlerSection>, sec: HandlerSection, h: Handler)
    requires Settled(secs, h)
    ensures Settled(secs + [sec], Touch(sec, h))
  {
    var t := Touch(sec, h);
    LastWriterWins(secs, h);
    LastWriterWins(secs, t);
    assert (secs + [sec])[..|secs|] == secs;
  }

  lemma {:induction false} NotAbout(secs: seq<HandlerSection>, h: Handler)
    requires forall i | 0 <= i < |secs| :: !About(secs[i], h.name)
    ensures Settled(secs, h)
  {
    if secs != [] {
      NotAbout(secs[..|secs| - 1], h);
    }
  }

  /** Every handler some section is about is there. */
  ghost predicate AllThere(hs: seq<Handler>, secs: seq<HandlerSection>) {
    forall i | 0 <= i < |secs| :: Skipped(secs[i]) || HasHandler(hs, Target(secs[i]))
  }

  lemma StepKeepsNames(hs: seq<Handler>, sec: HandlerSection, name: string)
    requires HasHandler(hs, name) || About(sec, name)
    ensures HasHandler(HandlerStep(hs, sec), name)
  {
    if !Skipped(sec) {
      var gs := Got(hs, Target(sec), sec.kind.value);
      assert !HasHandler(hs, Target(sec)) ==> gs[|hs|].name == Target(sec);
      assert HasHandler(gs, name) by {
        if HasHandler(hs, name) {
          var i :| 0 <= i < |hs| && hs[i].name == name;
          assert gs[i].name == name;
        }
      }
      var k :| 0 <= k < |gs| && gs[k].name == name;
      assert HandlerStep(hs, sec)[k].name == name;
    }
  }

  /** After a pass every section's handler exists and no handler can change further, except
      those that were there before and no section is about. */
  lemma {:induction false} PassSettles(hs: seq<Handler>, secs: seq<HandlerSection>)
    ensures AllThere(HandlerPass(hs, secs), secs)
    ensures forall i | 0 <= i < |HandlerPass(hs, secs)| :: Settled(secs, HandlerPass(hs, secs)[i])
  {
    if secs != [] {
      var front, sec := secs[..|secs| - 1], secs[|secs| - 1];
      var mid, end := HandlerPass(hs, front), HandlerPass(hs, secs);
      PassSettles(hs, front);
      assert front + [sec] == secs;
      forall i | 0 <= i < |secs| ensures Skipped(secs[i]) || HasHandler(end, Target(secs[i])) {
        if !Skipped(secs[i]) {
          assert i < |front| ==> secs[i] == front[i];
          StepKeepsNames(mid, sec, Target(secs[i]));
        }
      }
      forall i | 0 <= i < |end| ensures Settled(secs, end[i]) {
        if Skipped(sec) {
          SettledBySection(front, sec, mid[i]);
        } else {
          var g := Got(mid, Target(sec), sec.kind.value)[i];
          if i == |mid| {
            NotAbout(front, g);
          }
          SettledBySection(front, sec, g);
        }
      }
    }
  }

  /** With every section's handler there, a pass changes the handlers one by one. */
  lemma {:induction false} PassPointwise(hs: seq<Handler>, secs: seq<HandlerSection>)
    requires AllThere(hs, secs)
    ensures |HandlerPass(hs, secs)| == |hs|
    ensures forall i | 0 <= i < |hs| :: HandlerPass(hs, secs)[i] == TouchAll(secs, hs[i])
  {
    if secs != [] {
      var front, sec := secs[..|secs| - 1], secs[|secs| - 1];
      var mid := HandlerPass(hs, front);
      assert forall i | 0 <= i < |front| :: front[i] == secs[i];
      PassPointwise(hs, front);
      if Skipped(sec) {
        forall i | 0 <= i < |hs| ensures Touch(sec, mid[i]) == mid[i] {
        }
      } else {
        var k :| 0 <= k < |hs| && hs[k].name == Target(sec);
        TouchAllKeeps(front, hs[k]);
        assert mid[k].name == Target(sec);
      }
    }
  }

  lemma {:induction false} CountsDoNotMatter(secs: seq<HandlerSection>, h: Handler, n: nat)
    ensures TouchAll(secs, h.(nrLoggerRef := n)) == TouchAll(secs, h).(nrLoggerRef := n)
  {
    if secs != [] {
      CountsDoNotMatter(secs[..|secs| - 1], h, n);
    }
  }

  /** A second pass over the handlers changes nothing. */
  lemma HandlersStay(hs: seq<Handler>, secs: seq<HandlerSection>, gs: seq<Handler>)
    requires SameButCounts(HandlerPass(hs, secs), gs)
    ensures HandlerPass(gs, secs) == gs
  {
    var fs := HandlerPass(hs, secs);
    PassSettles(hs, secs);
    forall i | 0 <= i < |secs| ensures Skipped(secs[i]) || HasHandler(gs, Target(secs[i])) {
      if !Skipped(secs[i]) {
        SameNames(fs, gs, Target(secs[i]));
      }
    }
    PassPointwise(gs, secs);
    forall i | 0 <= i < |gs| ensures TouchAll(secs, gs[i]) == gs[i] {
      assert fs[i].(nrLoggerRef := 0) == gs[i].(nrLoggerRef := 0);
      CountsDoNotMatter(secs, fs[i], gs[i].nrLoggerRef);
      assert fs[i].(nrLoggerRef := gs[i].nrLoggerRef) == gs[i];
    }
  }

  // --------------------------------------------------------------- loggers settle

  function TouchAllLogger(known: set<string>, secs: seq<LoggerSection>, l: Logger): Logger {
    if secs == [] then l
    else TouchLogger(known, secs[|secs| - 1], TouchAllLogger(known, secs[..|secs| - 1], l))
  }

  lemma {:induction false} AttachAllExact(known: set<string>, l: Logger, names: seq<string>)
    ensures var m := AttachAll(known, l, names);
            && m.name == l.name && m.level == l.level
            && (forall n :: n in m.refs <==> n in l.refs || (n in names && n in known))
            && ((forall n | n in names && n in known :: n in l.refs) ==> m == l)
  {
    if names != [] {
      var front := names[..|names| - 1];
      AttachAllExact(known, l, front);
      assert forall n :: n in names <==> n in front || n == names[|names| - 1];
    }
  }

  /** The references the sections ask for are there. */
  predicate Attached(known: set<string>, secs: seq<LoggerSection>, l: Logger) {
    forall i | 0 <= i < |secs| && secs[i].name == l.name ::
      forall n | n in secs[i].handlers && n in known :: n in l.refs
  }

  /** The last valid level the sections give. */
  function LastLevel(secs: seq<LoggerSection>, name: string, level: int): int {
    if secs == [] then level
    else
      var sec := secs[|secs| - 1];
      if sec.name == name && ValidLevel(sec.level) then sec.level
      else LastLevel(secs[..|secs| - 1], name, level)
  }

  lemma {:induction false} LastLevelTwice(secs: seq<LoggerSection>, name: string, level: int)
    ensures LastLevel(secs, name, LastLevel(secs, name, level)) == LastLevel(secs, name, level)
  {
    if secs != [] {
      LastLevelTwice(secs[..|secs| - 1], name, level);
    }
  }

  ghost predicate LoggerSettled(known: set<string>, secs: seq<LoggerSection>, l: Logger) {
    Attached(known, secs, l) && LastLevel(secs, l.name, l.level) == l.level
  }

  lemma LoggerSettledBySection(known: set<string>, secs: seq<LoggerSection>, sec: LoggerSection, l: Logger)
    requires LoggerSettled(known, secs, l)
    ensures LoggerSettled(known, secs + [sec], TouchLogger(known, sec, l))
  {
    AttachAllExact(known, Levelled(l, sec.level), sec.handlers);
    assert (secs + [sec])[..|secs|] == secs;
  }

  lemma {:induction false} NotNamed(known: set<string>, secs: seq<LoggerSection>, l: Logger)
    requires forall i | 0 <= i < |secs| :: secs[i].name != l.name
    ensures LoggerSettled(known, secs, l)
  {
    if secs != [] {
      NotNamed(known, secs[..|secs| - 1], l);
    }
  }

  ghost predicate LoggersThere(ls: seq<Logger>, secs: seq<LoggerSection>) {
    forall i | 0 <= i < |secs| :: HasLogger(ls, secs[i].name)
  }

  lemma TouchKeepsName(known: set<string>, sec: LoggerSection, l: Logger)
    ensures TouchLogger(known, sec, l).name == l.name
  {
    AttachAllExact(known, Levelled(l, sec.level), sec.handlers);
  }

  lemma LoggerStepKeepsNames(known: set<string>, ls: seq<Logger>, sec: LoggerSection, name: string)
    requires HasLogger(ls, name) || sec.name == name
    ensures HasLogger(TouchedLoggers(known, GotLogger(ls, sec.name), sec), name)
  {
    var gs := GotLogger(ls, sec.name);
    assert !HasLogger(ls, sec.name) ==> gs[|ls|].name == sec.name;
    assert HasLogger(gs, name) by {
      if HasLogger(ls, name) {
        var i :| 0 <= i < |ls| && ls[i].name == name;
        assert gs[i].name == name;
      }
    }
    var k :| 0 <= k < |gs| && gs[k].name == name;
    TouchKeepsName(known, sec, gs[k]);
    assert TouchedLoggers(known, gs, sec)[k].name == name;
  }

  lemma {:induction false} LoggerPassSettles(known: set<string>, ls: seq<Logger>, secs: seq<LoggerSection>)
    ensures LoggersThere(LoggerPass(known, ls, secs), secs)
    ensures forall i | 0 <= i < |LoggerPass(known, ls, secs)| ::
              LoggerSettled(known, secs, LoggerPass(known, ls, secs)[i])
  {
    if secs != [] {
      var front, sec := secs[..|secs| - 1], secs[|secs| - 1];
      var mid, end := LoggerPass(known, ls, front), LoggerPass(known, ls, secs);
      LoggerPassSettles(known, ls, front);
      assert front + [sec] == secs;
      forall i | 0 <= i < |secs| ensures HasLogger(end, secs[i].name) {
        assert i < |front| ==> secs[i] == front[i];
        LoggerStepKeepsNames(known, mid, sec, secs[i].name);
      }
      forall i | 0 <= i < |end| ensures LoggerSettled(known, secs, end[i]) {
        var g := GotLogger(mid, sec.name)[i];
        if i == |mid| {
          NotNamed(known, front, g);
        }
        LoggerSettledBySection(known, front, sec, g);
      }
    }
  }

  /** With the loggers there and their references attached, a pass only replays the levels. */
  lemma {:induction false} LoggerPassPointwise(known: set<string>, ls: seq<Logger>, secs: seq<LoggerSection>)
    requires LoggersThere(ls, secs)
    requires forall i | 0 <= i < |ls| :: Attached(known, secs, ls[i])
    ensures |LoggerPass(known, ls, secs)| == |ls|
    ensures forall i | 0 <= i < |ls| ::
              LoggerPass(known, ls, secs)[i] == ls[i].(level := LastLevel(secs, ls[i].name, ls[i].level))
  {
    if secs != [] {
      var front, sec := secs[..|secs| - 1], secs[|secs| - 1];
      var mid := LoggerPass(known, ls, front);
      assert forall i | 0 <= i < |front| :: front[i] == secs[i];
      LoggerPassPointwise(known, ls, front);
      var k :| 0 <= k < |ls| && ls[k].name == sec.name;
      assert mid[k].name == sec.name;
      forall i | 0 <= i < |ls|
        ensures TouchLogger(known, sec, mid[i]) == ls[i].(level := LastLevel(secs, ls[i].name, ls[i].level))
      {
        assert secs[|secs| - 1] == sec && Attached(known, secs, ls[i]);
        AttachAllExact(known, Levelled(mid[i], sec.level), sec.handlers);
      }
    }
  }

  lemma LoggersStay(known: set<string>, ls: seq<Logger>, secs: seq<LoggerSection>)
    ensures var ms := LoggerPass(known, ls, secs); LoggerPass(known, ms, secs) == ms
  {
    var ms := LoggerPass(known, ls, secs);
    LoggerPassSettles(known, ls, secs);
    LoggerPassPointwise(known, ms, secs);
  }

  // ------------------------------------------------------------------ idempotence

  lemma SameKnown(hs: seq<Handler>, gs: seq<Handler>)
    requires SameButCounts(hs, gs)
    ensures Known(hs) == Known(gs)
  {
    assert SameButCounts(gs, hs);
    forall name ensures name in Known(hs) <==> name in Known(gs) {
      KnownExact(hs, name);
      KnownExact(gs, name);
      if HasHandler(hs, name) {
        SameNames(hs, gs, name);
      } else if HasHandler(gs, name) {
        SameNames(gs, hs, name);
      }
    }
  }

  /** Handlers that agree apart from the counts, with the same loggers, are the same. */
  lemma CountsFollow(hs: seq<Handler>, gs: seq<Handler>, ls: seq<Logger>)
    requires RegistryOk(hs, ls) && RegistryOk(gs, ls) && SameButCounts(hs, gs)
    ensures hs == gs
  {
    forall i | 0 <= i < |hs| ensures hs[i] == gs[i] {
      assert hs[i].(nrLoggerRef := 0) == gs[i].(nrLoggerRef := 0);
      assert hs[i].nrLoggerRef == Count(ls, hs[i].name) && gs[i].nrLoggerRef == Count(ls, gs[i].name);
    }
  }

  /** Applying a configuration to what it produced changes nothing: not one handler, logger,
      level, format, limit, key, attachment or reference count, whatever the sections. */
  lemma ApplyIsIdempotent(hs: seq<Handler>, ls: seq<Logger>, cfg: Config,
                          hs1: seq<Handler>, ls1: seq<Logger>, hs2: seq<Handler>, ls2: seq<Logger>)
    requires Outcome(hs, ls, cfg, hs1, ls1) && Outcome(hs1, ls1, cfg, hs2, ls2)
    ensures hs2 == hs1 && ls2 == ls1
  {
    HandlersStay(hs, cfg.handlers, hs1);
    SameKnown(HandlerPass(hs, cfg.handlers), hs1);
    LoggersStay(Known(hs1), ls, cfg.loggers);
    CountsFollow(hs1, hs2, ls1);
  }

  /** What a configuration asks for holds afterwards: the handlers and loggers it names exist,
      and a logger refers to each live handler its sections list. */
  lemma ApplyEstablishes(hs: seq<Handler>, ls: seq<Logger>, cfg: Config, hs1: seq<Handler>, ls1: seq<Logger>)
    requires Outcome(hs, ls, cfg, hs1, ls1)
    ensures AllThere(hs1, cfg.handlers) && LoggersThere(ls1, cfg.loggers)
    ensures forall i | 0 <= i < |hs1| :: Settled(cfg.handlers, hs1[i])
    ensures forall i | 0 <= i < |ls1| :: LoggerSettled(Known(hs1), cfg.loggers, ls1[i])
  {
    HandlersStay(hs, cfg.handlers, hs1);
    PassSettles(hs1, cfg.handlers);
    SameKnown(HandlerPass(hs, cfg.handlers), hs1);
    LoggerPassSettles(Known(hs1), ls, cfg.loggers);
  }

  // ---------------------------------------------------------------------- the code

  lemma PassPrefix(hs: seq<Handler>, secs: seq<HandlerSection>, i: nat)
    requires i < |secs|
    ensures HandlerPass(hs, secs[..i + 1]) == HandlerStep(HandlerPass(hs, secs[..i]), secs[i])
  {
    assert secs[..i + 1][..i] == secs[..i];
  }

  lemma LoggerPassPrefix(known: set<string>, ls: seq<Logger>, secs: seq<LoggerSection>, i: nat)
    requires i < |secs|
    ensures LoggerPass(known, ls, secs[..i + 1])
         == TouchedLoggers(known, GotLogger(LoggerPass(known, ls, secs[..i]), secs[i].name), secs[i])
  {
    assert secs[..i + 1][..i] == secs[..i];
  }

  lemma OnlyTarget(hs: seq<Handler>, j: nat, sec: HandlerSection)
    requires UniqueHandlers(hs) && j < |hs| && About(sec, hs[j].name)
    ensures Touched(hs, sec) == hs[j := Touch(sec, hs[j])]
  {
  }

  lemma OnlyTargetLogger(known: set<string>, ls: seq<Logger>, i: nat, sec: LoggerSection)
    requires UniqueLoggers(ls) && i < |ls| && sec.name == ls[i].name
    ensures TouchedLoggers(known, ls, sec) == ls[i := TouchLogger(known, sec, ls[i])]
  {
  }

  lemma KnownExact(hs: seq<Handler>, name: string)
    ensures name in Known(hs) <==> HasHandler(hs, name)
  {
    if HasHandler(hs, name) {
      var i :| 0 <= i < |hs| && hs[i].name == name;
      assert hs[i] in hs;
    }
  }

  /** One handler section. */
  method ApplyHandler(reg: Registry, sec: HandlerSection)
    requires reg.Valid()
    modifies reg`handlers
    ensures reg.Valid() && reg.handlers == HandlerStep(old(reg.handlers), sec)
  {
    if sec.kind == None {
      return;
    }
    var found := reg.GetHandler(Target(sec), sec.kind.value, if sec.filename != "" then Some(sec.filename) else None);
    if found == None {
      return;
    }
    ghost var got := reg.handlers;
    assert got == Got(old(reg.handlers), Target(sec), sec.kind.value);
    Configure(reg, found.value, sec);
    OnlyTarget(got, found.value, sec);
  }

  /** The settings a section gives its handler. */
  method Configure(reg: Registry, j: nat, sec: HandlerSection)
    requires reg.Valid() && j < |reg.handlers| && About(sec, reg.handlers[j].name)
    modifies reg`handlers
    ensures reg.Valid()
    ensures reg.handlers == old(reg.handlers)[j := Touch(sec, old(reg.handlers)[j])]
  {
    if sec.kind.value == File && (sec.maxSize > 0 || sec.maxBackups > 0) {
      reg.SetRotation(j, SectionLimits(sec));
    }
    if sec.kind.value == Socket && sec.psk != "" {
      reg.SetPsk(j, sec.psk);
    }
    if sec.level != -1 {
      reg.SetHandlerLevel(j, sec.level);
    }
    if sec.format != "" {
      reg.SetFormat(j, FormatOf(sec.format));
    }
  }

  /** A handler a logger section lists. */
  method AttachIfLive(reg: Registry, i: nat, name: string)
    requires reg.Valid() && i < |reg.loggers|
    modifies reg
    ensures reg.Valid() && SameButCounts(old(reg.handlers), reg.handlers)
    ensures var l := old(reg.loggers[i]);
            reg.loggers == old(reg.loggers)[i := if name in Known(old(reg.handlers)) then WithRef(l, name) else l]
  {
    KnownExact(reg.handlers, name);
    assert reg.loggers[i] in reg.loggers;
    var j := reg.SearchHandler(name);
    if j >= 0 {
      var ok, at := reg.Attach(reg.loggers[i].name, name);
      assert at == i;
    }
  }

  /** All the handlers a logger section lists. */
  method AttachListed(reg: Registry, i: nat, names: seq<string>)
    requires reg.Valid() && i < |reg.loggers|
    modifies reg
    ensures reg.Valid() && SameButCounts(old(reg.handlers), reg.handlers)
    ensures reg.loggers == old(reg.loggers)[i := AttachAll(Known(old(reg.handlers)), old(reg.loggers[i]), names)]
  {
    ghost var known, was, l := Known(reg.handlers), reg.loggers, reg.loggers[i];
    var k := 0;
    assert was == was[i := l];
    while k < |names|
      invariant 0 <= k <= |names| && reg.Valid() && SameButCounts(old(reg.handlers), reg.handlers)
      invariant reg.loggers == was[i := AttachAll(known, l, names[..k])]
    {
      SameKnown(old(reg.handlers), reg.handlers);
      assert names[..k + 1][..k] == names[..k];
      AttachIfLive(reg, i, names[k]);
      k := k + 1;
    }
    assert names[..k] == names;
  }

  /** One logger section. */
  method ApplyLogger(reg: Registry, sec: LoggerSection)
    requires reg.Valid()
    modifies reg
    ensures reg.Valid() && SameButCounts(old(reg.handlers), reg.handlers)
    ensures var known, ls := Known(old(reg.handlers)), GotLogger(old(reg.loggers), sec.name);
            reg.loggers == TouchedLoggers(known, ls, sec)
  {
    ghost var known := Known(reg.handlers);
    var i := reg.GetLogger(sec.name);
    ghost var got := reg.loggers;
    assert got == GotLogger(old(reg.loggers), sec.name);
    if sec.level != -1 {
      reg.SetLoggerLevel(i, sec.level);
    }
    assert reg.loggers == got[i := Levelled(got[i], sec.level)];
    AttachListed(reg, i, sec.handlers);
    OnlyTargetLogger(known, got, i, sec);
  }

  /** lmk_cfg_apply. */
  method Apply(reg: Registry, settings: Settings, cfg: Config)
    requires reg.Valid()
    modifies reg, settings
    ensures Outcome(old(reg.handlers), old(reg.loggers), cfg, reg.handlers, reg.loggers)
    ensures settings.logBuffer == if cfg.logBuffer > 0 then cfg.logBuffer else 2048
    ensures settings.ringBuffer == if cfg.ringBuffer > 0 then cfg.ringBuffer else 1024
  {
    settings.logBuffer := if cfg.logBuffer > 0 then cfg.logBuffer else DEFAULT_LOG_BUFFER;
    settings.ringBuffer := if cfg.ringBuffer > 0 then cfg.ringBuffer else DEFAULT_RING_BUFFER;
    label Sized:
    var i := 0;
    while i < |cfg.handlers|
      invariant 0 <= i <= |cfg.handlers| && reg.Valid() && unchanged@Sized(settings) && reg.loggers == old(reg.loggers)
      invariant reg.handlers == HandlerPass(old(reg.handlers), cfg.handlers[..i])
    {
      PassPrefix(old(reg.handlers), cfg.handlers, i);
      ApplyHandler(reg, cfg.handlers[i]);
      i := i + 1;
    }
    assert cfg.handlers[..i] == cfg.handlers;
    ghost var hs := reg.handlers;
    i := 0;
    while i < |cfg.loggers|
      invariant 0 <= i <= |cfg.loggers| && reg.Valid() && unchanged@Sized(settings) && SameButCounts(hs, reg.handlers)
      invariant reg.loggers == LoggerPass(Known(hs), old(reg.loggers), cfg.loggers[..i])
    {
      LoggerPassPrefix(Known(hs), old(reg.loggers), cfg.loggers, i);
      SameKnown(hs, reg.handlers);
      ApplyLogger(reg, cfg.loggers[i]);
      i := i + 1;
    }
    assert cfg.loggers[..i] == cfg.loggers;
  }

  /** lmk_init_from_file without a path, first use: initialisation applies the file, then the
      call applies it again.  The outcome is that of applying it once. */
  method InitFromFile(reg: Registry, settings: Settings, cfg: Config)
    requires reg.Valid() && reg.handlers == [] && reg.loggers == []
    modifies reg, settings
    ensures Outcome([], [], cfg, reg.handlers, reg.loggers)
  {
    Apply(reg, settings, cfg);
    ghost var hs, ls := reg.handlers, reg.loggers;
    Apply(reg, settings, cfg);
    ApplyIsIdempotent([], [], cfg, hs, ls, reg.handlers, reg.loggers);
  }
}

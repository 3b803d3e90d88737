/**
 What a configuration means, without the functions that compute it: after it has been
 applied, every handler and logger has what the last section that speaks of it gives.
 */
module ConfigMeaning {
  import opened Wrappers
  import opened Registry
  import opened ConfigApply

  // ------------------------------------------------------------------ handler sections

  /** The section configures the handler of that name: all console sections the one called
      "console", file sections only if they give a file name. */
  predicate Concerns(sec: HandlerSection, name: string) {
    || (sec.kind == Some(Console) && name == "console")
    || (sec.kind == Some(File) && sec.filename != "" && name == sec.name)
    || (sec.kind == Some(Socket) && name == sec.name)
    || (sec.kind == Some(Syslog) && name == sec.name)
  }

  lemma ConcernsIsAbout(sec: HandlerSection, name: string)
    ensures Concerns(sec, name) <==> About(sec, name)
  {
    if sec.kind.Some? {
      match sec.kind.value
      case Console =>
      case File =>
      case Socket =>
      case Syslog =>
    }
  }

  /** Section i gives the handler a level, and no later one does; likewise below. */
  ghost predicate GivesLevel(secs: seq<HandlerSection>, i: nat, name: string)
    requires i < |secs|
  {
    && Concerns(secs[i], name) && 0 <= secs[i].level <= 5
    && forall j | i < j < |secs| :: !(Concerns(secs[j], name) && 0 <= secs[j].level <= 5)
  }

  ghost predicate GivesFormat(secs: seq<HandlerSection>, i: nat, name: string)
    requires i < |secs|
  {
    && Concerns(secs[i], name) && secs[i].format != ""
    && forall j | i < j < |secs| :: !(Concerns(secs[j], name) && secs[j].format != "")
  }

  ghost predicate GivesLimits(secs: seq<HandlerSection>, i: nat, name: string)
    requires i < |secs|
  {
    && HasLimits(secs[i], name) && forall j | i < j < |secs| :: !HasLimits(secs[j], name)
  }

  predicate HasLimits(sec: HandlerSection, name: string) {
    sec.kind == Some(File) && Concerns(sec, name) && (sec.maxSize > 0 || sec.maxBackups > 0)
  }

  ghost predicate GivesPsk(secs: seq<HandlerSection>, i: nat, name: string)
    requires i < |secs|
  {
    && GivesKey(secs[i], name) && forall j | i < j < |secs| :: !GivesKey(secs[j], name)
  }

  predicate GivesKey(sec: HandlerSection, name: string) {
    sec.kind == Some(Socket) && Concerns(sec, name) && sec.psk != ""
  }

  /** The section that sets something last is the last section that sets it. */
  lemma LastIs(secs: seq<HandlerSection>, sets: HandlerSection -> bool, i: nat)
    requires i < |secs| && sets(secs[i]) && forall j | i < j < |secs| :: !sets(secs[j])
    ensures LastOf(secs, sets) == Some(secs[i])
  {
    var r := LastOf(secs, sets);
    assert r.Some?;
    var k :| 0 <= k < |secs| && secs[k] == r.value && sets(secs[k]) && forall j :: k < j < |secs| ==> !sets(secs[j]);
    assert k == i;
  }

  /** After a configuration every handler has the level, the format, the rotation limits and
      the key of the last section that gives them to it; limits reach file handlers only,
      with the defaults 20 MiB and 10 for what the section leaves out, keys socket handlers
      only. */
  lemma HandlersConfigured(hs: seq<Handler>, ls: seq<Logger>, cfg: Config, hs1: seq<Handler>, ls1: seq<Logger>,
                           i: nat, j: nat)
    requires Outcome(hs, ls, cfg, hs1, ls1) && i < |cfg.handlers| && j < |hs1|
    ensures var sec, h := cfg.handlers[i], hs1[j];
      && (GivesLevel(cfg.handlers, i, h.name) ==> h.level == sec.level)
      && (GivesFormat(cfg.handlers, i, h.name) ==> h.format == FormatOf(sec.format))
      && (GivesLimits(cfg.handlers, i, h.name) && h.kind == File ==>
            h.limits == Limits(if sec.maxSize > 0 then sec.maxSize else 20971520,
                               if sec.maxBackups > 0 then sec.maxBackups else 10))
      && (GivesPsk(cfg.handlers, i, h.name) && h.kind == Socket ==> h.psk == Some(sec.psk))
  {
    ApplyEstablishes(hs, ls, cfg, hs1, ls1);
    SettledLevelAndFormat(cfg.handlers, i, hs1[j]);
    SettledLimitsAndPsk(cfg.handlers, i, hs1[j]);
  }

  lemma ConcernsEverywhere(secs: seq<HandlerSection>, name: string)
    ensures forall j | 0 <= j < |secs| :: Concerns(secs[j], name) <==> About(secs[j], name)
  {
    forall j | 0 <= j < |secs| ensures Concerns(secs[j], name) <==> About(secs[j], name) {
      ConcernsIsAbout(secs[j], name);
    }
  }

  lemma SettledLevelAndFormat(secs: seq<HandlerSection>, i: nat, h: Handler)
    requires Settled(secs, h) && i < |secs|
    ensures GivesLevel(secs, i, h.name) ==> h.level == secs[i].level
    ensures GivesFormat(secs, i, h.name) ==> h.format == FormatOf(secs[i].format)
  {
    LastWriterWins(secs, h);
    ConcernsEverywhere(secs, h.name);
    if GivesLevel(secs, i, h.name) {
      LastIs(secs, LevelFor(h.name), i);
    }
    if GivesFormat(secs, i, h.name) {
      LastIs(secs, FormatFor(h.name), i);
    }
  }

  lemma SettledLimitsAndPsk(secs: seq<HandlerSection>, i: nat, h: Handler)
    requires Settled(secs, h) && i < |secs|
    ensures GivesLimits(secs, i, h.name) && h.kind == File ==>
              h.limits == Limits(if secs[i].maxSize > 0 then secs[i].maxSize else 20971520,
                                 if secs[i].maxBackups > 0 then secs[i].maxBackups else 10)
    ensures GivesPsk(secs, i, h.name) && h.kind == Socket ==> h.psk == Some(secs[i].psk)
  {
    LastWriterWins(secs, h);
    ConcernsEverywhere(secs, h.name);
    if GivesLimits(secs, i, h.name) && h.kind == File {
      LastIs(secs, LimitsFor(h.name, h.kind), i);
    }
    if GivesPsk(secs, i, h.name) && h.kind == Socket {
      LastIs(secs, PskFor(h.name, h.kind), i);
    }
  }

  /** Every handler a section concerns exists afterwards. */
  lemma HandlersExist(hs: seq<Handler>, ls: seq<Logger>, cfg: Config, hs1: seq<Handler>, ls1: seq<Logger>,
                      i: nat, name: string)
    requires Outcome(hs, ls, cfg, hs1, ls1) && i < |cfg.handlers| && Concerns(cfg.handlers[i], name)
    ensures HasHandler(hs1, name)
  {
    ApplyEstablishes(hs, ls, cfg, hs1, ls1);
    ConcernsIsAbout(cfg.handlers[i], name);
  }

  /** A pass keeps the handlers there were in their places. */
  lemma {:induction false} PassInPlace(hs: seq<Handler>, secs: seq<HandlerSection>)
    ensures |HandlerPass(hs, secs)| >= |hs|
    ensures forall i | 0 <= i < |hs| :: HandlerPass(hs, secs)[i] == TouchAll(secs, hs[i])
  {
    if secs != [] {
      var front, sec := secs[..|secs| - 1], secs[|secs| - 1];
      PassInPlace(hs, front);
      if Skipped(sec) {
        forall i | 0 <= i < |hs| ensures Touch(sec, TouchAll(front, hs[i])) == TouchAll(front, hs[i]) {
        }
      }
    }
  }

  /** A handler that no section concerns is left alone, but for its reference count. */
  lemma OthersUntouched(hs: seq<Handler>, ls: seq<Logger>, cfg: Config, hs1: seq<Handler>, ls1: seq<Logger>, j: nat)
    requires Outcome(hs, ls, cfg, hs1, ls1) && j < |hs|
    requires forall i | 0 <= i < |cfg.handlers| :: !Concerns(cfg.handlers[i], hs[j].name)
    ensures j < |hs1| && hs1[j] == hs[j].(nrLoggerRef := hs1[j].nrLoggerRef)
  {
    PassInPlace(hs, cfg.handlers);
    forall i | 0 <= i < |cfg.handlers| ensures !About(cfg.handlers[i], hs[j].name) {
      ConcernsIsAbout(cfg.handlers[i], hs[j].name);
    }
    NotAbout(cfg.handlers, hs[j]);
    assert HandlerPass(hs, cfg.handlers)[j].(nrLoggerRef := 0) == hs1[j].(nrLoggerRef := 0);
  }

  // ----------------------------------------------------------------------- format names

  lemma CharCase(c: char, low: char, up: char)
    requires 'a' <= low <= 'z' && up as int + 32 == low as int
    ensures Lower(c) == Lower(low) <==> c == low || c == up
  {
  }

  /** "simple" and "json" name their formats in any mixture of cases, anything else names
      the default format. */
  lemma FormatsByName(name: string)
    ensures FormatOf(name) == Simple <==>
              && |name| == 6 && name[0] in {'s', 'S'} && name[1] in {'i', 'I'} && name[2] in {'m', 'M'}
              && name[3] in {'p', 'P'} && name[4] in {'l', 'L'} && name[5] in {'e', 'E'}
    ensures FormatOf(name) == Json <==>
              && |name| == 4 && name[0] in {'j', 'J'} && name[1] in {'s', 'S'}
              && name[2] in {'o', 'O'} && name[3] in {'n', 'N'}
  {
    var simple, json := "simple", "json";
    if |name| == 6 {
      CharCase(name[0], simple[0], 'S');
      CharCase(name[1], simple[1], 'I');
      CharCase(name[2], simple[2], 'M');
      CharCase(name[3], simple[3], 'P');
      CharCase(name[4], simple[4], 'L');
      CharCase(name[5], simple[5], 'E');
    } else if |name| == 4 {
      CharCase(name[0], json[0], 'J');
      CharCase(name[1], json[1], 'S');
      CharCase(name[2], json[2], 'O');
      CharCase(name[3], json[3], 'N');
    }
  }

  // ------------------------------------------------------------------- logger sections

  lemma {:induction false} LastLevelIs(secs: seq<LoggerSection>, name: string, level: int, i: nat)
    requires i < |secs| && secs[i].name == name && 0 <= secs[i].level <= 5
    requires forall j | i < j < |secs| :: !(secs[j].name == name && 0 <= secs[j].level <= 5)
    ensures LastLevel(secs, name, level) == secs[i].level
    decreases |secs|
  {
    if i < |secs| - 1 {
      LastLevelIs(secs[..|secs| - 1], name, level, i);
    }
  }

  /** After a configuration every logger a section names exists, refers to each handler the
      section lists that exists, and has the level of the last section that gives it one. */
  lemma LoggersConfigured(hs: seq<Handler>, ls: seq<Logger>, cfg: Config, hs1: seq<Handler>, ls1: seq<Logger>, i: nat)
    requires Outcome(hs, ls, cfg, hs1, ls1) && i < |cfg.loggers|
    ensures exists l :: l in ls1 && l.name == cfg.loggers[i].name
    ensures forall l, name | l in ls1 && l.name == cfg.loggers[i].name && name in cfg.loggers[i].handlers
                             && HasHandler(hs1, name) :: name in l.refs
    ensures forall l | l in ls1 && l.name == cfg.loggers[i].name && 0 <= cfg.loggers[i].level <= 5
                       && (forall j | i < j < |cfg.loggers| ::
                             !(cfg.loggers[j].name == l.name && 0 <= cfg.loggers[j].level <= 5)) ::
              l.level == cfg.loggers[i].level
  {
    ApplyEstablishes(hs, ls, cfg, hs1, ls1);
    var m :| 0 <= m < |ls1| && ls1[m].name == cfg.loggers[i].name;
    assert ls1[m] in ls1;
    forall l | l in ls1 && l.name == cfg.loggers[i].name ensures LoggerSettled(Known(hs1), cfg.loggers, l) {
      var k :| 0 <= k < |ls1| && ls1[k] == l;
    }
    forall name ensures name in Known(hs1) <==> HasHandler(hs1, name) {
      KnownExact(hs1, name);
    }
    forall l | l in ls1 && l.name == cfg.loggers[i].name && 0 <= cfg.loggers[i].level <= 5
               && (forall j | i < j < |cfg.loggers| ::
                     !(cfg.loggers[j].name == l.name && 0 <= cfg.loggers[j].level <= 5))
      ensures l.level == cfg.loggers[i].level
    {
      LastLevelIs(cfg.loggers, l.name, l.level, i);
    }
  }

  /** A section of that name lists the handler. */
  ghost predicate Lists(secs: seq<LoggerSection>, name: string, handler: string) {
    exists i :: 0 <= i < |secs| && secs[i].name == name && handler in secs[i].handlers
  }

  /** What the sections leave as it was: a level only if no section gives one, and of the
      references all of them, with just those added that are listed and exist. */
  ghost predicate LoggerFrom(hs: seq<Handler>, secs: seq<LoggerSection>, was: Logger, l: Logger) {
    && l.name == was.name
    && (forall n :: n in l.refs <==> n in was.refs || (Lists(secs, l.name, n) && HasHandler(hs, n)))
    && ((forall i | 0 <= i < |secs| :: !(secs[i].name == l.name && 0 <= secs[i].level <= 5)) ==> l.level == was.level)
  }

  lemma ListsMore(secs: seq<LoggerSection>, sec: LoggerSection, name: string, n: string)
    ensures Lists(secs + [sec], name, n) <==> Lists(secs, name, n) || (sec.name == name && n in sec.handlers)
  {
    var all := secs + [sec];
    if Lists(secs, name, n) {
      var i :| 0 <= i < |secs| && secs[i].name == name && n in secs[i].handlers;
      assert all[i] == secs[i];
    }
    assert all[|secs|] == sec;
  }

  lemma {:induction false} TouchAllLoggerExact(hs: seq<Handler>, secs: seq<LoggerSection>, l: Logger)
    ensures LoggerFrom(hs, secs, l, TouchAllLogger(Known(hs), secs, l))
  {
    if secs != [] {
      var known, front, sec := Known(hs), secs[..|secs| - 1], secs[|secs| - 1];
      var mid := TouchAllLogger(known, front, l);
      TouchAllLoggerExact(hs, front, l);
      AttachAllExact(known, Levelled(mid, sec.level), sec.handlers);
      assert front + [sec] == secs;
      forall n
        ensures Lists(secs, l.name, n) <==> Lists(front, l.name, n) || (sec.name == l.name && n in sec.handlers)
      {
        ListsMore(front, sec, l.name, n);
      }
      forall n ensures n in known <==> HasHandler(hs, n) {
        KnownExact(hs, n);
      }
    }
  }

  lemma {:induction false} NotNamedLeft(known: set<string>, secs: seq<LoggerSection>, l: Logger)
    requires forall i | 0 <= i < |secs| :: secs[i].name != l.name
    ensures TouchAllLogger(known, secs, l) == l
  {
    if secs != [] {
      NotNamedLeft(known, secs[..|secs| - 1], l);
    }
  }

  /** Where each logger of a pass comes from. */
  lemma {:induction false} LoggersInPlace(known: set<string>, ls: seq<Logger>, secs: seq<LoggerSection>)
    ensures var ms := LoggerPass(known, ls, secs);
      && |ms| >= |ls|
      && (forall i | 0 <= i < |ls| :: ms[i] == TouchAllLogger(known, secs, ls[i]))
      && (forall i | |ls| <= i < |ms| :: ms[i] == TouchAllLogger(known, secs, NewLogger(ms[i].name)))
      && (forall i | |ls| <= i < |ms| :: exists k :: 0 <= k < |secs| && secs[k].name == ms[i].name)
  {
    if secs != [] {
      var front, sec := secs[..|secs| - 1], secs[|secs| - 1];
      var mid, end := LoggerPass(known, ls, front), LoggerPass(known, ls, secs);
      LoggersInPlace(known, ls, front);
      LoggerPassSettles(known, ls, front);
      var gs := GotLogger(mid, sec.name);
      forall i | |ls| <= i < |end|
        ensures end[i] == TouchAllLogger(known, secs, NewLogger(end[i].name))
        ensures exists k :: 0 <= k < |secs| && secs[k].name == end[i].name
      {
        TouchKeepsName(known, sec, gs[i]);
        if i < |mid| {
          var k :| 0 <= k < |front| && front[k].name == mid[i].name;
          assert secs[k].name == end[i].name;
        } else {
          NotNamedLeft(known, front, gs[i]);
          assert secs[|secs| - 1].name == end[i].name;
        }
      }
    }
  }

  /** A logger that was there keeps its place and all that no section changes. */
  lemma LoggersKept(hs: seq<Handler>, ls: seq<Logger>, cfg: Config, hs1: seq<Handler>, ls1: seq<Logger>, i: nat)
    requires Outcome(hs, ls, cfg, hs1, ls1) && i < |ls|
    ensures i < |ls1| && LoggerFrom(hs1, cfg.loggers, ls[i], ls1[i])
  {
    SameKnown(HandlerPass(hs, cfg.handlers), hs1);
    LoggersInPlace(Known(hs1), ls, cfg.loggers);
    TouchAllLoggerExact(hs1, cfg.loggers, ls[i]);
  }

  /** Any other has the name of a section and starts with level INFO, which is 2, and no
      references. */
  lemma LoggersCreated(hs: seq<Handler>, ls: seq<Logger>, cfg: Config, hs1: seq<Handler>, ls1: seq<Logger>, i: nat)
    requires Outcome(hs, ls, cfg, hs1, ls1) && |ls| <= i < |ls1|
    ensures exists k :: 0 <= k < |cfg.loggers| && cfg.loggers[k].name == ls1[i].name
    ensures LoggerFrom(hs1, cfg.loggers, Logger(ls1[i].name, 2, []), ls1[i])
  {
    SameKnown(HandlerPass(hs, cfg.handlers), hs1);
    LoggersInPlace(Known(hs1), ls, cfg.loggers);
    TouchAllLoggerExact(hs1, cfg.loggers, NewLogger(ls1[i].name));
  }

  // ------------------------------------------------------- what handlers are made from

  /** Without sections that give a setting it is as it was, and name and kind always are. */
  ghost predicate HandlerFrom(secs: seq<HandlerSection>, was: Handler, h: Handler) {
    && h.name == was.name && h.kind == was.kind
    && ((forall i | 0 <= i < |secs| :: !(Concerns(secs[i], h.name) && 0 <= secs[i].level <= 5)) ==>
          h.level == was.level)
    && ((forall i | 0 <= i < |secs| :: !(Concerns(secs[i], h.name) && secs[i].format != "")) ==>
          h.format == was.format)
    && (h.kind != File || (forall i | 0 <= i < |secs| :: !HasLimits(secs[i], h.name)) ==> h.limits == was.limits)
    && (h.kind != Socket || (forall i | 0 <= i < |secs| :: !GivesKey(secs[i], h.name)) ==> h.psk == was.psk)
  }

  lemma TouchAllFrom(secs: seq<HandlerSection>, h: Handler)
    ensures HandlerFrom(secs, h, TouchAll(secs, h))
  {
    LastWriterWins(secs, h);
    ConcernsEverywhere(secs, h.name);
  }

  /** A handler that a pass has added is of the kind of the first section that concerns it. */
  lemma {:induction false} PassCreates(hs: seq<Handler>, secs: seq<HandlerSection>, j: nat) returns (i: nat)
    requires |hs| <= j < |HandlerPass(hs, secs)|
    ensures var h := HandlerPass(hs, secs)[j];
      && i < |secs| && About(secs[i], h.name) && secs[i].kind == Some(h.kind)
      && (forall k | 0 <= k < i :: !About(secs[k], h.name))
      && h == TouchAll(secs, NewHandler(h.name, h.kind))
  {
    PassInPlace(hs, secs[..|secs| - 1]);
    var front, sec := secs[..|secs| - 1], secs[|secs| - 1];
    var mid := HandlerPass(hs, front);
    if j < |mid| {
      i := PassCreates(hs, front, j);
      assert HandlerPass(hs, secs)[j] == Touch(sec, mid[j]);
    } else {
      i := |secs| - 1;
      PassSettles(hs, front);
      NotAbout(front, NewHandler(Target(sec), sec.kind.value));
    }
  }

  /** A handler that was there keeps its place, name and kind and all that no section gives. */
  lemma HandlersKept(hs: seq<Handler>, ls: seq<Logger>, cfg: Config, hs1: seq<Handler>, ls1: seq<Logger>, j: nat)
    requires Outcome(hs, ls, cfg, hs1, ls1) && j < |hs|
    ensures j < |hs1| && HandlerFrom(cfg.handlers, hs[j], hs1[j])
  {
    PassInPlace(hs, cfg.handlers);
    TouchAllFrom(cfg.handlers, hs[j]);
    assert HandlerPass(hs, cfg.handlers)[j].(nrLoggerRef := 0) == hs1[j].(nrLoggerRef := 0);
  }

  /** Any other is of the kind of the first section that concerns it, and what no section
      gives it is level 0, the default format, 20 MiB, 10 backups and no key. */
  lemma HandlersCreated(hs: seq<Handler>, ls: seq<Logger>, cfg: Config, hs1: seq<Handler>, ls1: seq<Logger>, j: nat)
      returns (i: nat)
    requires Outcome(hs, ls, cfg, hs1, ls1) && |hs| <= j < |hs1|
    ensures i < |cfg.handlers| && Concerns(cfg.handlers[i], hs1[j].name) && cfg.handlers[i].kind == Some(hs1[j].kind)
    ensures forall k | 0 <= k < i :: !Concerns(cfg.handlers[k], hs1[j].name)
    ensures var made := Handler(hs1[j].name, hs1[j].kind, 0, 0, Default, Limits(20971520, 10), None);
      HandlerFrom(cfg.handlers, made, hs1[j])
  {
    i := PassCreates(hs, cfg.handlers, j);
    var h := HandlerPass(hs, cfg.handlers)[j];
    assert h.(nrLoggerRef := 0) == hs1[j].(nrLoggerRef := 0);
    ConcernsEverywhere(cfg.handlers, h.name);
    TouchAllFrom(cfg.handlers, NewHandler(h.name, h.kind));
  }
}

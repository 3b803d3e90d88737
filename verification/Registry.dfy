/**
 The registry of loggers and handlers.  A handler or logger is identified by its name,
 which is unique among the live ones; a logger's references are handler names.
 */
module Registry {
  import opened Wrappers

  datatype Kind = Console | File | Socket | Syslog

  datatype Format = Default | Simple | Json

  const INFO := 2
  const OFF := 5
  const MAX_FILE_SIZE := 20 * 1024 * 1024
  const MAX_BACKUPS := 10

  datatype Limits = Limits(maxSize: int, maxBackups: int)

  datatype Handler = Handler(name: string, kind: Kind, level: int, nrLoggerRef: nat, format: Format, limits: Limits,
                             psk: Option<string>)

  datatype Logger = Logger(name: string, level: int, refs: seq<string>)

  predicate ValidLevel(level: int) {
    0 <= level <= OFF
  }

  function NewHandler(name: string, kind: Kind): Handler {
    Handler(name, kind, 0, 0, Default, Limits(MAX_FILE_SIZE, MAX_BACKUPS), None)
  }

  function NewLogger(name: string): Logger {
    Logger(name, INFO, [])
  }

  // ------------------------------------------------------------------ invariant

  ghost predicate HasHandler(hs: seq<Handler>, name: string) {
    exists i :: 0 <= i < |hs| && hs[i].name == name
  }

  /** How many loggers refer to the handler. */
  function Count(ls: seq<Logger>, name: string): nat {
    if ls == [] then 0 else Count(ls[1..], name) + if name in ls[0].refs then 1 else 0
  }

  ghost predicate UniqueHandlers(hs: seq<Handler>) {
    forall i, j | 0 <= i < j < |hs| :: hs[i].name != hs[j].name
  }

  ghost predicate UniqueLoggers(ls: seq<Logger>) {
    forall i, j | 0 <= i < j < |ls| :: ls[i].name != ls[j].name
  }

  ghost predicate NoDuplicates(names: seq<string>) {
    forall i, j | 0 <= i < j < |names| :: names[i] != names[j]
  }

  ghost predicate RefsOk(hs: seq<Handler>, refs: seq<string>) {
    NoDuplicates(refs) && forall i | 0 <= i < |refs| :: HasHandler(hs, refs[i])
  }

  ghost predicate RegistryOk(hs: seq<Handler>, ls: seq<Logger>) {
    && UniqueHandlers(hs) && UniqueLoggers(ls)
    && (forall i | 0 <= i < |ls| :: RefsOk(hs, ls[i].refs))
    && (forall i | 0 <= i < |hs| :: hs[i].nrLoggerRef == Count(ls, hs[i].name))
  }

  /** The same handlers in the same order, apart from their reference counts. */
  ghost predicate SameButCounts(hs: seq<Handler>, gs: seq<Handler>) {
    |hs| == |gs| && forall i | 0 <= i < |hs| :: hs[i].(nrLoggerRef := 0) == gs[i].(nrLoggerRef := 0)
  }

  lemma {:induction false} CountUpdate(ls: seq<Logger>, i: nat, l: Logger, name: string)
    requires i < |ls|
    ensures Count(ls[i := l], name) + (if name in ls[i].refs then 1 else 0)
         == Count(ls, name) + (if name in l.refs then 1 else 0)
  {
    if i == 0 {
      assert ls[i := l][1..] == ls[1..];
    } else {
      assert ls[i := l][1..] == ls[1..][i - 1 := l];
      CountUpdate(ls[1..], i - 1, l, name);
    }
  }

  lemma {:induction false} CountAppend(ls: seq<Logger>, l: Logger, name: string)
    ensures Count(ls + [l], name) == Count(ls, name) + (if name in l.refs then 1 else 0)
  {
    if ls == [] {
      assert (ls + [l])[1..] == [];
    } else {
      assert (ls + [l])[1..] == ls[1..] + [l];
      CountAppend(ls[1..], l, name);
    }
  }

  lemma {:induction false} CountRemove(ls: seq<Logger>, i: nat, name: string)
    requires i < |ls|
    ensures Count(ls[..i] + ls[i + 1..], name) == Count(ls, name) - (if name in ls[i].refs then 1 else 0)
  {
    if i == 0 {
      assert ls[..i] + ls[i + 1..] == ls[1..];
    } else {
      assert (ls[..i] + ls[i + 1..])[1..] == ls[1..][..i - 1] + ls[1..][i..];
      CountRemove(ls[1..], i - 1, name);
    }
  }

  lemma {:induction false} CountMember(ls: seq<Logger>, i: nat, name: string)
    requires i < |ls| && name in ls[i].refs
    ensures Count(ls, name) > 0
  {
    if i > 0 {
      CountMember(ls[1..], i - 1, name);
    }
  }

  lemma SameNames(hs: seq<Handler>, gs: seq<Handler>, name: string)
    requires SameButCounts(hs, gs) && HasHandler(hs, name)
    ensures HasHandler(gs, name)
  {
    var i :| 0 <= i < |hs| && hs[i].name == name;
    assert hs[i].(nrLoggerRef := 0) == gs[i].(nrLoggerRef := 0);
  }

  lemma SameUnique(hs: seq<Handler>, gs: seq<Handler>)
    requires SameButCounts(hs, gs) && UniqueHandlers(hs)
    ensures UniqueHandlers(gs)
  {
    forall i, j | 0 <= i < j < |gs| ensures gs[i].name != gs[j].name {
      assert hs[i].(nrLoggerRef := 0) == gs[i].(nrLoggerRef := 0);
      assert hs[j].(nrLoggerRef := 0) == gs[j].(nrLoggerRef := 0);
    }
  }

  // -------------------------------------------------------------------- the code

  class Registry {
    var handlers: seq<Handler>
    var loggers: seq<Logger>

    ghost predicate Valid()
      reads this
    {
      RegistryOk(handlers, loggers)
    }

    constructor ()
      ensures Valid() && handlers == [] && loggers == []
    {
      handlers, loggers := [], [];
    }

    method SearchHandler(name: string) returns (i: int)
      ensures -1 <= i < |handlers| && (i >= 0 ==> handlers[i].name == name)
      ensures i == -1 <==> !HasHandler(handlers, name)
    {
      i := 0;
      while i < |handlers|
        invariant 0 <= i <= |handlers|
        invariant forall j | 0 <= j < i :: handlers[j].name != name
      {
        if handlers[i].name == name {
          return;
        }
        i := i + 1;
      }
      i := -1;
    }

    method SearchLogger(name: string) returns (i: int)
      ensures -1 <= i < |loggers| && (i >= 0 ==> loggers[i].name == name)
      ensures i == -1 ==> forall l | l in loggers :: l.name != name
    {
      i := 0;
      while i < |loggers|
        invariant 0 <= i <= |loggers|
        invariant forall j | 0 <= j < i :: loggers[j].name != name
      {
        if loggers[i].name == name {
          return;
        }
        i := i + 1;
      }
      i := -1;
    }

    /** lmk_get_logger. */
    method GetLogger(name: string) returns (i: nat)
      requires Valid()
      modifies this`loggers
      ensures Valid() && i < |loggers| && loggers[i].name == name
      ensures loggers == old(loggers)
              || (loggers == old(loggers) + [NewLogger(name)] && forall l | l in old(loggers) :: l.name != name)
      ensures loggers != old(loggers) ==> loggers[i].level == 2 && loggers[i].refs == []
    {
      var found := SearchLogger(name);
      if found >= 0 {
        return found;
      }
      AddLoggerKeeps(handlers, loggers, NewLogger(name));
      loggers := loggers + [NewLogger(name)];
      i := |loggers| - 1;
    }

    /** lmk_get_*_log_handler: the live handler of that name whatever its kind, or a new one;
        nothing at all for a file handler without a file name, even if the name is live. */
    method GetHandler(name: string, kind: Kind, filename: Option<string>) returns (found: Option<nat>)
      requires Valid()
      modifies this`handlers
      ensures Valid()
      ensures found == None <==> kind == File && filename == None
      ensures found == None ==> handlers == old(handlers)
      ensures found.Some? ==>
                && found.value < |handlers| && handlers[found.value].name == name
                && handlers == if HasHandler(old(handlers), name) then old(handlers)
                               else old(handlers) + [NewHandler(name, kind)]
      ensures found.Some? && !HasHandler(old(handlers), name) ==>
                var h := handlers[found.value];
                && h.kind == kind && h.level == 0 && h.nrLoggerRef == 0 && h.format == Default
                && h.limits == Limits(20971520, 10) && h.psk == None
    {
      if kind == File && filename == None {
        return None;
      }
      var i := SearchHandler(name);
      if i >= 0 {
        return Some(i);
      }
      AddHandlerKeeps(handlers, loggers, NewHandler(name, kind));
      handlers := handlers + [NewHandler(name, kind)];
      return Some(|handlers| - 1);
    }

    /** lmk_attach_log_handler; a name that is not live stands for a null pointer. */
    method Attach(logger: string, handler: string) returns (ok: bool, ghost i: nat)
      requires Valid()
      modifies this
      ensures Valid() && SameButCounts(old(handlers), handlers)
      ensures ok <==> HasHandler(old(handlers), handler) && exists l :: l in old(loggers) && l.name == logger
      ensures !ok ==> unchanged(this)
      ensures ok ==> i < |old(loggers)| && old(loggers)[i].name == logger
                     && loggers == old(loggers)[i := WithRef(old(loggers)[i], handler)]
      ensures ok ==> var was, now := old(loggers)[i], loggers[i];
                     now == was.(refs := if handler in was.refs then was.refs else was.refs + [handler])
    {
      var at := SearchLogger(logger);
      var j := SearchHandler(handler);
      if at < 0 || j < 0 {
        return false, 0;
      }
      assert loggers[at] in loggers;
      i := at;
      if handler in loggers[at].refs {
        assert loggers == loggers[at := loggers[at]];
        return true, i;
      }
      AttachKeeps(handlers, loggers, at, j);
      loggers := loggers[at := loggers[at].(refs := loggers[at].refs + [handler])];
      handlers := handlers[j := handlers[j].(nrLoggerRef := handlers[j].nrLoggerRef + 1)];
      return true, i;
    }

    /** lmk_detach_log_handler. */
    method Detach(logger: string, handler: string) returns (ok: bool, ghost i: nat, ghost k: nat)
      requires Valid()
      modifies this
      ensures Valid() && SameButCounts(old(handlers), handlers)
      ensures ok <==> exists l :: l in old(loggers) && l.name == logger && handler in l.refs
      ensures !ok ==> unchanged(this)
      ensures ok ==> i < |old(loggers)| && old(loggers)[i].name == logger
                     && k < |old(loggers)[i].refs| && old(loggers)[i].refs[k] == handler
                     && loggers == old(loggers)[i := WithoutRef(old(loggers)[i], k)]
      ensures ok ==> var was, now := old(loggers)[i], loggers[i];
                     now == was.(refs := was.refs[..k] + was.refs[k + 1..])
    {
      i, k := 0, 0;
      var at := SearchLogger(logger);
      if at < 0 {
        return false, i, k;
      }
      var refs := loggers[at].refs;
      var pos := 0;
      while pos < |refs| && refs[pos] != handler
        invariant 0 <= pos <= |refs| && forall m | 0 <= m < pos :: refs[m] != handler
      {
        pos := pos + 1;
      }
      if pos == |refs| {
        OnlyLogger(loggers, at, handler);
        return false, i, k;
      }
      assert loggers[at] in loggers && HasHandler(handlers, refs[pos]);
      var j := SearchHandler(handler);
      DetachKeeps(handlers, loggers, at, j, pos);
      loggers := loggers[at := WithoutRef(loggers[at], pos)];
      handlers := handlers[j := handlers[j].(nrLoggerRef := handlers[j].nrLoggerRef - 1)];
      return true, at, pos;
    }

    /** lmk_destroy_logger: detach from every handler, then unlink. */
    method DestroyLogger(i: nat)
      requires Valid() && i < |loggers|
      modifies this
      ensures Valid() && SameButCounts(old(handlers), handlers)
      ensures loggers == old(loggers)[..i] + old(loggers)[i + 1..]
    {
      var name := loggers[i].name;
      while loggers[i].refs != []
        invariant Valid() && SameButCounts(old(handlers), handlers)
        invariant |loggers| == |old(loggers)| && loggers[i].name == name
        invariant loggers[..i] == old(loggers)[..i] && loggers[i + 1..] == old(loggers)[i + 1..]
        decreases |loggers[i].refs|
      {
        assert loggers[i] in loggers && loggers[i].refs[0] in loggers[i].refs;
        var ok, at, k := Detach(name, loggers[i].refs[0]);
        assert at == i;
      }
      RemoveLoggerKeeps(handlers, loggers, i);
      loggers := loggers[..i] + loggers[i + 1..];
    }

    /** lmk_destroy_log_handler: refused while some logger refers to the handler. */
    method DestroyHandler(j: nat) returns (ok: bool)
      requires Valid() && j < |handlers|
      modifies this`handlers
      ensures Valid()
      ensures ok <==> forall l | l in loggers :: old(handlers)[j].name !in l.refs
      ensures handlers == if ok then old(handlers)[..j] + old(handlers)[j + 1..] else old(handlers)
    {
      CountZero(loggers, handlers[j].name);
      if handlers[j].nrLoggerRef > 0 {
        return false;
      }
      RemoveHandlerKeeps(handlers, loggers, j);
      handlers := handlers[..j] + handlers[j + 1..];
      return true;
    }

    /** lmk_destroy.  The cursor is put back before each node it destroys, so the loops only
        end because every destroy succeeds: once the loggers are gone no handler is referred
        to.  Every logger, then every handler, is destroyed once, in list order. */
    method Destroy() returns (goneLoggers: seq<Logger>, goneHandlers: seq<Handler>)
      requires Valid()
      modifies this
      ensures Valid() && handlers == [] && loggers == []
      ensures goneLoggers == old(loggers)
      ensures SameButCounts(old(handlers), goneHandlers)
    {
      goneLoggers, goneHandlers := [], [];
      while loggers != []
        invariant Valid() && SameButCounts(old(handlers), handlers)
        invariant goneLoggers + loggers == old(loggers)
        decreases |loggers|
      {
        var l := loggers[0];
        DestroyLogger(0);
        goneLoggers := goneLoggers + [l];
      }
      ghost var all := handlers;
      while handlers != []
        invariant Valid() && loggers == [] && goneHandlers + handlers == all
        decreases |handlers|
      {
        var h := handlers[0];
        var ok := DestroyHandler(0);
        goneHandlers := goneHandlers + [h];
      }
    }

    /** lmk_set_log_level. */
    method SetLoggerLevel(i: nat, level: int)
      requires Valid() && i < |loggers|
      modifies this`loggers
      ensures Valid()
      ensures loggers == if 0 <= level <= 5 then old(loggers)[i := old(loggers)[i].(level := level)] else old(loggers)
    {
      if ValidLevel(level) {
        forall k | 0 <= k < |handlers|
          ensures handlers[k].nrLoggerRef == Count(loggers[i := loggers[i].(level := level)], handlers[k].name)
        {
          CountUpdate(loggers, i, loggers[i].(level := level), handlers[k].name);
        }
        loggers := loggers[i := loggers[i].(level := level)];
      }
    }

    /** lmk_set_handler_log_level. */
    method SetHandlerLevel(j: nat, level: int)
      requires Valid() && j < |handlers|
      modifies this`handlers
      ensures Valid()
      ensures handlers == if 0 <= level <= 5 then old(handlers)[j := old(handlers)[j].(level := level)]
                          else old(handlers)
    {
      if ValidLevel(level) {
        UpdateHandlerKeeps(handlers, loggers, j, handlers[j].(level := level));
        handlers := handlers[j := handlers[j].(level := level)];
      }
    }

    /** lmk_set_log_format. */
    method SetFormat(j: nat, format: Format)
      requires Valid() && j < |handlers|
      modifies this`handlers
      ensures Valid() && handlers == old(handlers)[j := old(handlers)[j].(format := format)]
    {
      UpdateHandlerKeeps(handlers, loggers, j, handlers[j].(format := format));
      handlers := handlers[j := handlers[j].(format := format)];
    }

    /** lmk_set_log_rotation: of file handlers only. */
    method SetRotation(j: nat, limits: Limits)
      requires Valid() && j < |handlers|
      modifies this`handlers
      ensures Valid()
      ensures handlers == if old(handlers)[j].kind == File then old(handlers)[j := old(handlers)[j].(limits := limits)]
                          else old(handlers)
    {
      if handlers[j].kind == File {
        UpdateHandlerKeeps(handlers, loggers, j, handlers[j].(limits := limits));
        handlers := handlers[j := handlers[j].(limits := limits)];
      }
    }

    /** lmk_set_socket_psk: of socket handlers only; the key is a function of the phrase. */
    method SetPsk(j: nat, psk: string)
      requires Valid() && j < |handlers|
      modifies this`handlers
      ensures Valid()
      ensures handlers == if old(handlers)[j].kind == Socket
                          then old(handlers)[j := old(handlers)[j].(psk := Some(psk))]
                          else old(handlers)
    {
      if handlers[j].kind == Socket {
        UpdateHandlerKeeps(handlers, loggers, j, handlers[j].(psk := Some(psk)));
        handlers := handlers[j := handlers[j].(psk := Some(psk))];
      }
    }

    /** The dispatch of lmk_log_impl: the handlers whose log_impl is called, in order. */
    method Dispatch(i: nat, level: int) returns (called: seq<string>)
      requires Valid() && i < |loggers|
      ensures called == if 0 <= level <= 5 && level >= loggers[i].level
                        then Reached(handlers, loggers[i].refs, level) else []
    {
      called := [];
      if !ValidLevel(level) || level < loggers[i].level {
        return;
      }
      var refs := loggers[i].refs;
      var k := 0;
      while k < |refs|
        invariant 0 <= k <= |refs| && called == Reached(handlers, refs[..k], level)
      {
        assert HasHandler(handlers, refs[k]);
        var j := SearchHandler(refs[k]);
        assert refs[..k + 1][..k] == refs[..k];
        OneHandler(handlers, j);
        if level >= handlers[j].level {
          assert handlers[j] in handlers;
          called := called + [refs[k]];
        }
        k := k + 1;
      }
      assert refs[..k] == refs;
    }
  }

  /** The live handler of that name lets the level through. */
  ghost predicate Admits(hs: seq<Handler>, name: string, level: int) {
    exists h :: h in hs && h.name == name && level >= h.level
  }

  /** The referenced handlers that let the level through, in order of attachment. */
  ghost function Reached(hs: seq<Handler>, refs: seq<string>, level: int): seq<string> {
    if refs == [] then []
    else
      Reached(hs, refs[..|refs| - 1], level)
      + if Admits(hs, refs[|refs| - 1], level) then [refs[|refs| - 1]] else []
  }

  /** A log call reaches exactly the attached handlers that let its level through, once each. */
  lemma {:induction false} ReachedExactly(hs: seq<Handler>, refs: seq<string>, level: int)
    requires NoDuplicates(refs)
    ensures forall name :: name in Reached(hs, refs, level) <==>
              name in refs && exists h :: h in hs && h.name == name && level >= h.level
    ensures NoDuplicates(Reached(hs, refs, level))
  {
    if refs != [] {
      var front := refs[..|refs| - 1];
      ReachedExactly(hs, front, level);
      assert forall name :: name in refs <==> name in front || name == refs[|refs| - 1];
      assert refs[|refs| - 1] !in front;
      forall name
        ensures Admits(hs, name, level) <==> exists h :: h in hs && h.name == name && level >= h.level
      {
      }
    }
  }

  /** ... and in the order in which they were attached. */
  lemma {:induction false} ReachedInOrder(hs: seq<Handler>, refs: seq<string>, level: int, i: nat, j: nat)
      returns (a: nat, b: nat)
    requires i < j < |Reached(hs, refs, level)|
    ensures a < b < |refs| && refs[a] == Reached(hs, refs, level)[i] && refs[b] == Reached(hs, refs, level)[j]
  {
    var front := refs[..|refs| - 1];
    if j < |Reached(hs, front, level)| {
      a, b := ReachedInOrder(hs, front, level, i, j);
    } else {
      a := ReachedFrom(hs, front, level, i);
      b := |refs| - 1;
    }
  }

  lemma {:induction false} ReachedFrom(hs: seq<Handler>, refs: seq<string>, level: int, i: nat) returns (a: nat)
    requires i < |Reached(hs, refs, level)|
    ensures a < |refs| && refs[a] == Reached(hs, refs, level)[i]
  {
    var front := refs[..|refs| - 1];
    if i < |Reached(hs, front, level)| {
      a := ReachedFrom(hs, front, level, i);
    } else {
      a := |refs| - 1;
    }
  }

  /** The count is the number of loggers that have the reference. */
  lemma {:induction false} CountIsNumber(ls: seq<Logger>, name: string)
    ensures Count(ls, name) == |set i | 0 <= i < |ls| && name in ls[i].refs|
    decreases |ls|
  {
    var here := set i | 0 <= i < |ls| && name in ls[i].refs;
    if ls == [] {
      assert here == {};
    } else {
      var n := |ls| - 1;
      var front := ls[..n];
      CountIsNumber(front, name);
      CountAppend(front, ls[n], name);
      assert front + [ls[n]] == ls;
      assert here == (set i | 0 <= i < |front| && name in front[i].refs) + if name in ls[n].refs then {n} else {};
    }
  }

  lemma OneHandler(hs: seq<Handler>, j: nat)
    requires UniqueHandlers(hs) && j < |hs|
    ensures forall h | h in hs && h.name == hs[j].name :: h == hs[j]
  {
  }

  function WithRef(l: Logger, name: string): Logger {
    if name in l.refs then l else l.(refs := l.refs + [name])
  }

  function WithoutRef(l: Logger, k: nat): Logger
    requires k < |l.refs|
  {
    l.(refs := l.refs[..k] + l.refs[k + 1..])
  }

  lemma OnlyLogger(ls: seq<Logger>, i: nat, handler: string)
    requires UniqueLoggers(ls) && i < |ls| && handler !in ls[i].refs
    ensures !exists l :: l in ls && l.name == ls[i].name && handler in l.refs
  {
  }

  /** A name no live handler has is referred to by nobody. */
  lemma {:induction false} NobodyRefers(hs: seq<Handler>, ls: seq<Logger>, name: string)
    requires forall i | 0 <= i < |ls| :: RefsOk(hs, ls[i].refs)
    requires !HasHandler(hs, name)
    ensures Count(ls, name) == 0
  {
    if ls != [] {
      NobodyRefers(hs, ls[1..], name);
      assert RefsOk(hs, ls[0].refs);
    }
  }

  lemma MoreHandlers(hs: seq<Handler>, h: Handler, refs: seq<string>)
    requires RefsOk(hs, refs)
    ensures RefsOk(hs + [h], refs)
  {
    forall i | 0 <= i < |refs| ensures HasHandler(hs + [h], refs[i]) {
      var k :| 0 <= k < |hs| && hs[k].name == refs[i];
      assert (hs + [h])[k].name == refs[i];
    }
  }

  lemma AddLoggerKeeps(hs: seq<Handler>, ls: seq<Logger>, l: Logger)
    requires RegistryOk(hs, ls) && l.refs == [] && forall k | k in ls :: k.name != l.name
    ensures RegistryOk(hs, ls + [l])
  {
    forall k | 0 <= k < |hs| ensures hs[k].nrLoggerRef == Count(ls + [l], hs[k].name) {
      CountAppend(ls, l, hs[k].name);
    }
  }

  lemma AddHandlerKeeps(hs: seq<Handler>, ls: seq<Logger>, h: Handler)
    requires RegistryOk(hs, ls) && h.nrLoggerRef == 0 && !HasHandler(hs, h.name)
    ensures RegistryOk(hs + [h], ls)
  {
    NobodyRefers(hs, ls, h.name);
    forall k | 0 <= k < |ls| ensures RefsOk(hs + [h], ls[k].refs) {
      MoreHandlers(hs, h, ls[k].refs);
    }
  }

  lemma AttachKeeps(hs: seq<Handler>, ls: seq<Logger>, i: nat, j: nat)
    requires RegistryOk(hs, ls) && i < |ls| && j < |hs| && hs[j].name !in ls[i].refs
    ensures RegistryOk(hs[j := hs[j].(nrLoggerRef := hs[j].nrLoggerRef + 1)],
                       ls[i := ls[i].(refs := ls[i].refs + [hs[j].name])])
  {
    var l := ls[i].(refs := ls[i].refs + [hs[j].name]);
    var gs := hs[j := hs[j].(nrLoggerRef := hs[j].nrLoggerRef + 1)];
    RefsChange(hs, gs, ls, i, l);
    forall k | 0 <= k < |gs| ensures gs[k].nrLoggerRef == Count(ls[i := l], gs[k].name) {
      CountUpdate(ls, i, l, hs[k].name);
    }
  }

  lemma DetachKeeps(hs: seq<Handler>, ls: seq<Logger>, i: nat, j: nat, k: nat)
    requires RegistryOk(hs, ls) && i < |ls| && j < |hs| && k < |ls[i].refs| && hs[j].name == ls[i].refs[k]
    ensures hs[j].nrLoggerRef > 0
    ensures RegistryOk(hs[j := hs[j].(nrLoggerRef := hs[j].nrLoggerRef - 1)], ls[i := WithoutRef(ls[i], k)])
  {
    CountMember(ls, i, hs[j].name);
    var l := WithoutRef(ls[i], k);
    var gs := hs[j := hs[j].(nrLoggerRef := hs[j].nrLoggerRef - 1)];
    RefsChange(hs, gs, ls, i, l);
    forall m | 0 <= m < |gs| ensures gs[m].nrLoggerRef == Count(ls[i := l], gs[m].name) {
      CountUpdate(ls, i, l, hs[m].name);
      RemovedOnly(ls[i].refs, k, hs[m].name);
    }
  }

  lemma RemovedOnly(refs: seq<string>, k: nat, name: string)
    requires NoDuplicates(refs) && k < |refs|
    ensures name in refs[..k] + refs[k + 1..] <==> name in refs && name != refs[k]
  {
    if name in refs && name != refs[k] {
      var m :| 0 <= m < |refs| && refs[m] == name;
      assert (refs[..k] + refs[k + 1..])[if m < k then m else m - 1] == name;
    }
  }

  /** Changing one logger's references to others that are fine keeps all but the counts. */
  lemma RefsChange(hs: seq<Handler>, gs: seq<Handler>, ls: seq<Logger>, i: nat, l: Logger)
    requires RegistryOk(hs, ls) && SameButCounts(hs, gs) && i < |ls| && l.name == ls[i].name
    requires NoDuplicates(l.refs)
    requires forall k | 0 <= k < |l.refs| :: l.refs[k] in ls[i].refs || HasHandler(hs, l.refs[k])
    ensures UniqueHandlers(gs) && UniqueLoggers(ls[i := l])
    ensures var ms := ls[i := l]; forall k | 0 <= k < |ms| :: RefsOk(gs, ms[k].refs)
  {
    SameUnique(hs, gs);
    var ms := ls[i := l];
    forall k | 0 <= k < |ms| ensures RefsOk(gs, ms[k].refs) {
      var refs := ms[k].refs;
      assert RefsOk(hs, ls[k].refs);
      forall m | 0 <= m < |refs| ensures HasHandler(gs, refs[m]) {
        assert HasHandler(hs, refs[m]);
        SameNames(hs, gs, refs[m]);
      }
    }
  }

  lemma UpdateHandlerKeeps(hs: seq<Handler>, ls: seq<Logger>, j: nat, h: Handler)
    requires RegistryOk(hs, ls) && j < |hs| && h.name == hs[j].name && h.nrLoggerRef == hs[j].nrLoggerRef
    ensures RegistryOk(hs[j := h], ls)
  {
    forall i | 0 <= i < |ls| ensures RefsOk(hs[j := h], ls[i].refs) {
      assert RefsOk(hs, ls[i].refs);
      forall m | 0 <= m < |ls[i].refs| ensures HasHandler(hs[j := h], ls[i].refs[m]) {
        var k :| 0 <= k < |hs| && hs[k].name == ls[i].refs[m];
        assert hs[j := h][k].name == ls[i].refs[m];
      }
    }
  }

  lemma RemoveLoggerKeeps(hs: seq<Handler>, ls: seq<Logger>, i: nat)
    requires RegistryOk(hs, ls) && i < |ls| && ls[i].refs == []
    ensures RegistryOk(hs, ls[..i] + ls[i + 1..])
  {
    forall k | 0 <= k < |hs| ensures hs[k].nrLoggerRef == Count(ls[..i] + ls[i + 1..], hs[k].name) {
      CountRemove(ls, i, hs[k].name);
    }
  }

  lemma {:induction false} CountZero(ls: seq<Logger>, name: string)
    ensures Count(ls, name) == 0 <==> forall l | l in ls :: name !in l.refs
  {
    if ls != [] {
      CountZero(ls[1..], name);
      assert forall l :: l in ls <==> l == ls[0] || l in ls[1..];
    }
  }

  lemma RemoveHandlerKeeps(hs: seq<Handler>, ls: seq<Logger>, j: nat)
    requires RegistryOk(hs, ls) && j < |hs| && Count(ls, hs[j].name) == 0
    ensures RegistryOk(hs[..j] + hs[j + 1..], ls)
  {
    CountZero(ls, hs[j].name);
    var gs := hs[..j] + hs[j + 1..];
    forall i | 0 <= i < |ls| ensures RefsOk(gs, ls[i].refs) {
      assert ls[i] in ls;
      forall m | 0 <= m < |ls[i].refs| ensures HasHandler(gs, ls[i].refs[m]) {
        assert HasHandler(hs, ls[i].refs[m]);
        var k :| 0 <= k < |hs| && hs[k].name == ls[i].refs[m];
        assert gs[if k < j then k else k - 1].name == ls[i].refs[m];
      }
    }
  }
}

/**
 The registry on the heap: a circular list of loggers, one of handlers, and in every logger
 one of references, all over the same links.  A pointer to a link is a pointer to the
 structure that begins with it.  `hs` and `ls` are the registry as plain values; every
 operation here changes them as the corresponding operation does there, and no pointer
 is followed after the structure it leads to has been freed.
 */
module RegistryHeap {
  import opened IntrusiveList
  import R = Registry

  type Node = Link<Item>

  datatype Item =
    | Root
    | OfHandler(name: string, body: HandlerBody)
    | OfLogger(name: string, refList: Node)
    | OfRef(handler: Node)

  /** The fields of a handler that change. */
  class HandlerBody {
    var h: R.Handler

    constructor (h: R.Handler)
      ensures this.h == h
    {
      this.h := h;
    }
  }

  function BodyOf(node: Node): object? {
    if node.item.OfHandler? then node.item.body else null
  }

  function RefListOf(node: Node): Node {
    if node.item.OfLogger? then node.item.refList else node
  }

  predicate RefersTo(ref: Node, handler: Node) {
    ref.item.OfRef? && ref.item.handler == handler
  }

  /** The name of the handler a reference leads to. */
  function RefName(ref: Node): string {
    if ref.item.OfRef? && ref.item.handler.item.OfHandler? then ref.item.handler.item.name else ""
  }

  /** The loggers and what they refer to, by name. */
  ghost predicate LoggerData(loggers: seq<Node>, refs: seq<seq<Node>>, ls: seq<R.Logger>) {
    && |ls| == |loggers| == |refs|
    && (forall i | 0 <= i < |loggers| ::
          loggers[i].item.OfLogger? && loggers[i].item.name == ls[i].name && |refs[i]| == |ls[i].refs|)
    && (forall i {:trigger RefNames(refs[i], ls[i].refs)} | 0 <= i < |loggers| :: RefNames(refs[i], ls[i].refs))
  }

  ghost predicate RefNames(refs: seq<Node>, names: seq<string>) {
    |refs| == |names| && forall k | 0 <= k < |refs| :: RefName(refs[k]) == names[k]
  }

  lemma DropName(loggers: seq<Node>, refs: seq<seq<Node>>, ls: seq<R.Logger>, i: nat, k: nat)
    requires LoggerData(loggers, refs, ls) && i < |ls| && k < |ls[i].refs|
    ensures LoggerData(loggers, refs[i := Without(refs[i], k)], ls[i := R.WithoutRef(ls[i], k)])
  {
    assert RefNames(refs[i], ls[i].refs);
    var rs, ms := refs[i := Without(refs[i], k)], ls[i := R.WithoutRef(ls[i], k)];
    forall m | 0 <= m < |rs| && m != i ensures RefNames(rs[m], ms[m].refs) {
      assert RefNames(refs[m], ls[m].refs);
    }
    var few, names := Without(refs[i], k), R.WithoutRef(ls[i], k).refs;
    assert |few| == |names|;
    forall m | 0 <= m < |few| ensures RefName(few[m]) == names[m] {
      var n := if m < k then m else m + 1;
      assert few[m] == refs[i][n] && names[m] == ls[i].refs[n];
    }
  }

  /** Each handler has a body of its own. */
  ghost predicate HandlerItems(handlers: seq<Node>) {
    && (forall j | 0 <= j < |handlers| :: handlers[j].item.OfHandler?)
    && (forall i, j | 0 <= i < j < |handlers| :: BodyOf(handlers[i]) != BodyOf(handlers[j]))
  }

  ghost predicate ListsDiffer(loggers: seq<Node>) {
    forall i, j | 0 <= i < j < |loggers| :: RefListOf(loggers[i]) != RefListOf(loggers[j])
  }

  ghost predicate LeadInto(refs: seq<seq<Node>>, handlers: seq<Node>) {
    forall i, ref | 0 <= i < |refs| && ref in refs[i] :: ref.item.OfRef? && ref.item.handler in handlers
  }

  ghost predicate NotInto(refs: seq<seq<Node>>, handler: Node) {
    forall i, ref | 0 <= i < |refs| && ref in refs[i] :: !RefersTo(ref, handler)
  }

  ghost predicate Owned(repr: set<object>, loggers: seq<Node>, handlers: seq<Node>, refs: seq<seq<Node>>) {
    && (forall j | 0 <= j < |handlers| :: handlers[j] in repr && BodyOf(handlers[j]) in repr)
    && (forall i | 0 <= i < |loggers| :: loggers[i] in repr && RefListOf(loggers[i]) in repr)
    && (forall i, ref | 0 <= i < |refs| && ref in refs[i] :: ref in repr)
  }

  /** The j-th handler has one reference less. */
  ghost predicate CountedDown(was: seq<R.Handler>, now: seq<R.Handler>, j: nat) {
    && j < |was| == |now| && was[j].nrLoggerRef > 0
    && now == was[j := was[j].(nrLoggerRef := was[j].nrLoggerRef - 1)]
  }

  /** References that do not lead to the j-th handler lead to one of the others. */
  lemma LeadElsewhere(refs: seq<seq<Node>>, handlers: seq<Node>, j: nat)
    requires LeadInto(refs, handlers) && j < |handlers| && NotInto(refs, handlers[j])
    ensures LeadInto(refs, Without(handlers, j))
  {
    forall i, ref | 0 <= i < |refs| && ref in refs[i] ensures ref.item.handler in Without(handlers, j) {
      assert !RefersTo(ref, handlers[j]);
      var n :| 0 <= n < |handlers| && handlers[n] == ref.item.handler;
      assert Without(handlers, j)[if n < j then n else n - 1] == handlers[n];
    }
  }

  lemma MoreLoggers(repr: set<object>, loggers: seq<Node>, handlers: seq<Node>, refs: seq<seq<Node>>, node: Node)
    requires |loggers| == |refs| && node.item.OfLogger? && node.item.refList !in repr
    requires ListsDiffer(loggers) && LeadInto(refs, handlers) && Owned(repr, loggers, handlers, refs)
    ensures ListsDiffer(loggers + [node]) && LeadInto(refs + [[]], handlers)
    ensures Owned(repr + {node, node.item.refList}, loggers + [node], handlers, refs + [[]])
  {
  }

  lemma MoreHandlers(repr: set<object>, loggers: seq<Node>, handlers: seq<Node>, refs: seq<seq<Node>>, node: Node)
    requires node.item.OfHandler? && node.item.body !in repr
    requires HandlerItems(handlers) && LeadInto(refs, handlers) && Owned(repr, loggers, handlers, refs)
    ensures HandlerItems(handlers + [node]) && LeadInto(refs, handlers + [node])
    ensures Owned(repr + {node, node.item.body}, loggers, handlers + [node], refs)
  {
  }

  lemma MoreNames(loggers: seq<Node>, refs: seq<seq<Node>>, ls: seq<R.Logger>, i: nat, ref: Node, name: string)
    requires LoggerData(loggers, refs, ls) && i < |ls| && RefName(ref) == name && name !in ls[i].refs
    ensures LoggerData(loggers, refs[i := refs[i] + [ref]], ls[i := R.WithRef(ls[i], name)])
  {
    var rs, ms := refs[i := refs[i] + [ref]], ls[i := R.WithRef(ls[i], name)];
    forall m | 0 <= m < |rs| ensures RefNames(rs[m], ms[m].refs) {
      assert RefNames(refs[m], ls[m].refs);
    }
  }

  lemma MoreLoggerData(loggers: seq<Node>, refs: seq<seq<Node>>, ls: seq<R.Logger>, node: Node, l: R.Logger)
    requires LoggerData(loggers, refs, ls) && node.item.OfLogger? && node.item.name == l.name && l.refs == []
    ensures LoggerData(loggers + [node], refs + [[]], ls + [l])
  {
    forall m | 0 <= m < |ls| + 1 ensures RefNames((refs + [[]])[m], (ls + [l])[m].refs) {
      if m < |ls| {
        assert RefNames(refs[m], ls[m].refs);
      }
    }
  }

  lemma FewerLoggers(repr: set<object>, loggers: seq<Node>, handlers: seq<Node>, refs: seq<seq<Node>>, i: nat)
    requires i < |loggers| == |refs|
    requires ListsDiffer(loggers) && LeadInto(refs, handlers) && Owned(repr, loggers, handlers, refs)
    ensures ListsDiffer(Without(loggers, i)) && LeadInto(Without(refs, i), handlers)
    ensures Owned(repr, Without(loggers, i), handlers, Without(refs, i))
  {
    forall m | 0 <= m < |loggers| - 1
      ensures Without(loggers, i)[m] == loggers[if m < i then m else m + 1]
      ensures Without(refs, i)[m] == refs[if m < i then m else m + 1]
    {
    }
  }

  lemma DropLoggerName(loggers: seq<Node>, refs: seq<seq<Node>>, ls: seq<R.Logger>, i: nat)
    requires LoggerData(loggers, refs, ls) && i < |ls|
    ensures LoggerData(Without(loggers, i), Without(refs, i), Without(ls, i))
  {
    forall m | 0 <= m < |ls| - 1 ensures RefNames(Without(refs, i)[m], Without(ls, i)[m].refs) {
      assert RefNames(refs[if m < i then m else m + 1], ls[if m < i then m else m + 1].refs);
    }
  }

  class Registry {
    const loggerList: Node
    const handlerList: Node
    ghost var loggers: seq<Node>
    ghost var handlers: seq<Node>
    ghost var refs: seq<seq<Node>> // per logger
    ghost var hs: seq<R.Handler>
    ghost var ls: seq<R.Logger>
    ghost var repr: set<object>
    ghost var dead: set<Node>      // every link freed so far

    /** A logger with its list of references. */
    ghost predicate RefShape(logger: Node, nodes: seq<Node>)
      reads RefListOf(logger), nodes
    {
      var list := RefListOf(logger);
      logger.item.OfLogger? && list != loggerList && list != handlerList && Circle([list] + nodes)
    }

    ghost predicate AllRefShapes()
      reads this`loggers, this`refs
      reads set i | 0 <= i < |loggers| :: RefListOf(loggers[i])
      reads set i, k | 0 <= i < |refs| && 0 <= k < |refs[i]| :: refs[i][k]
    {
      && |refs| == |loggers|
      && forall i {:trigger RefShape(loggers[i], refs[i])} | 0 <= i < |loggers| :: RefShape(loggers[i], refs[i])
    }

    /** All lists are circles, no two of them share a link, and references lead to handlers
        on the list. */
    ghost predicate Shape()
      reads this`repr, this`handlers, this`loggers, this`refs, loggerList, loggers, handlerList, handlers
      reads set i | 0 <= i < |loggers| :: RefListOf(loggers[i])
      reads set i, k | 0 <= i < |refs| && 0 <= k < |refs[i]| :: refs[i][k]
    {
      && loggerList != handlerList && Circle([loggerList] + loggers) && Circle([handlerList] + handlers)
      && AllRefShapes()
      && HandlerItems(handlers) && ListsDiffer(loggers) && LeadInto(refs, handlers)
      && this !in repr && loggerList in repr && handlerList in repr && Owned(repr, loggers, handlers, refs)
    }

    ghost predicate HandlerDatum(j: nat)
      requires j < |handlers| == |hs|
      reads this`hs, this`handlers, BodyOf(handlers[j])
    {
      var item := handlers[j].item;
      item.OfHandler? && item.name == hs[j].name && item.body.h == hs[j]
    }

    /** The values of the handlers are those in the structures. */
    ghost predicate HandlerData()
      reads this`hs, this`handlers, set j | 0 <= j < |handlers| :: BodyOf(handlers[j])
    {
      |hs| == |handlers| && forall j | 0 <= j < |handlers| :: HandlerDatum(j)
    }

    ghost predicate AllDead()
      reads this`dead, dead`live
    {
      forall link | link in dead :: !link.live
    }

    ghost predicate Valid()
      reads *
    {
      Shape() && HandlerData() && LoggerData(loggers, refs, ls) && R.RegistryOk(hs, ls) && AllDead()
    }

    constructor ()
      ensures Valid() && hs == [] && ls == [] && dead == {} && fresh(repr)
    {
      loggerList := new Link(Root);
      handlerList := new Link(Root);
      loggers, handlers, refs, hs, ls := [], [], [], [], [];
      repr, dead := {}, {};
      new;
      repr := {loggerList, handlerList};
      assert [loggerList] + loggers == [loggerList] && [handlerList] + handlers == [handlerList];
    }

    /** The new-logger branch of lmk_get_logger. */
    method NewLogger(name: string) returns (node: Node)
      requires Valid() && forall l | l in ls :: l.name != name
      modifies this`loggers, this`refs, this`ls, this`repr
      modifies loggerList`next, loggerList`prev, loggers`next, loggers`prev
      ensures Valid() && fresh(repr - old(repr))
      ensures loggers == old(loggers) + [node] && ls == old(ls) + [R.NewLogger(name)]
    {
      R.AddLoggerKeeps(hs, ls, R.NewLogger(name));
      node := AllocateLogger(name);
      MoreLoggerData(old(loggers), old(refs), ls, node, R.NewLogger(name));
      ls := ls + [R.NewLogger(name)];
      ghost var kept := Shape() && HandlerData() && LoggerData(loggers, refs, ls) && R.RegistryOk(hs, ls);
      assert kept;
    }

    method AllocateLogger(name: string) returns (node: Node)
      requires Shape() && HandlerData()
      modifies this`loggers, this`refs, this`repr
      modifies loggerList`next, loggerList`prev, loggers`next, loggers`prev
      ensures Shape() && HandlerData() && fresh(repr - old(repr))
      ensures node.item.OfLogger? && node.item.name == name
      ensures loggers == old(loggers) + [node] && refs == old(refs) + [[]]
    {
      var head := new Link(Root);
      node := new Link(OfLogger(name, head));
      LinkLogger(node, head);
      forall m | 0 <= m < |handlers| ensures HandlerDatum(m) {
        assert old(HandlerDatum(m));
      }
    }

    method LinkLogger(node: Node, ghost head: Node)
      requires Shape() && Circle([node]) && Circle([head]) && node !in repr && head !in repr && node != head
      requires node.item.OfLogger? && node.item.refList == head
      modifies this`loggers, this`refs, this`repr
      modifies loggerList`next, loggerList`prev, loggers`next, loggers`prev, node`next, node`prev, node`home
      ensures Shape() && loggers == old(loggers) + [node] && refs == old(refs) + [[]]
      ensures repr == old(repr) + {node, head}
    {
      LoggersApart();
      MoreLoggers(repr, loggers, handlers, refs, node);
      Insert(loggerList, node, loggers);
      loggers, refs, repr := loggers + [node], refs + [[]], repr + {node, head};
      ghost var circles := Circle([loggerList] + loggers) && Circle([handlerList] + handlers)
                           && ListsDiffer(loggers) && LeadInto(refs, handlers) && Owned(repr, loggers, handlers, refs);
      assert circles;
      assert [head] + [] == [head];
      forall m | 0 <= m < |loggers| ensures RefShape(loggers[m], refs[m]) {
        if m < |old(loggers)| {
          assert old(RefShape(loggers[m], refs[m]));
        }
        ghost var shaped := RefShape(loggers[m], refs[m]);
        assert shaped;
      }
      assert AllRefShapes();
    }

    /** The new-handler branch of the lmk_get_*_log_handler functions. */
    method NewHandler(name: string, kind: R.Kind) returns (node: Node)
      requires Valid() && !R.HasHandler(hs, name)
      modifies this`handlers, this`hs, this`repr
      modifies handlerList`next, handlerList`prev, handlers`next, handlers`prev
      ensures Valid() && fresh(repr - old(repr))
      ensures handlers == old(handlers) + [node] && hs == old(hs) + [R.NewHandler(name, kind)]
    {
      R.AddHandlerKeeps(hs, ls, R.NewHandler(name, kind));
      node := AllocateHandler(R.NewHandler(name, kind));
      ghost var kept := Shape() && HandlerData() && LoggerData(loggers, refs, ls) && R.RegistryOk(hs, ls);
      assert kept;
    }

    method AllocateHandler(h: R.Handler) returns (node: Node)
      requires Shape() && HandlerData()
      modifies this`handlers, this`hs, this`repr
      modifies handlerList`next, handlerList`prev, handlers`next, handlers`prev
      ensures Shape() && HandlerData() && fresh(repr - old(repr))
      ensures handlers == old(handlers) + [node] && hs == old(hs) + [h]
    {
      var body := new HandlerBody(h);
      node := new Link(OfHandler(h.name, body));
      LinkHandler(node);
      hs := hs + [h];
      ghost var shaped := Shape();
      assert shaped;
      forall m | 0 <= m < |handlers| ensures HandlerDatum(m) {
        if m < |old(handlers)| {
          assert old(HandlerDatum(m)) && handlers[m] == old(handlers)[m] && hs[m] == old(hs)[m];
        } else {
          assert handlers[m] == node && hs[m] == h;
        }
      }
    }

    method LinkHandler(node: Node)
      requires Shape() && Circle([node]) && node !in repr
      requires node.item.OfHandler? && node.item.body !in repr
      modifies this`handlers, this`repr
      modifies handlerList`next, handlerList`prev, handlers`next, handlers`prev, node`next, node`prev, node`home
      ensures Shape() && handlers == old(handlers) + [node] && repr == old(repr) + {node, node.item.body}
    {
      HandlersApart();
      MoreHandlers(repr, loggers, handlers, refs, node);
      Insert(handlerList, node, handlers);
      handlers, repr := handlers + [node], repr + {node, node.item.body};
      ghost var circles := Circle([loggerList] + loggers) && Circle([handlerList] + handlers)
                           && HandlerItems(handlers) && LeadInto(refs, handlers)
                           && Owned(repr, loggers, handlers, refs);
      assert circles;
      forall m | 0 <= m < |loggers| ensures RefShape(loggers[m], refs[m]) {
        assert old(RefShape(loggers[m], refs[m]));
        ghost var shaped := RefShape(loggers[m], refs[m]);
        assert shaped;
      }
      assert AllRefShapes();
    }

    /** lmk_attach_log_handler. */
    method Attach(logger: Node, handler: Node, ghost i: nat, ghost j: nat)
      requires Valid() && i < |loggers| && loggers[i] == logger && j < |handlers| && handlers[j] == handler
      modifies this`refs, this`hs, this`ls, this`repr, repr
      ensures Valid() && fresh(repr - old(repr))
      ensures ls == old(ls)[i := R.WithRef(old(ls)[i], old(hs)[j].name)]
      ensures hs == if old(hs)[j].name in old(ls)[i].refs then old(hs)
                    else old(hs)[j := old(hs)[j].(nrLoggerRef := old(hs)[j].nrLoggerRef + 1)]
    {
      var found, ref, k := SearchRef(logger, handler, i, j);
      if found {
        assert ls == ls[i := ls[i]];
        return;
      }
      AttachNew(logger, handler, i, j);
    }

    method AttachNew(logger: Node, handler: Node, ghost i: nat, ghost j: nat)
      requires Valid() && i < |loggers| && loggers[i] == logger && j < |handlers| && handlers[j] == handler
      requires hs[j].name !in ls[i].refs
      modifies this`refs, this`hs, this`ls, this`repr, repr
      ensures Valid() && fresh(repr - old(repr))
      ensures ls == old(ls)[i := R.WithRef(old(ls)[i], old(hs)[j].name)]
      ensures hs == old(hs)[j := old(hs)[j].(nrLoggerRef := old(hs)[j].nrLoggerRef + 1)]
    {
      R.AttachKeeps(hs, ls, i, j);
      ghost var named := ls[i := R.WithRef(ls[i], hs[j].name)];
      assert named == ls[i := ls[i].(refs := ls[i].refs + [hs[j].name])];
      assert HandlerDatum(j);
      var ref := LinkCounted(logger, handler, i, j);
      MoreNames(loggers, old(refs), ls, i, ref, hs[j].name);
      ls := named;
      ghost var kept := Shape() && HandlerData() && LoggerData(loggers, refs, ls) && R.RegistryOk(hs, ls) && AllDead();
      assert kept;
    }

    /** Add a reference and count it. */
    method LinkCounted(logger: Node, handler: Node, ghost i: nat, ghost j: nat) returns (ref: Node)
      requires Shape() && HandlerData()
      requires i < |loggers| && loggers[i] == logger && j < |handlers| && handlers[j] == handler
      modifies this`refs, this`hs, this`repr, BodyOf(handler)
      modifies RefListOf(logger)`next, RefListOf(logger)`prev, refs[i]`next, refs[i]`prev
      ensures Shape() && HandlerData() && fresh(repr - old(repr)) && fresh(ref)
      ensures ref.item == OfRef(handler) && refs == old(refs)[i := old(refs)[i] + [ref]]
      ensures hs == old(hs)[j := old(hs)[j].(nrLoggerRef := old(hs)[j].nrLoggerRef + 1)]
    {
      ref := new Link(OfRef(handler));
      assert RefShape(loggers[i], refs[i]) && HandlerDatum(j);
      LinkRef(logger, ref, i);
      forall m | 0 <= m < |handlers| ensures HandlerDatum(m) {
        assert old(HandlerDatum(m));
      }
      SetCount(handler, j, handler.item.body.h.nrLoggerRef + 1);
    }

    method LinkRef(logger: Node, ref: Node, ghost i: nat)
      requires Shape() && i < |loggers| && loggers[i] == logger && Circle([ref]) && ref !in repr
      requires ref.item.OfRef? && ref.item.handler in handlers
      modifies this`refs, this`repr
      modifies RefListOf(logger)`next, RefListOf(logger)`prev, refs[i]`next, refs[i]`prev, ref`next, ref`prev, ref`home
      ensures Shape() && refs == old(refs)[i := old(refs)[i] + [ref]] && repr == old(repr) + {ref}
    {
      RefsApart(i);
      assert RefShape(loggers[i], refs[i]);
      Insert(logger.item.refList, ref, refs[i]);
      refs, repr := refs[i := refs[i] + [ref]], repr + {ref};
      ghost var circles := Circle([loggerList] + loggers) && Circle([handlerList] + handlers);
      assert circles;
      forall m | 0 <= m < |loggers| ensures RefShape(loggers[m], refs[m]) {
        assert old(RefShape(loggers[m], refs[m]));
        if m != i {
          ghost var shaped := RefShape(loggers[m], refs[m]);
          assert shaped;
        }
      }
      assert AllRefShapes();
    }

    /** Pointing at a handler is the same as bearing its name. */
    lemma RefersByName(i: nat, j: nat, k: nat)
      requires Valid() && i < |loggers| && j < |handlers| && k < |refs[i]|
      ensures RefersTo(refs[i][k], handlers[j]) <==> ls[i].refs[k] == hs[j].name
    {
      assert RefShape(loggers[i], refs[i]) && RefNames(refs[i], ls[i].refs);
      var h := refs[i][k].item.handler;
      var m :| 0 <= m < |handlers| && handlers[m] == h;
      assert HandlerDatum(m) && HandlerDatum(j);
    }

    /** lmk_search_log_handler_ref. */
    method SearchRef(logger: Node, handler: Node, ghost i: nat, ghost j: nat)
        returns (found: bool, ref: Node, ghost k: nat)
      requires Valid() && i < |loggers| && loggers[i] == logger && j < |handlers| && handlers[j] == handler
      ensures found <==> hs[j].name in ls[i].refs
      ensures found ==> k < |refs[i]| && refs[i][k] == ref && ls[i].refs[k] == hs[j].name
    {
      assert RefShape(loggers[i], refs[i]);
      var list := logger.item.refList;
      ghost var all := [list] + refs[i];
      First(list, refs[i]);
      ref := list.Next();
      k := 0;
      while ref != list
        invariant k <= |refs[i]| && ref == all[Succ(k, |all|)]
        invariant forall m | 0 <= m < k :: ls[i].refs[m] != hs[j].name
        decreases |refs[i]| - k
      {
        assert ref == refs[i][k] && Joined(all, k + 1) && all[k + 1].live;
        RefersByName(i, j, k);
        if ref.item.handler == handler {
          return true, ref, k;
        }
        k := k + 1;
        ref := ref.Next();
      }
      found := false;
    }

    /** The i-th list of references shares no link with any other list. */
    lemma RefsApart(i: nat)
      requires Shape() && i < |loggers|
      ensures Disjoint([loggerList] + loggers, RefListOf(loggers[i]), refs[i])
      ensures Disjoint([handlerList] + handlers, RefListOf(loggers[i]), refs[i])
      ensures forall m | 0 <= m < |loggers| && m != i ::
                Disjoint([RefListOf(loggers[m])] + refs[m], RefListOf(loggers[i]), refs[i])
    {
      assert RefShape(loggers[i], refs[i]);
      Apart([loggerList] + loggers, RefListOf(loggers[i]), refs[i]);
      Apart([handlerList] + handlers, RefListOf(loggers[i]), refs[i]);
      forall m | 0 <= m < |loggers| && m != i
        ensures Disjoint([RefListOf(loggers[m])] + refs[m], RefListOf(loggers[i]), refs[i])
      {
        assert RefShape(loggers[m], refs[m]);
        Apart([RefListOf(loggers[m])] + refs[m], RefListOf(loggers[i]), refs[i]);
      }
    }

    /** Unlink and free one reference. */
    method DropRef(logger: Node, ref: Node, ghost i: nat, ghost k: nat)
      requires Shape() && i < |loggers| && loggers[i] == logger && k < |refs[i]| && refs[i][k] == ref
      modifies this`refs, RefListOf(logger)`next, RefListOf(logger)`prev, refs[i]`next, refs[i]`prev, ref`live
      ensures Shape() && refs == old(refs)[i := Without(old(refs)[i], k)] && !ref.live
    {
      RefsApart(i);
      assert RefShape(loggers[i], refs[i]);
      ghost var was := refs;
      Discard(ref, logger.item.refList, refs[i], k);
      refs := refs[i := Without(refs[i], k)];
      ghost var circles := Circle([loggerList] + loggers) && Circle([handlerList] + handlers);
      assert circles;
      forall m | 0 <= m < |loggers| ensures RefShape(loggers[m], refs[m]) {
        assert old(RefShape(loggers[m], refs[m]));
        if m != i {
          ghost var shaped := RefShape(loggers[m], refs[m]);
          assert shaped;
        }
      }
    }

    /** lmk_detach_log_handler. */
    method Detach(logger: Node, handler: Node, ghost i: nat, ghost j: nat) returns (ok: bool, ghost k: nat)
      requires Valid() && i < |loggers| && loggers[i] == logger && j < |handlers| && handlers[j] == handler
      modifies this`refs, this`hs, this`ls, this`dead, repr
      ensures Valid() && old(dead) <= dead
      ensures ok <==> old(hs)[j].name in old(ls)[i].refs
      ensures !ok ==> refs == old(refs) && hs == old(hs) && ls == old(ls)
      ensures ok ==> k < |old(refs)[i]| && old(refs)[i][k] in dead
      ensures ok ==> k < |old(ls)[i].refs| && old(ls)[i].refs[k] == old(hs)[j].name
                     && refs == old(refs)[i := Without(old(refs)[i], k)]
                     && ls == old(ls)[i := R.WithoutRef(old(ls)[i], k)]
                     && CountedDown(old(hs), hs, j)
    {
      var ref;
      ok, ref, k := SearchRef(logger, handler, i, j);
      if ok {
        DetachFound(logger, handler, ref, i, j, k);
      }
    }

    method DetachFound(logger: Node, handler: Node, ref: Node, ghost i: nat, ghost j: nat, ghost k: nat)
      requires Valid() && i < |loggers| && loggers[i] == logger && j < |handlers| && handlers[j] == handler
      requires k < |refs[i]| && refs[i][k] == ref && ls[i].refs[k] == hs[j].name
      modifies this`refs, this`hs, this`ls, this`dead, repr
      ensures Valid() && refs == old(refs)[i := Without(old(refs)[i], k)] && dead == old(dead) + {ref}
      ensures ls == old(ls)[i := R.WithoutRef(old(ls)[i], k)] && CountedDown(old(hs), hs, j)
    {
      R.DetachKeeps(hs, ls, i, j, k);
      DropName(loggers, refs, ls, i, k);
      assert RefShape(loggers[i], refs[i]);
      DropCounted(logger, handler, ref, i, j, k);
      ls, dead := ls[i := R.WithoutRef(ls[i], k)], dead + {ref};
      ghost var kept := Shape() && HandlerData() && LoggerData(loggers, refs, ls) && R.RegistryOk(hs, ls);
      assert kept;
    }

    /** Drop a reference and count it down. */
    method DropCounted(logger: Node, handler: Node, ref: Node, ghost i: nat, ghost j: nat, ghost k: nat)
      requires Shape() && HandlerData() && i < |loggers| && loggers[i] == logger && k < |refs[i]| && refs[i][k] == ref
      requires j < |handlers| && handlers[j] == handler && hs[j].nrLoggerRef > 0
      modifies this`refs, this`hs, BodyOf(handler)
      modifies RefListOf(logger)`next, RefListOf(logger)`prev, refs[i]`next, refs[i]`prev, ref`live
      ensures Shape() && HandlerData() && !ref.live
      ensures refs == old(refs)[i := Without(old(refs)[i], k)]
      ensures hs == old(hs)[j := old(hs)[j].(nrLoggerRef := old(hs)[j].nrLoggerRef - 1)]
    {
      assert RefShape(loggers[i], refs[i]) && HandlerDatum(j);
      DropRef(logger, ref, i, k);
      forall m | 0 <= m < |handlers| ensures HandlerDatum(m) {
        assert old(HandlerDatum(m));
      }
      SetCount(handler, j, handler.item.body.h.nrLoggerRef - 1);
    }

    /** Counting a reference up or down. */
    method SetCount(handler: Node, ghost j: nat, n: nat)
      requires Shape() && HandlerData() && j < |handlers| && handlers[j] == handler
      modifies this`hs, BodyOf(handler)
      ensures Shape() && HandlerData()
      ensures hs == old(hs)[j := old(hs)[j].(nrLoggerRef := n)]
    {
      assert HandlerDatum(j);
      var body := handler.item.body;
      body.h := body.h.(nrLoggerRef := n);
      hs := hs[j := hs[j].(nrLoggerRef := n)];
      forall m | 0 <= m < |handlers| ensures HandlerDatum(m) {
        if m != j {
          assert old(HandlerDatum(m)) && BodyOf(handlers[m]) != BodyOf(handlers[j]);
        }
      }
      ghost var shaped := Shape();
      assert shaped;
    }

    /** The list of loggers shares no link with any other list. */
    lemma LoggersApart()
      requires Shape()
      ensures Disjoint([handlerList] + handlers, loggerList, loggers)
      ensures forall m | 0 <= m < |loggers| :: Disjoint([RefListOf(loggers[m])] + refs[m], loggerList, loggers)
    {
      Apart([handlerList] + handlers, loggerList, loggers);
      forall m | 0 <= m < |loggers| ensures Disjoint([RefListOf(loggers[m])] + refs[m], loggerList, loggers) {
        assert RefShape(loggers[m], refs[m]);
        Apart([RefListOf(loggers[m])] + refs[m], loggerList, loggers);
      }
    }

    method DiscardWithHead(logger: Node, ghost i: nat)
      requires Circle([loggerList] + loggers) && i < |loggers| && loggers[i] == logger && logger.item.OfLogger?
      requires logger.item.refList.live && Disjoint([loggerList] + loggers, logger.item.refList, [])
      modifies loggerList`next, loggerList`prev, loggers`next, loggers`prev, logger`live, RefListOf(logger)`live
      ensures Circle([loggerList] + Without(loggers, i)) && !logger.live && !RefListOf(logger).live
    {
      ghost var all := [loggerList] + loggers;
      assert all[i + 1] == logger;
      Discard(logger, loggerList, loggers, i);
      WithoutBehind(loggerList, loggers, i);
      DistinctWithout(all, i + 1);
      ghost var rest := [loggerList] + Without(loggers, i);
      assert forall l | l in rest :: l in all && l != logger.item.refList;
      logger.item.refList.Free();
      ghost var kept := Circle(rest);
      assert kept;
    }

    /** Unlink a logger without references and free it, its list head included. */
    method DropLogger(logger: Node, ghost i: nat)
      requires Shape() && i < |loggers| && loggers[i] == logger && refs[i] == []
      modifies this`loggers, this`refs, loggerList`next, loggerList`prev, loggers`next, loggers`prev
      modifies logger`live, RefListOf(logger)`live
      ensures Shape() && loggers == Without(old(loggers), i) && refs == Without(old(refs), i)
      ensures !logger.live && !RefListOf(logger).live
    {
      LoggersApart();
      RefsApart(i);
      assert RefShape(loggers[i], refs[i]);
      First(logger.item.refList, refs[i]);
      assert ([logger.item.refList] + refs[i])[0] != loggers[i];
      FewerLoggers(repr, loggers, handlers, refs, i);
      DiscardWithHead(logger, i);
      loggers, refs := Without(loggers, i), Without(refs, i);
      ghost var circles := Circle([loggerList] + loggers) && Circle([handlerList] + handlers)
                           && ListsDiffer(loggers) && LeadInto(refs, handlers) && Owned(repr, loggers, handlers, refs);
      assert circles;
      forall m | 0 <= m < |loggers| ensures RefShape(loggers[m], refs[m]) {
        ghost var n := if m < i then m else m + 1;
        assert old(RefShape(loggers[n], refs[n]));
        assert loggers[m] == old(loggers)[n] && refs[m] == old(refs)[n];
        ghost var shaped := RefShape(loggers[m], refs[m]);
        assert shaped;
      }
      assert AllRefShapes();
    }

    /** lmk_destroy_logger. */
    method DestroyLogger(logger: Node, ghost i: nat)
      requires Valid() && i < |loggers| && loggers[i] == logger
      modifies this`loggers, this`refs, this`hs, this`ls, this`dead, repr
      ensures Valid() && R.SameButCounts(old(hs), hs) && old(dead) <= dead
      ensures loggers == Without(old(loggers), i) && ls == Without(old(ls), i) && refs == Without(old(refs), i)
      ensures logger in dead && RefListOf(logger) in dead && forall ref | ref in old(refs)[i] :: ref in dead
    {
      DetachAll(logger, i);
      RemoveLogger(logger, i);
    }

    /** Without references the logger can go. */
    method RemoveLogger(logger: Node, ghost i: nat)
      requires Valid() && i < |loggers| && loggers[i] == logger && refs[i] == [] && ls[i].refs == []
      modifies this`loggers, this`refs, this`ls, this`dead, repr
      ensures Valid() && dead == old(dead) + {logger, RefListOf(logger)}
      ensures loggers == Without(old(loggers), i) && ls == Without(old(ls), i) && refs == Without(old(refs), i)
    {
      assert RefShape(loggers[i], refs[i]);
      R.RemoveLoggerKeeps(hs, ls, i);
      DropLoggerName(loggers, refs, ls, i);
      ls := Without(ls, i);
      DropLoggerOnly(logger, i);
      dead := dead + {logger, RefListOf(logger)};
      ghost var kept := Shape() && HandlerData() && LoggerData(loggers, refs, ls) && R.RegistryOk(hs, ls);
      assert kept;
    }

    /** Dropping a logger leaves the handlers alone. */
    method DropLoggerOnly(logger: Node, ghost i: nat)
      requires Shape() && HandlerData() && i < |loggers| && loggers[i] == logger && refs[i] == []
      modifies this`loggers, this`refs, loggerList`next, loggerList`prev, loggers`next, loggers`prev
      modifies logger`live, RefListOf(logger)`live
      ensures Shape() && HandlerData() && loggers == Without(old(loggers), i) && refs == Without(old(refs), i)
      ensures !logger.live && !RefListOf(logger).live
    {
      DropLogger(logger, i);
      forall m | 0 <= m < |handlers| ensures HandlerDatum(m) {
        assert old(HandlerDatum(m));
      }
    }

    /** Its loop: detach from every handler, the cursor being saved before and put back after
        each reference that goes. */
    method DetachAll(logger: Node, ghost i: nat)
      requires Valid() && i < |loggers| && loggers[i] == logger
      modifies this`refs, this`hs, this`ls, this`dead, repr
      ensures Valid() && R.SameButCounts(old(hs), hs) && old(dead) <= dead
      ensures refs == old(refs)[i := []] && ls[i].refs == [] && Without(ls, i) == Without(old(ls), i)
      ensures forall ref | ref in old(refs)[i] :: ref in dead
    {
      assert RefShape(loggers[i], refs[i]);
      ghost var all, k := refs[i], 0;
      var list := logger.item.refList;
      First(list, refs[i]);
      var cursor := list.Next();
      assert refs == refs[i := all[0..]];
      while cursor != list
        invariant Valid() && R.SameButCounts(old(hs), hs) && old(dead) <= dead
        invariant |ls| == |old(ls)| && Without(ls, i) == Without(old(ls), i)
        invariant 0 <= k <= |all| && refs == old(refs)[i := all[k..]]
        invariant forall m | 0 <= m < k :: all[m] in dead
        invariant cursor == if k == |all| then list else all[k]
        decreases |all| - k
        modifies this`refs, this`hs, this`ls, this`dead, repr
      {
        assert all[k..][1..] == all[k + 1..];
        cursor := DetachAt(logger, cursor, i);
        k := k + 1;
      }
      assert RefShape(loggers[i], refs[i]);
      First(list, refs[i]);
      assert k == |all| && all[k..] == [];
    }

    /** The body of that loop: the next cursor. */
    method DetachAt(logger: Node, ref: Node, ghost i: nat) returns (next: Node)
      requires Valid() && i < |loggers| && loggers[i] == logger && refs[i] != [] && refs[i][0] == ref
      modifies this`refs, this`hs, this`ls, this`dead, repr
      ensures Valid() && R.SameButCounts(old(hs), hs) && old(dead) + {ref} <= dead
      ensures refs == old(refs)[i := old(refs)[i][1..]]
      ensures next == if refs[i] == [] then RefListOf(logger) else refs[i][0]
      ensures ls == old(ls)[i := R.WithoutRef(old(ls)[i], 0)]
    {
      assert RefShape(loggers[i], refs[i]) && RefNames(refs[i], ls[i].refs);
      First(RefListOf(logger), refs[i]);
      var saved := ref.Prev();
      ghost var j :| 0 <= j < |handlers| && handlers[j] == ref.item.handler;
      RefersByName(i, j, 0);
      assert R.RefsOk(hs, ls[i].refs);
      ghost var names := ls[i].refs;
      var ok, k := Detach(logger, ref.item.handler, i, j);
      assert CountedDown(old(hs), hs, j);
      assert names[k] == names[0] && k == 0;
      assert old(refs[i])[1..] == Without(old(refs[i]), 0);
      assert RefShape(loggers[i], refs[i]);
      First(RefListOf(logger), refs[i]);
      next := saved.Next();
    }

    /** The list of handlers shares no link with any other list. */
    lemma HandlersApart()
      requires Shape()
      ensures Disjoint([loggerList] + loggers, handlerList, handlers)
      ensures forall m | 0 <= m < |loggers| :: Disjoint([RefListOf(loggers[m])] + refs[m], handlerList, handlers)
    {
      Apart([loggerList] + loggers, handlerList, handlers);
      forall m | 0 <= m < |loggers| ensures Disjoint([RefListOf(loggers[m])] + refs[m], handlerList, handlers) {
        assert RefShape(loggers[m], refs[m]);
        Apart([RefListOf(loggers[m])] + refs[m], handlerList, handlers);
      }
    }

    /** Unlink a handler nobody refers to and free it. */
    method DropHandler(handler: Node, ghost j: nat)
      requires Shape() && j < |handlers| && handlers[j] == handler && NotInto(refs, handler)
      modifies this`handlers, handlerList`next, handlerList`prev, handlers`next, handlers`prev, handler`live
      ensures Shape() && handlers == Without(old(handlers), j) && !handler.live
    {
      HandlersApart();
      LeadElsewhere(refs, handlers, j);
      Discard(handler, handlerList, handlers, j);
      handlers := Without(handlers, j);
      ghost var circle := Circle([loggerList] + loggers);
      assert circle;
      forall m | 0 <= m < |loggers| ensures RefShape(loggers[m], refs[m]) {
        assert old(RefShape(loggers[m], refs[m]));
        ghost var shaped := RefShape(loggers[m], refs[m]);
        assert shaped;
      }
      assert AllRefShapes();
    }

    /** lmk_destroy_log_handler. */
    method DestroyHandler(handler: Node, ghost j: nat) returns (ok: bool)
      requires Valid() && j < |handlers| && handlers[j] == handler
      modifies this`handlers, this`hs, this`dead, repr
      ensures Valid() && old(dead) <= dead
      ensures ok <==> forall l | l in ls :: old(hs)[j].name !in l.refs
      ensures handlers == (if ok then Without(old(handlers), j) else old(handlers))
      ensures hs == (if ok then Without(old(hs), j) else old(hs))
      ensures ok ==> handler in dead
    {
      R.CountZero(ls, hs[j].name);
      assert HandlerDatum(j);
      if handler.item.body.h.nrLoggerRef > 0 {
        return false;
      }
      RemoveHandler(handler, j);
      return true;
    }

    /** With a count of zero nothing points at the handler and it can go. */
    method RemoveHandler(handler: Node, ghost j: nat)
      requires Valid() && j < |handlers| && handlers[j] == handler && R.Count(ls, hs[j].name) == 0
      modifies this`handlers, this`hs, this`dead, repr
      ensures Valid() && dead == old(dead) + {handler}
      ensures handlers == Without(old(handlers), j) && hs == Without(old(hs), j)
    {
      R.RemoveHandlerKeeps(hs, ls, j);
      NothingPointsAt(j);
      DropHandlerOnly(handler, j);
      dead := dead + {handler};
      ghost var kept := Shape() && HandlerData() && LoggerData(loggers, refs, ls) && R.RegistryOk(hs, ls);
      assert kept;
    }

    /** Dropping a handler leaves the others alone. */
    method DropHandlerOnly(handler: Node, ghost j: nat)
      requires Shape() && HandlerData() && j < |handlers| && handlers[j] == handler && NotInto(refs, handler)
      modifies this`handlers, this`hs, handlerList`next, handlerList`prev, handlers`next, handlers`prev, handler`live
      ensures Shape() && HandlerData() && !handler.live
      ensures handlers == Without(old(handlers), j) && hs == Without(old(hs), j)
    {
      ghost var was := handlers;
      hs := Without(hs, j);
      DropHandler(handler, j);
      forall m | 0 <= m < |handlers| ensures HandlerDatum(m) {
        assert old(HandlerDatum(if m < j then m else m + 1));
        assert handlers[m] == was[if m < j then m else m + 1];
      }
    }

    lemma NothingPointsAt(j: nat)
      requires Valid() && j < |handlers| && R.Count(ls, hs[j].name) == 0
      ensures NotInto(refs, handlers[j])
    {
      R.CountZero(ls, hs[j].name);
      forall i, ref | 0 <= i < |refs| && ref in refs[i] ensures !RefersTo(ref, handlers[j]) {
        var k :| 0 <= k < |refs[i]| && refs[i][k] == ref;
        RefersByName(i, j, k);
        assert ls[i] in ls && RefNames(refs[i], ls[i].refs);
      }
    }

    /** lmk_destroy. */
    method Destroy() returns (goneLoggers: seq<Node>, goneHandlers: seq<Node>)
      requires Valid()
      modifies this`loggers, this`handlers, this`refs, this`hs, this`ls, this`dead, repr
      ensures Valid() && hs == [] && ls == []
      ensures goneLoggers == old(loggers) && goneHandlers == old(handlers)
      ensures loggerList.next == loggerList && handlerList.next == handlerList
      ensures forall logger | logger in old(loggers) :: !logger.live && !RefListOf(logger).live
      ensures forall i, ref | 0 <= i < |old(refs)| && ref in old(refs)[i] :: !ref.live
      ensures forall handler | handler in old(handlers) :: !handler.live
    {
      goneLoggers := DestroyLoggers();
      goneHandlers := DestroyHandlers();
      First(loggerList, loggers);
      First(handlerList, handlers);
    }

    method DestroyLoggers() returns (gone: seq<Node>)
      requires Valid()
      modifies this`loggers, this`refs, this`hs, this`ls, this`dead, repr
      ensures Valid() && loggers == [] && ls == [] && gone == old(loggers) && old(dead) <= dead
      ensures forall logger | logger in gone :: logger in dead && RefListOf(logger) in dead
      ensures forall i, ref | 0 <= i < |old(refs)| && ref in old(refs)[i] :: ref in dead
    {
      gone := [];
      ghost var all, mine, k := loggers, refs, 0;
      First(loggerList, loggers);
      var cursor := loggerList.Next();
      while cursor != loggerList
        invariant Valid() && 0 <= k <= |all| && loggers == all[k..] && refs == mine[k..] && gone == all[..k]
        invariant old(dead) <= dead && forall m | 0 <= m < k :: all[m] in dead && RefListOf(all[m]) in dead
        invariant forall m, ref | 0 <= m < k && ref in mine[m] :: ref in dead
        invariant cursor == if k == |all| then loggerList else all[k]
        decreases |all| - k
        modifies this`loggers, this`refs, this`hs, this`ls, this`dead, repr
      {
        gone := gone + [cursor];
        assert all[k..][1..] == all[k + 1..] && mine[k..][1..] == mine[k + 1..];
        cursor := DestroyAtLogger(cursor);
        k := k + 1;
      }
      First(loggerList, loggers);
      assert |ls| == |loggers| == 0;
    }

    /** The body of the loop over the loggers: the next cursor. */
    method DestroyAtLogger(cursor: Node) returns (next: Node)
      requires Valid() && loggers != [] && loggers[0] == cursor
      modifies this`loggers, this`refs, this`hs, this`ls, this`dead, repr
      ensures Valid() && loggers == old(loggers)[1..] && refs == old(refs)[1..] && old(dead) <= dead
      ensures cursor in dead && RefListOf(cursor) in dead && forall ref | ref in old(refs)[0] :: ref in dead
      ensures next == if loggers == [] then loggerList else loggers[0]
    {
      First(loggerList, loggers);
      var saved := cursor.Prev();
      assert Without(loggers, 0) == loggers[1..] && Without(refs, 0) == refs[1..];
      DestroyLogger(cursor, 0);
      First(loggerList, loggers);
      next := saved.Next();
    }

    method DestroyHandlers() returns (gone: seq<Node>)
      requires Valid() && ls == []
      modifies this`handlers, this`hs, this`dead, repr
      ensures Valid() && handlers == [] && hs == [] && gone == old(handlers) && old(dead) <= dead
      ensures forall handler | handler in gone :: handler in dead
    {
      gone := [];
      ghost var all, k := handlers, 0;
      First(handlerList, handlers);
      var cursor := handlerList.Next();
      while cursor != handlerList
        invariant Valid() && ls == [] && 0 <= k <= |all| && handlers == all[k..] && gone == all[..k]
        invariant old(dead) <= dead && forall m | 0 <= m < k :: all[m] in dead
        invariant cursor == if k == |all| then handlerList else all[k]
        decreases |all| - k
        modifies this`handlers, this`hs, this`dead, repr
      {
        gone := gone + [cursor];
        assert all[k..][1..] == all[k + 1..];
        cursor := DestroyAtHandler(cursor);
        k := k + 1;
      }
      First(handlerList, handlers);
      assert |hs| == |handlers| == 0;
    }

    /** The body of the loop over the handlers. */
    method DestroyAtHandler(cursor: Node) returns (next: Node)
      requires Valid() && ls == [] && handlers != [] && handlers[0] == cursor
      modifies this`handlers, this`hs, this`dead, repr
      ensures Valid() && handlers == old(handlers)[1..] && old(dead) + {cursor} <= dead
      ensures next == if handlers == [] then handlerList else handlers[0]
    {
      First(handlerList, handlers);
      var saved := cursor.Prev();
      assert Without(handlers, 0) == handlers[1..];
      var ok := DestroyHandler(cursor, 0);
      First(handlerList, handlers);
      next := saved.Next();
    }
  }
}

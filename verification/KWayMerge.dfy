/**
 fmtlog's polling thread merges the queues of all logging threads by timestamp with a
 binary min-heap whose nodes are the queues, keyed by the timestamp of their oldest
 fetched message; a node with nothing fetched counts as infinitely late.
 */
module KWayMerge {

  datatype Message = Message(time: int, logId: nat)

  datatype Header = Null | At(msg: Message)

  datatype Node = Node(queue: nat, header: Header)

  datatype Emitted = Emitted(queue: nat, msg: Message)

  /** The comparison of adjustHeap. */
  predicate Earlier(a: Header, b: Header) {
    a.At? && (b.Null? || a.msg.time < b.msg.time)
  }

  function Parent(k: nat): nat
    requires k > 0
  {
    (k - 1) / 2
  }

  /** Node k is not earlier than its parent. */
  predicate Ordered(nodes: seq<Node>, k: nat)
    requires 0 < k < |nodes|
  {
    !Earlier(nodes[k].header, nodes[Parent(k)].header)
  }

  /** Every parent from i on is in order with its children. */
  predicate HeapFrom(nodes: seq<Node>, i: nat) {
    forall k | 0 < k < |nodes| && Parent(k) >= i :: Ordered(nodes, k)
  }

  lemma {:induction false} RootIsEarliest(nodes: seq<Node>, k: nat)
    requires HeapFrom(nodes, 0) && k < |nodes|
    ensures !Earlier(nodes[k].header, nodes[0].header)
    decreases k
  {
    if k > 0 {
      assert Ordered(nodes, k);
      RootIsEarliest(nodes, Parent(k));
    }
  }

  /** Exchanging two entries is a permutation. */
  lemma SwapPermutes<T>(s: seq<T>, i: nat, j: nat)
    requires i < |s| && j < |s|
    ensures multiset(s[i := s[j]][j := s[i]]) == multiset(s)
  {
  }

  ghost predicate Distinct(nodes: seq<Node>) {
    forall i, j | 0 <= i < j < |nodes| :: nodes[i].queue != nodes[j].queue
  }

  /** Buffers of threads that have logged for the first time since the last poll. */
  function NewNodes(added: seq<nat>): seq<Node> {
    seq(|added|, i requires 0 <= i < |added| => Node(added[i], Null))
  }

  lemma SwapKeepsDistinct(s: seq<Node>, i: nat, j: nat)
    requires i < |s| && j < |s| && Distinct(s)
    ensures Distinct(s[i := s[j]][j := s[i]])
  {
  }

  lemma PermutationMembers<T>(a: seq<T>, b: seq<T>)
    requires multiset(a) == multiset(b)
    ensures forall x | x in a :: x in b
  {
    forall x | x in a ensures x in b {
      assert x in multiset(b);
    }
  }

  /** In order everywhere from i0 on, except between `hole` and its children, whose
      children are however in order with the hole's parent. */
  predicate HeapButHole(nodes: seq<Node>, i0: nat, hole: nat) {
    && (forall k | 0 < k < |nodes| && Parent(k) >= i0 && Parent(k) != hole :: Ordered(nodes, k))
    && (forall k | 0 < k < |nodes| && Parent(k) == hole && 0 < hole && Parent(hole) >= i0 ::
          !Earlier(nodes[k].header, nodes[Parent(hole)].header))
  }

  lemma SwapMovesHole(nodes: seq<Node>, i0: nat, hole: nat, child: nat)
    requires HeapButHole(nodes, i0, hole) && i0 <= hole
    requires 0 < child < |nodes| && Parent(child) == hole
    requires Earlier(nodes[child].header, nodes[hole].header)
    requires forall k | 0 < k < |nodes| && Parent(k) == hole :: !Earlier(nodes[k].header, nodes[child].header)
    ensures HeapButHole(nodes[hole := nodes[child]][child := nodes[hole]], i0, child)
  {
    var r := nodes[hole := nodes[child]][child := nodes[hole]];
    forall k | 0 < k < |r| && Parent(k) >= i0 && Parent(k) != child ensures Ordered(r, k) {
      if Parent(k) != hole {
        assert Ordered(nodes, k);
      }
    }
    forall k | 0 < k < |r| && Parent(k) == child ensures !Earlier(r[k].header, r[hole].header) {
      assert Ordered(nodes, k);
    }
  }

  function NodeSet(nodes: seq<Node>): set<Node> {
    set n | n in nodes
  }

  /** The queues that have a node. */
  ghost function QueueSet(nodes: seq<Node>): set<nat> {
    set n | n in nodes :: n.queue
  }

  lemma SameQueues(a: seq<Node>, b: seq<Node>)
    requires multiset(a) == multiset(b)
    ensures QueueSet(a) == QueueSet(b)
  {
    PermutationMembers(a, b);
    PermutationMembers(b, a);
  }

  /** Overwriting the i-th node with the last one and shortening removes just the i-th. */
  lemma DropExact(nodes: seq<Node>, i: nat)
    requires i < |nodes| && Distinct(nodes)
    ensures var fewer := nodes[i := nodes[|nodes| - 1]][..|nodes| - 1];
      fewer[..i] == nodes[..i] && forall n :: n in fewer[i..] <==> n in nodes[i..] && n != nodes[i]
  {
    var fewer := nodes[i := nodes[|nodes| - 1]][..|nodes| - 1];
    forall n | n in nodes[i..] && n != nodes[i] ensures n in fewer[i..] {
      var k :| 0 <= k < |nodes[i..]| && nodes[i..][k] == n;
      assert if i + k == |nodes| - 1 then fewer[i..][0] == n else fewer[i..][k] == n;
    }
    forall n | n in fewer[i..] ensures n in nodes[i..] && n != nodes[i] {
      var k :| 0 <= k < |fewer[i..]| && fewer[i..][k] == n;
      assert n == nodes[if k == 0 then |nodes| - 1 else i + k];
    }
  }

  /** Moving on from the i-th node. */
  lemma MoveOnExact(nodes: seq<Node>, i: nat)
    requires i < |nodes| && Distinct(nodes)
    ensures forall n :: n in nodes[i + 1..] <==> n in nodes[i..] && n != nodes[i]
  {
    var rest := nodes[i + 1..];
    assert nodes[i..] == [nodes[i]] + rest;
    forall k | 0 <= k < |rest| ensures rest[k] != nodes[i] {
      assert rest[k] == nodes[i + 1 + k];
    }
  }

  // --------------------------------------------------------------- what poll emits

  /** The messages of one queue among those emitted, in emission order. */
  function Of(out: seq<Emitted>, q: nat): seq<Message> {
    if out == [] then []
    else Of(out[..|out| - 1], q) + if out[|out| - 1].queue == q then [out[|out| - 1].msg] else []
  }

  ghost predicate TimesAscend(out: seq<Emitted>) {
    forall i, j | 0 <= i < j < |out| :: out[i].msg.time <= out[j].msg.time
  }

  /** Each thread pushes its messages with nondecreasing timestamps. */
  ghost predicate QueuesAscend(queues: seq<seq<Message>>) {
    forall q, i, j | 0 <= q < |queues| && 0 <= i < j < |queues[q]| :: queues[q][i].time <= queues[q][j].time
  }

  /** Nothing fetched is earlier than what was emitted last. */
  ghost predicate NotBefore(nodes: seq<Node>, out: seq<Emitted>) {
    forall n | n in nodes && n.header.At? && out != [] :: out[|out| - 1].msg.time <= n.header.msg.time
  }

  /** Only messages due before tsc and of registered log ids. */
  ghost predicate AllAdmitted(out: seq<Emitted>, tsc: int, nrLogs: nat) {
    forall i | 0 <= i < |out| :: out[i].msg.time < tsc && out[i].msg.logId < nrLogs
  }

  lemma OneMoreAdmitted(out: seq<Emitted>, e: Emitted, tsc: int, nrLogs: nat)
    requires AllAdmitted(out, tsc, nrLogs) && e.msg.time < tsc && e.msg.logId < nrLogs
    ensures AllAdmitted(out + [e], tsc, nrLogs)
  {
  }

  /** What was emitted for each queue is exactly what was popped from it, in its order. */
  ghost predicate InFifoOrder(queues: seq<seq<Message>>, out: seq<Emitted>, start: seq<nat>, popped: seq<nat>) {
    && |start| == |popped| == |queues|
    && (forall q | 0 <= q < |queues| ::
          start[q] <= popped[q] <= |queues[q]| && Of(out, q) == queues[q][start[q]..popped[q]])
  }

  lemma OneMoreInOrder(queues: seq<seq<Message>>, out: seq<Emitted>, start: seq<nat>, popped: seq<nat>, e: Emitted)
    requires InFifoOrder(queues, out, start, popped)
    requires e.queue < |queues| && popped[e.queue] < |queues[e.queue]| && e.msg == queues[e.queue][popped[e.queue]]
    ensures InFifoOrder(queues, out + [e], start, popped[e.queue := popped[e.queue] + 1])
  {
    assert (out + [e])[..|out|] == out;
  }

  /** Messages nobody has popped yet. */
  function Left(queues: seq<seq<Message>>, popped: seq<nat>): int
    requires |popped| == |queues|
  {
    if queues == [] then 0 else |queues[0]| - popped[0] + Left(queues[1..], popped[1..])
  }

  lemma {:induction false} LeftDecreases(queues: seq<seq<Message>>, popped: seq<nat>, q: nat)
    requires q < |popped| == |queues|
    ensures Left(queues, popped[q := popped[q] + 1]) == Left(queues, popped) - 1
  {
    if q > 0 {
      assert popped[q := popped[q] + 1][1..] == popped[1..][q - 1 := popped[1..][q - 1] + 1];
      LeftDecreases(queues[1..], popped[1..], q - 1);
    }
  }

  lemma {:induction false} LeftNonNegative(queues: seq<seq<Message>>, popped: seq<nat>)
    requires |popped| == |queues| && forall q :: 0 <= q < |queues| ==> popped[q] <= |queues[q]|
    ensures Left(queues, popped) >= 0
  {
    if queues != [] {
      LeftNonNegative(queues[1..], popped[1..]);
    }
  }

  /** The root is the earliest of all fetched headers, and its queue has nothing earlier
      behind it, so emitting it keeps the times in order. */
  lemma StaysAscending(queues: seq<seq<Message>>, popped: seq<nat>, nodes: seq<Node>, after: seq<Node>,
                       out: seq<Emitted>, e: Emitted)
    requires QueuesAscend(queues) && TimesAscend(out) && NotBefore(nodes, out)
    requires nodes != [] && HeapFrom(nodes, 0) && nodes[0].header == At(e.msg)
    requires |after| == |nodes| && forall i | 0 < i < |nodes| :: after[i] == nodes[i]
    requires e.queue < |queues| == |popped| && popped[e.queue] < |queues[e.queue]|
    requires e.msg == queues[e.queue][popped[e.queue]]
    requires after[0].header.At? ==>
               popped[e.queue] + 1 < |queues[e.queue]| && after[0].header.msg == queues[e.queue][popped[e.queue] + 1]
    ensures TimesAscend(out + [e]) && NotBefore(after, out + [e])
  {
    assert nodes[0] in nodes;
    forall n | n in after && n.header.At? ensures e.msg.time <= n.header.msg.time {
      var i :| 0 <= i < |after| && after[i] == n;
      if i > 0 {
        RootIsEarliest(nodes, i);
      }
    }
  }

  // -------------------------------------------------------- nodes against the queues

  /** Everything each thread ever pushes, in push order, and how much of it is popped. */
  datatype View = View(queues: seq<seq<Message>>, popped: seq<nat>)

  predicate ViewOk(v: View) {
    |v.popped| == |v.queues| && forall q | 0 <= q < |v.queues| :: v.popped[q] <= |v.queues[q]|
  }

  predicate NodeOk(v: View, n: Node) {
    && n.queue < |v.queues| == |v.popped|
    && (n.header.At? ==>
          && v.popped[n.queue] < |v.queues[n.queue]|
          && n.header.msg == v.queues[n.queue][v.popped[n.queue]])
  }

  /** One node per queue, each fetched header being the queue's oldest unpopped message. */
  ghost predicate NodesOk(v: View, nodes: seq<Node>) {
    Distinct(nodes) && forall i | 0 <= i < |nodes| :: NodeOk(v, nodes[i])
  }

  /** What front returns for a queue of which `arrived` messages have been pushed: the
      oldest unpopped one, if it is among them. */
  function FrontOf(v: View, q: nat, arrived: nat): Header {
    if q < |v.queues| == |v.popped| && v.popped[q] < arrived && v.popped[q] < |v.queues[q]|
    then At(v.queues[q][v.popped[q]]) else Null
  }

  /** Nothing is left in the queue of the messages that had arrived. */
  predicate Drained(v: View, q: nat, arrived: nat) {
    q < |v.queues| == |v.popped| && (v.popped[q] >= arrived || v.popped[q] == |v.queues[q]|)
  }

  lemma FrontExact(v: View, q: nat, arrived: nat)
    requires ViewOk(v) && q < |v.queues|
    ensures FrontOf(v, q, arrived).Null? <==> Drained(v, q, arrived)
  {
  }

  // ------------------------------------------------------------------ the fetch loop

  /** A node after the fetch loop has been to it. */
  function Fetched(v: View, n: Node, arrived: nat -> nat): Node {
    if n.header.At? then n else Node(n.queue, FrontOf(v, n.queue, arrived(n.queue)))
  }

  /** The fetch loop drops it: its queue looked empty, and then its thread was finished. */
  predicate Dropped(v: View, n: Node, arrived: nat -> nat, finished: nat -> bool) {
    Fetched(v, n, arrived).header.Null? && finished(n.queue)
  }

  /** The node comes from one of `were` that the fetch loop kept. */
  ghost predicate Comes(v: View, were: set<Node>, m: Node, arrived: nat -> nat, finished: nat -> bool) {
    exists n :: n in were && !Dropped(v, n, arrived, finished) && m == Fetched(v, n, arrived)
  }

  /** The nodes once the fetch loop has been to all of `were`: none is lost but those
      dropped, none is new, and each has the header that was there to fetch. */
  ghost predicate AllFetched(v: View, were: set<Node>, now: seq<Node>, arrived: nat -> nat, finished: nat -> bool) {
    && (forall n | n in were && !Dropped(v, n, arrived, finished) :: Fetched(v, n, arrived) in now)
    && (forall m | m in now :: Comes(v, were, m, arrived, finished))
  }

  lemma OneMoreFetched(v: View, done: set<Node>, now: seq<Node>, n: Node, arrived: nat -> nat, finished: nat -> bool)
    requires AllFetched(v, done, now, arrived, finished)
    ensures var more := if Dropped(v, n, arrived, finished) then [] else [Fetched(v, n, arrived)];
      AllFetched(v, done + {n}, now + more, arrived, finished)
  {
    forall m | m in now ensures Comes(v, done + {n}, m, arrived, finished) {
      assert Comes(v, done, m, arrived, finished);
    }
  }

  /** A queue keeps its node exactly if the fetch loop does not drop it. */
  ghost predicate KeptExactly(v: View, were: seq<Node>, now: seq<Node>, arrived: nat -> nat, finished: nat -> bool) {
    && (forall n | n in were :: n.queue in QueueSet(now) <==> !Dropped(v, n, arrived, finished))
    && (forall q | q in QueueSet(now) :: q in QueueSet(were))
  }

  /** In plain words: a queue that had a node keeps it unless it had no header, nothing of
      what had arrived was left and its thread was seen finished; a new buffer gets one unless
      the last two hold; and no other queue has one. */
  ghost predicate KeptInWords(v: View, held: seq<Node>, added: seq<nat>, now: seq<Node>, arrived: nat -> nat,
                              finished: nat -> bool)
    requires |v.popped| == |v.queues|
  {
    && (forall n | n in held && n.queue < |v.queues| ::
          var q := n.queue;
          q in QueueSet(now) <==>
            n.header.At? || !finished(q) || (v.popped[q] < arrived(q) && v.popped[q] != |v.queues[q]|))
    && (forall q | q in added && q < |v.queues| ::
          q in QueueSet(now) <==> !finished(q) || (v.popped[q] < arrived(q) && v.popped[q] != |v.queues[q]|))
    && (forall q | q in QueueSet(now) :: q in added || exists n :: n in held && n.queue == q)
  }

  lemma KeptMeans(v: View, held: seq<Node>, added: seq<nat>, now: seq<Node>, arrived: nat -> nat, finished: nat -> bool)
    requires ViewOk(v) && KeptExactly(v, held + NewNodes(added), now, arrived, finished)
    ensures KeptInWords(v, held, added, now, arrived, finished)
  {
    var all := held + NewNodes(added);
    forall q | q in added && q < |v.queues|
      ensures q in QueueSet(now) <==> !finished(q) || (v.popped[q] < arrived(q) && v.popped[q] != |v.queues[q]|)
    {
      var i :| 0 <= i < |added| && added[i] == q;
      assert all[|held| + i] == Node(q, Null) && Node(q, Null) in all;
      FrontExact(v, q, arrived(q));
    }
    forall n | n in held && n.queue < |v.queues|
      ensures var q := n.queue;
        q in QueueSet(now) <==>
          n.header.At? || !finished(q) || (v.popped[q] < arrived(q) && v.popped[q] != |v.queues[q]|)
    {
      assert n in all;
      FrontExact(v, n.queue, arrived(n.queue));
    }
    forall q | q in QueueSet(now) ensures q in added || exists n :: n in held && n.queue == q {
      var n :| n in all && n.queue == q;
      if n !in held {
        var i :| 0 <= i < |NewNodes(added)| && NewNodes(added)[i] == n;
        assert added[i] == q;
      }
    }
  }

  lemma FetchKeeps(v: View, were: seq<Node>, now: seq<Node>, arrived: nat -> nat, finished: nat -> bool)
    requires Distinct(were) && AllFetched(v, NodeSet(were), now, arrived, finished)
    ensures KeptExactly(v, were, now, arrived, finished)
  {
    forall n | n in were && !Dropped(v, n, arrived, finished) ensures n.queue in QueueSet(now) {
      assert Fetched(v, n, arrived) in now;
    }
    forall m | m in now
      ensures m.queue in QueueSet(were)
      ensures forall n | n in were && n.queue == m.queue :: !Dropped(v, n, arrived, finished)
    {
      assert Comes(v, NodeSet(were), m, arrived, finished);
      var o :| o in NodeSet(were) && !Dropped(v, o, arrived, finished) && m == Fetched(v, o, arrived);
      forall n | n in were && n.queue == m.queue ensures n == o {
        OnePerQueue(were, o, n);
      }
    }
  }

  lemma OnePerQueue(nodes: seq<Node>, a: Node, b: Node)
    requires Distinct(nodes) && a in nodes && b in nodes && a.queue == b.queue
    ensures a == b
  {
    var i :| 0 <= i < |nodes| && nodes[i] == a;
    var j :| 0 <= j < |nodes| && nodes[j] == b;
    assert i == j;
  }

  /** A node without a header has nothing left of what had arrived at the fetch. */
  ghost predicate NoneOverlooked(v: View, nodes: seq<Node>, arrived0: nat -> nat) {
    forall i | 0 <= i < |nodes| && nodes[i].header.Null? :: Drained(v, nodes[i].queue, arrived0(nodes[i].queue))
  }

  lemma FetchOverlooksNone(v: View, were: seq<Node>, now: seq<Node>, arrived: nat -> nat, finished: nat -> bool)
    requires ViewOk(v) && NodesOk(v, now) && AllFetched(v, NodeSet(were), now, arrived, finished)
    ensures NoneOverlooked(v, now, arrived)
  {
    forall i | 0 <= i < |now| && now[i].header.Null? ensures Drained(v, now[i].queue, arrived(now[i].queue)) {
      assert now[i] in now && Comes(v, NodeSet(were), now[i], arrived, finished) && NodeOk(v, now[i]);
      FrontExact(v, now[i].queue, arrived(now[i].queue));
    }
  }

  // ------------------------------------------------------------------ the merge loop

  /** Queues without a node have been left alone. */
  ghost predicate OthersUntouched(v: View, nodes: seq<Node>, start: seq<nat>) {
    |start| == |v.popped| && forall q | 0 <= q < |v.popped| && q !in QueueSet(nodes) :: v.popped[q] == start[q]
  }

  ghost predicate InTimeOrder(v: View, nodes: seq<Node>, out: seq<Emitted>) {
    QueuesAscend(v.queues) ==> TimesAscend(out) && NotBefore(nodes, out)
  }

  /** What the merge loop keeps, whatever the order of the nodes. */
  ghost predicate MergeFacts(v: View, nodes: seq<Node>, out: seq<Emitted>, start: seq<nat>, arrived0: nat -> nat) {
    && ViewOk(v) && NodesOk(v, nodes)
    && InFifoOrder(v.queues, out, start, v.popped) && OthersUntouched(v, nodes, start)
    && NoneOverlooked(v, nodes, arrived0) && InTimeOrder(v, nodes, out)
  }

  lemma FactsInAnyOrder(v: View, a: seq<Node>, b: seq<Node>, out: seq<Emitted>, start: seq<nat>, arrived0: nat -> nat)
    requires MergeFacts(v, a, out, start, arrived0) && multiset(a) == multiset(b) && Distinct(b)
    ensures MergeFacts(v, b, out, start, arrived0)
  {
    PermutationMembers(b, a);
    SameQueues(a, b);
    forall i | 0 <= i < |b|
      ensures NodeOk(v, b[i])
      ensures b[i].header.Null? ==> Drained(v, b[i].queue, arrived0(b[i].queue))
    {
      assert b[i] in a;
    }
  }

  /** The queues after the message of queue q is popped. */
  function PopView(v: View, q: nat): View
    requires q < |v.popped|
  {
    v.(popped := v.popped[q := v.popped[q] + 1])
  }

  /** The root after its message is popped and the next one fetched. */
  function Refetched(v: View, nodes: seq<Node>, arrived: nat): seq<Node>
    requires nodes != [] && nodes[0].queue < |v.popped|
  {
    nodes[0 := Node(nodes[0].queue, FrontOf(PopView(v, nodes[0].queue), nodes[0].queue, arrived))]
  }

  lemma PopNodesOk(v: View, nodes: seq<Node>, arrived: nat)
    requires ViewOk(v) && NodesOk(v, nodes) && nodes != [] && nodes[0].header.At?
    ensures NodeOk(v, nodes[0]) && ViewOk(PopView(v, nodes[0].queue))
    ensures NodesOk(PopView(v, nodes[0].queue), Refetched(v, nodes, arrived))
    ensures QueueSet(Refetched(v, nodes, arrived)) == QueueSet(nodes)
  {
    assert NodeOk(v, nodes[0]);
    var w, ms := PopView(v, nodes[0].queue), Refetched(v, nodes, arrived);
    forall i | 0 <= i < |ms| ensures NodeOk(w, ms[i]) {
      assert NodeOk(v, nodes[i]) && (i > 0 ==> nodes[0].queue != nodes[i].queue);
    }
    SameQueueSet(nodes, ms);
  }

  /** The refetched root is null only if nothing is left of what had arrived by then. */
  lemma PopOverlooksNone(v: View, nodes: seq<Node>, arrived0: nat -> nat, arrived: nat)
    requires ViewOk(v) && NodesOk(v, nodes) && nodes != [] && nodes[0].header.At?
    requires NoneOverlooked(v, nodes, arrived0) && arrived >= arrived0(nodes[0].queue) && NodeOk(v, nodes[0])
    ensures NoneOverlooked(PopView(v, nodes[0].queue), Refetched(v, nodes, arrived), arrived0)
  {
    var w, ms := PopView(v, nodes[0].queue), Refetched(v, nodes, arrived);
    forall i | 0 <= i < |ms| && ms[i].header.Null? ensures Drained(w, ms[i].queue, arrived0(ms[i].queue)) {
      if i > 0 {
        assert Drained(v, nodes[i].queue, arrived0(nodes[i].queue)) && nodes[0].queue != nodes[i].queue;
      }
    }
  }

  lemma PopKeepsOrder(v: View, nodes: seq<Node>, out: seq<Emitted>, arrived: nat)
    requires ViewOk(v) && NodesOk(v, nodes) && nodes != [] && nodes[0].header.At? && NodeOk(v, nodes[0])
    requires HeapFrom(nodes, 0) && InTimeOrder(v, nodes, out)
    ensures var e := Emitted(nodes[0].queue, nodes[0].header.msg);
      InTimeOrder(PopView(v, e.queue), Refetched(v, nodes, arrived), out + [e])
  {
    var e := Emitted(nodes[0].queue, nodes[0].header.msg);
    if QueuesAscend(v.queues) {
      StaysAscending(v.queues, v.popped, nodes, Refetched(v, nodes, arrived), out, e);
    }
  }

  lemma PopTouchesOne(v: View, nodes: seq<Node>, start: seq<nat>, arrived: nat)
    requires nodes != [] && nodes[0].queue < |v.popped| && OthersUntouched(v, nodes, start)
    requires QueueSet(Refetched(v, nodes, arrived)) == QueueSet(nodes)
    ensures OthersUntouched(PopView(v, nodes[0].queue), Refetched(v, nodes, arrived), start)
  {
    assert nodes[0] in nodes && nodes[0].queue in QueueSet(nodes);
  }

  /** Popping queue q leaves fewer messages, and not less than none. */
  ghost predicate CountsDown(v: View, q: nat)
    requires q < |v.popped| == |v.queues|
  {
    0 <= Left(v.queues, PopView(v, q).popped) < Left(v.queues, v.popped)
  }

  lemma PopCountsDown(v: View, q: nat)
    requires ViewOk(v) && q < |v.queues| && v.popped[q] < |v.queues[q]|
    ensures CountsDown(v, q)
  {
    LeftDecreases(v.queues, v.popped, q);
    LeftNonNegative(v.queues, PopView(v, q).popped);
  }

  /** Popping the root keeps all that. */
  lemma PopKeepsFacts(v: View, nodes: seq<Node>, out: seq<Emitted>, start: seq<nat>, arrived0: nat -> nat, arrived: nat)
    requires MergeFacts(v, nodes, out, start, arrived0) && HeapFrom(nodes, 0) && nodes != [] && nodes[0].header.At?
    requires arrived >= arrived0(nodes[0].queue)
    ensures nodes[0].queue < |v.popped|
    ensures var e := Emitted(nodes[0].queue, nodes[0].header.msg);
      MergeFacts(PopView(v, e.queue), Refetched(v, nodes, arrived), out + [e], start, arrived0)
    ensures HeapFrom(Refetched(v, nodes, arrived), 1) && QueueSet(Refetched(v, nodes, arrived)) == QueueSet(nodes)
    ensures CountsDown(v, nodes[0].queue)
  {
    var e := Emitted(nodes[0].queue, nodes[0].header.msg);
    PopNodesOk(v, nodes, arrived);
    PopOverlooksNone(v, nodes, arrived0, arrived);
    PopKeepsOrder(v, nodes, out, arrived);
    PopTouchesOne(v, nodes, start, arrived);
    OneMoreInOrder(v.queues, out, start, v.popped, e);
    HeapBelowRoot(nodes, Refetched(v, nodes, arrived));
    PopCountsDown(v, e.queue);
  }

  /** The polling thread's view: its heap and the read positions of the queues. */
  class Poller {
    const queues: seq<seq<Message>> // everything each thread ever pushes, in push order
    var popped: seq<nat>            // messages popped from each queue
    var nodes: seq<Node>            // bgThreadBuffers

    constructor (queues: seq<seq<Message>>)
      ensures this.queues == queues && nodes == [] && popped == seq(|queues|, _ => 0)
    {
      this.queues := queues;
      nodes := [];
      popped := seq(|queues|, _ => 0);
    }

    function Queues(): View
      reads this`popped
    {
      View(queues, popped)
    }

    ghost predicate Valid()
      reads this
    {
      ViewOk(Queues()) && NodesOk(Queues(), nodes)
    }

    /** The earliest of node i and its children; the children win only if strictly earlier. */
    method EarliestChild(i: nat) returns (min: nat)
      requires i < |nodes|
      ensures min < |nodes|
      ensures min == i || (min > 0 && Parent(min) == i && Earlier(nodes[min].header, nodes[i].header))
      ensures forall k | 0 < k < |nodes| && Parent(k) == i :: !Earlier(nodes[k].header, nodes[min].header)
    {
      min := i;
      var ch := i * 2 + 1;
      var end := if ch + 2 < |nodes| then ch + 2 else |nodes|;
      while ch < end
        invariant i * 2 + 1 <= ch <= i * 2 + 3
        invariant min == i || (i * 2 + 1 <= min < ch && min < |nodes| && Earlier(nodes[min].header, nodes[i].header))
        invariant forall k | i * 2 + 1 <= k < ch && k < |nodes| :: !Earlier(nodes[k].header, nodes[min].header)
      {
        if Earlier(nodes[ch].header, nodes[min].header) {
          min := ch;
        }
        ch := ch + 1;
      }
    }

    method AdjustHeap(i0: nat)
      requires i0 < |nodes| && HeapFrom(nodes, i0 + 1) && Distinct(nodes)
      modifies this`nodes
      ensures Distinct(nodes) && |nodes| == |old(nodes)|
      ensures multiset(nodes) == multiset(old(nodes)) && (forall n | n in nodes :: n in old(nodes))
      ensures HeapFrom(nodes, i0)
    {
      var i := i0;
      while true
        invariant i0 <= i < |nodes| == |old(nodes)|
        invariant Distinct(nodes) && multiset(nodes) == multiset(old(nodes))
        invariant HeapButHole(nodes, i0, i)
        decreases |nodes| - i
      {
        var min := EarliestChild(i);
        if min == i {
          break;
        }
        SwapMovesHole(nodes, i0, i, min);
        SwapPermutes(nodes, i, min);
        SwapKeepsDistinct(nodes, i, min);
        nodes := nodes[i := nodes[min]][min := nodes[i]];
        i := min;
      }
      PermutationMembers(nodes, old(nodes));
    }

    method FetchFor(i: nat, arrived: nat -> nat)
      requires Valid() && i < |nodes| && nodes[i].header.Null?
      modifies this`nodes
      ensures Valid() && nodes == old(nodes)[i := Fetched(Queues(), old(nodes)[i], arrived)]
    {
      var h := FrontOf(Queues(), nodes[i].queue, arrived(nodes[i].queue));
      nodes := nodes[i := nodes[i].(header := h)];
    }

    /** The last node takes the place of the dropped one. */
    method Drop(i: nat)
      requires Valid() && i < |nodes|
      modifies this`nodes
      ensures Valid()
      ensures nodes == old(nodes)[i := old(nodes)[|old(nodes)| - 1]][..|old(nodes)| - 1]
    {
      nodes := nodes[i := nodes[|nodes| - 1]][..|nodes| - 1];
    }

    /** One turn of the fetch loop, at node i; the next index. */
    method FetchAt(i: nat, arrived: nat -> nat, finished: nat -> bool) returns (next: nat)
      requires Valid() && i < |nodes|
      modifies this`nodes
      ensures Valid() && i <= next <= |nodes| && |nodes| - next == |old(nodes)| - i - 1
      ensures var v, n := Queues(), old(nodes)[i];
        && nodes[..next]
           == old(nodes)[..i] + (if Dropped(v, n, arrived, finished) then [] else [Fetched(v, n, arrived)])
        && forall m :: m in nodes[next..] <==> m in old(nodes)[i..] && m != n
    {
      MoveOnExact(nodes, i);
      DropExact(nodes, i);
      ghost var was, n := nodes, nodes[i];
      if nodes[i].header.Null? {
        FetchFor(i, arrived);
      }
      assert nodes == was[i := Fetched(Queues(), n, arrived)];
      if nodes[i].header.Null? && finished(nodes[i].queue) {
        assert nodes == was;
        Drop(i);
        next := i;
      } else {
        next := i + 1;
        assert nodes[i + 1..] == was[i + 1..];
      }
    }

    /** Fetch a header for every node that has none; drop the node if there is nothing to
        fetch and its thread is finished.  `arrived` says how much each thread has pushed
        when the loop looks, `finished` whether it is then seen to be finished. */
    method FetchMissing(arrived: nat -> nat, finished: nat -> bool)
      requires Valid()
      modifies this`nodes
      ensures Valid() && AllFetched(Queues(), NodeSet(old(nodes)), nodes, arrived, finished)
    {
      var i := 0;
      ghost var v := Queues();
      ghost var done: set<Node> := {};
      while i < |nodes|
        invariant Valid() && i <= |nodes| && forall n | n in done :: n in old(nodes)
        invariant AllFetched(v, done, nodes[..i], arrived, finished)
        invariant forall n | n in nodes[i..] :: n in old(nodes)
        invariant forall n | n in old(nodes) && n !in done :: n in nodes[i..]
        decreases |nodes| - i
      {
        ghost var n := nodes[i];
        assert nodes[i..][0] == n;
        OneMoreFetched(v, done, nodes[..i], n, arrived, finished);
        i := FetchAt(i, arrived, finished);
        done := done + {n};
      }
      assert nodes[..i] == nodes && done == NodeSet(old(nodes));
    }

    method BuildHeap()
      requires Distinct(nodes) && nodes != []
      modifies this`nodes
      ensures Distinct(nodes) && |nodes| == |old(nodes)|
      ensures multiset(nodes) == multiset(old(nodes)) && (forall n | n in nodes :: n in old(nodes))
      ensures HeapFrom(nodes, 0)
    {
      var i := |nodes| / 2;
      while i >= 0
        invariant -1 <= i <= |nodes| / 2
        invariant Distinct(nodes) && |nodes| == |old(nodes)|
        invariant multiset(nodes) == multiset(old(nodes)) && (forall n | n in nodes :: n in old(nodes))
        invariant HeapFrom(nodes, i + 1)
      {
        AdjustHeap(i);
        i := i - 1;
      }
    }

    /** Pop the root's message and refetch that node's header. */
    method PopRoot(arrived: nat) returns (e: Emitted)
      requires Valid() && nodes != [] && nodes[0].header.At?
      modifies this
      ensures e == Emitted(old(nodes[0]).queue, old(nodes[0]).header.msg) && e.queue < |old(popped)|
      ensures Queues() == PopView(old(Queues()), e.queue)
      ensures nodes == Refetched(old(Queues()), old(nodes), arrived)
    {
      var n := nodes[0];
      assert NodeOk(Queues(), n);
      e := Emitted(n.queue, n.header.msg);
      popped := popped[n.queue := popped[n.queue] + 1];
      var h := FrontOf(Queues(), n.queue, arrived);
      nodes := nodes[0 := n.(header := h)];
    }

    ghost predicate MergeInv(out: seq<Emitted>, start: seq<nat>, arrived0: nat -> nat)
      reads this
    {
      MergeFacts(Queues(), nodes, out, start, arrived0) && nodes != [] && HeapFrom(nodes, 0)
    }

    /** Emit the root, refetch its header and let it sink: no other node changes. */
    method EmitRoot(ghost out: seq<Emitted>, ghost start: seq<nat>, ghost arrived0: nat -> nat, arrived: nat)
        returns (e: Emitted)
      requires MergeInv(out, start, arrived0) && nodes[0].header.At?
      requires arrived >= arrived0(nodes[0].queue)
      modifies this
      ensures MergeInv(out + [e], start, arrived0)
      ensures e == Emitted(old(nodes[0].queue), old(nodes[0].header.msg)) && e.queue < |old(popped)|
      ensures Queues() == PopView(old(Queues()), e.queue)
      ensures multiset(nodes) == multiset(Refetched(old(Queues()), old(nodes), arrived))
      ensures QueueSet(nodes) == old(QueueSet(nodes))
      ensures 0 <= Left(queues, popped) < Left(queues, old(popped))
    {
      PopKeepsFacts(Queues(), nodes, out, start, arrived0, arrived);
      e := PopRoot(arrived);
      ghost var refetched := nodes;
      AdjustHeap(0);
      FactsInAnyOrder(Queues(), refetched, nodes, out + [e], start, arrived0);
      SameQueues(nodes, refetched);
      ghost var kept := MergeFacts(Queues(), nodes, out + [e], start, arrived0);
      assert kept;
    }

    /** Emit the earliest message until it is not due, not registered, or there is none.
        `arrived(q, k)` says how much thread q has pushed when the k-th emission refetches. */
    method Merge(tsc: int, nrLogs: nat, arrived: (nat, nat) -> nat, ghost arrived0: nat -> nat)
        returns (out: seq<Emitted>)
      requires MergeInv([], popped, arrived0)
      requires forall q, k :: arrived(q, k) >= arrived0(q)
      modifies this
      ensures MergeInv(out, old(popped), arrived0) && QueueSet(nodes) == old(QueueSet(nodes))
      ensures AllAdmitted(out, tsc, nrLogs)
      ensures nodes[0].header.Null? || nodes[0].header.msg.logId >= nrLogs || nodes[0].header.msg.time >= tsc
    {
      out := [];
      ghost var start := popped;
      LeftNonNegative(queues, popped);
      while true
        invariant MergeInv(out, start, arrived0) && QueueSet(nodes) == old(QueueSet(nodes))
        invariant AllAdmitted(out, tsc, nrLogs)
        invariant Left(queues, popped) >= 0
        decreases Left(queues, popped)
      {
        var root := nodes[0];
        if root.header.Null? || root.header.msg.logId >= nrLogs || root.header.msg.time >= tsc {
          break;
        }
        var e := EmitRoot(out, start, arrived0, arrived(root.queue, |out|));
        OneMoreAdmitted(out, e, tsc, nrLogs);
        out := out + [e];
        ghost var kept := MergeInv(out, start, arrived0) && AllAdmitted(out, tsc, nrLogs);
        assert kept;
      }
    }

    /** The new buffers become nodes without a header; then the fetch loop. */
    method TakeOver(added: seq<nat>, finished: nat -> bool, arrived0: nat -> nat)
      requires Valid()
      requires forall i | 0 <= i < |added| :: added[i] < |queues| && added[i] !in QueueSet(nodes)
      requires forall i, j | 0 <= i < j < |added| :: added[i] != added[j]
      modifies this`nodes
      ensures Valid() && NoneOverlooked(Queues(), nodes, arrived0)
      ensures KeptExactly(Queues(), old(nodes) + NewNodes(added), nodes, arrived0, finished)
      ensures KeptInWords(Queues(), old(nodes), added, nodes, arrived0, finished)
    {
      nodes := nodes + NewNodes(added);
      ghost var were := nodes;
      NewNodesOk(Queues(), old(nodes), added);
      FetchMissing(arrived0, finished);
      FetchKeeps(Queues(), were, nodes, arrived0, finished);
      FetchOverlooksNone(Queues(), were, nodes, arrived0, finished);
      KeptMeans(Queues(), old(nodes), added, nodes, arrived0, finished);
    }

    /** One poll.  A queue loses its node exactly if it had no header, front found it empty
        and its thread was then seen finished.  What is emitted is due and registered, in
        time order if every thread pushes in time order, and for each queue exactly what is
        popped, in push order.  And all of it is emitted: in every queue that keeps its node
        nothing is left that had arrived by the fetch and is due, or, after a stop at an
        unregistered id, due before the message it stopped at. */
    method Poll(added: seq<nat>, tsc: int, nrLogs: nat, finished: nat -> bool, arrived0: nat -> nat,
                arrived: (nat, nat) -> nat) returns (out: seq<Emitted>)
      requires Valid()
      requires forall i | 0 <= i < |added| :: added[i] < |queues| && added[i] !in QueueSet(nodes)
      requires forall i, j | 0 <= i < j < |added| :: added[i] != added[j]
      requires forall q, k :: arrived(q, k) >= arrived0(q)
      modifies this
      ensures Valid() && InFifoOrder(queues, out, old(popped), popped)
      ensures QueuesAscend(queues) ==> TimesAscend(out)
      ensures AllAdmitted(out, tsc, nrLogs)
      ensures KeptInWords(old(Queues()), old(nodes), added, nodes, arrived0, finished)
      ensures OthersUntouched(Queues(), nodes, old(popped))
      ensures forall q | q in QueueSet(nodes) :: EmittedUpTo(Queues(), Reach(nodes, tsc, nrLogs), q, arrived0)
      ensures QueuesAscend(queues) ==> NothingDueLeft(Queues(), nodes, Reach(nodes, tsc, nrLogs), arrived0)
      ensures DoneInWords(Queues(), nodes, tsc, nrLogs, arrived0)
    {
      TakeOver(added, finished, arrived0);
      out := [];
      NothingEmitted(queues, popped);
      if nodes == [] {
        return;
      }
      ghost var fetched := nodes;
      assert MergeFacts(Queues(), fetched, [], popped, arrived0);
      BuildHeap();
      SameQueues(nodes, fetched);
      FactsInAnyOrder(Queues(), fetched, nodes, [], popped, arrived0);
      out := Merge(tsc, nrLogs, arrived, arrived0);
      AllDueEmitted(Queues(), nodes, tsc, nrLogs, arrived0);
      DoneMeans(Queues(), nodes, tsc, nrLogs, arrived0);
      if QueuesAscend(queues) {
        HeadsSpeak(Queues(), nodes, Reach(nodes, tsc, nrLogs), arrived0);
      }
    }
  }

  lemma NewNodesOk(v: View, nodes: seq<Node>, added: seq<nat>)
    requires ViewOk(v) && NodesOk(v, nodes)
    requires forall i | 0 <= i < |added| :: added[i] < |v.queues| && added[i] !in QueueSet(nodes)
    requires forall i, j | 0 <= i < j < |added| :: added[i] != added[j]
    ensures NodesOk(v, nodes + NewNodes(added))
  {
    var all := nodes + NewNodes(added);
    forall i | 0 <= i < |all| ensures NodeOk(v, all[i]) {
      if i < |nodes| {
        assert NodeOk(v, nodes[i]);
      }
    }
    forall i, j | 0 <= i < j < |all| ensures all[i].queue != all[j].queue {
      if i < |nodes| {
        assert nodes[i] in nodes && nodes[i].queue in QueueSet(nodes);
      }
    }
  }

  // ------------------------------------------------------------ what a poll achieves

  /** The merge stopped at a message of an unregistered log id. */
  predicate Stopped(nodes: seq<Node>, tsc: int, nrLogs: nat) {
    nodes != [] && nodes[0].header.At? && nodes[0].header.msg.logId >= nrLogs && nodes[0].header.msg.time < tsc
  }

  /** Up to when everything has been emitted: tsc, or the message it stopped at. */
  function Reach(nodes: seq<Node>, tsc: int, nrLogs: nat): int {
    if Stopped(nodes, tsc, nrLogs) then nodes[0].header.msg.time else tsc
  }

  /** The first message left in the queue is not earlier than that, or nothing is left of
      what had arrived by the fetch. */
  predicate EmittedUpTo(v: View, reach: int, q: nat, arrived0: nat -> nat) {
    || Drained(v, q, arrived0(q))
    || (q < |v.queues| == |v.popped| && v.popped[q] < |v.queues[q]| && v.queues[q][v.popped[q]].time >= reach)
  }

  lemma AllDueEmitted(v: View, nodes: seq<Node>, tsc: int, nrLogs: nat, arrived0: nat -> nat)
    requires NodesOk(v, nodes) && nodes != [] && HeapFrom(nodes, 0) && NoneOverlooked(v, nodes, arrived0)
    requires nodes[0].header.Null? || nodes[0].header.msg.logId >= nrLogs || nodes[0].header.msg.time >= tsc
    ensures forall q | q in QueueSet(nodes) :: EmittedUpTo(v, Reach(nodes, tsc, nrLogs), q, arrived0)
  {
    forall q | q in QueueSet(nodes) ensures EmittedUpTo(v, Reach(nodes, tsc, nrLogs), q, arrived0) {
      var n :| n in nodes && n.queue == q;
      var i :| 0 <= i < |nodes| && nodes[i] == n;
      RootIsEarliest(nodes, i);
      assert NodeOk(v, nodes[i]);
    }
  }

  /** In plain words: in a queue with a node, unless what had arrived by the fetch or all of it
      has been popped, the next message is due at tsc or later, or not before the message of
      an unregistered id at which the merge stopped. */
  ghost predicate DoneInWords(v: View, nodes: seq<Node>, tsc: int, nrLogs: nat, arrived0: nat -> nat) {
    forall q | q in QueueSet(nodes) ::
      && q < |v.queues| == |v.popped| && v.popped[q] <= |v.queues[q]|
      && (|| v.popped[q] >= arrived0(q)
          || v.popped[q] == |v.queues[q]|
          || v.queues[q][v.popped[q]].time >= tsc
          || (&& nodes != [] && nodes[0].header.At? && nodes[0].header.msg.logId >= nrLogs
              && nodes[0].header.msg.time < tsc && v.queues[q][v.popped[q]].time >= nodes[0].header.msg.time))
  }

  lemma DoneMeans(v: View, nodes: seq<Node>, tsc: int, nrLogs: nat, arrived0: nat -> nat)
    requires ViewOk(v) && NodesOk(v, nodes)
    requires forall q | q in QueueSet(nodes) :: EmittedUpTo(v, Reach(nodes, tsc, nrLogs), q, arrived0)
    ensures DoneInWords(v, nodes, tsc, nrLogs, arrived0)
  {
    forall q | q in QueueSet(nodes) ensures EmittedUpTo(v, Reach(nodes, tsc, nrLogs), q, arrived0) && q < |v.queues| {
      var n :| n in nodes && n.queue == q;
      var i :| 0 <= i < |nodes| && nodes[i] == n;
      assert NodeOk(v, nodes[i]);
    }
  }

  /** No message left in a queue with a node had arrived by the fetch and is earlier. */
  ghost predicate NothingDueLeft(v: View, nodes: seq<Node>, reach: int, arrived0: nat -> nat) {
    forall q, k | q in QueueSet(nodes) && q < |v.queues| == |v.popped|
                  && v.popped[q] <= k < |v.queues[q]| && k < arrived0(q) ::
      v.queues[q][k].time >= reach
  }

  /** With the queues in time order the first message of each speaks for the rest. */
  lemma HeadsSpeak(v: View, nodes: seq<Node>, reach: int, arrived0: nat -> nat)
    requires QueuesAscend(v.queues)
    requires forall q | q in QueueSet(nodes) :: EmittedUpTo(v, reach, q, arrived0)
    ensures NothingDueLeft(v, nodes, reach, arrived0)
  {
    forall q, k | q in QueueSet(nodes) && q < |v.queues| == |v.popped|
                  && v.popped[q] <= k < |v.queues[q]| && k < arrived0(q)
      ensures v.queues[q][k].time >= reach
    {
      assert EmittedUpTo(v, reach, q, arrived0);
      assert v.queues[q][v.popped[q]].time <= v.queues[q][k].time;
    }
  }

  /** A dropped queue is not read again.  It loses messages exactly if its thread pushed some
      between the null front and the test that found it finished, and then just those. */
  lemma LossExactly(v: View, n: Node, arrived: nat -> nat, finished: nat -> bool)
    requires ViewOk(v) && NodeOk(v, n) && Dropped(v, n, arrived, finished)
    requires v.popped[n.queue] <= arrived(n.queue) <= |v.queues[n.queue]|
    ensures v.queues[n.queue][v.popped[n.queue]..] == v.queues[n.queue][arrived(n.queue)..]
    ensures v.queues[n.queue][v.popped[n.queue]..] != [] <==> arrived(n.queue) < |v.queues[n.queue]|
  {
  }

  /** Changing the root leaves the heap in order below it. */
  lemma HeapBelowRoot(a: seq<Node>, b: seq<Node>)
    requires HeapFrom(a, 0) && |a| == |b| && forall i | 0 < i < |a| :: a[i] == b[i]
    ensures HeapFrom(b, 1)
  {
    forall k | 0 < k < |b| && Parent(k) >= 1 ensures Ordered(b, k) {
      assert Ordered(a, k);
    }
  }

  /** Nodes of the same queues. */
  lemma SameQueueSet(a: seq<Node>, b: seq<Node>)
    requires |a| == |b| && forall i | 0 <= i < |a| :: a[i].queue == b[i].queue
    ensures QueueSet(a) == QueueSet(b)
  {
    forall n | n in a ensures n.queue in QueueSet(b) {
      var i :| 0 <= i < |a| && a[i] == n;
      assert b[i] in b;
    }
    forall n | n in b ensures n.queue in QueueSet(a) {
      var i :| 0 <= i < |b| && b[i] == n;
      assert a[i] in a;
    }
  }

  lemma NothingEmitted(queues: seq<seq<Message>>, popped: seq<nat>)
    requires |popped| == |queues| && forall q | 0 <= q < |queues| :: popped[q] <= |queues[q]|
    ensures InFifoOrder(queues, [], popped, popped)
  {
  }
}

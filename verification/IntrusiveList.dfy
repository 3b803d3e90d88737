/**
 The circular doubly linked list embedded in loggers, handlers and references.  A list is
 a head link and, in ghost form, the sequence of links on it.
 */
module IntrusiveList {

  /** A link with what it is embedded in.  It is live until its memory is freed; `home` is
      the head of the list it is on, or itself.  Pointers are read and written only here. */
  class Link<T> {
    var next: Link<T>
    var prev: Link<T>
    const item: T
    ghost var live: bool
    ghost var home: Link<T>

    /** lmk_init_list. */
    constructor (item: T)
      ensures this.item == item && home == this && Circle([this])
    {
      next, prev, this.item := this, this, item;
      live, home := true, this;
      new;
      assert Joined([this], 0);
    }

    method Next() returns (link: Link<T>)
      requires live
      ensures link == next
    {
      link := next;
    }

    method Prev() returns (link: Link<T>)
      requires live
      ensures link == prev
    {
      link := prev;
    }

    method SetNext(link: Link<T>)
      requires live
      modifies this`next
      ensures next == link
    {
      next := link;
    }

    method SetPrev(link: Link<T>)
      requires live
      modifies this`prev
      ensures prev == link
    {
      prev := link;
    }

    ghost method Free()
      requires live
      modifies this`live
      ensures !live
    {
      live := false;
    }
  }

  /** Position after i on a circle of n links. */
  function Succ(i: nat, n: nat): nat {
    if i + 1 < n then i + 1 else 0
  }

  /** The i-th link and the one after it point at each other. */
  ghost predicate Joined<T>(all: seq<Link<T>>, i: nat)
    requires i < |all|
    reads all
  {
    all[i].next == all[Succ(i, |all|)] && all[Succ(i, |all|)].prev == all[i]
  }

  ghost predicate Distinct<T>(all: seq<Link<T>>) {
    forall i, j | 0 <= i < j < |all| :: all[i] != all[j]
  }

  /** These links, head first, are live and form one circle: following next (or prev) from
      any of them visits all of them once and comes back. */
  ghost predicate Circle<T>(all: seq<Link<T>>)
    reads all
  {
    && |all| >= 1 && Distinct(all)
    && (forall i | 0 <= i < |all| :: Joined(all, i))
    && (forall i | 0 <= i < |all| :: all[i].live && all[i].home == all[0])
  }

  function Without<X>(nodes: seq<X>, i: nat): seq<X>
    requires i < |nodes|
  {
    nodes[..i] + nodes[i + 1..]
  }

  lemma DistinctAppend<T>(all: seq<Link<T>>, node: Link<T>)
    requires Distinct(all) && node !in all
    ensures Distinct(all + [node])
  {
  }

  lemma DistinctWithout<T>(all: seq<Link<T>>, k: nat)
    requires Distinct(all) && k < |all|
    ensures Distinct(Without(all, k)) && all[k] !in Without(all, k)
    ensures forall l | l in Without(all, k) :: l in all
  {
    var small := Without(all, k);
    forall i, j | 0 <= i < j < |small| ensures small[i] != small[j] {
      assert small[i] == all[if i < k then i else i + 1];
      assert small[j] == all[if j < k then j else j + 1];
    }
  }

  lemma WithoutBehind<X>(head: X, nodes: seq<X>, i: nat)
    requires i < |nodes|
    ensures [head] + Without(nodes, i) == Without([head] + nodes, i + 1)
  {
    assert ([head] + nodes)[i + 2..] == nodes[i + 1..];
    assert ([head] + nodes)[..i + 1] == [head] + nodes[..i];
  }

  /** Where the links of a shortened circle were. */
  lemma WithoutAt<T>(all: seq<Link<T>>, k: nat, i: nat)
    requires 0 < k < |all| && i < |all| - 1
    ensures |Without(all, k)| == |all| - 1
    ensures Without(all, k)[i] == all[if i < k then i else i + 1]
    ensures Without(all, k)[Succ(i, |all| - 1)]
         == if i == k - 1 then all[Succ(k, |all|)] else all[Succ(if i < k then i else i + 1, |all|)]
  {
  }

  ghost predicate Disjoint<T>(all: seq<Link<T>>, list: Link<T>, nodes: seq<Link<T>>) {
    && (forall a | 0 <= a < |all| :: all[a] != list)
    && (forall a, b | 0 <= a < |all| && 0 <= b < |nodes| :: all[a] != nodes[b])
  }

  /** Lists with different heads have no link in common. */
  lemma Apart<T>(all: seq<Link<T>>, list: Link<T>, nodes: seq<Link<T>>)
    requires Circle(all) && Circle([list] + nodes) && all[0] != list
    ensures Disjoint(all, list, nodes)
  {
    forall a | 0 <= a < |all| ensures all[a] != list {
      assert all[a].home == all[0] && ([list] + nodes)[0].home == list;
    }
    forall a, b | 0 <= a < |all| && 0 <= b < |nodes| ensures all[a] != nodes[b] {
      assert all[a].home == all[0] && ([list] + nodes)[b + 1].home == list;
    }
  }

  /** lmk_is_list_empty. */
  method IsEmpty<T>(list: Link<T>, ghost nodes: seq<Link<T>>) returns (empty: bool)
    requires Circle([list] + nodes)
    ensures empty <==> nodes == []
  {
    assert ([list] + nodes)[0] == list && Joined([list] + nodes, 0);
    var first := list.Next();
    empty := first == list;
  }

  /** lmk_insert_list: the new entry, so far alone, becomes the last one. */
  method Insert<T>(list: Link<T>, node: Link<T>, ghost nodes: seq<Link<T>>)
    requires Circle([list] + nodes) && Circle([node]) && node != list
    modifies list`next, list`prev, nodes`next, nodes`prev, node`next, node`prev, node`home
    ensures Circle([list] + (nodes + [node]))
  {
    ghost var all := [list] + nodes;
    ghost var n := |all|;
    assert all[0] == list && all[n - 1].live && Joined(all, n - 1);
    Apart([node], list, nodes);
    var last := list.Prev();
    node.SetPrev(last);
    node.SetNext(list);
    last.SetNext(node);
    list.SetPrev(node);
    node.home := list;
    ghost var big := all + [node];
    assert [list] + (nodes + [node]) == big;
    DistinctAppend(all, node);
    forall i | 0 <= i < n + 1 ensures Joined(big, i) {
      if i < n - 1 {
        assert old(Joined(all, i));
      }
    }
  }

  /** lmk_remove_list: unlink the i-th node; its own pointers are left as they are. */
  method Remove<T>(node: Link<T>, ghost list: Link<T>, ghost nodes: seq<Link<T>>, ghost i: nat)
    requires Circle([list] + nodes) && i < |nodes| && nodes[i] == node
    modifies list`next, list`prev, nodes`next, nodes`prev
    ensures Circle([list] + Without(nodes, i))
    ensures node.next == old(node.next) && node.prev == old(node.prev)
  {
    ghost var all := [list] + nodes;
    ghost var n, k := |all|, i + 1;
    assert Joined(all, i) && Joined(all, k) && all[i].live && all[Succ(k, n)].live && all[k] == node;
    var next := node.Next();
    if next != node {
      var prev := node.Prev();
      prev.SetNext(next);
      next.SetPrev(prev);
    }
    ghost var small := Without(all, k);
    WithoutBehind(list, nodes, i);
    DistinctWithout(all, k);
    forall m | 0 <= m < n - 1 ensures small[m].live && small[m].home == small[0] {
      WithoutAt(all, k, m);
      WithoutAt(all, k, 0);
    }
    forall m | 0 <= m < n - 1 ensures Joined(small, m) {
      WithoutAt(all, k, m);
      assert old(Joined(all, if m < k then m else m + 1));
    }
  }

  /** The first link of a list, and the way back from it. */
  lemma First<T>(list: Link<T>, nodes: seq<Link<T>>)
    requires Circle([list] + nodes)
    ensures list.live && list.home == list
    ensures list.next == if nodes == [] then list else nodes[0]
    ensures nodes != [] ==> nodes[0] != list && nodes[0].live && nodes[0].prev == list
  {
    var all := [list] + nodes;
    assert all[0] == list && Joined(all, 0);
    if nodes != [] {
      assert all[1] == nodes[0];
    }
  }

  /** lmk_get_list_size. */
  method Size<T>(list: Link<T>, ghost nodes: seq<Link<T>>) returns (size: nat)
    requires Circle([list] + nodes)
    ensures size == |nodes|
  {
    size := 0;
    ghost var all := [list] + nodes;
    First(list, nodes);
    var cursor := list.Next();
    while cursor != list
      invariant size <= |nodes| && cursor == all[Succ(size, |all|)]
      decreases |nodes| - size
    {
      size := size + 1;
      assert Joined(all, size);
      cursor := cursor.Next();
    }
  }

  /** Unlink the i-th node and free it. */
  method Discard<T>(node: Link<T>, ghost list: Link<T>, ghost nodes: seq<Link<T>>, ghost i: nat)
    requires Circle([list] + nodes) && i < |nodes| && nodes[i] == node
    modifies list`next, list`prev, nodes`next, nodes`prev, node`live
    ensures Circle([list] + Without(nodes, i)) && !node.live
    ensures forall l | l in Without(nodes, i) :: l in nodes
  {
    assert ([list] + nodes)[i + 1] == node;
    DistinctWithout([list] + nodes, i + 1);
    WithoutBehind(list, nodes, i);
    Remove(node, list, nodes, i);
    node.Free();
  }

  /** One turn of the loop below: the next cursor. */
  method DiscardAt<T>(cursor: Link<T>, ghost list: Link<T>, ghost nodes: seq<Link<T>>) returns (next: Link<T>)
    requires Circle([list] + nodes) && nodes != [] && nodes[0] == cursor
    modifies list`next, list`prev, nodes`next, nodes`prev, cursor`live
    ensures Circle([list] + nodes[1..]) && !cursor.live
    ensures next == if nodes[1..] == [] then list else nodes[1]
  {
    First(list, nodes);
    var saved := cursor.Prev();
    assert Without(nodes, 0) == nodes[1..];
    Discard(cursor, list, nodes, 0);
    First(list, nodes[1..]);
    next := saved.Next();
  }

  /** LMK_FOR_EACH_ENTRY with LMK_SAVE_CURSOR and LMK_RESTORE_CURSOR around a body that
      removes and frees the current node: every node is visited once, in order, all are
      freed, and nothing is read or written once it is freed. */
  method RemoveEach<T>(list: Link<T>, ghost nodes: seq<Link<T>>) returns (visited: seq<Link<T>>)
    requires Circle([list] + nodes)
    modifies list, nodes
    ensures visited == nodes && Circle([list])
    ensures forall i | 0 <= i < |nodes| :: !nodes[i].live
  {
    visited := [];
    ghost var k := 0;
    First(list, nodes);
    assert nodes[0..] == nodes;
    var cursor := list.Next();
    while cursor != list
      invariant 0 <= k <= |nodes| && visited == nodes[..k] && Circle([list] + nodes[k..])
      invariant forall i | 0 <= i < k :: !nodes[i].live
      invariant cursor == if k == |nodes| then list else nodes[k]
      decreases |nodes| - k
    {
      visited := visited + [cursor];
      assert nodes[k..][1..] == nodes[k + 1..];
      cursor := DiscardAt(cursor, list, nodes[k..]);
      k := k + 1;
    }
    First(list, nodes[k..]);
    assert [list] + nodes[k..] == [list];
  }
}

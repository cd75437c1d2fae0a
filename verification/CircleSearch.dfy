/**
 `dtNavMeshQuery::findPolysAroundCircle`: a Dijkstra search on the same pool and open list, reporting polygons
 as they are closed.
 */
module CircleSearch {
  import opened DetourNode
  import opened PathTree
  import opened PathSearch
  import opened PathFinder
  import NodeHeap

  /** The mesh, which neighbours lie across a portal within the circle, portal midpoints and travel costs. */
  datatype Area = Area(g: Graph, touches: (nat, nat) -> bool, move: (int, int, nat) -> nat, midpoint: (nat, nat) -> int,
                       start: nat, center: int)

  ghost predicate Steps(c: Area, a: nat, l: Link) { Follows(c.g, l) && c.touches(a, l.ref) }

  ghost predicate Hop(c: Area, a: nat, b: nat) {
    exists l | l in c.g.links(a) :: l.ref == b && Steps(c, a, l)
  }

  /** Reached from the start by hops that stay within the circle. */
  ghost predicate Walked(c: Area, p: seq<nat>) {
    p != [] && p[0] == c.start && forall i | 0 <= i < |p| - 1 :: Hop(c, p[i], p[i + 1])
  }

  ghost predicate Around(c: Area, ref: nat) {
    exists p: seq<nat> :: Walked(c, p) && p[|p| - 1] == ref
  }

  // ---- Invariant ----

  ghost predicate ClosedOnce(all: seq<Node>, n: nat, order: seq<nat>)
    requires n <= |all|
  {
    forall i: nat :: multiset(order)[i] == if i < n && all[i].closed then 1 else 0
  }

  /** `order` lists the closed nodes in the order they were closed, each once, by non-decreasing total. */
  ghost predicate OrderOk(s: State, order: seq<nat>) {
    && s.n <= |s.all| && (if order == [] then s.n == 1 else order[0] == 0)
    && ClosedOnce(s.all, s.n, order)
    && (forall k | 0 <= k < |order| :: order[k] < s.n)
    && (forall j, k | 0 <= j < k < |order| :: s.all[order[j]].total <= s.all[order[k]].total)
    && (order != [] ==> forall i | 0 <= i < s.n && s.all[i].open :: s.all[order[|order| - 1]].total <= s.all[i].total)
  }

  ghost function Leg(c: Area, a: Node, b: Node): nat { c.move(a.pos, b.pos, a.id) }

  /** `ref` has a node, and going there from node `i` would not be cheaper than its total. */
  ghost predicate Settled(c: Area, ns: seq<Node>, i: nat, ref: nat)
    requires i < |ns|
  {
    exists k :: 0 <= k < |ns| && ns[k].id == ref && ns[k].total <= ns[i].total + Leg(c, ns[i], ns[k])
  }

  /** Polygon `ref` has no node. */
  ghost predicate NoPoly(ns: seq<Node>, ref: nat) { forall k | 0 <= k < |ns| :: !Matches(ns[k], ref, 0) }

  /** Settled, or, once nodes have run out, without a node. */
  ghost predicate HopDone(c: Area, ns: seq<Node>, out: bool, i: nat, ref: nat)
    requires i < |ns|
  {
    Settled(c, ns, i, ref) || (out && NoPoly(ns, ref))
  }

  /** The polygons behind the first `j` links that stay within the circle are done. */
  ghost predicate Seen(c: Area, ns: seq<Node>, out: bool, i: nat, j: nat)
    requires i < |ns| && j <= |c.g.links(ns[i].id)|
  {
    forall m | 0 <= m < j && Steps(c, ns[i].id, c.g.links(ns[i].id)[m]) ::
      HopDone(c, ns, out, i, c.g.links(ns[i].id)[m].ref)
  }

  /** Some link within the circle leads to a polygon without a node. */
  ghost predicate ShortAt(c: Area, ns: seq<Node>, i: nat, l: Link) {
    i < |ns| && l in c.g.links(ns[i].id) && Steps(c, ns[i].id, l) && NoPoly(ns, l.ref)
  }

  ghost predicate Short(c: Area, ns: seq<Node>) { exists i: nat, l: Link :: ShortAt(c, ns, i, l) }

  /**
   The `k`-th closed node is the first that leads to node `i`, which lies in the middle of the portal between them.
   */
  ghost predicate FirstFrom(c: Area, ns: seq<Node>, order: seq<nat>, i: nat, k: nat) {
    && i < |ns| && k < |order| && (forall m | 0 <= m <= k :: order[m] < |ns|)
    && Hop(c, ns[order[k]].id, ns[i].id) && ns[i].pos == c.midpoint(ns[order[k]].id, ns[i].id)
    && (forall m | 0 <= m < k :: !Hop(c, ns[order[m]].id, ns[i].id))
  }

  ghost predicate Placed(c: Area, ns: seq<Node>, order: seq<nat>, i: nat) { exists k :: FirstFrom(c, ns, order, i, k) }

  ghost predicate AllPlaced(c: Area, ns: seq<Node>, order: seq<nat>) {
    forall i: nat | 0 < i < |ns| :: Placed(c, ns, order, i)
  }

  /** A node's total is that of its closed parent plus the leg between them. */
  ghost predicate FromParent(c: Area, ns: seq<Node>, i: nat)
    requires i < |ns|
  {
    && 1 <= ns[i].pidx <= |ns| && ns[ns[i].pidx - 1].closed && Hop(c, ns[ns[i].pidx - 1].id, ns[i].id)
    && ns[i].total == ns[ns[i].pidx - 1].total + Leg(c, ns[ns[i].pidx - 1], ns[i])
  }

  ghost predicate NodeOk(c: Area, ns: seq<Node>, i: nat)
    requires i < |ns|
  {
    && ns[i].open != ns[i].closed && ns[i].state == 0
    && if i == 0 then ns[i].pidx == 0 else FromParent(c, ns, i)
  }

  ghost predicate NodesOk(c: Area, ns: seq<Node>) {
    ns != [] && ns[0].id == c.start && ns[0].total == 0 && ns[0].pos == c.center && forall i | 0 <= i < |ns| ::
        NodeOk(c, ns, i)
  }

  ghost predicate Explored(c: Area, ns: seq<Node>, out: bool, current: int) {
    forall i | 0 <= i < |ns| && ns[i].closed && i != current :: Seen(c, ns, out, i, |c.g.links(ns[i].id)|)
  }

  ghost predicate CInv(c: Area, s: State, order: seq<nat>, current: int) {
    && s.n <= |s.all| && OpenOk(s) && OrderOk(s, order)
    && NodesOk(c, Live(s)) && Explored(c, Live(s), s.out, current)
    && (s.out ==> s.n == |s.all| && Short(c, Live(s))) && AllPlaced(c, Live(s), order)
  }

  // ---- Steps ----

  /** Ids and positions stay, totals only fall, and closed nodes do not change; at most `x` gets closed. */
  ghost predicate Evolves(ns: seq<Node>, ns': seq<Node>, x: int) {
    && |ns| <= |ns'| && (forall i | |ns| <= i < |ns'| :: !ns'[i].closed)
    && (forall i | 0 <= i < |ns| ::
          ns'[i].id == ns[i].id && ns'[i].state == ns[i].state && ns'[i].pos == ns[i].pos
              && ns'[i].total <= ns[i].total)
    && (forall i | 0 <= i < |ns| && ns[i].closed :: ns'[i] == ns[i])
    && (forall i | 0 <= i < |ns| && ns'[i].closed && i != x :: ns[i].closed)
  }

  lemma SettledStays(c: Area, ns: seq<Node>, ns': seq<Node>, x: int, i: nat, ref: nat)
    requires Evolves(ns, ns', x) && i < |ns| && ns[i].closed && Settled(c, ns, i, ref)
    ensures Settled(c, ns', i, ref)
  {
    var k :| 0 <= k < |ns| && ns[k].id == ref && ns[k].total <= ns[i].total + Leg(c, ns[i], ns[k]);
    assert ns'[k].id == ref;
  }

  lemma HopDoneStays(c: Area, ns: seq<Node>, ns': seq<Node>, out: bool, out': bool, x: int, i: nat, ref: nat)
    requires Evolves(ns, ns', x) && i < |ns| && ns[i].closed && (out ==> out' && |ns'| == |ns|)
    requires HopDone(c, ns, out, i, ref)
    ensures HopDone(c, ns', out', i, ref)
  {
    hide Settled;
    if Settled(c, ns, i, ref) { SettledStays(c, ns, ns', x, i, ref); }
  }

  lemma SeenStays(c: Area, ns: seq<Node>, ns': seq<Node>, out: bool, out': bool, x: int, i: nat, j: nat)
    requires Evolves(ns, ns', x) && i < |ns| && ns[i].closed && (out ==> out' && |ns'| == |ns|)
    requires j <= |c.g.links(ns[i].id)| && Seen(c, ns, out, i, j)
    ensures Seen(c, ns', out', i, j)
  {
    hide HopDone;
    forall m | 0 <= m < j && Steps(c, ns[i].id, c.g.links(ns[i].id)[m])
      ensures HopDone(c, ns', out', i, c.g.links(ns[i].id)[m].ref)
    {
      HopDoneStays(c, ns, ns', out, out', x, i, c.g.links(ns[i].id)[m].ref);
    }
  }

  lemma ExploredStays(c: Area, ns: seq<Node>, ns': seq<Node>, out: bool, out': bool, x: int)
    requires Explored(c, ns, out, x) && Evolves(ns, ns', x) && (out ==> out' && |ns'| == |ns|)
    ensures Explored(c, ns', out', x)
  {
    hide Seen;
    forall i | 0 <= i < |ns'| && ns'[i].closed && i != x ensures Seen(c, ns', out', i, |c.g.links(ns'[i].id)|) {
      SeenStays(c, ns, ns', out, out', x, i, |c.g.links(ns[i].id)|);
    }
  }

  lemma ShortStays(c: Area, ns: seq<Node>, ns': seq<Node>, x: int)
    requires Evolves(ns, ns', x) && |ns'| == |ns| && Short(c, ns)
    ensures Short(c, ns')
  {
    var i: nat, l: Link :| ShortAt(c, ns, i, l);
    assert ShortAt(c, ns', i, l);
  }

  /** What relaxing one link of the node being expanded may do. */
  ghost predicate CRelaxed(c: Area, s: State, s': State, order: seq<nat>, best: nat, l: Link) {
    && CInv(c, s', order, best) && |s'.all| == |s.all| && best < s.n <= |s.all|
    && Evolves(Live(s), Live(s'), best) && s.all[best].closed && (s.out ==> s'.out)
    && (Steps(c, s.all[best].id, l) ==> HopDone(c, Live(s'), s'.out, best, l.ref))
  }

  lemma CSkips(c: Area, s: State, order: seq<nat>, best: nat, l: Link)
    requires CInv(c, s, order, best) && best < s.n && s.all[best].closed
    requires (Steps(c, s.all[best].id, l) ==> Settled(c, Live(s), best, l.ref))
    ensures CRelaxed(c, s, s, order, best, l)
  {
  }

  /** A polygon that gets no node because the pool is full is remembered. */
  lemma CRunsOut(c: Area, s: State, order: seq<nat>, best: nat, l: Link)
    requires CInv(c, s, order, best) && best < s.n == |s.all| && s.all[best].closed
    requires l in c.g.links(s.all[best].id) && Steps(c, s.all[best].id, l) && NoPoly(Live(s), l.ref)
    ensures CRelaxed(c, s, s.(out := true), order, best, l)
  {
    hide OpenOk, NodesOk, Explored, Settled;
    assert Live(s.(out := true)) == Live(s);
    assert ShortAt(c, Live(s), best, l);
    ExploredStays(c, Live(s), Live(s), s.out, true, best);
    OpenAnyOut(s);
  }

  lemma OpenAnyOut(s: State)
    requires OpenOk(s)
    ensures OpenOk(s.(out := true))
  {
  }

  /** A node closed before `best` is no dearer than `best`. */
  lemma ClosedSettled(c: Area, s: State, order: seq<nat>, best: nat, x: nat)
    requires CInv(c, s, order, best) && order != [] && order[|order| - 1] == best && x < s.n && s.all[x].closed
    ensures best < s.n && Settled(c, Live(s), best, s.all[x].id)
  {
    InOrder(s, order, x);
    assert Live(s)[x].id == s.all[x].id;
  }

  /** Storing an open node at or above the total of the last closed one keeps the order. */
  lemma OrderStores(s: State, order: seq<nat>, x: nat, node: Node, n': nat, h: seq<nat>)
    requires OrderOk(s, order) && order != [] && x < |s.all| && x <= s.n <= n'
    requires n' == (if x < s.n then s.n else s.n + 1)
    requires x < s.n ==> !s.all[x].closed
    requires node.open && !node.closed && s.all[order[|order| - 1]].total <= node.total
    ensures OrderOk(State(s.all[x := node], n', h, s.out), order)
  {
    NotInOrder(s, order, x);
  }

  /** Where a polygon lies is settled when it gets its node. */
  lemma PlacedStays(c: Area, ns: seq<Node>, ns': seq<Node>, order: seq<nat>, order': seq<nat>)
    requires AllPlaced(c, ns, order) && |ns| <= |ns'| && order <= order'
    requires forall i | 0 <= i < |ns| :: ns'[i].id == ns[i].id && ns'[i].pos == ns[i].pos
    requires forall i: nat | |ns| <= i < |ns'| :: Placed(c, ns', order', i)
    ensures AllPlaced(c, ns', order')
  {
    hide Hop;
    forall i: nat | 0 < i < |ns'| ensures Placed(c, ns', order', i) {
      if i < |ns| {
        assert Placed(c, ns, order, i);
        var k :| FirstFrom(c, ns, order, i, k);
        assert FirstFrom(c, ns', order', i, k);
      }
    }
  }

  /** As long as there is room, no polygon expanded before leads to one that has no node. */
  lemma NoEarlierHop(c: Area, s: State, order: seq<nat>, best: nat, ref: nat, m: nat)
    requires CInv(c, s, order, best) && s.n < |s.all| && NoPoly(Live(s), ref)
    requires order != [] && order[|order| - 1] == best && m < |order| - 1
    requires forall i | 0 <= i < s.n :: s.all[i].state == 0
    ensures order[m] < s.n && !Hop(c, s.all[order[m]].id, ref)
  {
    hide OpenOk, NodesOk, AllPlaced;
    var x := order[m];
    InOrder(s, order, x);
    if x == best { Once(order, m, |order| - 1); }
    assert Live(s)[x] == s.all[x] && Seen(c, Live(s), s.out, x, |c.g.links(s.all[x].id)|);
  }

  /** The node being expanded is the first that leads to a polygon without a node. */
  lemma NewPlaced(c: Area, s: State, order: seq<nat>, best: nat, node: Node)
    requires CInv(c, s, order, best) && best < s.n < |s.all| && NoPoly(Live(s), node.id)
    requires order != [] && order[|order| - 1] == best && Hop(c, s.all[best].id, node.id)
    requires node.pos == c.midpoint(s.all[best].id, node.id)
    requires forall i | 0 <= i < s.n :: s.all[i].state == 0
    ensures AllPlaced(c, Live(s) + [node], order)
  {
    hide OpenOk, NodesOk, Explored, Hop, NoPoly;
    var ns := Live(s) + [node];
    var last := |order| - 1;
    forall m | 0 <= m < last ensures order[m] < s.n && !Hop(c, s.all[order[m]].id, node.id) {
      NoEarlierHop(c, s, order, best, node.id, m);
    }
    assert FirstFrom(c, ns, order, s.n, last);
    PlacedStays(c, Live(s), ns, order, order);
  }

  /** Adding, rewriting or closing one node that is not closed. */
  lemma NodesStore(c: Area, ns: seq<Node>, ns': seq<Node>, x: nat)
    requires NodesOk(c, ns) && if x < |ns| then |ns'| == |ns| && !ns[x].closed else x == |ns| == |ns'| - 1
    requires forall i | 0 <= i < |ns| ::
               ns'[i].id == ns[i].id && ns'[i].pos == ns[i].pos && (i != x ==> ns'[i] == ns[i])
    requires x == 0 ==> ns'[x].total == 0
    requires NodeOk(c, ns', x)
    ensures NodesOk(c, ns')
  {
    hide Hop;
    forall i: nat | i < |ns'| ensures NodeOk(c, ns', i) {
      if i != x {
        assert NodeOk(c, ns, i);
        if i > 0 { assert ns'[ns[i].pidx - 1] == ns[ns[i].pidx - 1]; }
      }
    }
  }

  lemma NodesAt(c: Area, ns: seq<Node>, i: nat)
    requires NodesOk(c, ns) && i < |ns|
    ensures NodeOk(c, ns, i) && (i == 0 ==> ns[i].total == 0)
  {
  }

  lemma HeapInBounds(s: State)
    requires OpenOk(s)
    ensures forall i | 0 <= i < |s.heap| :: s.heap[i] < |s.all|
  {
  }

  lemma AllStates(c: Area, s: State, order: seq<nat>, best: nat)
    requires CInv(c, s, order, best)
    ensures forall i | 0 <= i < s.n <= |s.all| :: s.all[i].state == 0
  {
    forall i | 0 <= i < s.n ensures s.all[i].state == 0 { NodesAt(c, Live(s), i); }
  }

  /** Adding a node seen for the first time. */
  lemma CAdds(c: Area, s: State, order: seq<nat>, best: nat, l: Link, node: Node)
    requires CInv(c, s, order, best) && best < s.n < |s.all| && l in c.g.links(s.all[best].id)
    requires Steps(c, s.all[best].id, l)
    requires order != [] && order[|order| - 1] == best
    requires s.all[best].closed && node.pidx == best + 1 && node.pos == c.midpoint(s.all[best].id, l.ref)
    requires node.id == l.ref && node.state == 0 && node.open && !node.closed && NoPoly(Live(s), l.ref)
    requires node.total == s.all[best].total + Leg(c, s.all[best], node)
    ensures var all' := s.all[s.n := node];
            CRelaxed(c, s, State(all', s.n + 1, NodeHeap.Push(Keys(all'), s.heap, s.n), s.out), order, best, l)
  {
    hide OpenOk, OrderOk, NodesOk, Explored, AllPlaced, NodeHeap.Push;
    HeapInBounds(s);
    AllStates(c, s, order, best);
    var all' := s.all[s.n := node];
    var s' := State(all', s.n + 1, NodeHeap.Push(Keys(all'), s.heap, s.n), s.out);
    assert Live(s') == Live(s) + [node];
    OpenPushes(s, s.n, node);
    OrderStores(s, order, s.n, node, s.n + 1, s'.heap);
    assert Hop(c, s.all[best].id, l.ref);
    NewPlaced(c, s, order, best, node);
    assert Live(s')[best] == s.all[best] && FromParent(c, Live(s'), s.n);
    NodesStore(c, Live(s), Live(s'), s.n);
    ExploredStays(c, Live(s), Live(s'), s.out, s.out, best);
    assert Live(s')[s.n].id == l.ref;
  }

  /** A cheaper way to an open node. */
  lemma CDecreases(c: Area, s: State, order: seq<nat>, best: nat, l: Link, i: nat, node: Node)
    requires CInv(c, s, order, best) && best < s.n && i < |s.heap| && s.heap[i] < s.n && s.all[s.heap[i]].open
    requires order != [] && order[|order| - 1] == best && s.all[best].closed
    requires l in c.g.links(s.all[best].id) && Steps(c, s.all[best].id, l)
    requires node == s.all[s.heap[i]].(pidx := best + 1, total := node.total) && node.id == l.ref
    requires node.total == s.all[best].total + Leg(c, s.all[best], node) < s.all[s.heap[i]].total
    ensures var all' := s.all[s.heap[i] := node];
            CRelaxed(c, s, s.(all := all', heap := NodeHeap.Rise(Keys(all'), s.heap, i, s.heap[i])), order, best, l)
  {
    hide OpenOk, OrderOk, NodesOk, Explored, AllPlaced, NodeHeap.Rise;
    HeapInBounds(s);
    var x := s.heap[i];
    var all' := s.all[x := node];
    var s' := s.(all := all', heap := NodeHeap.Rise(Keys(all'), s.heap, i, x));
    assert Live(s') == Live(s)[x := node];
    NodesAt(c, Live(s), x);
    OpenModifies(s, i, node);
    OrderStores(s, order, x, node, s.n, s'.heap);
    assert Hop(c, s.all[best].id, l.ref) && Live(s')[best] == s.all[best] && FromParent(c, Live(s'), x);
    NodesStore(c, Live(s), Live(s'), x);
    PlacedStays(c, Live(s), Live(s'), order, order);
    ExploredStays(c, Live(s), Live(s'), s.out, s.out, best);
    if s.out { ShortStays(c, Live(s), Live(s'), best); }
    assert Live(s')[x].id == l.ref;
  }

  /** Closing the cheapest open node appends it to the order. */
  lemma CPops(c: Area, s: State, order: seq<nat>, node: Node)
    requires CInv(c, s, order, -1) && s.heap != [] && node == s.all[s.heap[0]].(open := false, closed := true)
    ensures var s' := s.(all := s.all[s.heap[0] := node], heap := NodeHeap.Pop(Keys(s.all), s.heap));
            CInv(c, s', order + [s.heap[0]], s.heap[0]) && s.heap[0] < s.n
  {
    hide OrderOk, NodesOk, Explored, AllPlaced, NodeHeap.Pop;
    OpenPops(s, node);
    var x := s.heap[0];
    var s' := s.(all := s.all[x := node], heap := NodeHeap.Pop(Keys(s.all), s.heap));
    assert Live(s') == Live(s)[x := node];
    forall i: nat | i < s.n ensures s.all[i].open != s.all[i].closed {
      NodesAt(c, Live(s), i);
    }
    OrderPops(s, order, node);
    NodesAt(c, Live(s), x);
    NodesStore(c, Live(s), Live(s'), x);
    PlacedStays(c, Live(s), Live(s'), order, order + [x]);
    ExploredLess(c, Live(s), s.out, x);
    ExploredStays(c, Live(s), Live(s'), s.out, s.out, x);
    if s.out { ShortStays(c, Live(s), Live(s'), x); }
  }

  lemma ExploredLess(c: Area, ns: seq<Node>, out: bool, current: int)
    requires Explored(c, ns, out, -1)
    ensures Explored(c, ns, out, current)
  {
  }

  lemma OrderPops(s: State, order: seq<nat>, node: Node)
    requires OpenOk(s) && OrderOk(s, order) && s.heap != [] && node == s.all[s.heap[0]].(open := false, closed := true)
    requires forall i | 0 <= i < s.n :: s.all[i].open != s.all[i].closed
    ensures s.heap[0] < |s.all|
    ensures OrderOk(s.(all := s.all[s.heap[0] := node], heap := NodeHeap.Pop(Keys(s.all), s.heap)), order + [s.heap[0]])
  {
    hide NodeHeap.Pop, OpenOk, ClosedOnce;
    var x := s.heap[0];
    TopIsLeast(s);
    NotInOrder(s, order, x);
    ClosesOnce(s.all, s.n, order, x, node);
  }

  lemma ClosesOnce(all: seq<Node>, n: nat, order: seq<nat>, x: nat, node: Node)
    requires n <= |all| && ClosedOnce(all, n, order) && x < n && !all[x].closed && node.closed
    ensures ClosedOnce(all[x := node], n, order + [x])
  {
    assert multiset(order + [x]) == multiset(order) + multiset{x};
  }

  lemma NotInOrder(s: State, order: seq<nat>, x: nat)
    requires OrderOk(s, order) && (x < s.n ==> !s.all[x].closed)
    ensures forall k | 0 <= k < |order| :: order[k] != x
  {
    forall k | 0 <= k < |order| ensures order[k] != x {
      assert order[k] in multiset(order);
      assert multiset(order)[order[k]] > 0;
    }
  }

  /** After all links, the node being expanded is explored. */
  lemma CFinishes(c: Area, s: State, order: seq<nat>, best: nat)
    requires CInv(c, s, order, best) && best < s.n
    requires Seen(c, Live(s), s.out, best, |c.g.links(s.all[best].id)|)
    ensures CInv(c, s, order, -1)
  {
  }

  // ---- Expanding one node ----

  ghost predicate CExpanding(c: Area, s0: State, s: State, order: seq<nat>, best: nat, j: nat) {
    && CInv(c, s, order, best) && |s.all| == |s0.all| && best < s0.n <= s.n && s0.n <= |s0.all|
    && j <= |c.g.links(s0.all[best].id)| && s0.all[best].closed
    && Evolves(Live(s0), Live(s), best) && Seen(c, Live(s), s.out, best, j)
  }

  lemma CStarts(c: Area, s: State, order: seq<nat>, best: nat)
    requires CInv(c, s, order, best) && best < s.n && s.all[best].closed
    ensures CExpanding(c, s, s, order, best, 0)
  {
  }

  lemma CKeeps(c: Area, s0: State, s: State, order: seq<nat>, best: nat, j: nat, ref: nat)
    requires CExpanding(c, s0, s, order, best, j)
    ensures CInv(c, s, order, best) && best < s0.n <= s.n <= |s.all| && s0.n <= |s0.all| && s.all[best] == s0.all[best]
    ensures s.all[best].closed && (Settled(c, Live(s0), best, ref) ==> Settled(c, Live(s), best, ref))
  {
    if Settled(c, Live(s0), best, ref) { SettledStays(c, Live(s0), Live(s), best, best, ref); }
  }

  lemma CStep(c: Area, s0: State, s: State, s': State, order: seq<nat>, best: nat, j: nat)
    requires CExpanding(c, s0, s, order, best, j) && j < |c.g.links(s0.all[best].id)|
    requires CRelaxed(c, s, s', order, best, c.g.links(s0.all[best].id)[j])
    ensures CExpanding(c, s0, s', order, best, j + 1)
  {
    hide CInv, HopDone;
    CStepSizes(c, s', order, best);
    CStepSizes(c, s, order, best);
    SeenStays(c, Live(s), Live(s'), s.out, s'.out, best, best, j);
  }

  lemma CShort(c: Area, s: State, order: seq<nat>, current: int)
    requires CInv(c, s, order, current)
    ensures s.n <= |s.all| && (s.out ==> s.n == |s.all| && Short(c, Live(s)))
  {
  }

  lemma CStepSizes(c: Area, s: State, order: seq<nat>, current: int)
    requires CInv(c, s, order, current)
    ensures s.n <= |s.all| && (s.out ==> s.n == |s.all|)
  {
  }

  // ---- Results ----

  /** What is reported for a closed node. */
  datatype Found = Found(ref: nat, parent: nat, cost: nat)

  ghost function Report(all: seq<Node>, x: nat): Found
    requires x < |all|
  {
    Found(all[x].id, if 1 <= all[x].pidx <= |all| then all[all[x].pidx - 1].id else 0, all[x].total)
  }

  /** `y` is among the first `k` entries. */
  ghost predicate Earlier(order: seq<nat>, k: nat, y: int)
    requires k <= |order|
  {
    exists j: nat :: j < k && order[j] == y
  }

  /** The reports match the closed nodes, and a node's parent was closed before it. */
  ghost predicate ReportOk(all: seq<Node>, order: seq<nat>, full: seq<Found>) {
    && |full| == |order| && (forall k | 0 <= k < |order| :: order[k] < |all| && full[k] == Report(all, order[k]))
    && (forall k | 0 < k < |order| :: Earlier(order, k, all[order[k]].pidx - 1))
  }

  /** Closed nodes and ids never change, so neither do the reports. */
  lemma ReportStays(c: Area, s0: State, s: State, order: seq<nat>, best: nat, j: nat, full: seq<Found>)
    requires CExpanding(c, s0, s, order, best, j) && CInv(c, s0, order, best) && ReportOk(s0.all, order, full)
    ensures ReportOk(s.all, order, full)
  {
    hide CInv, CExpanding, Report, Earlier;
    forall k | 0 <= k < |order|
      ensures order[k] < |s.all| && s.all[order[k]] == s0.all[order[k]]
      ensures Report(s.all, order[k]) == Report(s0.all, order[k])
    {
      ClosedStays(c, s0, s, order, best, j, k);
    }
  }

  lemma ClosedStays(c: Area, s0: State, s: State, order: seq<nat>, best: nat, j: nat, k: nat)
    requires CExpanding(c, s0, s, order, best, j) && CInv(c, s0, order, best) && k < |order|
    ensures order[k] < s0.n <= |s.all| == |s0.all| && s.all[order[k]] == s0.all[order[k]]
    ensures Report(s.all, order[k]) == Report(s0.all, order[k])
  {
    hide Explored, OpenOk, NodesOk;
    var x := order[k];
    InOrder(s0, order, x);
    NodesAt(c, Live(s0), x);
    assert Live(s)[x] == Live(s0)[x];
    if x > 0 { assert Live(s)[s.all[x].pidx - 1].id == Live(s0)[s.all[x].pidx - 1].id; }
  }

  lemma InOrder(s: State, order: seq<nat>, x: nat)
    requires OrderOk(s, order)
    ensures x in order <==> x < s.n && s.all[x].closed
  {
    assert x in order <==> x in multiset(order);
    assert multiset(order)[x] == if x < s.n && s.all[x].closed then 1 else 0;
  }

  /** Closing a node appends its report. */
  lemma ReportGrows(c: Area, s: State, all': seq<Node>, order: seq<nat>, x: nat, full: seq<Found>)
    requires CInv(c, s, order, -1) && ReportOk(s.all, order, full) && x < s.n && s.all[x].open
    requires all' == s.all[x := s.all[x].(open := false, closed := true)]
    ensures ReportOk(all', order + [x], full + [Report(all', x)])
  {
    hide CInv, Report, Earlier;
    ParentClosed(c, s, order, x);
    var order', full' := order + [x], full + [Report(all', x)];
    forall k | 0 <= k < |order'| ensures order'[k] < |all'| && full'[k] == Report(all', order'[k]) {
      if k < |order| { SameReport(s.all, all', x, order[k]); }
    }
    forall k | 0 < k < |order'| ensures Earlier(order', k, all'[order'[k]].pidx - 1) {
      assert k < |order| ==> order'[k] == order[k] != x;
      assert Earlier(order, k, s.all[order'[k]].pidx - 1);
      EarlierGrows(order, k, x, s.all[order'[k]].pidx - 1);
    }
    assert ReportOk(all', order', full');
  }

  lemma EarlierGrows(order: seq<nat>, k: nat, x: nat, y: int)
    requires k <= |order| && Earlier(order, k, y)
    ensures Earlier(order + [x], k, y)
  {
    var j: nat :| j < k && order[j] == y;
    assert (order + [x])[j] == y;
  }

  lemma SameReport(all: seq<Node>, all': seq<Node>, x: nat, y: nat)
    requires x < |all| && y < |all| && x != y && all' == all[x := all[x].(open := false, closed := true)]
    ensures Report(all', y) == Report(all, y)
  {
  }

  lemma ParentClosed(c: Area, s: State, order: seq<nat>, x: nat)
    requires CInv(c, s, order, -1) && x < s.n && s.all[x].open
    ensures s.n <= |s.all| && forall k | 0 <= k < |order| :: order[k] != x
    ensures order != [] ==> Earlier(order, |order|, s.all[x].pidx - 1)
  {
    hide OpenOk, Explored, NodesOk, Hop, AllPlaced;
    NodesAt(c, Live(s), x);
    NotInOrder(s, order, x);
    if order != [] {
      InOrder(s, order, s.all[x].pidx - 1);
      var j: nat :| j < |order| && order[j] == s.all[x].pidx - 1;
    }
  }

  /** Where the search placed each polygon. */
  ghost function Places(ns: seq<Node>): map<nat, int> {
    if ns == [] then map[] else Places(ns[..|ns| - 1])[ns[|ns| - 1].id := ns[|ns| - 1].pos]
  }

  lemma {:induction false} PlacesAt(ns: seq<Node>, i: nat)
    requires i < |ns| && forall j | i < j < |ns| :: ns[j].id != ns[i].id
    ensures ns[i].id in Places(ns) && Places(ns)[ns[i].id] == ns[i].pos
  {
    if i < |ns| - 1 {
      assert ns[|ns| - 1].id != ns[i].id;
      PlacesAt(ns[..|ns| - 1], i);
    }
  }

  ghost function Between(c: Area, at: map<nat, int>, a: nat, b: nat): nat {
    if a in at && b in at then c.move(at[a], at[b], a) else 0
  }

  ghost function WalkCost(c: Area, at: map<nat, int>, p: seq<nat>): nat {
    if |p| <= 1 then 0 else WalkCost(c, at, p[..|p| - 1]) + Between(c, at, p[|p| - 2], p[|p| - 1])
  }

  /** Result `k` is one hop, and the cost of that hop, beyond an earlier result: its parent. */
  ghost predicate Continues(c: Area, at: map<nat, int>, full: seq<Found>, j: nat, k: nat)
    requires j < |full| && k < |full|
  {
    && full[j].ref == full[k].parent && Hop(c, full[j].ref, full[k].ref)
    && full[k].cost == full[j].cost + Between(c, at, full[j].ref, full[k].ref)
  }

  ghost predicate Derived(c: Area, at: map<nat, int>, full: seq<Found>, k: nat)
    requires k < |full|
  {
    exists j: nat :: j < k && Continues(c, at, full, j, k)
  }

  /** Result `j` is the first that leads to `ref`, and `pos` is the middle of the portal between them. */
  ghost predicate LiesFrom(c: Area, full: seq<Found>, ref: nat, pos: int, j: nat) {
    && j < |full| && Hop(c, full[j].ref, ref) && pos == c.midpoint(full[j].ref, ref)
    && forall m | 0 <= m < j :: !Hop(c, full[m].ref, ref)
  }

  ghost predicate Lies(c: Area, full: seq<Found>, ref: nat, pos: int) { exists j :: LiesFrom(c, full, ref, pos, j) }

  /** Every polygon at most once, by non-decreasing cost, each but the start following on from its parent. */
  ghost predicate Results(c: Area, full: seq<Found>, at: map<nat, int>) {
    && full != [] && full[0] == Found(c.start, 0, 0) && c.start in at && at[c.start] == c.center
    && (forall j, k | 0 <= j < k < |full| :: full[j].ref != full[k].ref && full[j].cost <= full[k].cost)
    && (forall k | 0 < k < |full| :: full[k].ref in at && Lies(c, full, full[k].ref, at[full[k].ref]))
    && (forall k | 0 < k < |full| :: Derived(c, at, full, k))
  }

  /** Polygon `b` is reported, at no more than the cost of getting there from result `i`. */
  ghost predicate ReportedFrom(c: Area, full: seq<Found>, at: map<nat, int>, i: nat, b: nat)
    requires i < |full|
  {
    exists k :: 0 <= k < |full| && full[k].ref == b && full[k].cost <= full[i].cost + Between(c, at, full[i].ref, b)
  }

  /**
   No hop from a result leads to a polygon that is not reported, or that it would reach at a lower cost; except, once
   nodes have run out, to a polygon that got none.
   */
  ghost predicate Complete(c: Area, full: seq<Found>, at: map<nat, int>, ns: seq<Node>, out: bool) {
    forall i: nat, b: nat | i < |full| && Hop(c, full[i].ref, b) ::
      ReportedFrom(c, full, at, i, b) || (out && NoPoly(ns, b))
  }

  /** The results as nodes: each closed once, its parent closed before it. */
  lemma ResultNodes(c: Area, s: State, order: seq<nat>, full: seq<Found>, k: nat)
    requires CInv(c, s, order, -1) && ReportOk(s.all, order, full) && Distinct(s.all, s.n) && k < |order|
    ensures order[k] < s.n && s.all[order[k]].closed && NodeOk(c, Live(s), order[k]) && (k > 0 ==> order[k] > 0)
    ensures full[k].ref == s.all[order[k]].id && full[k].cost == s.all[order[k]].total
    ensures full[k].ref in Places(Live(s)) && Places(Live(s))[full[k].ref] == s.all[order[k]].pos
  {
    hide NodeOk, OpenOk;
    var x := order[k];
    InOrder(s, order, x);
    NodesAt(c, Live(s), x);
    if k > 0 && x == 0 { Once(order, 0, k); }
    forall j | x < j < s.n ensures Live(s)[j].id != Live(s)[x].id {
      NodesState(c, Live(s), x);
      NodesState(c, Live(s), j);
      assert !Matches(s.all[j], s.all[x].id, s.all[x].state);
    }
    PlacesAt(Live(s), x);
  }

  lemma NodesState(c: Area, ns: seq<Node>, i: nat)
    requires NodesOk(c, ns) && i < |ns|
    ensures ns[i].state == 0
  {
    assert NodeOk(c, ns, i);
  }

  lemma Once(order: seq<nat>, j: nat, k: nat)
    requires j < k < |order| && order[j] == order[k]
    ensures multiset(order)[order[j]] >= 2
  {
    assert order == order[..k] + [order[k]] + order[k + 1..];
    assert order[..k][j] == order[j] && order[j] in multiset(order[..k]);
  }

  lemma ResultsOk(c: Area, s: State, order: seq<nat>, full: seq<Found>)
    requires CInv(c, s, order, -1) && ReportOk(s.all, order, full) && Distinct(s.all, s.n) && order != []
    ensures Results(c, full, Places(Live(s)))
  {
    hide Places, CInv, Distinct, FromParent, Lies, Hop, Derived;
    StartFirst(c, s, order);
    var at := Places(Live(s));
    forall k: nat | k < |full|
      ensures order[k] < s.n && full[k].ref in at
      ensures (k > 0 ==> Lies(c, full, full[k].ref, at[full[k].ref]) && Derived(c, at, full, k))
    {
      ResultNodes(c, s, order, full, k);
      if k > 0 {
        ResultDerived(c, s, order, full, k);
        ResultLies(c, s, order, full, k);
      }
    }
    forall j: nat, k: nat | j < k < |full| ensures full[j].ref != full[k].ref && full[j].cost <= full[k].cost {
      ResultsOrdered(c, s, order, full, j, k);
    }
    ResultNodes(c, s, order, full, 0);
  }

  lemma ResultLies(c: Area, s: State, order: seq<nat>, full: seq<Found>, k: nat)
    requires CInv(c, s, order, -1) && ReportOk(s.all, order, full) && Distinct(s.all, s.n) && 0 < k < |order|
    ensures order[k] < s.n && Lies(c, full, full[k].ref, s.all[order[k]].pos)
  {
    hide OpenOk, Explored, NodesOk, OrderOk, Distinct, Hop;
    ResultNodes(c, s, order, full, k);
    var ns := Live(s);
    assert Placed(c, ns, order, order[k]);
    var j :| FirstFrom(c, ns, order, order[k], j);
    assert forall m | 0 <= m <= j :: full[m].ref == ns[order[m]].id;
    assert LiesFrom(c, full, full[k].ref, s.all[order[k]].pos, j);
  }

  lemma ResultsOrdered(c: Area, s: State, order: seq<nat>, full: seq<Found>, j: nat, k: nat)
    requires CInv(c, s, order, -1) && ReportOk(s.all, order, full) && Distinct(s.all, s.n) && j < k < |order|
    ensures full[j].ref != full[k].ref && full[j].cost <= full[k].cost
  {
    hide OpenOk, Explored, NodesOk;
    if order[j] == order[k] { Once(order, j, k); }
    var a, b := if order[j] < order[k] then order[j] else order[k], if order[j] < order[k] then order[k] else order[j];
    NodesState(c, Live(s), a);
    NodesState(c, Live(s), b);
    assert !Matches(s.all[b], s.all[a].id, s.all[a].state);
  }

  lemma ResultDerived(c: Area, s: State, order: seq<nat>, full: seq<Found>, k: nat)
    requires CInv(c, s, order, -1) && ReportOk(s.all, order, full) && Distinct(s.all, s.n) && 0 < k < |order|
    ensures Derived(c, Places(Live(s)), full, k)
  {
    hide Places, OpenOk, Explored, NodesOk, OrderOk, Distinct, Hop, AllPlaced;
    assert Earlier(order, k, s.all[order[k]].pidx - 1);
    var j: nat :| j < k && order[j] == s.all[order[k]].pidx - 1;
    ResultNodes(c, s, order, full, j);
    ResultNodes(c, s, order, full, k);
    assert FromParent(c, Live(s), order[k]);
    assert Continues(c, Places(Live(s)), full, j, k);
  }

  lemma StartFirst(c: Area, s: State, order: seq<nat>)
    requires CInv(c, s, order, -1) && order != []
    ensures order[0] == 0 < s.n <= |s.all| && s.all[0].id == c.start && s.all[0].total == 0 && s.all[0].pos == c.center
    ensures s.all[0].pidx == 0
  {
    assert NodeOk(c, Live(s), 0) && Live(s)[0] == s.all[0];
  }

  lemma ResultsComplete(c: Area, s: State, order: seq<nat>, full: seq<Found>)
    requires CInv(c, s, order, -1) && ReportOk(s.all, order, full) && Distinct(s.all, s.n) && s.heap == []
    ensures Complete(c, full, Places(Live(s)), Live(s), s.out)
  {
    hide CInv, Places, Distinct;
    CStepSizes(c, s, order, -1);
    var at := Places(Live(s));
    forall i: nat, b: nat | i < |full| && Hop(c, full[i].ref, b)
      ensures ReportedFrom(c, full, at, i, b) || (s.out && NoPoly(Live(s), b))
    {
      ResultHops(c, s, order, full, i, b);
    }
  }

  lemma ResultHops(c: Area, s: State, order: seq<nat>, full: seq<Found>, i: nat, b: nat)
    requires CInv(c, s, order, -1) && ReportOk(s.all, order, full) && Distinct(s.all, s.n) && s.heap == []
    requires i < |full| && Hop(c, full[i].ref, b)
    ensures ReportedFrom(c, full, Places(Live(s)), i, b) || (s.out && NoPoly(Live(s), b))
  {
    hide Places, NodesOk, OrderOk, Short;
    var at := Places(Live(s));
    ResultNodes(c, s, order, full, i);
    var l :| l in c.g.links(full[i].ref) && l.ref == b && Steps(c, full[i].ref, l);
    assert Seen(c, Live(s), s.out, order[i], |c.g.links(full[i].ref)|) && HopDone(c, Live(s), s.out, order[i], b);
    if Settled(c, Live(s), order[i], b) {
      var x :| 0 <= x < s.n && Live(s)[x].id == b && s.all[x].total <= full[i].cost + Leg(c, s.all[order[i]], s.all[x]);
      NodesAt(c, Live(s), x);
      assert multiset(s.heap)[x] == 0;
      InOrder(s, order, x);
      var k :| 0 <= k < |order| && order[k] == x;
      ResultNodes(c, s, order, full, k);
    }
  }

  // ---- What the results mean ----

  /** Every reported cost is the cost of a walk from the start that stays within the circle. */
  lemma {:induction false} CostAttained(c: Area, full: seq<Found>, at: map<nat, int>, k: nat) returns (p: seq<nat>)
    requires Results(c, full, at) && k < |full|
    ensures Walked(c, p) && p[|p| - 1] == full[k].ref && WalkCost(c, at, p) == full[k].cost
  {
    if k == 0 {
      p := [c.start];
    } else {
      assert Derived(c, at, full, k);
      var j: nat :| j < k && Continues(c, at, full, j, k);
      var q := CostAttained(c, full, at, j);
      p := q + [full[k].ref];
      assert p[..|p| - 1] == q;
      forall i | 0 <= i < |p| - 1 ensures Hop(c, p[i], p[i + 1]) {
        assert i < |q| - 1 ==> Hop(c, q[i], q[i + 1]);
      }
    }
  }

  /** No such walk to any polygon is cheaper than the cost reported for it. */
  lemma {:induction false} CostLeast(c: Area, full: seq<Found>, at: map<nat, int>, ns: seq<Node>, p: seq<nat>)
    returns (k: nat)
    requires Results(c, full, at) && Complete(c, full, at, ns, false) && Walked(c, p)
    ensures k < |full| && full[k].ref == p[|p| - 1] && full[k].cost <= WalkCost(c, at, p)
    decreases |p|
  {
    if |p| == 1 {
      k := 0;
    } else {
      var p' := p[..|p| - 1];
      forall i | 0 <= i < |p'| - 1 ensures Hop(c, p'[i], p'[i + 1]) {
        assert Hop(c, p[i], p[i + 1]);
      }
      var i := CostLeast(c, full, at, ns, p');
      assert Hop(c, p[|p| - 2], p[|p| - 2 + 1]) && full[i].ref == p[|p| - 2];
      assert ReportedFrom(c, full, at, i, p[|p| - 1]);
      k :| 0 <= k < |full| && full[k].ref == p[|p| - 1]
          && full[k].cost <= full[i].cost + Between(c, at, full[i].ref, p[|p| - 1]);
    }
  }

  /**
   With room for every node, exactly the polygons around the start are reported, at the least cost of a walk there.
   */
  ghost predicate Exact(c: Area, full: seq<Found>, at: map<nat, int>) {
    && (forall ref: nat :: Around(c, ref) <==> exists k :: 0 <= k < |full| && full[k].ref == ref)
    && (forall k, p: seq<nat> | 0 <= k < |full| && Walked(c, p) && p[|p| - 1] == full[k].ref ::
        full[k].cost <= WalkCost(c, at, p))
  }

  lemma ResultsExact(c: Area, full: seq<Found>, at: map<nat, int>, ns: seq<Node>)
    requires Results(c, full, at) && Complete(c, full, at, ns, false)
    ensures Exact(c, full, at)
  {
    hide Complete, WalkCost;
    forall ref: nat ensures Around(c, ref) <==> exists k :: 0 <= k < |full| && full[k].ref == ref {
      if p: seq<nat> :| Walked(c, p) && p[|p| - 1] == ref {
        var k := CostLeast(c, full, at, ns, p);
      } else if k :| 0 <= k < |full| && full[k].ref == ref {
        var p := CostAttained(c, full, at, k);
      }
    }
    forall k, p: seq<nat> | 0 <= k < |full| && Walked(c, p) && p[|p| - 1] == full[k].ref
      ensures full[k].cost <= WalkCost(c, at, p)
    {
      var j := CostLeast(c, full, at, ns, p);
      assert j == k;
    }
  }

  /** What an empty open list means for the results. */
  lemma Finished(c: Area, s: State, order: seq<nat>, full: seq<Found>)
    requires CInv(c, s, order, -1) && ReportOk(s.all, order, full) && Distinct(s.all, s.n) && s.heap == []
    requires order != []
    ensures s.n <= |s.all| && (s.out ==> s.n == |s.all| && Short(c, Live(s)))
    ensures var at := Places(Live(s));
            && Results(c, full, at) && Complete(c, full, at, Live(s), s.out) && (!s.out ==> Exact(c, full, at))
  {
    hide CInv, ReportOk, Results, Complete, Exact, Distinct, Places, Short;
    CShort(c, s, order, -1);
    ResultsOk(c, s, order, full);
    ResultsComplete(c, s, order, full);
    if !s.out { ResultsExact(c, full, Places(Live(s)), Live(s)); }
  }

  class CircleFinder {
    const f: Finder

    constructor (f: Finder)
      ensures this.f == f
    {
      this.f := f;
    }

    /** The loop body for one link of `best`. */
    method Relax(c: Area, best: nat, parentRef: nat, l: Link, out0: bool, ghost order: seq<nat>) returns (out: bool)
      requires f.Valid() && CInv(c, f.Snapshot(out0), order, best) && best < f.pool.count && f.pool.nodes[best].closed
      requires order != [] && order[|order| - 1] == best && l in c.g.links(f.pool.nodes[best].id)
      requires parentRef == 0 || Settled(c, f.pool.nodes[..f.pool.count], best, parentRef)
      modifies f.pool`count, f.pool.nodes, f.pool.first, f.pool.next, f.open`size, f.open.heap
      ensures f.Valid() && CRelaxed(c, old(f.Snapshot(out0)), f.Snapshot(out), order, best, l)
    {
      hide CInv, CRelaxed, Settled;
      out := out0;
      ghost var s := f.Snapshot(out0);
      CHeapFits(c, s, order, best);
      var bestRef := f.pool.nodes[best].id;
      if l.ref == 0 || l.ref == parentRef || !c.g.pass(l.ref) || !c.touches(bestRef, l.ref) {
        CSkips(c, s, order, best, l);
        return;
      }
      var got := f.Obtain(l.ref, 0);
      if got.None? {
        out := true;
        CRunsOut(c, s, order, best, l);
        assert f.Snapshot(out) == s.(out := true);
        return;
      }
      Visit(c, s, best, l, got.value, order);
    }

    method Visit(c: Area, ghost s: State, best: nat, l: Link, x: nat, ghost order: seq<nat>)
      requires f.Valid() && CInv(c, s, order, best) && best < s.n <= f.pool.count && |s.all| == f.pool.maxNodes
      requires s.all[best].closed
      requires order != [] && order[|order| - 1] == best && l in c.g.links(s.all[best].id)
      requires Steps(c, s.all[best].id, l)
      requires f.open.Contents() == s.heap && x < f.pool.count && Matches(f.pool.nodes[x], l.ref, 0)
      requires f.pool.count == s.n ==> f.pool.nodes[..] == s.all
      requires f.pool.count != s.n ==>
                 && f.pool.count == s.n + 1 && x == s.n && f.pool.nodes[..] == s.all[x := f.pool.nodes[x]]
                 && !f.pool.nodes[x].open && !f.pool.nodes[x].closed
      modifies f.pool.nodes, f.open`size, f.open.heap
      ensures f.Valid() && CRelaxed(c, s, f.Snapshot(s.out), order, best, l)
    {
      hide CInv, CRelaxed, NodeHeap.Push, NodeHeap.Rise, Chained, Distinct;
      CHeapFits(c, s, order, best);
      var bestNode, node := f.pool.nodes[best], f.pool.nodes[x];
      assert bestNode == s.all[best];
      if node.closed {
        assert f.Snapshot(s.out) == s;
        ClosedSettled(c, s, order, best, x);
        CSkips(c, s, order, best, l);
        return;
      }
      var pos := if node.open then node.pos else c.midpoint(bestNode.id, l.ref);
      var total := bestNode.total + c.move(bestNode.pos, pos, bestNode.id);
      if !node.open {
        var added := node.(pos := pos, pidx := best + 1, total := total, open := true);
        ghost var all' := s.all[x := added];
        FreshPoly(f.pool.nodes[..], s.n, l.ref);
        assert f.pool.nodes[..][..s.n] == Live(s);
        CAdds(c, s, order, best, l, added);
        f.StorePush(x, added);
        assert f.pool.nodes[..] == all';
        assert f.Snapshot(s.out) == State(all', s.n + 1, NodeHeap.Push(Keys(all'), s.heap, x), s.out);
      } else if total < node.total {
        var better := node.(pidx := best + 1, total := total);
        ghost var all' := s.all[x := better];
        ghost var i := f.StoreModify(x, better);
        CDecreases(c, s, order, best, l, i, better);
        assert f.Snapshot(s.out) == s.(all := all', heap := NodeHeap.Rise(Keys(all'), s.heap, i, x));
      } else {
        assert f.Snapshot(s.out) == s && Live(s)[x].id == l.ref;
        CSkips(c, s, order, best, l);
      }
    }

    /** The polygon the search came from, 0 at the start. */
    method ParentRef(c: Area, best: nat, ghost out: bool, ghost order: seq<nat>) returns (ref: nat)
      requires f.Valid() && CInv(c, f.Snapshot(out), order, best) && best < f.pool.count
      ensures ref == 0 || Settled(c, f.pool.nodes[..f.pool.count], best, ref)
      ensures ref == Report(f.pool.nodes[..], best).parent
    {
      hide OpenOk, OrderOk, Explored, NodesOk, Chained, Distinct;
      ref := 0;
      ghost var ns := f.pool.nodes[..f.pool.count];
      NodesAt(c, ns, best);
      if f.pool.nodes[best].pidx != 0 {
        assert FromParent(c, ns, best);
        ref := f.pool.nodes[f.pool.nodes[best].pidx - 1].id;
        assert ns[ns[best].pidx - 1].id == ref;
      }
    }

    /** The loop over the links of the node just closed. */
    method Expand(c: Area, best: nat, parentRef: nat, out0: bool, ghost order: seq<nat>, ghost full: seq<Found>)
      returns (out: bool)
      requires f.Valid() && CInv(c, f.Snapshot(out0), order, best) && best < f.pool.count && f.pool.nodes[best].closed
      requires order != [] && order[|order| - 1] == best && ReportOk(f.pool.nodes[..], order, full)
      requires parentRef == 0 || Settled(c, f.pool.nodes[..f.pool.count], best, parentRef)
      modifies f.pool`count, f.pool.nodes, f.pool.first, f.pool.next, f.open`size, f.open.heap
      ensures f.Valid() && CInv(c, f.Snapshot(out), order, -1) && ReportOk(f.pool.nodes[..], order, full)
    {
      hide CInv, CRelaxed, CExpanding, Settled, ReportOk, Chained, Distinct, NodeHeap.Ordered;
      out := out0;
      ghost var s0 := f.Snapshot(out0);
      CStarts(c, s0, order, best);
      var links := c.g.links(f.pool.nodes[best].id);
      for j := 0 to |links|
        invariant f.Valid() && CExpanding(c, s0, f.Snapshot(out), order, best, j)
      {
        ghost var s := f.Snapshot(out);
        CKeeps(c, s0, s, order, best, j, parentRef);
        out := Relax(c, best, parentRef, links[j], out, order);
        CStep(c, s0, s, f.Snapshot(out), order, best, j);
      }
      ReportStays(c, s0, f.Snapshot(out), order, best, |links|, full);
      CEnds(c, s0, f.Snapshot(out), order, best);
    }

    /** Clears the pool and the open list and opens the start node. */
    method Start(c: Area)
      requires f.Valid()
      modifies f.pool`count, f.pool.nodes, f.pool.first, f.pool.next, f.open`size, f.open.heap
      ensures f.Valid() && CInv(c, f.Snapshot(false), [], -1) && f.open.size == 1
    {
      f.pool.Clear();
      f.open.Clear();
      var got := f.pool.GetNode(c.start, 0);
      f.StorePush(0, Opening(c));
      CStarted(c, f.pool.nodes[..]);
      assert f.Snapshot(false) == State(f.pool.nodes[..], 1, NodeHeap.Push(Keys(f.pool.nodes[..]), [], 0), false);
    }

    /** Takes the cheapest node off the open list and closes it. */
    method CloseBest(c: Area, ghost out: bool, ghost order: seq<nat>, ghost full: seq<Found>)
      returns (best: nat, ghost full': seq<Found>)
      requires f.Valid() && CInv(c, f.Snapshot(out), order, -1) && f.open.size > 0
      requires ReportOk(f.pool.nodes[..], order, full)
      modifies f.pool.nodes, f.open`size, f.open.heap
      ensures f.Valid() && best < f.pool.count && CInv(c, f.Snapshot(out), order + [best], best)
      ensures f.pool.nodes[best].closed
      ensures full' == full + [Report(f.pool.nodes[..], best)] && ReportOk(f.pool.nodes[..], order + [best], full')
    {
      hide CInv, NodeHeap.Pop, Chained, Distinct, Report, ReportOk;
      ghost var s := f.Snapshot(out);
      ghost var x := s.heap[0];
      ghost var closed := s.all[x].(open := false, closed := true);
      CHeapFits(c, s, order, -1);
      CPops(c, s, order, closed);
      ReportGrows(c, s, s.all[x := closed], order, x, full);
      best := f.open.Pop();
      f.pool.SetNode(best, f.pool.nodes[best].(open := false, closed := true));
      assert f.pool.nodes[..] == s.all[x := closed];
      assert f.Snapshot(out) == s.(all := s.all[x := closed], heap := NodeHeap.Pop(Keys(s.all), s.heap));
      full' := full + [Report(f.pool.nodes[..], best)];
    }

    /**
     `findPolysAroundCircle`.  `full` lists every polygon the search closes; the buffers get as much of its front
     as they hold.  Costs follow from `at`, the positions the search settled on.
     */
    method FindPolysAroundCircle(c: Area, maxResult: int) returns (status: Status, results: seq<Found>,
                                                                   ghost full: seq<Found>, ghost at: map<nat, int>)
      requires f.Valid()
      modifies f.pool`count, f.pool.nodes, f.pool.first, f.pool.next, f.open`size, f.open.heap
      ensures f.Valid()
      ensures status.Failure? <==> !c.g.valid(c.start) || maxResult < 0
      ensures status.Failure? ==> results == []
      ensures status.Success? ==>
                && Results(c, full, at) && results == full[..MinNat(|full|, maxResult)]
                && !status.partial && status.tooSmall == (|full| > maxResult)
                && (!status.outOfNodes ==> Exact(c, full, at))
                && Complete(c, full, at, f.pool.nodes[..f.pool.count], status.outOfNodes)
      ensures status.Success? && status.outOfNodes ==>
                f.pool.count == f.pool.maxNodes && Short(c, f.pool.nodes[..f.pool.count])
    {
      hide CInv, ReportOk, Results, Complete, Exact, Chained, Places, Short;
      results, full, at := [], [], map[];
      if !c.g.valid(c.start) || maxResult < 0 {
        return Failure, [], [], map[];
      }
      Start(c);
      var out, tooSmall := false, false;
      ghost var order: seq<nat> := [];
      ReportNone(f.pool.nodes[..]);
      while f.open.size > 0
        invariant f.Valid() && CInv(c, f.Snapshot(out), order, -1) && ReportOk(f.pool.nodes[..], order, full)
        invariant order == [] ==> f.open.size > 0
        invariant |full| == |order| && results == full[..MinNat(|full|, maxResult)] && tooSmall == (|full| > maxResult)
        decreases f.pool.maxNodes - |order|
      {
        var best;
        best, full := CloseBest(c, out, order, full);
        order := order + [best];
        var parentRef := ParentRef(c, best, out, order);
        if |results| < maxResult {
          results := results + [Found(f.pool.nodes[best].id, parentRef, f.pool.nodes[best].total)];
        } else {
          tooSmall := true;
        }
        CHeapFits(c, f.Snapshot(out), order, best);
        out := Expand(c, best, parentRef, out, order, full);
      }
      status := Success(false, out, tooSmall);
      at := Places(f.pool.nodes[..f.pool.count]);
      ghost var s := f.Snapshot(out);
      Finished(c, s, order, full);
    }
  }

  lemma FreshPoly(all: seq<Node>, n: nat, ref: nat)
    requires n < |all| && Distinct(all, n + 1) && Matches(all[n], ref, 0)
    ensures NoPoly(all[..n], ref)
  {
    forall k | 0 <= k < n ensures !Matches(all[..n][k], ref, 0) {
      assert !Matches(all[n], all[k].id, all[k].state);
    }
  }

  lemma ReportNone(all: seq<Node>)
    ensures ReportOk(all, [], [])
  {
  }

  lemma CEnds(c: Area, s0: State, s: State, order: seq<nat>, best: nat)
    requires s0.n <= |s0.all| && best < s0.n && CExpanding(c, s0, s, order, best, |c.g.links(s0.all[best].id)|)
    ensures CInv(c, s, order, -1)
  {
    hide CInv, Seen;
    CStepSizes(c, s, order, best);
    assert Live(s)[best] == Live(s0)[best];
    CFinishes(c, s, order, best);
  }

  function Opening(c: Area): Node { Node(c.start, 0, c.center, 0, 0, 0, true, false) }

  lemma CStarted(c: Area, all: seq<Node>)
    requires |all| >= 1 && all[0] == Opening(c)
    ensures CInv(c, State(all, 1, NodeHeap.Push(Keys(all), [], 0), false), [], -1)
  {
    var s := State(all, 1, NodeHeap.Push(Keys(all), [], 0), false);
    assert Live(s) == [Opening(c)];
    assert s.heap == [0];
  }

  lemma CHeapFits(c: Area, s: State, order: seq<nat>, current: int)
    requires CInv(c, s, order, current)
    ensures |s.heap| <= s.n <= |s.all| && |order| <= s.n
    ensures forall x: nat | x < s.n :: s.all[x].open <==> x in s.heap
    ensures forall x: nat | x < s.n :: s.all[x].open != s.all[x].closed && s.all[x].state == 0
  {
    OpenBound(s.heap, s.n);
    OpenBound(order, s.n);
    forall x: nat | x < s.n
      ensures (s.all[x].open <==> x in s.heap) && s.all[x].open != s.all[x].closed && s.all[x].state == 0
    {
      NodesAt(c, Live(s), x);
      assert multiset(s.heap)[x] == if s.all[x].open then 1 else 0;
      assert x in s.heap <==> x in multiset(s.heap);
    }
  }
}

/** The state of a `findPath` run as a value, its invariant, and what each step does to it. */
module PathSearch {
  import opened Basics
  import opened DetourNode
  import opened PathTree
  import NodeHeap

  /** The node array, how many of its slots are live, the heap, and whether the pool ever ran out. */
  datatype State = State(all: seq<Node>, n: nat, heap: seq<nat>, out: bool)

  ghost function Live(s: State): seq<Node>
    requires s.n <= |s.all|
  {
    s.all[..s.n]
  }

  /** The heap is ordered by total cost and holds exactly the nodes flagged open, each once. */
  ghost predicate OpenOk(s: State) {
    && s.n <= |s.all| && NodeHeap.Ordered(Keys(s.all), s.heap)
    && forall i: nat :: multiset(s.heap)[i] == if i < s.n && s.all[i].open then 1 else 0
  }

  /** Every live node is open or closed but not both, and its total is its cost plus its own heuristic. */
  ghost predicate FlagsOk(q: Goal, ns: seq<Node>) {
    forall i | 0 <= i < |ns| ::
      && ns[i].open != ns[i].closed
      && ns[i].total == ns[i].cost + if ns[i].id == q.end then 0 else q.m.dist(ns[i].pos, q.endPos)
  }

  /** Node `i` lies in the middle of the portal through which node `j` first led to it. */
  ghost predicate FirstFrom(q: Goal, ns: seq<Node>, i: nat, j: int)
    requires i < |ns|
  {
    0 <= j < |ns| && Edge(q.g, ns[j].id, ns[i].id) && ns[i].pos == q.m.midpoint(ns[j].id, ns[i].id)
  }

  ghost predicate FirstPlaced(q: Goal, ns: seq<Node>, i: nat)
    requires i < |ns|
  {
    exists j :: FirstFrom(q, ns, i, j)
  }

  ghost predicate AllPlaced(q: Goal, ns: seq<Node>) { forall i: nat | 0 < i < |ns| :: FirstPlaced(q, ns, i) }

  ghost predicate Visited(ns: seq<Node>, ref: nat) {
    exists i :: 0 <= i < |ns| && ns[i].id == ref
  }

  /** Node `k` is the one that link `l` of node `i` leads to, or the one `i` was reached from. */
  ghost predicate Behind(ns: seq<Node>, i: nat, l: Link, k: int)
    requires i < |ns|
  {
    0 <= k < |ns| && ns[k].id == l.ref && (ns[k].state == CrossSide(l) || k == ns[i].pidx - 1)
  }

  /** The polygon behind `l` has a node, and going there from node `i` would not be cheaper. */
  ghost predicate LinkSettled(q: Goal, ns: seq<Node>, i: nat, l: Link)
    requires i < |ns|
  {
    exists k :: Behind(ns, i, l, k) && ns[k].cost <= ns[i].cost + StepCost(q, ns[i], ns[k])
  }

  /** The polygon behind `l` has no node for the side it would be entered across. */
  ghost predicate NoNode(ns: seq<Node>, l: Link) {
    forall k | 0 <= k < |ns| :: !Matches(ns[k], l.ref, CrossSide(l))
  }

  /** A link is settled, or, once nodes have run out, leads to a polygon that got none. */
  ghost predicate LinkDone(q: Goal, ns: seq<Node>, out: bool, i: nat, l: Link)
    requires i < |ns|
  {
    LinkSettled(q, ns, i, l) || (out && NoNode(ns, l))
  }

  /** The first `j` links of node `i` that the filter admits are done. */
  ghost predicate Covered(q: Goal, ns: seq<Node>, out: bool, i: nat, j: nat)
    requires i < |ns| && j <= |q.g.links(ns[i].id)|
  {
    forall m | 0 <= m < j && Follows(q.g, q.g.links(ns[i].id)[m]) :: LinkDone(q, ns, out, i, q.g.links(ns[i].id)[m])
  }

  /** Some link of node `i` that the filter admits leads to a polygon without a node. */
  ghost predicate RefusedAt(q: Goal, ns: seq<Node>, i: nat, l: Link) {
    i < |ns| && l in q.g.links(ns[i].id) && Follows(q.g, l) && NoNode(ns, l)
  }

  ghost predicate Refused(q: Goal, ns: seq<Node>) { exists i: nat, l: Link :: RefusedAt(q, ns, i, l) }

  /** Closed nodes, except the one being expanded, are not the goal and no link of theirs leads anywhere cheaper. */
  ghost predicate Expanded(q: Goal, ns: seq<Node>, out: bool, current: int) {
    forall i | 0 <= i < |ns| && ns[i].closed && i != current ::
      ns[i].id != q.end && Covered(q, ns, out, i, |q.g.links(ns[i].id)|)
  }

  /** Nodes have run out only if the pool is full and some polygon needed another one. */
  ghost predicate OutOk(q: Goal, s: State)
    requires s.n <= |s.all|
  {
    s.out ==> s.n == |s.all| && Refused(q, Live(s))
  }

  ghost predicate Inv(q: Goal, s: State, current: int) {
    && s.n <= |s.all| && q.start != q.end
    && TreeOk(q, Live(s)) && OpenOk(s) && FlagsOk(q, Live(s)) && Expanded(q, Live(s), s.out, current)
    && OutOk(q, s) && AllPlaced(q, Live(s))
  }

  /** What is on record for every node: its position, and its total as cost plus the distance left. */
  ghost predicate Recorded(q: Goal, ns: seq<Node>) { FlagsOk(q, ns) && AllPlaced(q, ns) }

  /** Every node has been expanded, none is the goal, and followed links lead to nodes as far as there are any. */
  ghost predicate SearchedOut(q: Goal, ns: seq<Node>, out: bool) {
    forall i | 0 <= i < |ns| ::
      ns[i].closed && ns[i].id != q.end && Covered(q, ns, out, i, |q.g.links(ns[i].id)|)
  }

  lemma InvRecorded(q: Goal, s: State, current: int)
    requires Inv(q, s, current)
    ensures s.n <= |s.all| && Recorded(q, Live(s)) && (s.out ==> s.n == |s.all| && Refused(q, Live(s)))
  {
  }

  lemma EmptySearchedOut(q: Goal, s: State)
    requires Inv(q, s, -1) && s.heap == []
    ensures s.n <= |s.all| && SearchedOut(q, Live(s), s.out)
  {
    hide Covered;
    forall i | 0 <= i < s.n
      ensures Live(s)[i].closed && Live(s)[i].id != q.end
      ensures Covered(q, Live(s), s.out, i, |q.g.links(Live(s)[i].id)|)
    {
      assert multiset(s.heap)[i] == 0;
      assert Live(s)[i].closed;
    }
  }

  // ---- Progress ----

  ghost function Sum(ns: seq<Node>): nat {
    if ns == [] then 0 else ns[0].total + Sum(ns[1..])
  }

  lemma {:induction false} SumUpdate(ns: seq<Node>, x: nat, n: Node)
    requires x < |ns|
    ensures Sum(ns[x := n]) == Sum(ns) - ns[x].total + n.total
  {
    if x == 0 {
      assert ns[x := n][1..] == ns[1..];
    } else {
      assert ns[x := n][1..] == ns[1..][x - 1 := n];
      SumUpdate(ns[1..], x - 1, n);
    }
  }

  /** More nodes, or as many with a smaller sum of totals. */
  ghost predicate Advances(s: State, s': State)
    requires s.n <= |s.all| && s'.n <= |s'.all|
  {
    s'.n > s.n || (s'.n == s.n && Sum(Live(s')) < Sum(Live(s)))
  }

  /** What relaxing one link of node `best` may do. */
  ghost predicate Relaxed(q: Goal, s: State, s': State, best: nat, l: Link) {
    && Inv(q, s', best) && |s'.all| == |s.all| && best < s.n <= |s.all|
    && Cheapens(Live(s), Live(s')) && s'.all[best] == s.all[best] && (s.out ==> s'.out)
    && (Follows(q.g, l) ==> LinkDone(q, Live(s'), s'.out, best, l))
    && (s' == s.(out := s'.out) || Advances(s, s'))
  }

  // ---- The node nearest to the goal ----

  datatype Nearest = Nearest(node: nat, cost: nat)

  function Remaining(q: Goal, n: Node): nat { if n.id == q.end then 0 else q.m.dist(n.pos, q.endPos) }

  /** `near` is a live node with the smallest heuristic of all live nodes. */
  ghost predicate NearOk(q: Goal, ns: seq<Node>, near: Nearest) {
    && near.node < |ns| && near.cost == Remaining(q, ns[near.node])
    && forall i | 0 <= i < |ns| :: near.cost <= Remaining(q, ns[i])
  }

  /** The route ends at a visited node that no other visited node beats in distance to the goal. */
  ghost predicate EndsNearest(q: Goal, ns: seq<Node>, route: seq<nat>) {
    route != [] && exists i: nat | i < |ns| ::
      ns[i].id == route[|route| - 1] && NearOk(q, ns, Nearest(i, Remaining(q, ns[i])))
  }

  lemma NearestEnds(q: Goal, ns: seq<Node>, i: nat, route: seq<nat>)
    requires i < |ns| && NearOk(q, ns, Nearest(i, Remaining(q, ns[i]))) && route != [] && route[|route| - 1] == ns[i].id
    ensures EndsNearest(q, ns, route)
  {
  }

  lemma TreeDepth(q: Goal, ns: seq<Node>, i: nat) returns (k: nat)
    requires TreeOk(q, ns) && i < |ns|
    ensures Reaches(ns, i, k)
  {
    k :| AllReach(ns, k);
  }

  function Nearer(near: Nearest, x: nat, heuristic: Option<nat>): Nearest {
    if heuristic.Some? && heuristic.value < near.cost then Nearest(x, heuristic.value) else near
  }

  /** Comparing each stored node's heuristic keeps the nearest one. */
  lemma NearStep(q: Goal, s: State, s': State, best: nat, l: Link, near: Nearest, x: nat, heuristic: Option<nat>)
    requires s.n <= |s.all| && NearOk(q, Live(s), near) && Relaxed(q, s, s', best, l) && s'.n <= s.n + 1
    requires heuristic.Some? ==> x < s'.n && heuristic.value == Remaining(q, s'.all[x])
    requires s'.n == s.n + 1 ==> heuristic.Some? && x == s.n
    ensures NearOk(q, Live(s'), Nearer(near, x, heuristic))
  {
    hide TreeOk, OpenOk, FlagsOk, Expanded, LinkSettled, Sum, Heuristic;
    forall i | 0 <= i < s'.n ensures Nearer(near, x, heuristic).cost <= Remaining(q, Live(s')[i]) {
      assert i < s.n ==> Remaining(q, Live(s')[i]) == Remaining(q, Live(s)[i]);
    }
    assert Remaining(q, Live(s')[near.node]) == Remaining(q, Live(s)[near.node]);
  }

  lemma NearRelabels(q: Goal, ns: seq<Node>, x: nat, node: Node, near: Nearest)
    requires NearOk(q, ns, near) && x < |ns| && node.id == ns[x].id && node.pos == ns[x].pos
    ensures NearOk(q, ns[x := node], near)
  {
    var ns' := ns[x := node];
    forall i | 0 <= i < |ns| ensures near.cost <= Remaining(q, ns'[i]) {
      assert near.cost <= Remaining(q, ns[i]);
    }
  }

  // ---- Heap frames ----

  lemma OrderedFrame(key: seq<int>, key': seq<int>, h: seq<nat>)
    requires NodeHeap.Ordered(key, h) && |key| == |key'|
    requires forall i | 0 <= i < |h| :: key'[h[i]] == key[h[i]]
    ensures NodeHeap.Ordered(key', h)
  {
    forall j | 0 < j < |h| ensures NodeHeap.Edge(key', h, j) {
      assert NodeHeap.Edge(key, h, j);
    }
  }

  lemma KeysUpdate(ns: seq<Node>, x: nat, n: Node)
    requires x < |ns|
    ensures Keys(ns[x := n]) == Keys(ns)[x := n.total]
  {
  }

  lemma NotIn(h: seq<nat>, x: nat)
    requires multiset(h)[x] == 0
    ensures x !in h
  {
    assert x in h <==> x in multiset(h);
  }

  lemma FirstCounts(h: seq<nat>)
    requires h != []
    ensures multiset(h)[h[0]] > 0
  {
    assert h[0] in multiset(h);
  }

  lemma {:induction false} OpenBound(h: seq<nat>, n: nat)
    requires forall i: nat :: multiset(h)[i] <= if i < n then 1 else 0
    ensures |h| <= n
  {
    if n == 0 {
      if h != [] { FirstCounts(h); }
    } else {
      var x: nat := n - 1;
      if multiset(h)[x] == 0 {
        OpenBound(h, n - 1);
      } else {
        assert x in multiset(h) && x in h;
        var j :| 0 <= j < |h| && h[j] == x;
        var g: seq<nat> := h[..j] + h[j + 1..];
        assert h == h[..j] + [x] + h[j + 1..];
        assert multiset(h) == multiset(g) + multiset{x};
        forall i: nat ensures multiset(g)[i] <= if i < n - 1 then 1 else 0 {
          assert multiset(h)[i] == multiset(g)[i] + multiset{x}[i];
        }
        OpenBound(g, n - 1);
      }
    }
  }

  /** Pushing a node that was not open. */
  lemma OpenPushes(s: State, x: nat, node: Node)
    requires OpenOk(s) && x < |s.all| && x <= s.n && node.open && (x < s.n ==> !s.all[x].open)
    ensures var all' := s.all[x := node];
            OpenOk(State(all', if x < s.n then s.n else s.n + 1, NodeHeap.Push(Keys(all'), s.heap, x), s.out))
  {
    var all' := s.all[x := node];
    KeysUpdate(s.all, x, node);
    NotIn(s.heap, x);
    OrderedFrame(Keys(s.all), Keys(all'), s.heap);
    NodeHeap.PushCorrect(Keys(all'), s.heap, x);
  }

  lemma OneOccurrence(h: seq<nat>, i: nat)
    requires i < |h| && multiset(h)[h[i]] == 1
    ensures h[i] !in h[..i] && h[i] !in h[i + 1..]
  {
    assert h == h[..i] + [h[i]] + h[i + 1..];
    assert multiset(h) == multiset(h[..i]) + multiset{h[i]} + multiset(h[i + 1..]);
    NotIn(h[..i], h[i]);
    NotIn(h[i + 1..], h[i]);
  }

  /** Lowering the total of an open node and bubbling it up. */
  lemma OpenModifies(s: State, i: nat, node: Node)
    requires OpenOk(s) && i < |s.heap| && node.open
    requires s.heap[i] < s.n && s.all[s.heap[i]].open && node.total <= s.all[s.heap[i]].total
    ensures var all' := s.all[s.heap[i] := node];
            OpenOk(s.(all := all', heap := NodeHeap.Rise(Keys(all'), s.heap, i, s.heap[i])))
  {
    KeysUpdate(s.all, s.heap[i], node);
    assert multiset(s.heap)[s.heap[i]] == 1;
    OneOccurrence(s.heap, i);
    NodeHeap.ModifyCorrect(Keys(s.all), s.heap, i, node.total);
  }

  /** Popping the best node closes it. */
  lemma OpenPops(s: State, node: Node)
    requires OpenOk(s) && s.heap != [] && node == s.all[s.heap[0]].(open := false, closed := true)
    ensures OpenOk(s.(all := s.all[s.heap[0] := node], heap := NodeHeap.Pop(Keys(s.all), s.heap)))
    ensures s.heap[0] < s.n && s.all[s.heap[0]].open
    ensures |NodeHeap.Pop(Keys(s.all), s.heap)| == |s.heap| - 1
  {
    var x := s.heap[0];
    assert x in multiset(s.heap);
    NodeHeap.PopCorrect(Keys(s.all), s.heap);
    assert Keys(s.all[x := node]) == Keys(s.all);
    assert |multiset(NodeHeap.Pop(Keys(s.all), s.heap))| == |multiset(s.heap)| - 1;
  }

  lemma TopIsLeast(s: State)
    requires OpenOk(s) && s.heap != []
    ensures s.heap[0] < s.n && s.all[s.heap[0]].open
    ensures forall i | 0 <= i < s.n && s.all[i].open :: s.all[s.heap[0]].total <= s.all[i].total
  {
    var x := s.heap[0];
    assert x in multiset(s.heap);
    NodeHeap.PopCorrect(Keys(s.all), s.heap);
    forall i | 0 <= i < s.n && s.all[i].open ensures s.all[x].total <= s.all[i].total {
      assert multiset(s.heap)[i] == 1;
      assert i in multiset(s.heap) && i in s.heap;
      assert Keys(s.all)[x] <= Keys(s.all)[i];
    }
  }

  /** A node is on the heap exactly when it is flagged open, so the heap never outgrows the pool. */
  lemma HeapFits(q: Goal, s: State, current: int)
    requires Inv(q, s, current)
    ensures |s.heap| <= s.n <= |s.all|
    ensures forall x: nat | x < s.n :: s.all[x].open <==> x in s.heap
    ensures forall x: nat | x < s.n :: s.all[x].open != s.all[x].closed
  {
    OpenBound(s.heap, s.n);
    forall x: nat | x < s.n ensures (s.all[x].open <==> x in s.heap) && s.all[x].open != s.all[x].closed {
      assert multiset(s.heap)[x] == if s.all[x].open then 1 else 0;
      assert x in s.heap <==> x in multiset(s.heap);
      assert Live(s)[x] == s.all[x];
    }
  }

  // ---- Steps ----

  /** Nodes keep their key and position, and their costs only fall. */
  ghost predicate Cheapens(ns: seq<Node>, ns': seq<Node>) {
    && |ns| <= |ns'|
    && forall i | 0 <= i < |ns| ::
         ns'[i].id == ns[i].id && ns'[i].state == ns[i].state && ns'[i].pos == ns[i].pos && ns'[i].cost <= ns[i].cost
  }

  lemma CheapensTrans(a: seq<Node>, b: seq<Node>, c: seq<Node>)
    requires Cheapens(a, b) && Cheapens(b, c)
    ensures Cheapens(a, c)
  {
  }

  lemma LinkSettledStays(q: Goal, ns: seq<Node>, ns': seq<Node>, i: nat, l: Link)
    requires Cheapens(ns, ns') && i < |ns| && ns'[i].cost == ns[i].cost && ns'[i].pidx == ns[i].pidx
    ensures LinkSettled(q, ns, i, l) ==> LinkSettled(q, ns', i, l)
  {
    if LinkSettled(q, ns, i, l) {
      var k :| Behind(ns, i, l, k) && ns[k].cost <= ns[i].cost + StepCost(q, ns[i], ns[k]);
      assert Behind(ns', i, l, k);
    }
  }

  /** A full pool gets no more nodes, so polygons without one stay without. */
  lemma LinkDoneStays(q: Goal, ns: seq<Node>, ns': seq<Node>, out: bool, out': bool, i: nat, l: Link)
    requires Cheapens(ns, ns') && i < |ns| && ns'[i].cost == ns[i].cost && ns'[i].pidx == ns[i].pidx
    requires out ==> out' && |ns'| == |ns|
    ensures LinkDone(q, ns, out, i, l) ==> LinkDone(q, ns', out', i, l)
  {
    hide LinkSettled;
    LinkSettledStays(q, ns, ns', i, l);
  }

  lemma CoveredStays(q: Goal, ns: seq<Node>, ns': seq<Node>, out: bool, out': bool, i: nat, j: nat)
    requires Cheapens(ns, ns') && i < |ns| && ns'[i].cost == ns[i].cost && ns'[i].pidx == ns[i].pidx
    requires j <= |q.g.links(ns[i].id)| && Covered(q, ns, out, i, j) && (out ==> out' && |ns'| == |ns|)
    ensures Covered(q, ns', out', i, j)
  {
    hide LinkDone, Follows;
    forall m | 0 <= m < j && Follows(q.g, q.g.links(ns[i].id)[m])
      ensures LinkDone(q, ns', out', i, q.g.links(ns[i].id)[m])
    {
      LinkDoneStays(q, ns, ns', out, out', i, q.g.links(ns[i].id)[m]);
    }
  }

  /** Nodes that get cheaper are not closed afterwards, so what is known about closed nodes stays. */
  lemma ExpandedGrows(q: Goal, ns: seq<Node>, ns': seq<Node>, x: nat, out: bool, current: int)
    requires Expanded(q, ns, out, current) && Cheapens(ns, ns') && |ns'| <= |ns| + 1 && x < |ns'|
    requires |ns'| == |ns| + 1 ==> x == |ns| && !out
    requires forall i | 0 <= i < |ns| && i != x :: ns'[i] == ns[i]
    requires ns'[x].closed ==> x == current
    ensures Expanded(q, ns', out, current)
  {
    hide Covered;
    forall i | 0 <= i < |ns'| && ns'[i].closed && i != current
      ensures ns'[i].id != q.end && Covered(q, ns', out, i, |q.g.links(ns'[i].id)|)
    {
      assert i < |ns| && ns'[i] == ns[i];
      CoveredStays(q, ns, ns', out, out, i, |q.g.links(ns[i].id)|);
    }
  }

  lemma RefusedStays(q: Goal, ns: seq<Node>, ns': seq<Node>)
    requires Cheapens(ns, ns') && |ns'| == |ns| && Refused(q, ns)
    ensures Refused(q, ns')
  {
    var i: nat, l: Link :| RefusedAt(q, ns, i, l);
    assert RefusedAt(q, ns', i, l);
  }

  lemma PlacedStays(q: Goal, ns: seq<Node>, ns': seq<Node>)
    requires Cheapens(ns, ns') && AllPlaced(q, ns) && |ns'| <= |ns| + 1
    requires |ns'| == |ns| + 1 ==> |ns| == 0 || FirstPlaced(q, ns', |ns|)
    ensures AllPlaced(q, ns')
  {
    forall i: nat | 0 < i < |ns'| ensures FirstPlaced(q, ns', i) {
      if i < |ns| {
        assert FirstPlaced(q, ns, i);
        var j :| FirstFrom(q, ns, i, j);
        assert FirstFrom(q, ns', i, j);
      }
    }
  }

  /** The node a node was reached from is no dearer, so a link back to it is settled. */
  lemma BackSettled(q: Goal, ns: seq<Node>, best: nat, l: Link)
    requires TreeOk(q, ns) && best < |ns| && l.ref != 0 && l.ref == ParentId(ns, best)
    ensures LinkSettled(q, ns, best, l)
  {
    assert best > 0 && ParentOk(q, ns, best);
    assert Behind(ns, best, l, ns[best].pidx - 1);
  }

  lemma ParentIn(q: Goal, s: State, best: nat)
    requires Inv(q, s, best) && best < s.n
    ensures s.n <= |s.all| && s.all[best].pidx <= s.n
    ensures ParentId(Live(s), best) == if s.all[best].pidx == 0 then 0 else s.all[s.all[best].pidx - 1].id
  {
    assert best > 0 ==> ParentOk(q, Live(s), best);
  }

  /** The polygon a node was reached from, 0 at the start. */
  ghost function ParentId(ns: seq<Node>, i: nat): nat
    requires i < |ns|
  {
    if 0 < ns[i].pidx <= |ns| then ns[ns[i].pidx - 1].id else 0
  }

  /** The value the source stores for a neighbour it decides to add or update. */
  function Updated(q: Goal, b: Node, best: nat, id: nat, state: nat, pos: int): Node {
    var cost := b.cost + q.m.move(b.pos, pos, b.id) + if id == q.end then q.m.move(pos, q.endPos, id) else 0;
    Node(id, state, pos, cost, cost + Heuristic(q, id, pos), best + 1, true, false)
  }

  /** A link that leads nowhere new changes nothing. */
  lemma StepSkips(q: Goal, s: State, best: nat, l: Link)
    requires Inv(q, s, best) && best < s.n && (Follows(q.g, l) ==> LinkSettled(q, Live(s), best, l))
    ensures Relaxed(q, s, s, best, l)
  {
  }

  /** A null link, a link back and a link the filter refuses are passed over. */
  lemma LinkSkipped(q: Goal, s: State, best: nat, l: Link)
    requires Inv(q, s, best) && best < s.n && (l.ref == 0 || l.ref == ParentId(Live(s), best) || !q.g.pass(l.ref))
    ensures Relaxed(q, s, s, best, l)
  {
    if l.ref != 0 && l.ref == ParentId(Live(s), best) { BackSettled(q, Live(s), best, l); }
    StepSkips(q, s, best, l);
  }

  /** A total that is not smaller means a cost that is not smaller. */
  lemma SkipSettled(q: Goal, s: State, best: nat, l: Link, x: nat)
    requires Inv(q, s, best) && best < s.n && x < s.n && s.all[x].id == l.ref && s.all[x].state == CrossSide(l)
    requires Updated(q, s.all[best], best, l.ref, CrossSide(l), s.all[x].pos).total >= s.all[x].total
    ensures LinkSettled(q, Live(s), best, l)
  {
    assert Live(s)[x].total == Live(s)[x].cost + Heuristic(q, l.ref, s.all[x].pos);
    assert Behind(Live(s), best, l, x);
  }

  /** A polygon that gets no node because the pool is full is remembered. */
  lemma StepRunsOut(q: Goal, s: State, best: nat, l: Link)
    requires Inv(q, s, best) && best < s.n == |s.all| && l in q.g.links(s.all[best].id) && Follows(q.g, l)
    requires NoNode(Live(s), l)
    ensures Relaxed(q, s, s.(out := true), best, l)
  {
    hide TreeOk, FlagsOk, AllPlaced, LinkSettled, Sum, Expanded, NodeHeap.Ordered;
    assert Live(s.(out := true)) == Live(s);
    assert RefusedAt(q, Live(s), best, l);
    ExpandedOut(q, Live(s), s.out, best);
  }

  lemma ExpandedOut(q: Goal, ns: seq<Node>, out: bool, current: int)
    requires Expanded(q, ns, out, current)
    ensures Expanded(q, ns, true, current)
  {
    hide Covered;
    forall i | 0 <= i < |ns| && ns[i].closed && i != current
      ensures ns[i].id != q.end && Covered(q, ns, true, i, |q.g.links(ns[i].id)|)
    {
      CoveredStays(q, ns, ns, out, true, i, |q.g.links(ns[i].id)|);
    }
  }

  lemma StepAdds(q: Goal, s: State, best: nat, l: Link, node: Node)
    requires Inv(q, s, best) && best < s.n < |s.all| && l in q.g.links(s.all[best].id) && Follows(q.g, l)
    requires node == Updated(q, s.all[best], best, l.ref, CrossSide(l), q.m.midpoint(s.all[best].id, l.ref))
    ensures var all' := s.all[s.n := node];
            Relaxed(q, s, State(all', s.n + 1, NodeHeap.Push(Keys(all'), s.heap, s.n), s.out), best, l)
  {
    hide TreeOk, Expanded, NodeHeap.Push;
    assert Entered(q.g, s.all[best].id, node);
    var all' := s.all[s.n := node];
    var s' := State(all', s.n + 1, NodeHeap.Push(Keys(all'), s.heap, s.n), s.out);
    assert Live(s') == Live(s) + [node];
    TreeAdds(q, Live(s), node, best);
    OpenPushes(s, s.n, node);
    ExpandedGrows(q, Live(s), Live(s'), s.n, s.out, best);
    assert Behind(Live(s'), best, l, s.n);
    assert FirstFrom(q, Live(s'), s.n, best);
    PlacedStays(q, Live(s), Live(s'));
  }

  /** Everything but the heap, when an existing node gets cheaper. */
  lemma ImproveTree(q: Goal, s: State, best: nat, l: Link, x: nat, node: Node)
    requires Inv(q, s, best) && best < s.n && x < s.n && l in q.g.links(s.all[best].id) && Follows(q.g, l)
    requires node == Updated(q, s.all[best], best, l.ref, CrossSide(l), s.all[x].pos)
    requires s.all[x].id == l.ref && s.all[x].state == CrossSide(l) && node.total < s.all[x].total
    ensures var ns := Live(s)[x := node];
            && x != best && x != 0 && TreeOk(q, ns) && FlagsOk(q, ns) && Expanded(q, ns, s.out, best)
            && Cheapens(Live(s), ns) && LinkSettled(q, ns, best, l) && Sum(ns) < Sum(Live(s)) && AllPlaced(q, ns)
            && (s.out ==> Refused(q, ns))
  {
    var ns := Live(s)[x := node];
    assert Entered(q.g, s.all[best].id, node);
    assert Live(s)[x].total == Live(s)[x].cost + Heuristic(q, l.ref, s.all[x].pos);
    TreeImproves(q, Live(s), node, x, best);
    ExpandedGrows(q, Live(s), ns, x, s.out, best);
    SumUpdate(Live(s), x, node);
    assert Behind(ns, best, l, x);
    PlacedStays(q, Live(s), ns);
    if s.out { RefusedStays(q, Live(s), ns); }
  }

  lemma StepReopens(q: Goal, s: State, best: nat, l: Link, x: nat, node: Node)
    requires Inv(q, s, best) && best < s.n && x < s.n && l in q.g.links(s.all[best].id) && Follows(q.g, l)
    requires node == Updated(q, s.all[best], best, l.ref, CrossSide(l), s.all[x].pos)
    requires s.all[x].id == l.ref && s.all[x].state == CrossSide(l) && node.total < s.all[x].total && !s.all[x].open
    ensures var all' := s.all[x := node];
            Relaxed(q, s, s.(all := all', heap := NodeHeap.Push(Keys(all'), s.heap, x)), best, l)
  {
    var all' := s.all[x := node];
    ImproveTree(q, s, best, l, x, node);
    OpenPushes(s, x, node);
    assert all'[..s.n] == Live(s)[x := node];
  }

  lemma StepDecreases(q: Goal, s: State, best: nat, l: Link, i: nat, node: Node)
    requires Inv(q, s, best) && best < s.n && i < |s.heap| && s.heap[i] < s.n
    requires l in q.g.links(s.all[best].id) && Follows(q.g, l)
    requires node == Updated(q, s.all[best], best, l.ref, CrossSide(l), s.all[s.heap[i]].pos)
    requires s.all[s.heap[i]].id == l.ref && s.all[s.heap[i]].state == CrossSide(l)
    requires node.total < s.all[s.heap[i]].total && s.all[s.heap[i]].open
    ensures var all' := s.all[s.heap[i] := node];
            Relaxed(q, s, s.(all := all', heap := NodeHeap.Rise(Keys(all'), s.heap, i, s.heap[i])), best, l)
  {
    hide Inv, LinkSettled, Sum;
    HeapFits(q, s, best);
    DecreaseKeeps(q, s, best, l, i, node);
  }

  lemma DecreaseKeeps(q: Goal, s: State, best: nat, l: Link, i: nat, node: Node)
    requires Inv(q, s, best) && best < s.n && i < |s.heap| && s.heap[i] < s.n
    requires l in q.g.links(s.all[best].id) && Follows(q.g, l)
    requires node == Updated(q, s.all[best], best, l.ref, CrossSide(l), s.all[s.heap[i]].pos)
    requires s.all[s.heap[i]].id == l.ref && s.all[s.heap[i]].state == CrossSide(l)
    requires node.total < s.all[s.heap[i]].total && s.all[s.heap[i]].open
    ensures var all' := s.all[s.heap[i] := node];
            var s' := s.(all := all', heap := NodeHeap.Rise(Keys(all'), s.heap, i, s.heap[i]));
            && Inv(q, s', best) && Cheapens(Live(s), Live(s')) && LinkSettled(q, Live(s'), best, l)
            && Sum(Live(s')) < Sum(Live(s)) && s.heap[i] != best
  {
    var all' := s.all[s.heap[i] := node];
    var s' := s.(all := all', heap := NodeHeap.Rise(Keys(all'), s.heap, i, s.heap[i]));
    ImproveTree(q, s, best, l, s.heap[i], node);
    OpenModifies(s, i, node);
    assert Live(s') == Live(s)[s.heap[i] := node];
  }

  /** Taking the cheapest open node closes it and makes it the one being expanded. */
  lemma StepPops(q: Goal, s: State, node: Node)
    requires Inv(q, s, -1) && s.heap != [] && node == s.all[s.heap[0]].(open := false, closed := true)
    ensures var s' := s.(all := s.all[s.heap[0] := node], heap := NodeHeap.Pop(Keys(s.all), s.heap));
            && Inv(q, s', s.heap[0]) && s.heap[0] < s.n && Sum(Live(s')) == Sum(Live(s)) && |s'.heap| == |s.heap| - 1
  {
    hide TreeOk, Expanded, Sum;
    OpenPops(s, node);
    var x := s.heap[0];
    var s' := s.(all := s.all[x := node], heap := NodeHeap.Pop(Keys(s.all), s.heap));
    assert Live(s') == Live(s)[x := node];
    SumUpdate(Live(s), x, node);
    TreeRelabels(q, Live(s), x, node);
    ExpandedCloses(q, Live(s), x, node, s.out);
    PlacedStays(q, Live(s), Live(s'));
    if s.out { RefusedStays(q, Live(s), Live(s')); }
  }

  lemma ExpandedCloses(q: Goal, ns: seq<Node>, x: nat, node: Node, out: bool)
    requires Expanded(q, ns, out, -1) && x < |ns| && node == ns[x].(open := false, closed := true)
    ensures Expanded(q, ns[x := node], out, x)
  {
    ExpandedGrows(q, ns, ns[x := node], x, out, x);
  }

  /** The flags play no part in the tree. */
  lemma TreeRelabels(q: Goal, ns: seq<Node>, x: nat, node: Node)
    requires TreeOk(q, ns) && x < |ns| && node == ns[x].(open := node.open, closed := node.closed)
    ensures TreeOk(q, ns[x := node])
  {
    var ns' := ns[x := node];
    var k: nat :| AllReach(ns, k);
    forall i | 0 <= i < |ns| ensures Reaches(ns', i, k) {
      assert Reaches(ns, i, k);
      ReachesRelabels(ns, ns', i, k);
    }
    assert AllReach(ns', k);
    forall i | 0 < i < |ns| ensures ParentOk(q, ns', i) {
      assert ParentOk(q, ns, i);
    }
  }

  lemma {:induction false} ReachesRelabels(ns: seq<Node>, ns': seq<Node>, i: nat, k: nat)
    requires Reaches(ns, i, k) && |ns| == |ns'| && forall j | 0 <= j < |ns| :: ns'[j].pidx == ns[j].pidx
    ensures Reaches(ns', i, k)
    decreases k
  {
    if ns[i].pidx != 0 { ReachesRelabels(ns, ns', ns[i].pidx - 1, k - 1); }
  }

  /** Once all links of the current node are done it joins the expanded ones. */
  lemma StepFinishes(q: Goal, s: State, best: nat)
    requires Inv(q, s, best) && best < s.n && s.all[best].id != q.end
    requires Covered(q, Live(s), s.out, best, |q.g.links(s.all[best].id)|)
    ensures Inv(q, s, -1)
  {
  }

  /** The start node alone. */
  function StartNode(q: Goal): Node {
    Node(q.start, 0, q.startPos, 0, q.m.dist(q.startPos, q.endPos), 0, true, false)
  }

  lemma Started(q: Goal, all: seq<Node>)
    requires all != [] && all[0] == StartNode(q) && q.start != q.end
    ensures Inv(q, State(all, 1, NodeHeap.Push(Keys(all), [], 0), false), -1)
  {
    var s := State(all, 1, NodeHeap.Push(Keys(all), [], 0), false);
    assert Live(s) == [StartNode(q)];
    assert AllReach(Live(s), 0);
    NodeHeap.PushCorrect(Keys(all), [], 0);
  }

  lemma InvTree(q: Goal, s: State, current: int, near: Nearest)
    requires Inv(q, s, current) && NearOk(q, Live(s), near)
    ensures TreeOk(q, Live(s)) && near.node < s.n && near == Nearest(near.node, Remaining(q, Live(s)[near.node]))
  {
  }

  // ---- Expanding one node ----

  /** After the first `j` links of `best`, starting from `s0`. */
  ghost predicate Expanding(q: Goal, s0: State, s: State, best: nat, j: nat) {
    && Inv(q, s, best) && |s.all| == |s0.all| && best < s0.n <= s.n && s0.n <= |s0.all|
    && j <= |q.g.links(s0.all[best].id)|
    && s.all[best] == s0.all[best] && Cheapens(Live(s0), Live(s))
    && Covered(q, Live(s), s.out, best, j)
    && (s == s0.(out := s.out) || Advances(s0, s))
  }

  lemma ExpandingStarts(q: Goal, s: State, best: nat)
    requires Inv(q, s, best) && best < s.n
    ensures Expanding(q, s, s, best, 0)
  {
  }

  lemma ExpandingKeeps(q: Goal, s0: State, s: State, best: nat, j: nat)
    requires Expanding(q, s0, s, best, j)
    ensures Inv(q, s, best) && best < s0.n <= s.n <= |s.all| && s0.n <= |s0.all| && s.all[best] == s0.all[best]
    ensures Cheapens(Live(s0), Live(s))
  {
  }

  lemma ParentStays(q: Goal, s0: State, s: State, best: nat)
    requires Inv(q, s0, best) && best < s0.n && s.n <= |s.all| && Cheapens(Live(s0), Live(s))
    requires s.all[best] == s0.all[best]
    ensures ParentId(Live(s), best) == ParentId(Live(s0), best)
  {
    assert best > 0 ==> ParentOk(q, Live(s0), best);
  }

  lemma ExpandingStep(q: Goal, s0: State, s: State, s': State, best: nat, j: nat)
    requires Expanding(q, s0, s, best, j) && j < |q.g.links(s0.all[best].id)|
    requires Relaxed(q, s, s', best, q.g.links(s0.all[best].id)[j])
    ensures Expanding(q, s0, s', best, j + 1)
  {
    hide Inv, LinkDone, Follows, Sum;
    InvSize(q, s', best);
    InvSize(q, s, best);
    CheapensTrans(Live(s0), Live(s), Live(s'));
    CoveredStays(q, Live(s), Live(s'), s.out, s'.out, best, j);
    assert Covered(q, Live(s'), s'.out, best, j + 1);
  }

  lemma InvSize(q: Goal, s: State, current: int)
    requires Inv(q, s, current)
    ensures s.n <= |s.all| && (s.out ==> s.n == |s.all|)
  {
  }

  lemma ExpandingDone(q: Goal, s0: State, s: State, best: nat)
    requires best < |s0.all| && Expanding(q, s0, s, best, |q.g.links(s0.all[best].id)|) && s0.all[best].id != q.end
    ensures Inv(q, s, -1) && (s == s0.(out := s.out) || Advances(s0, s))
  {
    StepFinishes(q, s, best);
  }

  // ---- Completeness ----

  lemma {:induction false} RouteVisited(q: Goal, s: State, p: seq<nat>)
    requires Inv(q, s, -1) && s.heap == [] && !s.out && Route(q.g, p) && p[0] == q.start
    ensures Visited(Live(s), p[|p| - 1])
    decreases |p|
  {
    if |p| == 1 {
      assert Live(s)[0].id == p[0];
    } else {
      var p' := p[..|p| - 1];
      forall i | 0 <= i < |p'| - 1 ensures Edge(q.g, p'[i], p'[i + 1]) {
        assert Edge(q.g, p[i], p[i + 1]);
      }
      RouteVisited(q, s, p');
      var a, b := p[|p| - 2], p[|p| - 1];
      assert Edge(q.g, p[|p| - 2], p[|p| - 2 + 1]);
      var i :| 0 <= i < s.n && Live(s)[i].id == a;
      assert multiset(s.heap)[i] == 0;
      assert Live(s)[i].closed && Covered(q, Live(s), false, i, |q.g.links(a)|);
      var l :| l in q.g.links(a) && l.ref == b && Follows(q.g, l);
      var k :| Behind(Live(s), i, l, k);
      assert Live(s)[k].id == b;
    }
  }

  /** An exhausted search that never ran out of nodes has seen everything reachable, and not the goal. */
  lemma Exhausted(q: Goal, s: State)
    requires Inv(q, s, -1) && s.heap == [] && !s.out
    ensures !Reachable(q.g, q.start, q.end)
    ensures forall i | 0 <= i < s.n :: s.all[i].id != q.end
  {
    forall i | 0 <= i < s.n ensures s.all[i].id != q.end {
      assert multiset(s.heap)[i] == 0;
      assert Live(s)[i].closed;
    }
    if Reachable(q.g, q.start, q.end) {
      var p :| RouteBetween(q.g, p, q.start, q.end);
      RouteVisited(q, s, p);
      assert false;
    }
  }
}

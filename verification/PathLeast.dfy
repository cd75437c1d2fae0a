/** The route `findPath` returns is a least-cost one when the distance to the goal never overstates a cost. */
module PathLeast {
  import opened DetourNode
  import opened PathTree
  import opened PathSearch

  /** Where a walk is: a polygon, the side it was entered across, and the position in it. */
  datatype Stop = Stop(id: nat, state: nat, pos: int)

  function StopOf(n: Node): Stop { Stop(n.id, n.state, n.pos) }

  function Leg(q: Goal, a: Stop, b: Stop): nat {
    q.m.move(a.pos, b.pos, a.id) + if b.id == q.end then q.m.move(b.pos, q.endPos, b.id) else 0
  }

  function WalkCost(q: Goal, w: seq<Stop>): nat {
    if |w| <= 1 then 0 else WalkCost(q, w[..|w| - 1]) + Leg(q, w[|w| - 2], w[|w| - 1])
  }

  ghost predicate Leads(g: Graph, a: Stop, b: Stop, l: Link) {
    l in g.links(a.id) && Follows(g, l) && l.ref == b.id && CrossSide(l) == b.state
  }

  /** The search never expands back into the polygon it came from, not even across another side. */
  ghost predicate TurnsBack(ns: seq<Node>, a: Stop, b: Stop) {
    exists i :: 0 <= i < |ns| && StopOf(ns[i]) == a && CameFrom(ns, i, b)
  }

  /** Node `i` was reached from the polygon of `b`, entered across another side. */
  ghost predicate CameFrom(ns: seq<Node>, i: int, b: Stop)
    requires 0 <= i < |ns|
  {
    0 < ns[i].pidx <= |ns| && ns[ns[i].pidx - 1].id == b.id && ns[ns[i].pidx - 1].state != b.state
  }

  ghost predicate LeadsTo(g: Graph, a: Stop, b: Stop) { exists l :: Leads(g, a, b, l) }

  ghost predicate StepOk(q: Goal, ns: seq<Node>, a: Stop, b: Stop) { LeadsTo(q.g, a, b) && !TurnsBack(ns, a, b) }

  /** A polygon entered across a side is crossed at the position its node got on the first visit. */
  ghost predicate Agrees(ns: seq<Node>, a: Stop) {
    forall k | 0 <= k < |ns| && Matches(ns[k], a.id, a.state) :: ns[k].pos == a.pos
  }

  ghost predicate Walk(q: Goal, ns: seq<Node>, w: seq<Stop>) {
    && w != [] && w[0] == Stop(q.start, 0, q.startPos)
    && (forall i | 0 <= i < |w| :: Agrees(ns, w[i]))
    && (forall i | 0 <= i < |w| - 1 :: StepOk(q, ns, w[i], w[i + 1]))
  }

  /** Every node has a key of its own. */
  ghost predicate Keyed(ns: seq<Node>) { Distinct(ns, |ns|) }

  /** A node for the stop that the search reached at no more than the cost of walking there. */
  ghost predicate Reached(q: Goal, ns: seq<Node>, w: seq<Stop>, j: nat, k: nat)
    requires j < |w|
  {
    k < |ns| && StopOf(ns[k]) == w[j] && ns[k].cost <= WalkCost(q, w[..j + 1])
  }

  ghost predicate Done(ns: seq<Node>, current: int, k: nat) { k < |ns| && ns[k].closed && k != current }

  /** Up to stop `j` the walk stays among expanded nodes, or it leaves them at some stop before. */
  ghost predicate Frontier(q: Goal, ns: seq<Node>, current: int, w: seq<Stop>, j: nat)
    requires j < |w|
  {
    || (exists k: nat :: Reached(q, ns, w, j, k) && Done(ns, current, k))
    || (exists i: nat, k: nat | i <= j :: Reached(q, ns, w, i, k) && !Done(ns, current, k))
  }

  /** The node behind a link that is not a way back. */
  lemma LinkReaches(q: Goal, ns: seq<Node>, w: seq<Stop>, j: nat, k: nat) returns (n: nat)
    requires Walk(q, ns, w) && Keyed(ns) && j + 1 < |w| && Reached(q, ns, w, j, k)
    requires Covered(q, ns, false, k, |q.g.links(ns[k].id)|)
    ensures Reached(q, ns, w, j + 1, n)
  {
    var a, b := w[j], w[j + 1];
    assert StepOk(q, ns, w[j], w[j + 1]);
    var l :| Leads(q.g, a, b, l);
    var m :| 0 <= m < |q.g.links(a.id)| && q.g.links(a.id)[m] == l;
    assert LinkDone(q, ns, false, k, l);
    var x :| Behind(ns, k, l, x) && ns[x].cost <= ns[k].cost + StepCost(q, ns[k], ns[x]);
    assert CameFrom(ns, k, b) ==> TurnsBack(ns, a, b);
    assert ns[x].state == b.state;
    assert Agrees(ns, w[j + 1]) && Matches(ns[x], b.id, b.state);
    CostNext(q, w, j);
    n := x;
  }

  lemma CostNext(q: Goal, w: seq<Stop>, j: nat)
    requires j + 1 < |w|
    ensures WalkCost(q, w[..j + 2]) == WalkCost(q, w[..j + 1]) + Leg(q, w[j], w[j + 1])
  {
    assert w[..j + 2][..j + 1] == w[..j + 1];
  }

  lemma {:induction false} Follow(q: Goal, s: State, current: int, w: seq<Stop>, j: nat)
    requires Inv(q, s, current) && !s.out && Keyed(Live(s)) && Walk(q, Live(s), w) && j < |w|
    ensures Frontier(q, Live(s), current, w, j)
  {
    hide Walk, Reached, Covered, WalkCost, TreeOk;
    var ns := Live(s);
    if j == 0 {
      StartReached(q, ns, w);
      assert Reached(q, ns, w, 0, 0);
    } else {
      Follow(q, s, current, w, j - 1);
      if k: nat :| Reached(q, ns, w, j - 1, k) && Done(ns, current, k) {
        var n := LinkReaches(q, ns, w, j - 1, k);
        assert Reached(q, ns, w, j, n);
      }
    }
  }

  lemma StartReached(q: Goal, ns: seq<Node>, w: seq<Stop>)
    requires TreeOk(q, ns) && Walk(q, ns, w)
    ensures Reached(q, ns, w, 0, 0)
  {
  }

  // ---- Exhausted: every cost is least ----

  /** Every stop of every walk has been visited, at no more than the cost of walking there. */
  lemma ExhaustedLeast(q: Goal, s: State, w: seq<Stop>, j: nat)
    requires Inv(q, s, -1) && s.heap == [] && !s.out && Keyed(Live(s)) && Walk(q, Live(s), w) && j < |w|
    ensures exists k: nat :: Reached(q, Live(s), w, j, k)
  {
    hide Walk, Inv, WalkCost, Keyed, Done;
    InvSize(q, s, -1);
    AllDone(q, s);
    Follow(q, s, -1, w, j);
    assert forall i: nat, k: nat | i < |w| && Reached(q, Live(s), w, i, k) :: Done(Live(s), -1, k);
  }

  lemma AllDone(q: Goal, s: State)
    requires Inv(q, s, -1) && s.heap == []
    ensures forall k: nat | k < s.n :: Done(Live(s), -1, k)
  {
    forall k: nat | k < s.n ensures Done(Live(s), -1, k) {
      assert multiset(s.heap)[k] == 0;
      assert Live(s)[k].open != Live(s)[k].closed;
    }
  }

  // ---- Goal reached: its cost is least ----

  /** The distance to the goal is never more than a step plus the distance from there. */
  ghost predicate Consistent(q: Goal) {
    && q.m.dist(q.endPos, q.endPos) == 0
    && forall a: int, b: int, id: nat :: q.m.dist(a, q.endPos) <= q.m.move(a, b, id) + q.m.dist(b, q.endPos)
  }

  function Ahead(q: Goal, a: Stop): nat { Heuristic(q, a.id, a.pos) }

  lemma AheadStep(q: Goal, a: Stop, b: Stop)
    requires Consistent(q)
    ensures Ahead(q, a) <= Leg(q, a, b) + Ahead(q, b)
  {
    assert q.m.dist(a.pos, q.endPos) <= q.m.move(a.pos, b.pos, a.id) + q.m.dist(b.pos, q.endPos);
    assert q.m.dist(b.pos, q.endPos) <= q.m.move(b.pos, q.endPos, b.id) + q.m.dist(q.endPos, q.endPos);
  }

  lemma {:induction false} RestCost(q: Goal, w: seq<Stop>, j: nat)
    requires Consistent(q) && j < |w|
    ensures WalkCost(q, w[..j + 1]) + Ahead(q, w[j]) <= WalkCost(q, w) + Ahead(q, w[|w| - 1])
    decreases |w| - j
  {
    if j + 1 < |w| {
      RestCost(q, w, j + 1);
      CostNext(q, w, j);
      AheadStep(q, w[j], w[j + 1]);
    } else {
      assert w[..j + 1] == w;
    }
  }

  /** The node just closed is no dearer than any open one. */
  ghost predicate Cheapest(ns: seq<Node>, best: nat) {
    best < |ns| && forall i | 0 <= i < |ns| && ns[i].open :: ns[best].total <= ns[i].total
  }

  lemma GoalLeast(q: Goal, s: State, best: nat, w: seq<Stop>)
    requires Inv(q, s, best) && !s.out && Keyed(Live(s)) && Cheapest(Live(s), best) && s.all[best].id == q.end
    requires Consistent(q) && w != [] && Walk(q, Live(s), w) && w[|w| - 1].id == q.end
    ensures s.all[best].cost <= WalkCost(q, w)
  {
    hide TreeOk, OpenOk, Walk, WalkCost, Consistent;
    var ns, last := Live(s), |w| - 1;
    Follow(q, s, best, w, last);
    if k: nat :| Reached(q, ns, w, last, k) && Done(ns, best, k) {
      assert false;
    } else {
      var i: nat, k: nat :| i <= last && Reached(q, ns, w, i, k) && !Done(ns, best, k);
      RestCost(q, w, i);
      assert ns[k].total == ns[k].cost + Heuristic(q, ns[k].id, ns[k].pos);
      assert ns[best].total == ns[best].cost;
      assert ns[best].total <= ns[k].total;
    }
  }

  /** No walk to the goal is cheaper than `cost`. */
  ghost predicate LeastCost(q: Goal, ns: seq<Node>, cost: nat) {
    forall w: seq<Stop> | w != [] && Walk(q, ns, w) && w[|w| - 1].id == q.end :: cost <= WalkCost(q, w)
  }

  lemma LeastBelow(q: Goal, ns: seq<Node>, cost: nat, cost': nat)
    requires cost' <= cost
    ensures LeastCost(q, ns, cost) ==> LeastCost(q, ns, cost')
  {
  }

  lemma AloneIsLeast(q: Goal, ns: seq<Node>, a: Stop)
    ensures LeastCost(q, ns, WalkCost(q, [a]))
  {
  }

  /** The top of the heap, once closed. */
  lemma BestIsCheapest(q: Goal, s: State)
    requires Inv(q, s, -1) && s.heap != []
    ensures s.heap[0] < s.n <= |s.all|
    ensures Cheapest(Live(s)[s.heap[0] := s.all[s.heap[0]].(open := false, closed := true)], s.heap[0])
  {
    TopIsLeast(s);
  }

  lemma GoalIsLeast(q: Goal, s: State, best: nat)
    requires Inv(q, s, best) && !s.out && Keyed(Live(s)) && Cheapest(Live(s), best) && s.all[best].id == q.end
    requires Consistent(q)
    ensures LeastCost(q, Live(s), s.all[best].cost)
  {
    hide Inv, Keyed, Consistent, Walk, WalkCost;
    InvSize(q, s, best);
    forall w: seq<Stop> | w != [] && Walk(q, Live(s), w) && w[|w| - 1].id == q.end
      ensures s.all[best].cost <= WalkCost(q, w)
    {
      GoalLeast(q, s, best, w);
    }
  }

  /** Every walk, wherever it ends, ends at a node whose cost it does not undercut. */
  ghost predicate AllLeast(q: Goal, ns: seq<Node>) {
    forall w: seq<Stop>, j: nat | j < |w| && Walk(q, ns, w) :: SomeReached(q, ns, w, j)
  }

  ghost predicate SomeReached(q: Goal, ns: seq<Node>, w: seq<Stop>, j: nat)
    requires j < |w|
  {
    exists k: nat :: Reached(q, ns, w, j, k)
  }

  lemma ExhaustedAllLeast(q: Goal, s: State)
    requires Inv(q, s, -1) && s.heap == [] && !s.out && Keyed(Live(s))
    ensures AllLeast(q, Live(s))
  {
    hide Inv, Keyed, Walk, Reached;
    InvSize(q, s, -1);
    forall w: seq<Stop>, j: nat | j < |w| && Walk(q, Live(s), w) ensures SomeReached(q, Live(s), w, j) {
      ExhaustedLeast(q, s, w, j);
    }
  }

  // ---- The route itself ----

  /** The stops from the root down to node `i`. */
  ghost function Stops(ns: seq<Node>, i: nat, k: nat): (w: seq<Stop>)
    requires Reaches(ns, i, k)
    ensures w != [] && w[|w| - 1] == StopOf(ns[i])
    decreases k
  {
    if ns[i].pidx == 0 then [StopOf(ns[i])] else Stops(ns, ns[i].pidx - 1, k - 1) + [StopOf(ns[i])]
  }

  /** The references of a list of stops. */
  ghost function Ids(w: seq<Stop>): (r: seq<nat>)
    ensures |r| == |w| && forall i | 0 <= i < |w| :: r[i] == w[i].id
  {
    seq(|w|, i requires 0 <= i < |w| => w[i].id)
  }

  /** Every step of a list of stops follows a link across the side of the stop it leads to. */
  ghost predicate Led(q: Goal, w: seq<Stop>) {
    && w != [] && w[0] == Stop(q.start, 0, q.startPos)
    && forall i | 0 <= i < |w| - 1 :: LeadsTo(q.g, w[i], w[i + 1])
  }

  lemma LedAlone(q: Goal)
    ensures Led(q, [Stop(q.start, 0, q.startPos)])
  {
  }

  lemma {:induction false} StopsLed(q: Goal, ns: seq<Node>, i: nat, k: nat)
    requires TreeOk(q, ns) && Reaches(ns, i, k)
    ensures Led(q, Stops(ns, i, k))
    decreases k
  {
    hide StepCost;
    if i == 0 {
      LedAlone(q);
    } else {
      assert ParentOk(q, ns, i);
      var a := ns[ns[i].pidx - 1];
      StopsLed(q, ns, ns[i].pidx - 1, k - 1);
      var l :| l in q.g.links(a.id) && l.ref == ns[i].id && CrossSide(l) == ns[i].state && Follows(q.g, l);
      LedNext(q, Stops(ns, ns[i].pidx - 1, k - 1), StopOf(ns[i]), l);
    }
  }

  lemma LedNext(q: Goal, w: seq<Stop>, a: Stop, l: Link)
    requires Led(q, w) && Leads(q.g, w[|w| - 1], a, l)
    ensures Led(q, w + [a])
  {
    hide Leads;
    var v := w + [a];
    forall i | 0 <= i < |v| - 1 ensures LeadsTo(q.g, v[i], v[i + 1]) {
      if i < |w| - 1 { assert LeadsTo(q.g, w[i], w[i + 1]); }
    }
  }

  /** A route and its stops are read off the parent links of the search, and cost no more than recorded at their end. */
  ghost predicate ReadOff(q: Goal, ns: seq<Node>, last: nat, k: nat, route: seq<nat>, stops: seq<Stop>) {
    && TreeOk(q, ns) && Reaches(ns, last, k) && route == Chain(ns, last, k) && stops == Stops(ns, last, k)
    && WalkCost(q, stops) <= ns[last].cost
  }

  /** Walking down the tree costs no more than the node's recorded cost. */
  lemma {:induction false} TreeCost(q: Goal, ns: seq<Node>, i: nat, k: nat)
    requires TreeOk(q, ns) && Reaches(ns, i, k)
    ensures WalkCost(q, Stops(ns, i, k)) <= ns[i].cost && Ids(Stops(ns, i, k)) == Chain(ns, i, k)
    decreases k
  {
    hide TreeOk, WalkCost, Leg, StepCost, ParentOk, Rooted;
    if ns[i].pidx == 0 {
      CostAlone(q, StopOf(ns[i]));
    } else {
      ParentCheaper(q, ns, i);
      TreeCost(q, ns, ns[i].pidx - 1, k - 1);
      CostAppend(q, Stops(ns, ns[i].pidx - 1, k - 1), StopOf(ns[i]));
    }
  }

  lemma ParentCheaper(q: Goal, ns: seq<Node>, i: nat)
    requires TreeOk(q, ns) && i < |ns| && ns[i].pidx != 0
    ensures 1 <= ns[i].pidx <= |ns|
    ensures ns[ns[i].pidx - 1].cost + Leg(q, StopOf(ns[ns[i].pidx - 1]), StopOf(ns[i])) <= ns[i].cost
  {
    assert ParentOk(q, ns, i);
  }

  lemma CostAlone(q: Goal, a: Stop)
    ensures WalkCost(q, [a]) == 0
  {
  }

  lemma CostAppend(q: Goal, w: seq<Stop>, a: Stop)
    requires w != []
    ensures WalkCost(q, w + [a]) == WalkCost(q, w) + Leg(q, w[|w| - 1], a)
  {
    assert (w + [a])[..|w|] == w;
  }

  /** What is read off the tree is a linked route from the start, and its stops are led there. */
  lemma RouteRead(q: Goal, ns: seq<Node>, last: nat) returns (k: nat, route: seq<nat>, stops: seq<Stop>)
    requires TreeOk(q, ns) && last < |ns|
    ensures ReadOff(q, ns, last, k, route, stops) && Reaches(ns, last, k) && route == Chain(ns, last, k)
    ensures Led(q, stops) && Ids(stops) == route && RouteBetween(q.g, route, q.start, ns[last].id)
    ensures WalkCost(q, stops) <= ns[last].cost
  {
    hide TreeOk, Led, WalkCost, Chain, Stops, RouteBetween;
    k := TreeDepth(q, ns, last);
    route, stops := Chain(ns, last, k), Stops(ns, last, k);
    ChainIsRoute(q, ns, last, k);
    TreeCost(q, ns, last, k);
    StopsLed(q, ns, last, k);
  }

  // ---- Running out of nodes ----

  ghost function KeyOf(n: Node): (nat, nat) { (n.id, n.state) }

  /** The polygons and sides met from the nodes at hand. */
  ghost predicate Meets(q: Goal, ns: seq<Node>, keys: set<(nat, nat)>) {
    && (forall i | 0 <= i < |ns| :: KeyOf(ns[i]) in keys)
    && forall i, l | 0 <= i < |ns| && l in q.g.links(ns[i].id) && Follows(q.g, l) :: (l.ref, CrossSide(l)) in keys
  }

  /** The pool is never too small if it has a slot for every polygon and side that can be met. */
  lemma NeverRunsOut(q: Goal, ns: seq<Node>, keys: set<(nat, nat)>)
    requires Keyed(ns) && Meets(q, ns, keys) && |keys| <= |ns|
    ensures !Refused(q, ns)
  {
    if i: nat, l: Link :| RefusedAt(q, ns, i, l) {
      var key := (l.ref, CrossSide(l));
      forall k | 0 <= k < |ns| ensures KeyOf(ns[k]) in keys - {key} {
        assert !Matches(ns[k], l.ref, CrossSide(l));
      }
      KeysFit(ns, |ns|, keys - {key});
    }
  }

  lemma {:induction false} KeysFit(ns: seq<Node>, n: nat, keys: set<(nat, nat)>)
    requires Keyed(ns) && n <= |ns| && forall k | 0 <= k < n :: KeyOf(ns[k]) in keys
    ensures n <= |keys|
    decreases n
  {
    if n > 0 {
      var key := KeyOf(ns[n - 1]);
      forall k | 0 <= k < n - 1 ensures KeyOf(ns[k]) in keys - {key} {
        assert !Matches(ns[n - 1], ns[k].id, ns[k].state);
      }
      KeysFit(ns, n - 1, keys - {key});
    }
  }
}

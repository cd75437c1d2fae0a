/**
 What `findPath` keeps true of its node pool: parent links form a tree of graph edges rooted at the
 start node, even though closed nodes may be reopened and re-parented.
 */
module PathTree {
  import opened DetourNode

  datatype Link = Link(ref: nat, side: nat)

  /** The mesh as the search sees it: links per polygon, the filter's verdict, and reference validity. */
  datatype Graph = Graph(links: nat -> seq<Link>, pass: nat -> bool, valid: nat -> bool)

  /** Travel cost between two positions across a polygon, scaled distance to a position, portal midpoints. */
  datatype Metric = Metric(move: (int, int, nat) -> nat, dist: (int, int) -> nat, midpoint: (nat, nat) -> int)

  datatype Goal = Goal(g: Graph, m: Metric, start: nat, end: nat, startPos: int, endPos: int)

  // ---- Routes ----

  ghost predicate Follows(g: Graph, l: Link) { l.ref != 0 && g.pass(l.ref) }

  /** A link from `a` to `b` that the filter lets through. */
  ghost predicate Edge(g: Graph, a: nat, b: nat) {
    exists l | l in g.links(a) :: l.ref == b && Follows(g, l)
  }

  ghost predicate Route(g: Graph, p: seq<nat>) {
    p != [] && forall i | 0 <= i < |p| - 1 :: Edge(g, p[i], p[i + 1])
  }

  ghost predicate RouteBetween(g: Graph, p: seq<nat>, a: nat, b: nat) {
    Route(g, p) && p[0] == a && p[|p| - 1] == b
  }

  ghost predicate Reachable(g: Graph, a: nat, b: nat) {
    exists p: seq<nat> :: RouteBetween(g, p, a, b)
  }

  lemma RouteAlone(g: Graph, a: nat)
    ensures Route(g, [a]) && Reachable(g, a, a)
  {
    assert RouteBetween(g, [a], a, a);
  }

  // ---- The parent tree ----

  /** A polygon entered across the side of a tile has a node of its own for that side. */
  function CrossSide(l: Link): nat { if l.side != 0xff then l.side / 2 else 0 }

  /** Node `n` is entered from polygon `a` by a link across the side the node stands for. */
  ghost predicate Entered(g: Graph, a: nat, n: Node) {
    exists l | l in g.links(a) :: l.ref == n.id && CrossSide(l) == n.state && Follows(g, l)
  }

  function StepCost(q: Goal, p: Node, n: Node): nat {
    q.m.move(p.pos, n.pos, p.id) + if n.id == q.end then q.m.move(n.pos, q.endPos, n.id) else 0
  }

  function Heuristic(q: Goal, id: nat, pos: int): nat {
    if id == q.end then 0 else q.m.dist(pos, q.endPos)
  }

  /** The recorded parent has a link into the node, and the node's cost was at least reachable from it. */
  ghost predicate ParentOk(q: Goal, ns: seq<Node>, i: int)
    requires 0 <= i < |ns|
  {
    && 1 <= ns[i].pidx <= |ns|
    && var p := ns[ns[i].pidx - 1]; Entered(q.g, p.id, ns[i]) && p.cost + StepCost(q, p, ns[i]) <= ns[i].cost
  }

  /** Following parents from `i` ends at a parentless node within `k` steps. */
  ghost predicate Reaches(ns: seq<Node>, i: nat, k: nat)
    decreases k
  {
    i < |ns| && (ns[i].pidx == 0 || (k > 0 && Reaches(ns, ns[i].pidx - 1, k - 1)))
  }

  ghost predicate AllReach(ns: seq<Node>, k: nat) {
    forall i | 0 <= i < |ns| :: Reaches(ns, i, k)
  }

  ghost predicate Rooted(q: Goal, ns: seq<Node>) {
    && ns != [] && ns[0].id == q.start && ns[0].state == 0 && ns[0].pos == q.startPos
    && ns[0].pidx == 0 && ns[0].cost == 0
  }

  ghost predicate TreeOk(q: Goal, ns: seq<Node>) {
    && Rooted(q, ns)
    && (forall i | 0 < i < |ns| :: ParentOk(q, ns, i))
    && (exists k: nat :: AllReach(ns, k))
  }

  // ---- Growing the tree ----

  lemma {:induction false} ReachesMore(ns: seq<Node>, i: nat, k: nat, k': nat)
    requires Reaches(ns, i, k) && k <= k'
    ensures Reaches(ns, i, k')
    decreases k
  {
    if ns[i].pidx != 0 { ReachesMore(ns, ns[i].pidx - 1, k - 1, k' - 1); }
  }

  lemma {:induction false} ReachesAppend(ns: seq<Node>, n: Node, i: nat, k: nat)
    requires Reaches(ns, i, k)
    ensures Reaches(ns + [n], i, k)
    decreases k
  {
    if ns[i].pidx != 0 { ReachesAppend(ns, n, ns[i].pidx - 1, k - 1); }
  }

  /** A node seen for the first time hangs below the node being expanded. */
  lemma TreeAdds(q: Goal, ns: seq<Node>, n: Node, best: nat)
    requires TreeOk(q, ns) && best < |ns| && n.pidx == best + 1
    requires Entered(q.g, ns[best].id, n) && n.cost == ns[best].cost + StepCost(q, ns[best], n)
    ensures TreeOk(q, ns + [n])
  {
    var ns' := ns + [n];
    var k: nat :| AllReach(ns, k);
    var k' := k + 1;
    forall i | 0 <= i < |ns'| ensures Reaches(ns', i, k') {
      var j := if i < |ns| then i else best;
      assert Reaches(ns, j, k);
      ReachesAppend(ns, n, j, k);
      ReachesMore(ns', j, k, k');
    }
    assert AllReach(ns', k');
    forall i | 0 < i < |ns'| ensures ParentOk(q, ns', i) {
      assert i < |ns| ==> ParentOk(q, ns, i);
    }
  }

  /** Nodes cheaper than `x` do not have it among their ancestors, so re-parenting `x` leaves them alone. */
  lemma {:induction false} CheaperAvoids(q: Goal, ns: seq<Node>, ns': seq<Node>, x: nat, i: nat, k: nat)
    requires TreeOk(q, ns) && Reaches(ns, i, k) && x < |ns| == |ns'| && ns[i].cost < ns[x].cost
    requires forall j | 0 <= j < |ns| && j != x :: ns'[j] == ns[j]
    ensures Reaches(ns', i, k)
    decreases k
  {
    if ns[i].pidx != 0 {
      assert ParentOk(q, ns, i);
      CheaperAvoids(q, ns, ns', x, ns[i].pidx - 1, k - 1);
    }
  }

  lemma {:induction false} ReachesAround(ns: seq<Node>, ns': seq<Node>, x: nat, i: nat, k: nat, kx: nat)
    requires Reaches(ns, i, k) && x < |ns| == |ns'| && Reaches(ns', x, kx)
    requires forall j | 0 <= j < |ns| && j != x :: ns'[j] == ns[j]
    ensures Reaches(ns', i, k + kx)
    decreases k
  {
    if i == x {
      ReachesMore(ns', x, kx, k + kx);
    } else if ns[i].pidx != 0 {
      ReachesAround(ns, ns', x, ns[i].pidx - 1, k - 1, kx);
    }
  }

  /** A strictly cheaper way to `x` re-parents it without creating a cycle. */
  lemma TreeImproves(q: Goal, ns: seq<Node>, n: Node, x: nat, best: nat)
    requires TreeOk(q, ns) && best < |ns| && x < |ns| && n.pidx == best + 1
    requires n.id == ns[x].id && n.state == ns[x].state && n.pos == ns[x].pos
    requires Entered(q.g, ns[best].id, n) && n.cost == ns[best].cost + StepCost(q, ns[best], n) < ns[x].cost
    ensures TreeOk(q, ns[x := n]) && x != 0 && x != best
  {
    var ns' := ns[x := n];
    var k: nat :| AllReach(ns, k);
    assert Reaches(ns, best, k);
    CheaperAvoids(q, ns, ns', x, best, k);
    assert Reaches(ns', x, k + 1);
    var k' := 2 * k + 1;
    forall i | 0 <= i < |ns'| ensures Reaches(ns', i, k') {
      assert Reaches(ns, i, k);
      ReachesAround(ns, ns', x, i, k, k + 1);
    }
    assert AllReach(ns', k');
    forall i | 0 < i < |ns'| ensures ParentOk(q, ns', i) {
      assert ParentOk(q, ns, i);
    }
  }

  // ---- Reading a path off the tree ----

  /** Polygon references from the root down to `i`. */
  ghost function Chain(ns: seq<Node>, i: nat, k: nat): (p: seq<nat>)
    requires Reaches(ns, i, k)
    ensures p != [] && p[|p| - 1] == ns[i].id
    decreases k
  {
    if ns[i].pidx == 0 then [ns[i].id] else Chain(ns, ns[i].pidx - 1, k - 1) + [ns[i].id]
  }

  lemma {:induction false} ChainIsRoute(q: Goal, ns: seq<Node>, i: nat, k: nat)
    requires TreeOk(q, ns) && Reaches(ns, i, k)
    ensures RouteBetween(q.g, Chain(ns, i, k), q.start, ns[i].id)
    decreases k
  {
    if i == 0 {
    } else {
      assert ParentOk(q, ns, i);
      var p := Chain(ns, ns[i].pidx - 1, k - 1);
      ChainIsRoute(q, ns, ns[i].pidx - 1, k - 1);
      var r := Chain(ns, i, k);
      forall j | 0 <= j < |r| - 1 ensures Edge(q.g, r[j], r[j + 1]) {
        assert j < |p| - 1 ==> Edge(q.g, p[j], p[j + 1]);
      }
    }
  }
}

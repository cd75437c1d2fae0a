/** `dtNavMeshQuery::findPath` and `getPathToNode`, run on the node pool and the open list. */
module PathFinder {
  import opened Basics
  import opened DetourNode
  import opened PathTree
  import opened PathSearch
  import opened PathLeast
  import NodeHeap

  /** `Failure` stands for the invalid-parameter status; the flags of a success are the detail bits. */
  datatype Status = Failure | Success(partial: bool, outOfNodes: bool, tooSmall: bool)

  function MinNat(a: nat, b: nat): nat { if a < b then a else b }

  /** The last entry of a chain is the node itself, the rest is the chain of its parent. */
  lemma ChainUnfold(ns: seq<Node>, x: nat, left: nat, full: seq<nat>, i: nat)
    requires Reaches(ns, x, left) && 0 < i <= |full| && Chain(ns, x, left) == full[..i]
    ensures x < |ns| && full[i - 1] == ns[x].id && (ns[x].pidx == 0 <==> i == 1)
    ensures ns[x].pidx != 0 ==>
              left > 0 && Reaches(ns, ns[x].pidx - 1, left - 1) && Chain(ns, ns[x].pidx - 1, left - 1) == full[..i - 1]
  {
    assert full[..i][i - 1] == full[i - 1] && full[..i][..i - 1] == full[..i - 1];
    if ns[x].pidx != 0 { assert Chain(ns, ns[x].pidx - 1, left - 1) != []; }
  }

  class Finder {
    const pool: NodePool
    const open: NodeQueue

    constructor (pool: NodePool, open: NodeQueue)
      requires pool.Valid() && open.Valid() && open.nodes == pool.nodes && open.heap.Length > pool.maxNodes
      requires open.heap != pool.first && open.heap != pool.next
      ensures this.pool == pool && this.open == open && Valid()
    {
      this.pool, this.open := pool, open;
    }

    ghost predicate Valid()
      reads pool, pool.nodes, pool.first, pool.next, open, open.heap
    {
      && pool.Valid() && open.Valid() && open.nodes == pool.nodes && open.heap.Length > pool.maxNodes
      && open.heap != pool.first && open.heap != pool.next
    }

    ghost function Snapshot(out: bool): State
      reads pool, pool.nodes, open, open.heap
      requires open.size <= open.heap.Length
    {
      State(pool.nodes[..], pool.count, open.Contents(), out)
    }

    /** Write a node's new data and push it. */
    method StorePush(x: nat, node: Node)
      requires Valid() && x < pool.count && Matches(node, pool.nodes[x].id, pool.nodes[x].state)
      requires open.size < open.heap.Length
      modifies pool.nodes, open`size, open.heap
      ensures Valid() && pool.nodes[..] == old(pool.nodes[..])[x := node]
      ensures open.Contents() == NodeHeap.Push(Keys(pool.nodes[..]), old(open.Contents()), x)
    {
      pool.SetNode(x, node);
      open.Push(x);
    }

    /** Write an open node's new data and move it up the heap. */
    method StoreModify(x: nat, node: Node) returns (ghost i: nat)
      requires Valid() && x < pool.count && Matches(node, pool.nodes[x].id, pool.nodes[x].state)
      requires x in open.Contents()
      modifies pool.nodes, open.heap
      ensures Valid() && pool.nodes[..] == old(pool.nodes[..])[x := node]
      ensures i < |old(open.Contents())| && old(open.Contents())[i] == x < |Keys(pool.nodes[..])|
      ensures NodeHeap.InBounds(Keys(pool.nodes[..]), old(open.Contents()))
      ensures open.Contents() == NodeHeap.Rise(Keys(pool.nodes[..]), old(open.Contents()), i, x)
    {
      hide NodeHeap.Rise, Chained, Distinct, Keys;
      pool.SetNode(x, node);
      ghost var h := open.Contents();
      open.Modify(x);
      i :| 0 <= i < |h| && h[i] == x && open.Contents() == NodeHeap.Rise(Keys(pool.nodes[..]), h, i, x);
    }

    /** A node just allocated for the neighbour behind `l` enters the open list. */
    method Add(q: Goal, ghost s: State, best: nat, ghost l: Link, x: nat, node: Node)
      requires Valid() && Inv(q, s, best) && best < s.n == x < |s.all| == pool.maxNodes
      requires l in q.g.links(s.all[best].id) && Follows(q.g, l)
      requires pool.count == s.n + 1 && open.Contents() == s.heap && pool.nodes[..] == s.all[x := pool.nodes[x]]
      requires Matches(node, pool.nodes[x].id, pool.nodes[x].state)
      requires node == Updated(q, s.all[best], best, l.ref, CrossSide(l), q.m.midpoint(s.all[best].id, l.ref))
      modifies pool.nodes, open`size, open.heap
      ensures Valid() && Relaxed(q, s, Snapshot(s.out), best, l) && pool.nodes[x] == node
    {
      hide Inv, Relaxed, NodeHeap.Push;
      ghost var all' := s.all[x := node];
      ghost var s' := State(all', s.n + 1, NodeHeap.Push(Keys(all'), s.heap, x), s.out);
      StepAdds(q, s, best, l, node);
      HeapFits(q, s, best);
      StorePush(x, node);
      assert pool.nodes[..] == all';
      assert Snapshot(s.out) == s';
    }

    /** A cheaper way to a node seen before: an open one moves up the heap, a closed one reopens. */
    method Improve(q: Goal, ghost s: State, best: nat, ghost l: Link, x: nat, node: Node)
      requires Valid() && Inv(q, s, best) && s == Snapshot(s.out) && best < s.n && x < s.n
      requires l in q.g.links(s.all[best].id) && Follows(q.g, l)
      requires Matches(s.all[x], l.ref, CrossSide(l)) && node.total < s.all[x].total
      requires node == Updated(q, s.all[best], best, l.ref, CrossSide(l), s.all[x].pos)
      modifies pool.nodes, open`size, open.heap
      ensures Valid() && Relaxed(q, s, Snapshot(s.out), best, l) && pool.nodes[x] == node
    {
      hide Inv, Relaxed, NodeHeap.Push, NodeHeap.Rise, Chained, Distinct;
      ghost var all' := s.all[x := node];
      HeapFits(q, s, best);
      if pool.nodes[x].open {
        ghost var i := StoreModify(x, node);
        StepDecreases(q, s, best, l, i, node);
        assert Snapshot(s.out) == s.(all := all', heap := NodeHeap.Rise(Keys(all'), s.heap, i, x));
      } else {
        StepReopens(q, s, best, l, x, node);
        StorePush(x, node);
        assert Snapshot(s.out) == s.(all := all', heap := NodeHeap.Push(Keys(all'), s.heap, x));
      }
    }

    /** `getNode` on the search's pool; the open list is not touched. */
    method Obtain(ref: nat, state: nat) returns (r: Option<nat>)
      requires Valid()
      modifies pool`count, pool.nodes, pool.first, pool.next
      ensures Valid() && open.Contents() == old(open.Contents()) && old(pool.count) <= pool.count
      ensures r.Some? ==> r.value < pool.count && Matches(pool.nodes[r.value], ref, state)
      ensures r.None? ==> pool.count == old(pool.count) == pool.maxNodes
      ensures r.None? ==> forall k | 0 <= k < pool.count :: !Matches(pool.nodes[k], ref, state)
      ensures pool.count == old(pool.count) ==> pool.nodes[..] == old(pool.nodes[..])
      ensures pool.count != old(pool.count) ==>
                && pool.count == old(pool.count) + 1 && r == Some(old(pool.count))
                && pool.nodes[..] == old(pool.nodes[..])[old(pool.count) := pool.nodes[old(pool.count)]]
                && !pool.nodes[old(pool.count)].open && !pool.nodes[old(pool.count)].closed
    {
      r := pool.GetNode(ref, state);
    }

    /** The polygon the search came from, 0 at the start. */
    method ParentRef(q: Goal, best: nat, ghost out: bool) returns (ref: nat)
      requires Valid() && Inv(q, Snapshot(out), best) && best < pool.count
      ensures ref == ParentId(pool.nodes[..pool.count], best)
    {
      hide Inv, ParentId, Chained, Distinct, NodeHeap.Ordered;
      ref := 0;
      ParentIn(q, Snapshot(out), best);
      if pool.nodes[best].pidx != 0 {
        ref := pool.nodes[pool.nodes[best].pidx - 1].id;
      }
    }

    /** The second half of the source's loop body, for the node found or allocated for the neighbour. */
    method Visit(q: Goal, ghost s: State, best: nat, l: Link, x: nat, crossSide: nat) returns (heuristic: Option<nat>)
      requires Valid() && Inv(q, s, best) && best < s.n <= pool.count && |s.all| == pool.maxNodes
      requires open.Contents() == s.heap && l in q.g.links(s.all[best].id) && Follows(q.g, l)
      requires x < pool.count && Matches(pool.nodes[x], l.ref, crossSide) && crossSide == CrossSide(l)
      requires pool.count == s.n ==> pool.nodes[..] == s.all
      requires pool.count != s.n ==>
                 && pool.count == s.n + 1 && x == s.n && pool.nodes[..] == s.all[x := pool.nodes[x]]
                 && !pool.nodes[x].open && !pool.nodes[x].closed
      modifies pool.nodes, open`size, open.heap
      ensures Valid() && Relaxed(q, s, Snapshot(s.out), best, l)
      ensures heuristic.Some? ==> heuristic.value == Remaining(q, pool.nodes[x])
      ensures pool.count != s.n ==> heuristic.Some?
    {
      hide Inv, Relaxed;
      HeapFits(q, s, best);
      var bestNode, node := pool.nodes[best], pool.nodes[x];
      assert bestNode == s.all[best];
      if !node.open && !node.closed {
        // first visit: the position is the middle of the portal
        var pos := q.m.midpoint(bestNode.id, l.ref);
        heuristic := Some(Heuristic(q, l.ref, pos));
        Add(q, s, best, l, x, Updated(q, bestNode, best, l.ref, crossSide, pos));
      } else {
        assert Snapshot(s.out) == s;
        var updated := Updated(q, bestNode, best, l.ref, crossSide, node.pos);
        if updated.total >= node.total {
          SkipSettled(q, s, best, l, x);
          StepSkips(q, s, best, l);
          heuristic := None;
        } else {
          Improve(q, s, best, l, x, updated);
          heuristic := Some(Heuristic(q, l.ref, node.pos));
        }
      }
    }

    /** The source's loop body for one link of `best`. */
    method Relax(q: Goal, best: nat, parentRef: nat, l: Link, out0: bool, near0: Nearest)
      returns (out: bool, near: Nearest)
      requires Valid() && Inv(q, Snapshot(out0), best) && best < pool.count
      requires NearOk(q, pool.nodes[..pool.count], near0)
      requires l in q.g.links(pool.nodes[best].id) && parentRef == ParentId(pool.nodes[..pool.count], best)
      modifies pool`count, pool.nodes, pool.first, pool.next, open`size, open.heap
      ensures Valid() && NearOk(q, pool.nodes[..pool.count], near)
      ensures Relaxed(q, old(Snapshot(out0)), Snapshot(out), best, l)
    {
      hide Inv, Relaxed, NearOk, Chained, Distinct, ParentId, NodeHeap.Ordered;
      out, near := out0, near0;
      ghost var s := Snapshot(out0);
      HeapFits(q, s, best);
      if l.ref == 0 || l.ref == parentRef || !q.g.pass(l.ref) {
        LinkSkipped(q, s, best, l);
        return;
      }
      var crossSide := if l.side != 0xff then l.side / 2 else 0;
      var got := Obtain(l.ref, crossSide);
      if got.None? {
        out := true;
        StepRunsOut(q, s, best, l);
        assert Snapshot(out) == s.(out := true) && Live(s) == pool.nodes[..pool.count];
        return;
      }
      var heuristic := Visit(q, s, best, l, got.value, crossSide);
      NearStep(q, s, Snapshot(out), best, l, near, got.value, heuristic);
      near := Nearer(near, got.value, heuristic);
    }

    /** The source's loop over the links of the node just closed. */
    method Expand(q: Goal, best: nat, out0: bool, near0: Nearest) returns (out: bool, near: Nearest)
      requires Valid() && Inv(q, Snapshot(out0), best) && best < pool.count
      requires NearOk(q, pool.nodes[..pool.count], near0)
      requires pool.nodes[best].id != q.end
      modifies pool`count, pool.nodes, pool.first, pool.next, open`size, open.heap
      ensures Valid() && NearOk(q, pool.nodes[..pool.count], near) && Inv(q, Snapshot(out), -1)
      ensures Snapshot(out) == old(Snapshot(out0)).(out := out) || Advances(old(Snapshot(out0)), Snapshot(out))
    {
      hide Inv, Relaxed, NearOk, Advances, Expanding, ParentId, Cheapens, Chained, Distinct, NodeHeap.Ordered;
      out, near := out0, near0;
      ghost var s0 := Snapshot(out0);
      HeapFits(q, s0, best);
      ExpandingStarts(q, s0, best);
      var parentRef := ParentRef(q, best, out0);
      var links := q.g.links(pool.nodes[best].id);
      for j := 0 to |links|
        invariant Valid() && NearOk(q, pool.nodes[..pool.count], near)
        invariant Expanding(q, s0, Snapshot(out), best, j)
      {
        ghost var s := Snapshot(out);
        ExpandingKeeps(q, s0, s, best, j);
        ParentStays(q, s0, s, best);
        out, near := Relax(q, best, parentRef, links[j], out, near);
        ExpandingStep(q, s0, s, Snapshot(out), best, j);
      }
      ExpandingDone(q, s0, Snapshot(out), best);
    }

    /** Clears the pool and the open list and opens the start node. */
    method Start(q: Goal)
      requires Valid() && q.start != q.end
      modifies pool`count, pool.nodes, pool.first, pool.next, open`size, open.heap
      ensures Valid() && pool.count == 1 && pool.nodes[0] == StartNode(q) && Inv(q, Snapshot(false), -1)
    {
      hide Inv, Chained, Distinct, NodeHeap.Push;
      pool.Clear();
      open.Clear();
      var got := pool.GetNode(q.start, 0);
      StorePush(0, StartNode(q));
      Started(q, pool.nodes[..]);
      assert Snapshot(false) == State(pool.nodes[..], 1, NodeHeap.Push(Keys(pool.nodes[..]), [], 0), false);
    }

    /** Takes the cheapest node off the open list and closes it. */
    method CloseBest(q: Goal, ghost out: bool, ghost near: Nearest) returns (best: nat)
      requires Valid() && Inv(q, Snapshot(out), -1) && NearOk(q, pool.nodes[..pool.count], near) && open.size > 0
      modifies pool.nodes, open`size, open.heap
      ensures Valid() && best < pool.count && Inv(q, Snapshot(out), best)
      ensures |open.Contents()| == old(|open.Contents()|) - 1
      ensures Sum(pool.nodes[..pool.count]) == old(Sum(pool.nodes[..pool.count]))
      ensures NearOk(q, pool.nodes[..pool.count], near) && Cheapest(pool.nodes[..pool.count], best)
    {
      hide Inv, NodeHeap.Pop, Sum, Chained, Distinct, NearOk, Cheapest;
      ghost var s := Snapshot(out);
      BestIsCheapest(q, s);
      ghost var x := s.heap[0];
      ghost var closed := s.all[x].(open := false, closed := true);
      HeapFits(q, s, -1);
      StepPops(q, s, closed);
      best := open.Pop();
      pool.SetNode(best, pool.nodes[best].(open := false, closed := true));
      assert pool.nodes[..] == s.all[x := closed];
      assert Snapshot(out) == s.(all := s.all[x := closed], heap := NodeHeap.Pop(Keys(s.all), s.heap));
      NearRelabels(q, Live(s), x, closed, near);
      assert pool.nodes[..pool.count] == Live(s)[x := closed];
    }

    lemma KeysDistinct()
      requires Valid()
      ensures Keyed(pool.nodes[..pool.count])
    {
    }

    /**
     The search loop.  It terminates because every round either allocates a node, or lowers the sum of
     the totals, or leaves both and shortens the open list.
     */
    method Search(q: Goal) returns (last: nat, out: bool)
      requires Valid() && q.start != q.end
      modifies pool`count, pool.nodes, pool.first, pool.next, open`size, open.heap
      ensures Valid() && last < pool.count && TreeOk(q, pool.nodes[..pool.count])
      ensures Recorded(q, pool.nodes[..pool.count])
      ensures out ==> pool.count == pool.maxNodes && Refused(q, pool.nodes[..pool.count])
      ensures pool.nodes[last].id != q.end ==> SearchedOut(q, pool.nodes[..pool.count], out)
      ensures pool.nodes[last].id != q.end && !out ==>
                !Reachable(q.g, q.start, q.end) && AllLeast(q, pool.nodes[..pool.count])
      ensures pool.nodes[last].id == q.end && !out && Consistent(q) ==>
                LeastCost(q, pool.nodes[..pool.count], pool.nodes[last].cost)
      ensures pool.nodes[last].id != q.end ==>
                NearOk(q, pool.nodes[..pool.count], Nearest(last, Remaining(q, pool.nodes[last])))
    {
      hide Inv, Sum, Chained, TreeOk, Consistent, LeastCost, AllLeast, Cheapest, Recorded, Refused, SearchedOut;
      Start(q);
      out := false;
      var near := Nearest(0, pool.nodes[0].total);
      assert NearOk(q, [StartNode(q)], near) && pool.nodes[..1] == [StartNode(q)];
      while open.size > 0
        invariant Valid() && NearOk(q, pool.nodes[..pool.count], near) && Inv(q, Snapshot(out), -1)
        decreases pool.maxNodes - pool.count, Sum(pool.nodes[..pool.count]), open.size
      {
        var best := CloseBest(q, out, near);
        if pool.nodes[best].id == q.end {
          InvTree(q, Snapshot(out), best, near);
          InvRecorded(q, Snapshot(out), best);
          KeysDistinct();
          if !out && Consistent(q) { GoalIsLeast(q, Snapshot(out), best); }
          return best, out;
        }
        out, near := Expand(q, best, out, near);
      }
      InvTree(q, Snapshot(out), -1, near);
      InvRecorded(q, Snapshot(out), -1);
      EmptySearchedOut(q, Snapshot(out));
      KeysDistinct();
      if !out {
        Exhausted(q, Snapshot(out));
        ExhaustedAllLeast(q, Snapshot(out));
      }
      last := near.node;
    }

    /** `getPathToNode`: the references from the root to `endNode`, cut to the front of the buffer. */
    method GetPathToNode(endNode: nat, path: array<nat>, maxPath: nat, ghost k: nat)
      returns (pathCount: nat, tooSmall: bool)
      requires Valid() && endNode < pool.count && maxPath <= path.Length
      requires Reaches(pool.nodes[..pool.count], endNode, k)
      modifies path
      ensures var full := Chain(old(pool.nodes[..pool.count]), endNode, k);
              && pathCount == MinNat(|full|, maxPath) && tooSmall == (|full| > maxPath)
              && path[..pathCount] == full[..pathCount]
    {
      var length := ChainLength(endNode, k);
      // Skip what the buffer cannot hold, then write the rest back to front.
      var cur, left := SkipBack(endNode, length, MinNat(length, maxPath), k);
      WritePath(cur, MinNat(length, maxPath), path, Chain(pool.nodes[..pool.count], endNode, k), left);
      pathCount, tooSmall := MinNat(length, maxPath), length > maxPath;
    }

    method ChainLength(endNode: nat, ghost k: nat) returns (length: nat)
      requires Valid() && endNode < pool.count && Reaches(pool.nodes[..pool.count], endNode, k)
      ensures length == |Chain(pool.nodes[..pool.count], endNode, k)|
    {
      hide Chained, Distinct;
      ghost var ns := pool.nodes[..pool.count];
      var cur: nat := endNode + 1;
      ghost var left: nat := k;
      length := 0;
      while cur != 0
        invariant cur == 0 ==> length == |Chain(ns, endNode, k)|
        invariant cur != 0 ==>
                    Reaches(ns, cur - 1, left) && length + |Chain(ns, cur - 1, left)| == |Chain(ns, endNode, k)|
        decreases if cur == 0 then 0 else |Chain(ns, cur - 1, left)|
      {
        length := length + 1;
        left := if ns[cur - 1].pidx == 0 then 0 else left - 1;
        cur := pool.nodes[cur - 1].pidx;
      }
    }

    /** Node index plus one reached after dropping the last `length - keep` entries of the chain. */
    method SkipBack(endNode: nat, length: nat, keep: nat, ghost k: nat) returns (cur: nat, ghost left: nat)
      requires Valid() && endNode < pool.count && Reaches(pool.nodes[..pool.count], endNode, k)
      requires keep <= length == |Chain(pool.nodes[..pool.count], endNode, k)|
      ensures cur == 0 <==> keep == 0
      ensures cur != 0 ==>
                && Reaches(pool.nodes[..pool.count], cur - 1, left)
                && Chain(pool.nodes[..pool.count], cur - 1, left) == Chain(pool.nodes[..pool.count], endNode, k)[..keep]
    {
      hide Chained, Distinct, Chain, NodeHeap.Ordered;
      ghost var ns := pool.nodes[..pool.count];
      ghost var full := Chain(ns, endNode, k);
      cur, left := endNode + 1, k;
      var writeCount := length;
      while writeCount > keep
        invariant keep <= writeCount <= length && (writeCount == 0 <==> cur == 0)
        invariant cur != 0 ==> Reaches(ns, cur - 1, left) && Chain(ns, cur - 1, left) == full[..writeCount]
      {
        ChainUnfold(ns, cur - 1, left, full, writeCount);
        left := if ns[cur - 1].pidx == 0 then 0 else left - 1;
        cur := pool.nodes[cur - 1].pidx;
        writeCount := writeCount - 1;
      }
    }

    method WritePath(start: nat, writeCount: nat, path: array<nat>, ghost full: seq<nat>, ghost fuel: nat)
      requires pool.count <= pool.nodes.Length && writeCount <= path.Length && writeCount <= |full|
      requires start == 0 <==> writeCount == 0
      requires start != 0 ==>
                 && Reaches(pool.nodes[..pool.count], start - 1, fuel)
                 && Chain(pool.nodes[..pool.count], start - 1, fuel) == full[..writeCount]
      modifies path
      ensures path[..writeCount] == full[..writeCount]
    {
      hide Chain, Reaches;
      ghost var ns := pool.nodes[..pool.count];
      var cur: nat, i: nat := start, writeCount;
      ghost var left: nat := fuel;
      while i > 0
        invariant i <= writeCount && (i == 0 <==> cur == 0) && ns == pool.nodes[..pool.count]
        invariant cur != 0 ==> Reaches(ns, cur - 1, left) && Chain(ns, cur - 1, left) == full[..i]
        invariant forall j | i <= j < writeCount :: path[j] == full[j]
      {
        ChainUnfold(ns, cur - 1, left, full, i);
        i := i - 1;
        path[i] := pool.nodes[cur - 1].id;
        left := if ns[cur - 1].pidx == 0 then 0 else left - 1;
        cur := pool.nodes[cur - 1].pidx;
      }
    }

    /**
     `findPath`.  A success hands back a prefix of a real route from the start; the route ends at the goal
     exactly when PARTIAL is unset, and as long as the pool was large enough PARTIAL is set exactly when the
     goal cannot be reached.
     */
    method FindPath(q: Goal, path: array<nat>, maxPath: int)
      returns (status: Status, pathCount: nat, ghost full: seq<nat>, ghost stops: seq<Stop>, ghost last: nat,
               ghost k: nat)
      requires Valid() && maxPath <= path.Length
      requires path != pool.first && path != pool.next && path != open.heap
      modifies pool`count, pool.nodes, pool.first, pool.next, open`size, open.heap, path
      ensures Valid()
      ensures status.Failure? <==> !q.g.valid(q.start) || !q.g.valid(q.end) || maxPath <= 0
      ensures status.Failure? ==> pathCount == 0
      ensures status.Success? ==>
                && Route(q.g, full) && full[0] == q.start && (status.partial <==> full[|full| - 1] != q.end)
                && pathCount == MinNat(|full|, maxPath) && status.tooSmall == (|full| > maxPath)
                && path[..pathCount] == full[..pathCount]
                && (!status.outOfNodes ==> (status.partial <==> !Reachable(q.g, q.start, q.end)))
      ensures status.Success? && status.partial ==> EndsNearest(q, pool.nodes[..pool.count], full)
      ensures status.Success? && q.start != q.end ==> Recorded(q, pool.nodes[..pool.count])
      ensures status.Success? && status.outOfNodes ==>
                pool.count == pool.maxNodes && Refused(q, pool.nodes[..pool.count])
      ensures status.Success? && status.partial ==> SearchedOut(q, pool.nodes[..pool.count], status.outOfNodes)
      ensures status.Success? ==> Ids(stops) == full && Led(q, stops)
      ensures status.Success? && q.start == q.end ==> full == [q.start]
      ensures status.Success? && q.start != q.end ==> ReadOff(q, pool.nodes[..pool.count], last, k, full, stops)
      ensures status.Success? && !status.partial && !status.outOfNodes && Consistent(q) ==>
                LeastCost(q, pool.nodes[..pool.count], WalkCost(q, stops))
      ensures status.Success? && !status.partial && !status.outOfNodes && Consistent(q) && q.start != q.end ==>
                last < pool.count && LeastCost(q, pool.nodes[..pool.count], pool.nodes[last].cost)
      ensures status.Success? && status.partial && !status.outOfNodes ==> AllLeast(q, pool.nodes[..pool.count])
    {
      hide Chained, Distinct, Route, NodeHeap.Ordered, Stops, EndsNearest, TreeOk, ParentOk, LeastCost, AllLeast;
      hide Consistent, WalkCost, Led, ReadOff, Reaches, Chain, Recorded, Refused, SearchedOut;
      pathCount, full, stops, last, k := 0, [], [], 0, 0;
      if !q.g.valid(q.start) || !q.g.valid(q.end) || maxPath <= 0 {
        return Failure, 0, [], [], 0, 0;
      }
      if q.start == q.end {
        path[0] := q.start;
        full, stops := [q.start], [Stop(q.start, 0, q.startPos)];
        RouteAlone(q.g, q.start);
        AloneIsLeast(q, pool.nodes[..pool.count], stops[0]);
        LedAlone(q);
        return Success(false, false, false), 1, full, stops, 0, 0;
      }
      var lastBest, out := Search(q);
      last := lastBest;
      ghost var ns := pool.nodes[..pool.count];
      k, full, stops := RouteRead(q, ns, last);
      LeastBelow(q, ns, pool.nodes[last].cost, WalkCost(q, stops));
      var tooSmall;
      pathCount, tooSmall := GetPathToNode(lastBest, path, maxPath, k);
      status := Success(pool.nodes[lastBest].id != q.end, out, tooSmall);
      if status.partial { NearestEnds(q, ns, last, full); }
      assert pool.nodes[last].id == q.end ==> RouteBetween(q.g, full, q.start, q.end);
    }
  }
}

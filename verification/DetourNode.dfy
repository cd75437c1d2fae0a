/**
 `dtNodePool` and `dtNodeQueue`.  A node pointer of the source is an index into the pool's node array;
 `pidx` keeps the source's encoding, 0 for none and index + 1 otherwise.
 */
module DetourNode {
  import opened Basics
  import NodeHeap

  const NULL_IDX := 0xffff

  /** Costs are naturals; `open` and `closed` are the two flag bits the searches use. */
  datatype Node = Node(id: nat, state: nat, pos: int, cost: nat, total: nat, pidx: nat, open: bool, closed: bool)

  ghost function Keys(ns: seq<Node>): (k: seq<int>)
    ensures |k| == |ns| && forall i | 0 <= i < |ns| :: k[i] == ns[i].total
  {
    seq(|ns|, i requires 0 <= i < |ns| => ns[i].total)
  }

  ghost predicate Matches(n: Node, id: nat, state: nat) { n.id == id && n.state == state }

  // ---- Hash chains as values ----

  /** The most recently allocated node among the first `n` that hashes to bucket `b`. */
  ghost function Latest(bucket: nat -> nat, ns: seq<Node>, n: nat, b: nat): (j: nat)
    requires n <= |ns| && n <= NULL_IDX
    ensures j == NULL_IDX || (j < n && bucket(ns[j].id) == b)
    ensures forall i | 0 <= i < n && bucket(ns[i].id) == b :: j != NULL_IDX && i <= j
    decreases n
  {
    if n == 0 then NULL_IDX else if bucket(ns[n - 1].id) == b then n - 1 else Latest(bucket, ns, n - 1, b)
  }

  /**
   Chains run from newer to older nodes, so they are acyclic and disjoint: the head of a bucket is its
   latest node and each live node points at the latest earlier one of its bucket.  Entries of `next` at
   or beyond `n` may be stale.
   */
  ghost predicate Chained(bucket: nat -> nat, ns: seq<Node>, n: nat, first: seq<nat>, next: seq<nat>) {
    && n <= |ns| == |next| <= NULL_IDX
    && (forall b | 0 <= b < |first| :: first[b] == Latest(bucket, ns, n, b))
    && (forall i | 0 <= i < n :: next[i] == Latest(bucket, ns, i, bucket(ns[i].id)))
  }

  lemma HeadIs(bucket: nat -> nat, ns: seq<Node>, n: nat, first: seq<nat>, next: seq<nat>, b: nat)
    requires Chained(bucket, ns, n, first, next) && b < |first|
    ensures n <= |ns| == |next| <= NULL_IDX && first[b] == Latest(bucket, ns, n, b)
  {
  }

  lemma NextIs(bucket: nat -> nat, ns: seq<Node>, n: nat, first: seq<nat>, next: seq<nat>, i: nat)
    requires Chained(bucket, ns, n, first, next) && i < n
    ensures n <= |ns| == |next| <= NULL_IDX && next[i] == Latest(bucket, ns, i, bucket(ns[i].id))
  {
  }

  ghost predicate Distinct(ns: seq<Node>, n: nat)
    requires n <= |ns|
  {
    forall i, j | 0 <= i < j < n :: !Matches(ns[j], ns[i].id, ns[i].state)
  }

  /** Later slots do not influence the chains of earlier nodes. */
  lemma {:induction false} LatestFrame(bucket: nat -> nat, ns: seq<Node>, ns': seq<Node>, n: nat, b: nat)
    requires n <= |ns| && n <= |ns'| && n <= NULL_IDX
    requires forall i | 0 <= i < n :: ns[i].id == ns'[i].id
    ensures Latest(bucket, ns, n, b) == Latest(bucket, ns', n, b)
    decreases n
  {
    if n > 0 { LatestFrame(bucket, ns, ns', n - 1, b); }
  }

  /** Chains only depend on the ids of the live nodes. */
  lemma ChainFrame(bucket: nat -> nat, ns: seq<Node>, ns': seq<Node>, n: nat, first: seq<nat>, next: seq<nat>)
    requires Chained(bucket, ns, n, first, next) && |ns'| == |ns|
    requires forall i | 0 <= i < n :: ns[i].id == ns'[i].id
    ensures Chained(bucket, ns', n, first, next)
  {
    forall b | 0 <= b < |first| ensures first[b] == Latest(bucket, ns', n, b) {
      LatestFrame(bucket, ns, ns', n, b);
    }
    forall i | 0 <= i < n ensures next[i] == Latest(bucket, ns', i, bucket(ns'[i].id)) {
      LatestFrame(bucket, ns, ns', i, bucket(ns[i].id));
    }
  }

  /** Linking slot `n` at the head of its bucket extends the chains by that node. */
  lemma ChainExtends(bucket: nat -> nat, ns: seq<Node>, n: nat, first: seq<nat>, next: seq<nat>, node: Node)
    requires Chained(bucket, ns, n, first, next) && n < |ns| && bucket(node.id) < |first|
    ensures var b := bucket(node.id);
            Chained(bucket, ns[n := node], n + 1, first[b := n], next[n := first[b]])
  {
    ChainFrame(bucket, ns, ns[n := node], n, first, next);
  }

  class NodePool {
    const nodes: array<Node>
    const first: array<nat>
    const next: array<nat>
    const maxNodes: nat
    const bucket: nat -> nat   // dtHashRef(id) & (hashSize - 1)
    var count: nat

    constructor (maxNodes: nat, hashSize: nat, bucket: nat -> nat, blank: Node)
      requires 0 < maxNodes <= NULL_IDX && 0 < hashSize && forall id :: bucket(id) < hashSize
      ensures Valid() && count == 0 && fresh(nodes) && fresh(first) && fresh(next)
      ensures this.maxNodes == maxNodes && this.bucket == bucket
    {
      this.maxNodes, this.bucket := maxNodes, bucket;
      nodes := new Node[maxNodes](_ => blank);
      first := new nat[hashSize](_ => NULL_IDX);
      next := new nat[maxNodes](_ => NULL_IDX);
      count := 0;
    }

    ghost predicate Valid()
      reads this, nodes, first, next
    {
      && 0 < maxNodes && count <= nodes.Length == maxNodes && first != next
      && (forall id :: bucket(id) < first.Length)
      && Chained(bucket, nodes[..], count, first[..], next[..])
      && Distinct(nodes[..], count)
    }

    method Clear()
      requires Valid()
      modifies this`count, first
      ensures Valid() && count == 0
    {
      for b := 0 to first.Length
        invariant forall c | 0 <= c < b :: first[c] == NULL_IDX
      {
        first[b] := NULL_IDX;
      }
      count := 0;
    }

    /** `findNode`: the chain walk finds the node with this key whenever there is one. */
    method FindNode(id: nat, state: nat) returns (r: Option<nat>)
      requires Valid()
      ensures r.Some? ==> r.value < count && Matches(nodes[r.value], id, state)
      ensures r.None? ==> forall i | 0 <= i < count :: !Matches(nodes[i], id, state)
    {
      hide Chained, Distinct, Latest;
      ghost var ns, b := nodes[..], bucket(id);
      var i: nat := first[bucket(id)];
      HeadIs(bucket, ns, count, first[..], next[..], b);
      while i != NULL_IDX
        invariant i == NULL_IDX || (i < count <= |ns| && bucket(ns[i].id) == b)
        invariant forall j | 0 <= j < count && Matches(ns[j], id, state) :: i != NULL_IDX && j <= i
        decreases if i == NULL_IDX then 0 else i + 1
      {
        if nodes[i].id == id && nodes[i].state == state {
          return Some(i);
        }
        NextIs(bucket, ns, count, first[..], next[..], i);
        i := next[i];
      }
      return None;
    }

    /**
     `getNode`: the pool is a map from (id, state) to node.  An existing key gives its node back
     untouched, a new key appends one unflagged node, and only a full pool refuses.
     */
    method GetNode(id: nat, state: nat) returns (r: Option<nat>)
      requires Valid()
      modifies this`count, nodes, first, next
      ensures Valid()
      ensures r.Some? ==> r.value < count && Matches(nodes[r.value], id, state)
      ensures r.None? <==> old(count) == maxNodes && forall i | 0 <= i < old(count) ::
                !Matches(old(nodes[..])[i], id, state)
      ensures count == old(count) ==> nodes[..] == old(nodes[..])
      ensures count != old(count) ==>
                && count == old(count) + 1 <= maxNodes && r == Some(old(count))
                && (forall i | 0 <= i < old(count) :: !Matches(old(nodes[..])[i], id, state))
                && nodes[..] == old(nodes[..])[old(count) := nodes[old(count)]]
                && nodes[old(count)] == Node(id, state, old(nodes[..])[old(count)].pos, 0, 0, 0, false, false)
    {
      hide Chained, Latest;
      r := FindNode(id, state);
      if r.Some? { return; }
      if count >= maxNodes {
        return None;
      }
      var b, i := bucket(id), count;
      var node := Node(id, state, nodes[i].pos, 0, 0, 0, false, false);
      HeadIs(bucket, nodes[..], i, first[..], next[..], b);
      ChainExtends(bucket, nodes[..], i, first[..], next[..], node);
      nodes[i] := node;
      next[i] := first[b];
      first[b] := i;
      count := count + 1;
      assert nodes[..] == old(nodes[..])[i := node];
      assert next[..] == old(next[..])[i := old(first[..])[b]];
      assert first[..] == old(first[..])[b := i];
      r := Some(i);
    }

    /** Assigning a node's search data in place; its key stays. */
    method SetNode(i: nat, node: Node)
      requires Valid() && i < count && Matches(node, nodes[i].id, nodes[i].state)
      modifies nodes
      ensures Valid() && nodes[..] == old(nodes[..])[i := node]
    {
      ghost var ns := nodes[..];
      nodes[i] := node;
      assert nodes[..] == ns[i := node];
      ChainFrame(bucket, ns, nodes[..], count, first[..], next[..]);
    }
  }

  class NodeQueue {
    const nodes: array<Node>   // what the heap's pointers refer to
    const heap: array<nat>
    var size: nat

    constructor (capacity: nat, nodes: array<Node>)
      requires nodes.Length <= capacity
      ensures this.nodes == nodes && fresh(heap) && heap.Length == capacity + 1 && Valid() && Contents() == []
    {
      this.nodes := nodes;
      heap := new nat[capacity + 1](_ => 0);
      size := 0;
    }

    ghost predicate Valid()
      reads this, heap
    {
      size <= heap.Length && forall i | 0 <= i < size :: heap[i] < nodes.Length
    }

    ghost function Contents(): (h: seq<nat>)
      reads this, heap
      requires size <= heap.Length
    {
      heap[..size]
    }

    method Clear()
      requires Valid()
      modifies this`size
      ensures Valid() && Contents() == []
    {
      size := 0;
    }

    method BubbleUp(at: nat, node: nat)
      requires Valid() && at < size && node < nodes.Length
      modifies heap
      ensures Valid() && Contents() == NodeHeap.Rise(Keys(nodes[..]), old(Contents()), at, node)
    {
      ghost var key := Keys(nodes[..]);
      var i := at;
      var parent := (i - 1) / 2;
      while i > 0 && nodes[heap[parent]].total > nodes[node].total
        invariant Valid() && 0 <= i < size && parent == NodeHeap.Parent(i)
        invariant NodeHeap.Rise(key, Contents(), i, node) == NodeHeap.Rise(key, old(Contents()), at, node)
      {
        ghost var h := Contents();
        heap[i] := heap[parent];
        assert Contents() == h[i := h[parent]];
        i := parent;
        parent := (i - 1) / 2;
      }
      ghost var h := Contents();
      heap[i] := node;
      assert Contents() == h[i := node];
    }

    method TrickleDown(at: nat, node: nat)
      requires Valid() && at < size && node < nodes.Length
      modifies heap
      ensures Valid()
      ensures var (g, i) := NodeHeap.Sink(Keys(nodes[..]), old(Contents()), at);
              Contents() == NodeHeap.Rise(Keys(nodes[..]), g, i, node)
    {
      hide NodeHeap.Sink, NodeHeap.Rise;
      ghost var key := Keys(nodes[..]);
      var i := at;
      var child := i * 2 + 1;
      while child < size
        invariant Valid() && i < size && child == i * 2 + 1
        invariant NodeHeap.Sink(key, Contents(), i) == NodeHeap.Sink(key, old(Contents()), at)
        decreases size - i
      {
        ghost var h := Contents();
        NodeHeap.SinkStep(key, h, i);
        if child + 1 < size && nodes[heap[child]].total > nodes[heap[child + 1]].total {
          child := child + 1;
        }
        assert child == NodeHeap.SmallerChild(key, h, i);
        heap[i] := heap[child];
        assert Contents() == h[i := h[child]];
        i := child;
        child := i * 2 + 1;
      }
      NodeHeap.SinkStep(key, Contents(), i);
      BubbleUp(i, node);
    }

    method Push(node: nat)
      requires Valid() && size < heap.Length && node < nodes.Length
      modifies this`size, heap
      ensures Valid() && Contents() == NodeHeap.Push(Keys(nodes[..]), old(Contents()), node)
    {
      ghost var h := Contents();
      heap[size] := node;   // the slot the hole starts in
      size := size + 1;
      assert Contents() == h + [node];
      BubbleUp(size - 1, node);
    }

    method Pop() returns (top: nat)
      requires Valid() && size > 0
      modifies this`size, heap
      ensures Valid() && top == old(Contents())[0]
      ensures Contents() == NodeHeap.Pop(Keys(nodes[..]), old(Contents()))
    {
      ghost var h := Contents();
      top := heap[0];
      size := size - 1;
      assert Contents() == h[..|h| - 1];
      if size > 0 {
        TrickleDown(0, heap[size]);
      }
    }

    /** `modify`: find the entry for `node` and bubble it up; no entry, no change. */
    method Modify(node: nat)
      requires Valid() && node < nodes.Length
      modifies heap
      ensures Valid()
      ensures node !in old(Contents()) ==> Contents() == old(Contents())
      ensures node in old(Contents()) ==>
                exists i :: 0 <= i < |old(Contents())| && old(Contents())[i] == node && node !in old(Contents())[..i] &&
                            Contents() == NodeHeap.Rise(Keys(nodes[..]), old(Contents()), i, node)
    {
      for i := 0 to size
        invariant node !in Contents()[..i] && heap[..] == old(heap[..])
      {
        if heap[i] == node {
          BubbleUp(i, node);
          return;
        }
      }
      assert Contents()[..size] == Contents();
    }
  }
}

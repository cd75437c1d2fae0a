/**
 The bounding volume tree of a tile: built in preorder with escape offsets, read by an iterative walk.
 The builder writes 2n-1 nodes for n polygons into a zero-filled array of 2n, and readers visit all 2n.
 */
module BvTree {
  import opened Basics

  /** Quantized coordinates; the source stores 16-bit values. */
  datatype Vec = Vec(x: int, y: int, z: int)

  datatype Box = Box(min: Vec, max: Vec)

  datatype Item = Item(box: Box, poly: nat)

  datatype Node = Node(box: Box, i: int)

  const ZERO_NODE := Node(Box(Vec(0, 0, 0), Vec(0, 0, 0)), 0)

  /** `dtOverlapQuantBounds`. */
  predicate Overlap(a: Box, b: Box) {
    && a.min.x <= b.max.x && a.max.x >= b.min.x
    && a.min.y <= b.max.y && a.max.y >= b.min.y
    && a.min.z <= b.max.z && a.max.z >= b.min.z
  }

  predicate Contains(a: Box, b: Box) {
    && a.min.x <= b.min.x && b.max.x <= a.max.x
    && a.min.y <= b.min.y && b.max.y <= a.max.y
    && a.min.z <= b.min.z && b.max.z <= a.max.z
  }

  // ---- Meaning of the node array ----

  /** Polygons of the items whose box overlaps the query, in order: the linear scan. */
  function Hits(items: seq<Item>, q: Box): seq<nat> {
    if items == [] then []
    else (if Overlap(q, items[0].box) then [items[0].poly] else []) + Hits(items[1..], q)
  }

  /** What the escape-offset walk reports from node `at` on. */
  function Walk(nodes: seq<Node>, at: nat, q: Box): seq<nat>
    decreases |nodes| - at
  {
    if at >= |nodes| then []
    else
      var node := nodes[at];
      var overlap, leaf := Overlap(q, node.box), node.i >= 0;
      (if leaf && overlap then [node.i] else []) +
      if overlap || leaf then Walk(nodes, at + 1, q) else Walk(nodes, at - node.i, q)
  }

  /** Nodes in the subtree over `items[l..r]`. */
  function Size(l: int, r: int): int { 2 * (r - l) - 1 }

  function Mid(l: nat, r: nat): (mid: nat)
    requires l < r
    ensures r - l > 1 ==> l < mid < r
    ensures mid - l <= r - mid <= mid - l + 1
  {
    l + (r - l) / 2
  }

  /** Position of the right subtree of a node with its left subtree right behind it. */
  function RightOf(at: nat, l: nat, r: nat): nat
    requires r - l > 1
  {
    at + 1 + Size(l, Mid(l, r))
  }

  /** Nodes `at ..` hold, in preorder, the subtree over `items[l..r]`. */
  ghost predicate IsTree(nodes: seq<Node>, at: nat, items: seq<Item>, l: nat, r: nat)
    decreases r - l
  {
    && l < r <= |items| && at + Size(l, r) <= |nodes|
    && if r - l == 1 then nodes[at] == Node(items[l].box, items[l].poly)
       else
         && nodes[at].i == -Size(l, r)
         && Tightly(nodes[at].box, items[l..r])
         && IsTree(nodes, at + 1, items, l, Mid(l, r))
         && IsTree(nodes, RightOf(at, l, r), items, Mid(l, r), r)
  }

  ghost predicate Encloses(b: Box, items: seq<Item>) {
    forall it | it in items :: Contains(b, it.box)
  }

  /** The smallest box around the items. */
  ghost predicate Tightly(b: Box, items: seq<Item>) {
    Encloses(b, items) && forall o | Encloses(o, items) :: Contains(o, b)
  }

  // ---- Order of the items ----

  function MinAt(b: Box, axis: nat): int { if axis == 0 then b.min.x else if axis == 1 then b.min.y else b.min.z }

  function MaxAt(b: Box, axis: nat): int { if axis == 0 then b.max.x else if axis == 1 then b.max.y else b.max.z }

  /** No axis is longer, and no earlier one as long. */
  ghost predicate Longest(b: Box, axis: nat) {
    axis < 3 && forall a: nat | a < 3 ::
      && MaxAt(b, axis) - MinAt(b, axis) >= MaxAt(b, a) - MinAt(b, a)
      && (a < axis ==> MaxAt(b, axis) - MinAt(b, axis) > MaxAt(b, a) - MinAt(b, a))
  }

  /** On the longest axis of the box, no item on the left starts after one on the right. */
  ghost predicate Parted(b: Box, left: seq<Item>, right: seq<Item>) {
    forall axis: nat, i, j | Longest(b, axis) && i in left && j in right :: MinAt(i.box, axis) <= MinAt(j.box, axis)
  }

  /** Every node parts its items by their start on its longest axis. */
  ghost predicate Arranged(nodes: seq<Node>, at: nat, items: seq<Item>, l: nat, r: nat)
    requires l < r <= |items|
    decreases r - l
  {
    r - l > 1 ==>
      && at < |nodes| && Parted(nodes[at].box, items[l..Mid(l, r)], items[Mid(l, r)..r])
      && Arranged(nodes, at + 1, items, l, Mid(l, r)) && Arranged(nodes, RightOf(at, l, r), items, Mid(l, r), r)
  }

  lemma {:induction false} ArrangedFrame(nodes: seq<Node>, nodes': seq<Node>, at: nat, items: seq<Item>,
                                         items': seq<Item>, l: nat, r: nat)
    requires l < r <= |items| == |items'| && |nodes| == |nodes'| && Arranged(nodes, at, items, l, r)
    requires forall k | at <= k < at + Size(l, r) && k < |nodes| :: nodes[k] == nodes'[k]
    requires forall k | l <= k < r :: items[k] == items'[k]
    ensures Arranged(nodes', at, items', l, r)
    decreases r - l
  {
    hide Parted;
    if r - l > 1 {
      var mid := Mid(l, r);
      ArrangedFrame(nodes, nodes', at + 1, items, items', l, mid);
      ArrangedFrame(nodes, nodes', RightOf(at, l, r), items, items', mid, r);
      assert items[l..mid] == items'[l..mid] && items[mid..r] == items'[mid..r];
    }
  }

  lemma {:induction false} HitsConcat(a: seq<Item>, b: seq<Item>, q: Box)
    ensures Hits(a + b, q) == Hits(a, q) + Hits(b, q)
  {
    if a == [] {
      assert a + b == b;
    } else {
      assert (a + b)[1..] == a[1..] + b;
      HitsConcat(a[1..], b, q);
    }
  }

  lemma {:induction false} NoHits(items: seq<Item>, q: Box, b: Box)
    requires !Overlap(q, b) && Encloses(b, items)
    ensures Hits(items, q) == []
  {
    if items != [] {
      assert items[0] in items;
      NoHits(items[1..], q, b);
    }
  }

  /** Walking a subtree reports its overlapping items in order and continues behind it. */
  lemma {:induction false} WalkTree(nodes: seq<Node>, at: nat, items: seq<Item>, l: nat, r: nat, q: Box)
    requires IsTree(nodes, at, items, l, r)
    ensures l < r <= |items| && Walk(nodes, at, q) == Hits(items[l..r], q) + Walk(nodes, at + Size(l, r), q)
    decreases r - l
  {
    hide Hits, Overlap, Mid, Encloses, IsTree, Walk;
    TreeParts(nodes, at, items, l, r);
    WalkStep(nodes, at, q);
    if r - l == 1 {
      assert items[l..r] == [items[l]];
      HitsOne(items[l], q);
    } else if Overlap(q, nodes[at].box) {
      var mid := Mid(l, r);
      WalkTree(nodes, at + 1, items, l, mid, q);
      WalkTree(nodes, RightOf(at, l, r), items, mid, r, q);
      assert items[l..r] == items[l..mid] + items[mid..r];
      HitsConcat(items[l..mid], items[mid..r], q);
    } else {
      NoHits(items[l..r], q, nodes[at].box);
    }
  }

  lemma WalkStep(nodes: seq<Node>, at: nat, q: Box)
    requires at < |nodes|
    ensures nodes[at].i >= 0 ==>
              Walk(nodes, at, q) == (if Overlap(q, nodes[at].box) then [nodes[at].i] else []) + Walk(nodes, at + 1, q)
    ensures nodes[at].i < 0 ==>
              Walk(nodes, at, q) == if Overlap(q, nodes[at].box) then Walk(nodes, at + 1, q)
                  else Walk(nodes, at - nodes[at].i, q)
  {
  }

  lemma TreeParts(nodes: seq<Node>, at: nat, items: seq<Item>, l: nat, r: nat)
    requires IsTree(nodes, at, items, l, r)
    ensures l < r <= |items| && at + Size(l, r) <= |nodes|
    ensures r - l == 1 ==> nodes[at] == Node(items[l].box, items[l].poly)
    ensures r - l > 1 ==>
              && nodes[at].i == -Size(l, r) && Tightly(nodes[at].box, items[l..r])
              && Encloses(nodes[at].box, items[l..r])
              && IsTree(nodes, at + 1, items, l, Mid(l, r)) && IsTree(nodes, RightOf(at, l, r), items, Mid(l, r), r)
  {
  }

  lemma {:induction false} TreeLeaf(nodes: seq<Node>, at: nat, items: seq<Item>, l: nat)
    requires at < |nodes| && l < |items| && nodes[at] == Node(items[l].box, items[l].poly)
    ensures IsTree(nodes, at, items, l, l + 1) && Shuffled(items, items, l, l + 1)
  {
  }

  lemma TreeNode(nodes: seq<Node>, at: nat, items: seq<Item>, l: nat, r: nat)
    requires r - l > 1 && r <= |items| && at + Size(l, r) <= |nodes|
    requires nodes[at].i == -Size(l, r) && Tightly(nodes[at].box, items[l..r])
    requires IsTree(nodes, at + 1, items, l, Mid(l, r)) && IsTree(nodes, RightOf(at, l, r), items, Mid(l, r), r)
    ensures IsTree(nodes, at, items, l, r)
  {
  }

  lemma HitsOne(it: Item, q: Box)
    ensures Hits([it], q) == if Overlap(q, it.box) then [it.poly] else []
  {
    assert [it][1..] == [];
  }

  // ---- Frames ----

  lemma {:induction false} TreeFrame(nodes: seq<Node>, nodes': seq<Node>, at: nat, items: seq<Item>, items': seq<Item>,
                                     l: nat, r: nat)
    requires IsTree(nodes, at, items, l, r) && at + Size(l, r) <= |nodes| == |nodes'| && r <= |items| == |items'|
    requires l < r
    requires forall k | at <= k < at + Size(l, r) :: nodes[k] == nodes'[k]
    requires forall k | l <= k < r :: items[k] == items'[k]
    ensures IsTree(nodes', at, items', l, r)
    decreases r - l
  {
    TreeParts(nodes, at, items, l, r);
    if r - l > 1 {
      hide IsTree, Encloses, Tightly;
      TreeFrame(nodes, nodes', at + 1, items, items', l, Mid(l, r));
      TreeFrame(nodes, nodes', RightOf(at, l, r), items, items', Mid(l, r), r);
      assert items[l..r] == items'[l..r];
      TreeNode(nodes', at, items', l, r);
    }
  }

  // ---- Building ----

  /** The library sort, by minimum on the chosen axis; for the answers only that it permutes its input matters. */
  datatype Sorter = Sorter(sort: (seq<Item>, nat) -> seq<Item>)

  ghost predicate Permutes(s: Sorter) {
    forall items, axis {:trigger s.sort(items, axis)} :: multiset(s.sort(items, axis)) == multiset(items)
  }

  ghost predicate SortsByMin(s: Sorter) {
    forall items, axis {:trigger s.sort(items, axis)} :: InOrder(s.sort(items, axis), axis)
  }

  ghost predicate InOrder(items: seq<Item>, axis: nat) {
    forall i, j | 0 <= i < j < |items| :: MinAt(items[i].box, axis) <= MinAt(items[j].box, axis)
  }

  function Min(a: int, b: int): int { if a < b then a else b }

  function Max(a: int, b: int): int { if a > b then a else b }

  function Join(a: Box, b: Box): Box {
    Box(Vec(Min(a.min.x, b.min.x), Min(a.min.y, b.min.y), Min(a.min.z, b.min.z)),
        Vec(Max(a.max.x, b.max.x), Max(a.max.y, b.max.y), Max(a.max.z, b.max.z)))
  }

  function LongestAxis(x: int, y: int, z: int): nat {
    var axis := if y > x then 1 else 0;
    if z > Max(x, y) then 2 else axis
  }

  lemma SameSize(a: seq<Item>, b: seq<Item>)
    requires multiset(a) == multiset(b)
    ensures |a| == |b| && forall it :: it in a <==> it in b
  {
    assert |multiset(a)| == |a| && |multiset(b)| == |b|;
    forall it ensures it in a <==> it in b {
      assert it in a <==> it in multiset(a);
      assert it in b <==> it in multiset(b);
    }
  }

  /** `calcExtends`: the smallest box around a range of items. */
  method CalcExtends(items: array<Item>, l: nat, r: nat) returns (b: Box)
    requires l < r <= items.Length
    ensures Tightly(b, items[l..r])
  {
    b := items[l].box;
    for k := l + 1 to r
      invariant forall j | l <= j < k :: Contains(b, items[j].box)
      invariant forall o | Encloses(o, items[l..k]) :: Contains(o, b)
    {
      assert items[l..k + 1] == items[l..k] + [items[k]];
      assert forall o | Encloses(o, items[l..k + 1]) :: Encloses(o, items[l..k]) && Contains(o, items[k].box);
      b := Join(b, items[k].box);
    }
  }

  /** Overwrite a range of the item array. */
  method WriteBack(items: array<Item>, l: nat, s: seq<Item>)
    requires l + |s| <= items.Length
    modifies items
    ensures items[..] == old(items[..l]) + s + old(items[l + |s|..])
  {
    for k := 0 to |s|
      invariant items[..l] == old(items[..l]) && items[l + |s|..] == old(items[l + |s|..])
      invariant items[l..l + k] == s[..k]
    {
      items[l + k] := s[k];
    }
  }

  /** A rearrangement confined to `[l, r)`. */
  ghost predicate Shuffled(a: seq<Item>, b: seq<Item>, l: nat, r: nat) {
    && l <= r <= |a| == |b|
    && a[..l] == b[..l] && a[r..] == b[r..] && multiset(a[l..r]) == multiset(b[l..r])
  }

  method SortRange(items: array<Item>, l: nat, r: nat, axis: nat, s: Sorter)
    requires l <= r <= items.Length && Permutes(s)
    modifies items
    ensures Shuffled(old(items[..]), items[..], l, r)
    ensures SortsByMin(s) ==> InOrder(items[l..r], axis)
  {
    var sorted := s.sort(items[l..r], axis);
    SameSize(sorted, items[l..r]);
    WriteBack(items, l, sorted);
    assert items[..][l..r] == sorted;
  }

  lemma ShuffledJoin(a: seq<Item>, b: seq<Item>, c: seq<Item>, d: seq<Item>, l: nat, mid: nat, r: nat)
    requires l <= mid <= r && Shuffled(a, b, l, r) && Shuffled(b, c, l, mid) && Shuffled(c, d, mid, r)
    ensures Shuffled(a, d, l, r) && forall k | l <= k < mid :: c[k] == d[k]
  {
    forall k | 0 <= k < mid ensures c[k] == d[k] { assert c[..mid][k] == d[..mid][k]; }
    assert c[l..mid] == d[l..mid];
    assert b[mid..r] == b[mid..][..r - mid] == c[mid..][..r - mid] == c[mid..r];
    assert b[l..r] == b[l..mid] + b[mid..r] && d[l..r] == d[l..mid] + d[mid..r];
    assert a[..l] == b[..l] && c[..l] == d[..mid][..l] == c[..mid][..l] && d[..l] == d[..mid][..l];
    assert c[r..] == c[mid..][r - mid..] == b[mid..][r - mid..] == b[r..];
  }

  /** `subdivide`: the subtree over `items[l..r]` goes to `nodes[cur ..]`. */
  method Subdivide(items: array<Item>, l: nat, r: nat, cur: nat, nodes: array<Node>, s: Sorter) returns (next: nat)
    requires l < r <= items.Length && cur + Size(l, r) <= nodes.Length && Permutes(s)
    modifies items, nodes
    ensures next == cur + Size(l, r)
    ensures Shuffled(old(items[..]), items[..], l, r)
    ensures forall k | 0 <= k < cur || next <= k < nodes.Length :: nodes[k] == old(nodes[k])
    ensures IsTree(nodes[..], cur, items[..], l, r)
    ensures SortsByMin(s) ==> Arranged(nodes[..], cur, items[..], l, r)
    decreases r - l
  {
    hide IsTree, Contains, Shuffled, Encloses, Tightly, Arranged, SortsByMin, InOrder, Longest;
    if r - l == 1 {
      nodes[cur] := Node(items[l].box, items[l].poly);
      TreeLeaf(nodes[..], cur, items[..], l);
      ArrangedOne(nodes[..], cur, items[..], l);
      return cur + 1;
    }
    var box := CalcExtends(items, l, r);
    nodes[cur] := nodes[cur].(box := box);
    ghost var items0, nodes1 := items[..], nodes[..];
    var axis := LongestAxis(box.max.x - box.min.x, box.max.y - box.min.y, box.max.z - box.min.z);
    SortRange(items, l, r, axis, s);
    ghost var items1 := items[..];
    var mid := Mid(l, r);
    var c1 := Subdivide(items, l, mid, cur + 1, nodes, s);
    ghost var items2, nodes2 := items[..], nodes[..];
    next := Subdivide(items, mid, r, c1, nodes, s);
    ghost var nodes3 := nodes[..];
    nodes[cur] := nodes[cur].(i := -(next - cur));
    ShuffledJoin(items0, items1, items2, items[..], l, mid, r);
    EnclosesShuffled(box, items0, items[..], l, r);
    assert nodes[cur].box == nodes1[cur].box == box;
    TreeJoins(nodes2, nodes3, nodes[..], items2, items[..], l, r, cur);
    if SortsByMin(s) {
      PartedByOrder(box, axis, items1, items2, items[..], l, mid, r);
      ArrangedJoins(nodes2, nodes3, nodes[..], items2, items[..], l, r, cur);
    }
  }

  lemma ArrangedOne(nodes: seq<Node>, at: nat, items: seq<Item>, l: nat)
    requires l < |items|
    ensures Arranged(nodes, at, items, l, l + 1)
  {
  }

  /** Items in order on the longest axis are parted by it, and stay so while each half is rearranged. */
  lemma PartedByOrder(b: Box, axis: nat, a: seq<Item>, c: seq<Item>, d: seq<Item>, l: nat, mid: nat, r: nat)
    requires l <= mid <= r && Shuffled(a, c, l, mid) && Shuffled(c, d, mid, r) && r <= |a| && InOrder(a[l..r], axis)
    requires axis == LongestAxis(b.max.x - b.min.x, b.max.y - b.min.y, b.max.z - b.min.z)
    ensures Parted(b, d[l..mid], d[mid..r])
  {
    assert Longest(b, axis) && forall k: nat | Longest(b, k) :: k == axis;
    SameSize(a[l..mid], c[l..mid]);
    SameSize(c[mid..r], d[mid..r]);
    assert c[mid..r] == c[mid..][..r - mid] == a[mid..][..r - mid] == a[mid..r];
    assert d[l..mid] == d[..mid][l..] == c[..mid][l..] == c[l..mid];
    forall i, j | i in d[l..mid] && j in d[mid..r] ensures MinAt(i.box, axis) <= MinAt(j.box, axis) {
      assert i in a[l..mid] && j in a[mid..r];
      var x :| 0 <= x < mid - l && a[l..mid][x] == i;
      var y :| 0 <= y < r - mid && a[mid..r][y] == j;
      assert a[l..r][x] == i && a[l..r][mid - l + y] == j;
    }
  }

  lemma ArrangedJoins(nodes2: seq<Node>, nodes3: seq<Node>, nodes: seq<Node>, items2: seq<Item>, items: seq<Item>,
                      l: nat, r: nat, cur: nat)
    requires r - l > 1 && |nodes| == |nodes3| == |nodes2| && r <= |items| == |items2| && cur < |nodes|
    requires Arranged(nodes2, cur + 1, items2, l, Mid(l, r))
    requires Arranged(nodes3, RightOf(cur, l, r), items, Mid(l, r), r)
    requires forall k | l <= k < Mid(l, r) :: items2[k] == items[k]
    requires forall k | cur < k < RightOf(cur, l, r) && k < |nodes| :: nodes2[k] == nodes[k]
    requires forall k | cur < k < |nodes| :: nodes3[k] == nodes[k]
    requires Parted(nodes[cur].box, items[l..Mid(l, r)], items[Mid(l, r)..r])
    ensures Arranged(nodes, cur, items, l, r)
  {
    hide Parted, Arranged;
    ArrangedFrame(nodes2, nodes, cur + 1, items2, items, l, Mid(l, r));
    ArrangedFrame(nodes3, nodes, RightOf(cur, l, r), items, items, Mid(l, r), r);
    ArrangedNode(nodes, cur, items, l, r);
  }

  lemma ArrangedNode(nodes: seq<Node>, at: nat, items: seq<Item>, l: nat, r: nat)
    requires r - l > 1 && r <= |items| && at < |nodes|
    requires Parted(nodes[at].box, items[l..Mid(l, r)], items[Mid(l, r)..r])
    requires Arranged(nodes, at + 1, items, l, Mid(l, r)) && Arranged(nodes, RightOf(at, l, r), items, Mid(l, r), r)
    ensures Arranged(nodes, at, items, l, r)
  {
  }

  lemma EnclosesShuffled(b: Box, a: seq<Item>, c: seq<Item>, l: nat, r: nat)
    requires Shuffled(a, c, l, r) && Tightly(b, a[l..r])
    ensures Tightly(b, c[l..r])
  {
    SameSize(a[l..r], c[l..r]);
  }

  /** Two finished subtrees and a parent box make a tree: patching the parent's offset disturbs neither. */
  lemma TreeJoins(nodes2: seq<Node>, nodes3: seq<Node>, nodes: seq<Node>, items2: seq<Item>, items: seq<Item>, l: nat,
                  r: nat, cur: nat)
    requires r - l > 1 && |nodes| == |nodes3| == |nodes2| && r <= |items| == |items2| && cur + Size(l, r) <= |nodes|
    requires IsTree(nodes2, cur + 1, items2, l, Mid(l, r)) && IsTree(nodes3, RightOf(cur, l, r), items, Mid(l, r), r)
    requires forall k | l <= k < Mid(l, r) :: items2[k] == items[k]
    requires forall k | cur < k < RightOf(cur, l, r) :: nodes2[k] == nodes[k]
    requires forall k | cur < k < |nodes| :: nodes3[k] == nodes[k]
    requires nodes[cur].i == -Size(l, r) && Tightly(nodes[cur].box, items[l..r])
    ensures IsTree(nodes, cur, items, l, r)
  {
    hide Tightly, IsTree;
    TreeFrame(nodes2, nodes, cur + 1, items2, items, l, Mid(l, r));
    TreeFrame(nodes3, nodes, RightOf(cur, l, r), items, items, Mid(l, r), r);
    TreeNode(nodes, cur, items, l, r);
  }

  /** The zero-filled slot after the tree reads as polygon 0 in the origin corner. */
  function Tail(q: Box): seq<nat> { if Overlap(q, ZERO_NODE.box) then [0] else [] }

  /** Rearranging the items rearranges the hits. */
  lemma {:induction false} HitsPermuted(a: seq<Item>, b: seq<Item>, q: Box)
    requires multiset(a) == multiset(b)
    ensures multiset(Hits(a, q)) == multiset(Hits(b, q))
    decreases |a|
  {
    SameSize(a, b);
    if a != [] {
      assert a[0] in a && a[0] in b;
      var j :| 0 <= j < |b| && b[j] == a[0];
      RemoveOne(a, b, j);
      HitsPermuted(a[1..], b[..j] + b[j + 1..], q);
      assert a == [a[0]] + a[1..] && b == b[..j] + ([b[j]] + b[j + 1..]);
      hide Hits;
      HitsConcat([a[0]], a[1..], q);
      HitsConcat(b[..j], [b[j]] + b[j + 1..], q);
      HitsConcat([b[j]], b[j + 1..], q);
      HitsConcat(b[..j], b[j + 1..], q);
    }
  }

  lemma RemoveOne(a: seq<Item>, b: seq<Item>, j: nat)
    requires multiset(a) == multiset(b) && a != [] && j < |b| && b[j] == a[0]
    ensures multiset(a[1..]) == multiset(b[..j] + b[j + 1..])
  {
    assert a == [a[0]] + a[1..] && b == b[..j] + [b[j]] + b[j + 1..];
    assert multiset(a[1..]) == multiset(a) - multiset{a[0]};
    assert multiset(b[..j] + b[j + 1..]) == multiset(b) - multiset{a[0]};
  }

  /** The tree over `items`, followed by the unused zero node, answers every query like a scan plus the tail. */
  lemma {:induction false} TreeAnswers(nodes: seq<Node>, items: seq<Item>, q: Box)
    requires items != [] && |nodes| == 2 * |items| && IsTree(nodes, 0, items, 0, |items|)
    requires nodes[|nodes| - 1] == ZERO_NODE
    ensures Walk(nodes, 0, q) == Hits(items, q) + Tail(q)
  {
    hide IsTree, Hits, Walk, Overlap;
    WalkTree(nodes, 0, items, 0, |items|, q);
    assert items[0..|items|] == items;
    WalkStep(nodes, |nodes| - 1, q);
    WalkEnd(nodes, |nodes|, q);
    assert Walk(nodes, |nodes| - 1, q) == Tail(q);
  }

  /** `createBVTree` into the zero-filled array of `2 * polyCount` nodes that the tile stores. */
  method CreateBVTree(items0: seq<Item>, s: Sorter) returns (nodes: array<Node>, ghost items: seq<Item>)
    requires items0 != [] && Permutes(s)
    ensures fresh(nodes) && nodes.Length == 2 * |items0| && multiset(items) == multiset(items0)
    ensures |items| == |items0| && IsTree(nodes[..], 0, items, 0, |items|) && nodes[nodes.Length - 1] == ZERO_NODE
    ensures SortsByMin(s) ==> Arranged(nodes[..], 0, items, 0, |items|)
    ensures forall q :: Walk(nodes[..], 0, q) == Hits(items, q) + Tail(q)
    ensures forall q :: multiset(Walk(nodes[..], 0, q)) == multiset(Hits(items0, q)) + multiset(Tail(q))
  {
    hide Arranged, SortsByMin;
    var work := new Item[|items0|](i requires 0 <= i < |items0| => items0[i]);
    nodes := new Node[2 * |items0|](_ => ZERO_NODE);
    assert work[..] == items0;
    var used := Subdivide(work, 0, |items0|, 0, nodes, s);
    items := work[..];
    assert items0[0..|items0|] == items0 && items[0..|items0|] == items;
    SameSize(items, items0);
    hide IsTree, Hits, Walk, Tail;
    forall q
      ensures Walk(nodes[..], 0, q) == Hits(items, q) + Tail(q)
      ensures multiset(Walk(nodes[..], 0, q)) == multiset(Hits(items0, q)) + multiset(Tail(q))
    {
      TreeAnswers(nodes[..], items, q);
      HitsPermuted(items, items0, q);
    }
  }

  // ---- Reading ----

  /** The tree branch of `dtNavMesh::queryPolygonsInTile`: the walk, cut to the caller's buffer. */
  method QueryPolygonsInTile(nodes: array<Node>, q: Box, maxPolys: nat) returns (polys: seq<nat>)
    ensures polys == Take(Walk(nodes[..], 0, q), maxPolys)
  {
    hide Overlap, Walk;
    polys := [];
    var at := 0;
    while at < nodes.Length
      invariant |polys| <= maxPolys
      invariant Take(polys + Walk(nodes[..], at, q), maxPolys) == Take(Walk(nodes[..], 0, q), maxPolys)
      decreases nodes.Length - at
    {
      var node := nodes[at];
      var overlap, leaf := Overlap(q, node.box), node.i >= 0;
      WalkStep(nodes[..], at, q);
      if leaf && overlap {
        TakeStep(polys, node.i, Walk(nodes[..], at + 1, q), maxPolys);
        if |polys| < maxPolys {
          polys := polys + [node.i];
        }
      }
      at := if overlap || leaf then at + 1 else at - node.i;
    }
    WalkEnd(nodes[..], at, q);
  }

  lemma WalkEnd(nodes: seq<Node>, at: nat, q: Box)
    requires at >= |nodes|
    ensures Walk(nodes, at, q) == []
  {
  }

  const BATCH_SIZE := 32

  function Filter(s: seq<nat>, pass: nat -> bool): seq<nat> {
    if s == [] then [] else (if pass(s[0]) then [s[0]] else []) + Filter(s[1..], pass)
  }

  function Flatten(batches: seq<seq<nat>>): seq<nat> {
    if batches == [] then [] else Flatten(batches[..|batches| - 1]) + batches[|batches| - 1]
  }

  lemma FlattenSnoc(batches: seq<seq<nat>>, b: seq<nat>)
    ensures Flatten(batches + [b]) == Flatten(batches) + b
  {
    assert (batches + [b])[..|batches|] == batches;
  }

  lemma FilterStep(x: nat, rest: seq<nat>, pass: nat -> bool)
    ensures Filter([x] + rest, pass) == (if pass(x) then [x] else []) + Filter(rest, pass)
  {
    assert ([x] + rest)[1..] == rest;
  }

  /**
   The tree branch of `dtNavMeshQuery::queryPolygonsInTile`: the polygons of the walk that pass the filter
   reach the callback in the same order, in full batches except perhaps the last, none of them empty.
   */
  method QueryInBatches(nodes: array<Node>, q: Box, pass: nat -> bool) returns (batches: seq<seq<nat>>)
    ensures Flatten(batches) == Filter(Walk(nodes[..], 0, q), pass)
    ensures forall k | 0 <= k < |batches| :: 0 < |batches[k]| <= BATCH_SIZE
    ensures forall k | 0 <= k < |batches| - 1 :: |batches[k]| == BATCH_SIZE
  {
    hide Overlap, Walk, Filter, Flatten;
    batches := [];
    var pending: seq<nat> := [];
    var at := 0;
    FlattenNone();
    while at < nodes.Length
      invariant |pending| < BATCH_SIZE && forall k | 0 <= k < |batches| :: |batches[k]| == BATCH_SIZE
      invariant Flatten(batches) + pending + Filter(Walk(nodes[..], at, q), pass) == Filter(Walk(nodes[..], 0, q), pass)
      decreases nodes.Length - at
    {
      var node := nodes[at];
      var overlap, leaf := Overlap(q, node.box), node.i >= 0;
      WalkStep(nodes[..], at, q);
      if leaf && overlap {
        ghost var rest := Filter(Walk(nodes[..], at + 1, q), pass);
        FilterStep(node.i, Walk(nodes[..], at + 1, q), pass);
        assert Flatten(batches) + pending + ([node.i] + rest) == Flatten(batches) + (pending + [node.i]) + rest;
        assert [] + rest == rest;
        if pass(node.i) {
          pending := pending + [node.i];
          if |pending| == BATCH_SIZE {
            FlattenSnoc(batches, pending);
            batches, pending := batches + [pending], [];
          }
        }
      } else {
        assert [] + Walk(nodes[..], at + 1, q) == Walk(nodes[..], at + 1, q);
      }
      at := if overlap || leaf then at + 1 else at - node.i;
    }
    WalkEnd(nodes[..], at, q);
    FilterNone(pass);
    if |pending| > 0 {
      FlattenSnoc(batches, pending);
      batches := batches + [pending];
    }
  }

  lemma FlattenNone()
    ensures Flatten([]) == []
  {
  }

  lemma FilterNone(pass: nat -> bool)
    ensures Filter([], pass) == []
  {
  }
}

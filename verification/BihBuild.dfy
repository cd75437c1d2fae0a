/**
 The builder: `Bih::build`, `create_node` and `subdivide`.  `indices` is partitioned in place, `tree`
 grows by three-word nodes and earlier words are patched when a child's index becomes known.
 */
module BihBuild {
  import opened Basics
  import opened BihLayout
  import opened BihShape

  ghost predicate AllWellFormed(boxes: seq<Box>) {
    forall o | 0 <= o < |boxes| :: WellFormed(boxes[o])
  }

  function LongestAxis(ar: Arith, g: Box): (axis: nat)
    ensures axis < 3 && Longest(ar, g, axis)
  {
    var dx, dy, dz := ar.extent(g.max.x, g.min.x), ar.extent(g.max.y, g.min.y), ar.extent(g.max.z, g.min.z);
    if dx >= dy && dx >= dz then 0 else if dy >= dz then 1 else 2
  }

  function SplitOf(ar: Arith, g: Box): int {
    ar.mid(g.min.At(LongestAxis(ar, g)), g.max.At(LongestAxis(ar, g)))
  }

  function GridSize(g: Box): int {
    (g.max.x - g.min.x) + (g.max.y - g.min.y) + (g.max.z - g.min.z)
  }

  // ---- Rearrangements confined to a range ----

  ghost predicate Permuted(a: seq<nat>, b: seq<nat>, l: nat, r: nat) {
    && l <= r <= |a| == |b|
    && a[..l] == b[..l] && a[r..] == b[r..] && multiset(a[l..r]) == multiset(b[l..r])
  }

  function Swap(a: seq<nat>, i: nat, j: nat): seq<nat>
    requires i < |a| && j < |a|
  {
    a[i := a[j]][j := a[i]]
  }

  lemma SwapPermutes(a: seq<nat>, l: nat, r: nat, i: nat, j: nat)
    requires l <= i < r <= |a| && l <= j < r
    ensures Permuted(a, Swap(a, i, j), l, r)
  {
    var b := Swap(a, i, j);
    assert b[l..r] == a[l..r][i - l := a[j]][j - l := a[i]];
  }

  lemma PermutedSame(a: seq<nat>, l: nat, r: nat)
    requires l <= r <= |a|
    ensures Permuted(a, a, l, r)
  {
  }

  lemma PermutedTrans(a: seq<nat>, b: seq<nat>, c: seq<nat>, l: nat, r: nat)
    requires Permuted(a, b, l, r) && Permuted(b, c, l, r)
    ensures Permuted(a, c, l, r)
  {
  }

  lemma PermutedWiden(a: seq<nat>, b: seq<nat>, l: nat, r: nat, l': nat, r': nat)
    requires Permuted(a, b, l, r) && l' <= l && r <= r' <= |a|
    ensures Permuted(a, b, l', r')
  {
    assert a[l'..r'] == a[l'..l] + a[l..r] + a[r..r'];
    assert b[l'..r'] == b[l'..l] + b[l..r] + b[r..r'];
    assert a[l'..l] == a[..l][l'..] == b[..l][l'..] == b[l'..l];
    assert a[r..r'] == a[r..][..r' - r] == b[r..][..r' - r] == b[r..r'];
    assert a[..l'] == a[..l][..l'] == b[..l][..l'] == b[..l'];
    assert a[r'..] == a[r..][r' - r..] == b[r..][r' - r..] == b[r'..];
  }

  lemma SameMembers(s: seq<nat>, t: seq<nat>)
    requires multiset(s) == multiset(t)
    ensures forall o :: o in s <==> o in t
  {
    forall o ensures o in s <==> o in t {
      assert o in s <==> o in multiset(s);
      assert o in t <==> o in multiset(t);
    }
  }

  // ---- The partition sweep, seen on one axis ----

  /** The extents of the boxes on one axis. */
  ghost function Lows(boxes: seq<Box>, axis: nat): seq<int> {
    seq(|boxes|, o requires 0 <= o < |boxes| => boxes[o].min.At(axis))
  }

  ghost function Highs(boxes: seq<Box>, axis: nat): seq<int> {
    seq(|boxes|, o requires 0 <= o < |boxes| => boxes[o].max.At(axis))
  }

  /** Positions `[left, i)` are done on the left, `(right, last]` on the right, with the bounds so far. */
  datatype Sweep = Sweep(left: nat, i: nat, right: int, last: nat, split: int,
                         clipL: int, clipR: int, nodeL: int, nodeR: int)
  {
    predicate Done(k: int) { left <= k < i || right < k <= last }
  }

  ghost predicate Ordered(lo: seq<int>, hi: seq<int>) {
    |lo| == |hi| && forall o | 0 <= o < |lo| :: Finite(lo[o]) && Finite(hi[o]) && lo[o] <= hi[o]
  }

  ghost predicate Swept(ar: Arith, lo: seq<int>, hi: seq<int>, objs: seq<nat>, w: Sweep) {
    SweptSides(ar, lo, hi, objs, w) && SweptNode(lo, hi, objs, w)
  }

  /** Centres and clip planes of the two sides. */
  ghost predicate SweptSides(ar: Arith, lo: seq<int>, hi: seq<int>, objs: seq<nat>, w: Sweep) {
    && w.left <= w.i <= w.right + 1 <= w.last + 1 <= |objs| && |lo| == |hi|
    && (forall k | w.left <= k <= w.last :: objs[k] < |lo|)
    && (forall k | w.left <= k < w.i :: ar.mid(lo[objs[k]], hi[objs[k]]) <= w.split && hi[objs[k]] <= w.clipL)
    && (forall k | w.right < k <= w.last :: ar.mid(lo[objs[k]], hi[objs[k]]) > w.split && w.clipR <= lo[objs[k]])
    && (if w.left == w.i then w.clipL == -INF else exists k :: w.left <= k < w.i && hi[objs[k]] == w.clipL)
    && (if w.right == w.last then w.clipR == INF else exists k :: w.right < k <= w.last && lo[objs[k]] == w.clipR)
  }

  /** The extent of everything swept so far. */
  ghost predicate SweptNode(lo: seq<int>, hi: seq<int>, objs: seq<nat>, w: Sweep) {
    && w.left <= w.i <= w.right + 1 <= w.last + 1 <= |objs| && |lo| == |hi|
    && (forall k | w.left <= k <= w.last :: objs[k] < |lo|)
    && (forall k | w.Done(k) :: w.nodeL <= lo[objs[k]] && hi[objs[k]] <= w.nodeR)
    && (if w.left == w.i && w.right == w.last then w.nodeL == INF && w.nodeR == -INF
        else
          && Finite(w.nodeL) && Finite(w.nodeR)
          && (exists k :: w.Done(k) && lo[objs[k]] == w.nodeL) && (exists k :: w.Done(k) && hi[objs[k]] == w.nodeR))
  }

  function Min(a: int, b: int): int { if a < b then a else b }

  function Max(a: int, b: int): int { if a > b then a else b }

  function KeepLeft(w: Sweep, minb: int, maxb: int): Sweep {
    w.(i := w.i + 1, clipL := Max(w.clipL, maxb), nodeL := Min(w.nodeL, minb), nodeR := Max(w.nodeR, maxb))
  }

  function SendRight(w: Sweep, minb: int, maxb: int): Sweep {
    w.(right := w.right - 1, clipR := Min(w.clipR, minb), nodeL := Min(w.nodeL, minb), nodeR := Max(w.nodeR, maxb))
  }

  lemma SweepLeft(ar: Arith, lo: seq<int>, hi: seq<int>, objs: seq<nat>, w: Sweep)
    requires Ordered(lo, hi) && Swept(ar, lo, hi, objs, w) && w.i <= w.right
    requires ar.mid(lo[objs[w.i]], hi[objs[w.i]]) <= w.split
    ensures Swept(ar, lo, hi, objs, KeepLeft(w, lo[objs[w.i]], hi[objs[w.i]]))
  {
    SweepLeftSides(ar, lo, hi, objs, w);
    SweepLeftNode(lo, hi, objs, w);
  }

  lemma SweepLeftSides(ar: Arith, lo: seq<int>, hi: seq<int>, objs: seq<nat>, w: Sweep)
    requires Ordered(lo, hi) && SweptSides(ar, lo, hi, objs, w) && w.i <= w.right
    requires ar.mid(lo[objs[w.i]], hi[objs[w.i]]) <= w.split
    ensures SweptSides(ar, lo, hi, objs, KeepLeft(w, lo[objs[w.i]], hi[objs[w.i]]))
  {
    var w' := KeepLeft(w, lo[objs[w.i]], hi[objs[w.i]]);
    if w.clipL <= hi[objs[w.i]] {
      assert w'.left <= w.i < w'.i && hi[objs[w.i]] == w'.clipL;
    }
  }

  lemma SweepLeftNode(lo: seq<int>, hi: seq<int>, objs: seq<nat>, w: Sweep)
    requires Ordered(lo, hi) && SweptNode(lo, hi, objs, w) && w.i <= w.right
    ensures SweptNode(lo, hi, objs, KeepLeft(w, lo[objs[w.i]], hi[objs[w.i]]))
  {
    var w' := KeepLeft(w, lo[objs[w.i]], hi[objs[w.i]]);
    forall k | w'.Done(k) ensures w'.nodeL <= lo[objs[k]] && hi[objs[k]] <= w'.nodeR {
      assert k == w.i || w.Done(k);
    }
    NodeAttained(lo, hi, objs, objs, w, w', w.i);
  }

  /** A primitive done in addition keeps the extent attained. */
  lemma NodeAttained(lo: seq<int>, hi: seq<int>, objs: seq<nat>, objs': seq<nat>, w: Sweep, w': Sweep, x: int)
    requires Ordered(lo, hi) && SweptNode(lo, hi, objs, w) && |objs'| == |objs| && 0 <= x < |objs'| && objs'[x] < |lo|
    requires w'.Done(x) && (forall k | w.Done(k) :: w'.Done(k) && 0 <= k < |objs| && objs'[k] == objs[k])
    requires w'.nodeL == Min(w.nodeL, lo[objs'[x]]) && w'.nodeR == Max(w.nodeR, hi[objs'[x]])
    ensures exists k :: w'.Done(k) && 0 <= k < |objs'| && objs'[k] < |lo| && lo[objs'[k]] == w'.nodeL
    ensures exists k :: w'.Done(k) && 0 <= k < |objs'| && objs'[k] < |hi| && hi[objs'[k]] == w'.nodeR
    ensures Finite(w'.nodeL) && Finite(w'.nodeR)
  {
    if !(w.left == w.i && w.right == w.last) {
      var a :| w.Done(a) && lo[objs[a]] == w.nodeL;
      var b :| w.Done(b) && hi[objs[b]] == w.nodeR;
      assert w'.Done(a) && objs'[a] == objs[a] && w'.Done(b) && objs'[b] == objs[b];
    }
    assert lo[objs'[x]] <= hi[objs'[x]];
  }

  lemma SweepRight(ar: Arith, lo: seq<int>, hi: seq<int>, objs: seq<nat>, w: Sweep)
    requires Ordered(lo, hi) && Swept(ar, lo, hi, objs, w) && w.i <= w.right
    requires ar.mid(lo[objs[w.i]], hi[objs[w.i]]) > w.split
    ensures Swept(ar, lo, hi, Swap(objs, w.i, w.right), SendRight(w, lo[objs[w.i]], hi[objs[w.i]]))
  {
    SweepRightSides(ar, lo, hi, objs, w);
    SweepRightNode(lo, hi, objs, w);
  }

  lemma SweepRightNode(lo: seq<int>, hi: seq<int>, objs: seq<nat>, w: Sweep)
    requires Ordered(lo, hi) && SweptNode(lo, hi, objs, w) && w.i <= w.right
    ensures SweptNode(lo, hi, Swap(objs, w.i, w.right), SendRight(w, lo[objs[w.i]], hi[objs[w.i]]))
  {
    var objs' := Swap(objs, w.i, w.right);
    var w' := SendRight(w, lo[objs[w.i]], hi[objs[w.i]]);
    forall k | w'.Done(k) ensures w'.nodeL <= lo[objs'[k]] && hi[objs'[k]] <= w'.nodeR {
      assert k == w.right || (w.Done(k) && objs'[k] == objs[k]);
    }
    NodeAttained(lo, hi, objs, objs', w, w', w.right);
  }

  lemma SweepRightSides(ar: Arith, lo: seq<int>, hi: seq<int>, objs: seq<nat>, w: Sweep)
    requires Ordered(lo, hi) && SweptSides(ar, lo, hi, objs, w) && w.i <= w.right
    requires ar.mid(lo[objs[w.i]], hi[objs[w.i]]) > w.split
    ensures SweptSides(ar, lo, hi, Swap(objs, w.i, w.right), SendRight(w, lo[objs[w.i]], hi[objs[w.i]]))
  {
    var objs' := Swap(objs, w.i, w.right);
    var w' := SendRight(w, lo[objs[w.i]], hi[objs[w.i]]);
    assert forall k | w.left <= k < w.i || w.right < k <= w.last :: objs'[k] == objs[k];
    if lo[objs[w.i]] <= w.clipR {
      assert w'.right < w.right <= w'.last && lo[objs'[w.right]] == w'.clipR;
    } else {
      var k :| w.right < k <= w.last && lo[objs[k]] == w.clipR;
      assert lo[objs'[k]] == w'.clipR;
    }
    if w.left < w.i {
      var k :| w.left <= k < w.i && hi[objs[k]] == w.clipL;
      assert hi[objs'[k]] == w'.clipL;
    }
  }

  lemma SweptInitially(ar: Arith, boxes: seq<Box>, axis: nat, objs: seq<nat>, w: Sweep)
    requires w == Sweep(w.left, w.left, w.last, w.last, w.split, -INF, INF, INF, -INF) && w.left <= w.last < |objs|
    requires forall k | 0 <= k < |objs| :: objs[k] < |boxes|
    ensures |Lows(boxes, axis)| == |Highs(boxes, axis)| == |boxes|
    ensures Swept(ar, Lows(boxes, axis), Highs(boxes, axis), objs, w)
  {
  }

  lemma SweepDone(ar: Arith, boxes: seq<Box>, axis: nat, objs: seq<nat>, w: Sweep)
    requires Swept(ar, Lows(boxes, axis), Highs(boxes, axis), objs, w) && w.i == w.right + 1 && w.left <= w.last
    ensures Below(boxes, objs[w.left..w.i], axis, w.clipL)
    ensures Above(boxes, objs[w.i..w.last + 1], axis, w.clipR)
    ensures Above(boxes, objs[w.left..w.last + 1], axis, w.nodeL)
    ensures Below(boxes, objs[w.left..w.last + 1], axis, w.nodeR)
  {
    var lo, hi := Lows(boxes, axis), Highs(boxes, axis);
    assert forall k | w.left <= k <= w.last :: w.Done(k);
    assert forall o | 0 <= o < |boxes| :: lo[o] == boxes[o].min.At(axis) && hi[o] == boxes[o].max.At(axis);
  }

  ghost predicate Sweepable(n: nat, objs: seq<nat>, w: Sweep) {
    && w.left <= w.i <= w.right + 1 <= w.last + 1 <= |objs|
    && forall k | 0 <= k < |objs| :: objs[k] < n
  }

  predicate Shorter(w': Sweep, w: Sweep) { w'.left == w.left && w'.last == w.last && w'.right - w'.i < w.right - w.i }

  /** The sweep as a function of the array contents. */
  ghost function SweepAll(ar: Arith, lo: seq<int>, hi: seq<int>, objs: seq<nat>, w: Sweep): (r: (seq<nat>, Sweep))
    requires |lo| == |hi| && Sweepable(|lo|, objs, w)
    decreases w.right + 1 - w.i
  {
    if w.i > w.right then (objs, w)
    else
      var o := objs[w.i];
      if ar.mid(lo[o], hi[o]) <= w.split then SweepAll(ar, lo, hi, objs, KeepLeft(w, lo[o], hi[o]))
      else SweepAll(ar, lo, hi, Swap(objs, w.i, w.right), SendRight(w, lo[o], hi[o]))
  }

  lemma {:induction false} SweepAllUnfold(ar: Arith, lo: seq<int>, hi: seq<int>, objs: seq<nat>, w: Sweep)
    requires |lo| == |hi| && Sweepable(|lo|, objs, w)
    ensures w.left <= w.i <= w.right + 1 <= w.last + 1 <= |objs|
    ensures w.i > w.right ==> SweepAll(ar, lo, hi, objs, w) == (objs, w)
    ensures w.i <= w.right ==> objs[w.i] < |lo|
    ensures w.i <= w.right ==>
              var o := objs[w.i];
              var swapped := Swap(objs, w.i, w.right);
              && Shorter(KeepLeft(w, lo[o], hi[o]), w) && Shorter(SendRight(w, lo[o], hi[o]), w)
              && Sweepable(|lo|, objs, KeepLeft(w, lo[o], hi[o]))
              && Sweepable(|lo|, swapped, SendRight(w, lo[o], hi[o]))
              && SweepAll(ar, lo, hi, objs, w) ==
                   if ar.mid(lo[o], hi[o]) <= w.split then SweepAll(ar, lo, hi, objs, KeepLeft(w, lo[o], hi[o]))
                   else SweepAll(ar, lo, hi, swapped, SendRight(w, lo[o], hi[o]))
  {
  }

  /** A finished sweep splits the range by centre, with exact clip planes on both sides. */
  lemma {:induction false} SweepAllPartitions(ar: Arith, lo: seq<int>, hi: seq<int>, objs: seq<nat>, w: Sweep)
    requires Ordered(lo, hi) && Sweepable(|lo|, objs, w) && Swept(ar, lo, hi, objs, w)
    ensures var (objs', w') := SweepAll(ar, lo, hi, objs, w);
            && w'.i == w'.right + 1 && w'.left == w.left && w'.last == w.last && w'.split == w.split
            && Sweepable(|lo|, objs', w') && Swept(ar, lo, hi, objs', w')
    decreases w.right + 1 - w.i
  {
    if w.i <= w.right {
      var o := objs[w.i];
      if ar.mid(lo[o], hi[o]) <= w.split {
        SweepLeft(ar, lo, hi, objs, w);
        SweepAllPartitions(ar, lo, hi, objs, KeepLeft(w, lo[o], hi[o]));
      } else {
        SweepRight(ar, lo, hi, objs, w);
        SweepAllPartitions(ar, lo, hi, Swap(objs, w.i, w.right), SendRight(w, lo[o], hi[o]));
      }
    }
  }

  lemma {:induction false} SweepAllPermutes(ar: Arith, lo: seq<int>, hi: seq<int>, objs: seq<nat>, w: Sweep)
    requires |lo| == |hi| && Sweepable(|lo|, objs, w)
    ensures Permuted(objs, SweepAll(ar, lo, hi, objs, w).0, w.left, w.last + 1)
    decreases w.right + 1 - w.i
  {
    hide Permuted, SweepAll, KeepLeft, SendRight, Swap, Sweepable;
    SweepAllUnfold(ar, lo, hi, objs, w);
    if w.i > w.right {
      PermutedSame(objs, w.left, w.last + 1);
    } else {
      var o := objs[w.i];
      if ar.mid(lo[o], hi[o]) <= w.split {
        SweepAllPermutes(ar, lo, hi, objs, KeepLeft(w, lo[o], hi[o]));
      } else {
        var swapped, w' := Swap(objs, w.i, w.right), SendRight(w, lo[o], hi[o]);
        SwapPermutes(objs, w.left, w.last + 1, w.i, w.right);
        SweepAllPermutes(ar, lo, hi, swapped, w');
        PermutedTrans(objs, swapped, SweepAll(ar, lo, hi, swapped, w').0, w.left, w.last + 1);
      }
    }
  }

  lemma OrderedExtents(boxes: seq<Box>, axis: nat)
    requires AllWellFormed(boxes) && axis < 3
    ensures Ordered(Lows(boxes, axis), Highs(boxes, axis))
  {
    forall o | 0 <= o < |boxes|
      ensures var lo, hi := Lows(boxes, axis)[o], Highs(boxes, axis)[o]; Finite(lo) && Finite(hi) && lo <= hi
    {
      assert WellFormed(boxes[o]);
    }
  }

  // ---- Outcome of the plane search ----

  datatype Choice =
    | AsLeaf
    | AsClip(axis: nat, lo: int, hi: int, grid: Box)
    | AsSplit(axis: nat, split: int, clipL: int, clipR: int, right: int, grid: Box, skipped: Skipped)

  ghost predicate SkippedOk(boxes: seq<Box>, s: seq<nat>, k: Skipped) {
    match k
    case Nothing => true
    case SkipRight(axis, clip) => axis < 3 && Finite(clip) && Below(boxes, s, axis, clip)
    case SkipLeft(axis, clip) => axis < 3 && Finite(clip) && Above(boxes, s, axis, clip)
  }

  /** What the caller may rely on: planes contain the boxes they guard, both sides of a split are non-empty. */
  ghost predicate ChoiceOk(ar: Arith, boxes: seq<Box>, objs: seq<nat>, left: nat, last: nat, c: Choice) {
    && left <= last < |objs|
    && match c
       case AsLeaf => true
       case AsClip(axis, lo, hi, grid) =>
         && axis < 3 && Finite(lo) && Finite(hi) && WellFormed(grid)
         && Above(boxes, objs[left..last + 1], axis, lo) && Below(boxes, objs[left..last + 1], axis, hi)
       case AsSplit(axis, split, clipL, clipR, right, grid, skipped) =>
         && axis < 3 && Finite(clipL) && Finite(clipR) && WellFormed(grid)
         && grid.min.At(axis) <= split <= grid.max.At(axis)
         && left <= right < last
         && Below(boxes, objs[left..right + 1], axis, clipL)
         && Above(boxes, objs[right + 1..last + 1], axis, clipR)
         && SkippedOk(boxes, objs[left..last + 1], skipped)
  }

  lemma ChoiceSplits(ar: Arith, boxes: seq<Box>, objs: seq<nat>, left: nat, last: nat, c: Choice)
    requires ChoiceOk(ar, boxes, objs, left, last, c) && c.AsSplit?
    ensures c.axis < 3 && -INF <= c.clipL <= INF && -INF <= c.clipR <= INF && WellFormed(c.grid)
    ensures c.grid.min.At(c.axis) <= c.split <= c.grid.max.At(c.axis) && left <= c.right < last < |objs|
    ensures Below(boxes, objs[left..c.right + 1], c.axis, c.clipL)
    ensures Above(boxes, objs[c.right + 1..last + 1], c.axis, c.clipR)
  {
  }

  lemma ChoiceSkips(ar: Arith, boxes: seq<Box>, objs: seq<nat>, left: nat, last: nat, c: Choice)
    requires ChoiceOk(ar, boxes, objs, left, last, c) && c.AsSplit?
    ensures left <= c.right < last < |objs|
    ensures SkippedOk(boxes, [], c.skipped) && SkippedOk(boxes, objs[left..last + 1], c.skipped)
  {
  }

  lemma SkippedPermuted(boxes: seq<Box>, objs: seq<nat>, objs': seq<nat>, l: nat, r: nat, k: Skipped)
    requires Permuted(objs, objs', l, r) && SkippedOk(boxes, objs[l..r], k)
    ensures SkippedOk(boxes, objs'[l..r], k)
  {
    SameMembers(objs[l..r], objs'[l..r]);
  }

  /** One pass, in terms of the boxes. */
  ghost predicate PassOk(boxes: seq<Box>, objs: seq<nat>, left: nat, last: nat, axis: nat,
                         right: int, clipL: int, clipR: int, nodeL: int, nodeR: int)
  {
    && left <= last < |objs| && left - 1 <= right <= last
    && Below(boxes, objs[left..right + 1], axis, clipL)
    && Above(boxes, objs[right + 1..last + 1], axis, clipR)
    && Above(boxes, objs[left..last + 1], axis, nodeL) && Below(boxes, objs[left..last + 1], axis, nodeR)
    && (left <= right ==> Finite(clipL)) && (right < last ==> Finite(clipR))
    && Finite(nodeL) && Finite(nodeR)
  }

  lemma SweptIsPass(ar: Arith, boxes: seq<Box>, axis: nat, objs: seq<nat>, w: Sweep)
    requires AllWellFormed(boxes) && axis < 3
    requires Swept(ar, Lows(boxes, axis), Highs(boxes, axis), objs, w) && w.i == w.right + 1 && w.left <= w.last
    ensures PassOk(boxes, objs, w.left, w.last, axis, w.right, w.clipL, w.clipR, w.nodeL, w.nodeR)
  {
    SweepDone(ar, boxes, axis, objs, w);
    OrderedExtents(boxes, axis);
  }

  /** One pass to the letter: which side a primitive is on, and where the two sides and the whole range end. */
  ghost predicate PassExact(ar: Arith, boxes: seq<Box>, objs: seq<nat>, left: nat, last: nat, axis: nat, split: int,
                            p: Sides)
  {
    && left <= last < |objs| && left - 1 <= p.right <= last
    && AllLow(ar, boxes, objs[left..p.right + 1], axis, split)
    && AllHigh(ar, boxes, objs[p.right + 1..last + 1], axis, split)
    && (left <= p.right ==> Most(boxes, objs[left..p.right + 1], axis, p.clipL))
    && (p.right < last ==> Least(boxes, objs[p.right + 1..last + 1], axis, p.clipR))
    && Least(boxes, objs[left..last + 1], axis, p.nodeL) && Most(boxes, objs[left..last + 1], axis, p.nodeR)
  }

  lemma SweptIsExact(ar: Arith, boxes: seq<Box>, axis: nat, objs: seq<nat>, w: Sweep)
    requires AllWellFormed(boxes) && axis < 3
    requires Swept(ar, Lows(boxes, axis), Highs(boxes, axis), objs, w) && w.i == w.right + 1 && w.left <= w.last
    ensures PassExact(ar, boxes, objs, w.left, w.last, axis, w.split,
                      Sides(w.right, w.clipL, w.clipR, w.nodeL, w.nodeR))
  {
    hide AllWellFormed, Swept, Lows, Highs, Below, Above, AllLow, AllHigh, Least, Most;
    SweepDone(ar, boxes, axis, objs, w);
    SweptCentres(ar, boxes, axis, objs, w);
    SweptEnds(ar, boxes, axis, objs, w);
  }

  lemma SweptCentres(ar: Arith, boxes: seq<Box>, axis: nat, objs: seq<nat>, w: Sweep)
    requires Swept(ar, Lows(boxes, axis), Highs(boxes, axis), objs, w) && w.i == w.right + 1 && w.left <= w.last
    ensures w.left <= w.i <= w.last + 1 <= |objs|
    ensures AllLow(ar, boxes, objs[w.left..w.i], axis, w.split)
    ensures AllHigh(ar, boxes, objs[w.i..w.last + 1], axis, w.split)
  {
    hide SweptNode;
    var lo, hi := Lows(boxes, axis), Highs(boxes, axis);
    forall o | o in objs[w.left..w.i] && o < |boxes|
      ensures ar.mid(boxes[o].min.At(axis), boxes[o].max.At(axis)) <= w.split
    {
      var k :| 0 <= k < w.i - w.left && objs[w.left..w.i][k] == o;
      assert objs[w.left + k] == o && lo[o] == boxes[o].min.At(axis) && hi[o] == boxes[o].max.At(axis);
    }
    forall o | o in objs[w.i..w.last + 1] && o < |boxes|
      ensures ar.mid(boxes[o].min.At(axis), boxes[o].max.At(axis)) > w.split
    {
      var k :| 0 <= k < w.last + 1 - w.i && objs[w.i..w.last + 1][k] == o;
      assert objs[w.i + k] == o && lo[o] == boxes[o].min.At(axis) && hi[o] == boxes[o].max.At(axis);
    }
  }

  lemma SweptEnds(ar: Arith, boxes: seq<Box>, axis: nat, objs: seq<nat>, w: Sweep)
    requires Swept(ar, Lows(boxes, axis), Highs(boxes, axis), objs, w) && w.i == w.right + 1 && w.left <= w.last
    requires Below(boxes, objs[w.left..w.i], axis, w.clipL) && Above(boxes, objs[w.i..w.last + 1], axis, w.clipR)
    requires Above(boxes, objs[w.left..w.last + 1], axis, w.nodeL)
    requires Below(boxes, objs[w.left..w.last + 1], axis, w.nodeR)
    ensures w.left < w.i ==> Most(boxes, objs[w.left..w.i], axis, w.clipL)
    ensures w.i <= w.last ==> Least(boxes, objs[w.i..w.last + 1], axis, w.clipR)
    ensures Least(boxes, objs[w.left..w.last + 1], axis, w.nodeL)
    ensures Most(boxes, objs[w.left..w.last + 1], axis, w.nodeR)
  {
    hide SweptSides, SweptNode, Below, Above, Least, Most, Lows, Highs;
    SweptClips(ar, boxes, axis, objs, w);
    SweptExtent(boxes, axis, objs, w);
  }

  lemma SweptClips(ar: Arith, boxes: seq<Box>, axis: nat, objs: seq<nat>, w: Sweep)
    requires SweptSides(ar, Lows(boxes, axis), Highs(boxes, axis), objs, w) && w.i == w.right + 1 && w.left <= w.last
    requires Below(boxes, objs[w.left..w.i], axis, w.clipL) && Above(boxes, objs[w.i..w.last + 1], axis, w.clipR)
    ensures w.left < w.i ==> Most(boxes, objs[w.left..w.i], axis, w.clipL)
    ensures w.i <= w.last ==> Least(boxes, objs[w.i..w.last + 1], axis, w.clipR)
  {
    hide Below, Above, Least, Most;
    var lo, hi := Lows(boxes, axis), Highs(boxes, axis);
    if w.left < w.i {
      var k :| w.left <= k < w.i && hi[objs[k]] == w.clipL;
      EndsAt(boxes, objs, w.left, w.i, axis, w.clipL, k);
    }
    if w.i <= w.last {
      var k :| w.right < k <= w.last && lo[objs[k]] == w.clipR;
      StartsAt(boxes, objs, w.i, w.last + 1, axis, w.clipR, k);
    }
  }

  lemma SweptExtent(boxes: seq<Box>, axis: nat, objs: seq<nat>, w: Sweep)
    requires SweptNode(Lows(boxes, axis), Highs(boxes, axis), objs, w) && w.i == w.right + 1 && w.left <= w.last
    requires Above(boxes, objs[w.left..w.last + 1], axis, w.nodeL)
    requires Below(boxes, objs[w.left..w.last + 1], axis, w.nodeR)
    ensures Least(boxes, objs[w.left..w.last + 1], axis, w.nodeL)
    ensures Most(boxes, objs[w.left..w.last + 1], axis, w.nodeR)
  {
    hide Below, Above, Least, Most;
    var lo, hi := Lows(boxes, axis), Highs(boxes, axis);
    var a :| w.Done(a) && lo[objs[a]] == w.nodeL;
    StartsAt(boxes, objs, w.left, w.last + 1, axis, w.nodeL, a);
    var b :| w.Done(b) && hi[objs[b]] == w.nodeR;
    EndsAt(boxes, objs, w.left, w.last + 1, axis, w.nodeR, b);
  }

  lemma StartsAt(boxes: seq<Box>, objs: seq<nat>, l: nat, r: nat, axis: nat, v: int, k: nat)
    requires l <= k < r <= |objs| && objs[k] < |boxes| && boxes[objs[k]].min.At(axis) == v
    requires Above(boxes, objs[l..r], axis, v)
    ensures Least(boxes, objs[l..r], axis, v)
  {
    assert objs[l..r][k - l] == objs[k];
  }

  lemma EndsAt(boxes: seq<Box>, objs: seq<nat>, l: nat, r: nat, axis: nat, v: int, k: nat)
    requires l <= k < r <= |objs| && objs[k] < |boxes| && boxes[objs[k]].max.At(axis) == v
    requires Below(boxes, objs[l..r], axis, v)
    ensures Most(boxes, objs[l..r], axis, v)
  {
    assert objs[l..r][k - l] == objs[k];
  }

  lemma NarrowGrid(g: Box, axis: nat, c: int)
    requires WellFormed(g) && axis < 3 && g.min.At(axis) <= c <= g.max.At(axis)
    ensures WellFormed(Box(g.min, g.max.With(axis, c))) && WellFormed(Box(g.min.With(axis, c), g.max))
    ensures GridSize(Box(g.min, g.max.With(axis, c))) == GridSize(g) - (g.max.At(axis) - c)
    ensures GridSize(Box(g.min.With(axis, c), g.max)) == GridSize(g) - (c - g.min.At(axis))
    ensures c == g.max.At(axis) ==> Box(g.min, g.max.With(axis, c)) == g
    ensures c == g.min.At(axis) ==> Box(g.min.With(axis, c), g.max) == g
    ensures 0 <= GridSize(g)
  {
  }

  lemma GridSizeOk(g: Box)
    requires WellFormed(g)
    ensures 0 <= GridSize(g)
  {
  }

  // ---- What one pass of the retry loop decides ----

  datatype Sides = Sides(right: int, clipL: int, clipR: int, nodeL: int, nodeR: int)

  datatype Verdict = Stop(choice: Choice) | Retry(grid: Box, skipped: Skipped)

  function Decide(ar: Arith, left: nat, last: nat, grid: Box, nodeBox: Box,
                  lastAxis: int, lastSplit: int, skipped: Skipped, p: Sides): Verdict
  {
    var axis, split := LongestAxis(ar, grid), SplitOf(ar, grid);
    var lo, hi := nodeBox.min.At(axis), nodeBox.max.At(axis);
    if p.nodeL > lo && p.nodeR < hi && ar.narrower(p.nodeL, p.nodeR, lo, hi) then
      Stop(AsClip(axis, p.nodeL, p.nodeR, grid))
    else if p.right == last then
      // all left
      if lastAxis == axis && ar.close(lastSplit, split) then Stop(AsLeaf)
      else Retry(Box(grid.min, grid.max.With(axis, split)),
                 if p.clipL <= split then SkipRight(axis, p.clipL) else Nothing)
    else if left > p.right then
      // all right
      if lastAxis == axis && ar.close(lastSplit, split) then Stop(AsLeaf)
      else Retry(Box(grid.min.With(axis, split), grid.max),
                 if p.clipR >= split then SkipLeft(axis, p.clipR) else Nothing)
    else
      Stop(AsSplit(axis, split, p.clipL, p.clipR, p.right, grid, skipped))
  }

  ghost predicate PassDone(boxes: seq<Box>, objs: seq<nat>, left: nat, last: nat, axis: nat, p: Sides) {
    PassOk(boxes, objs, left, last, axis, p.right, p.clipL, p.clipR, p.nodeL, p.nodeR)
  }

  lemma DecideStops(ar: Arith, boxes: seq<Box>, objs: seq<nat>, left: nat, last: nat, grid: Box, nodeBox: Box,
                    lastAxis: int, lastSplit: int, skipped: Skipped, p: Sides)
    requires Sound(ar) && WellFormed(grid) && PassDone(boxes, objs, left, last, LongestAxis(ar, grid), p)
    requires SkippedOk(boxes, objs[left..last + 1], skipped)
    ensures var v := Decide(ar, left, last, grid, nodeBox, lastAxis, lastSplit, skipped, p);
            v.Stop? ==> ChoiceOk(ar, boxes, objs, left, last, v.choice)
  {
    NarrowGrid(grid, LongestAxis(ar, grid), SplitOf(ar, grid));
  }

  /** A retry shrinks the grid box, or leaves it alone and was not itself a repeat. */
  lemma DecideProgresses(ar: Arith, boxes: seq<Box>, objs: seq<nat>, left: nat, last: nat, grid: Box, nodeBox: Box,
                         lastAxis: int, lastSplit: int, skipped: Skipped, p: Sides)
    requires Sound(ar) && WellFormed(grid) && PassDone(boxes, objs, left, last, LongestAxis(ar, grid), p)
    ensures var v := Decide(ar, left, last, grid, nodeBox, lastAxis, lastSplit, skipped, p);
            v.Retry? ==>
              && WellFormed(v.grid) && SkippedOk(boxes, objs[left..last + 1], v.skipped)
              && (|| 0 <= GridSize(v.grid) < GridSize(grid)
                  || (v.grid == grid && !(lastAxis == LongestAxis(ar, grid) && lastSplit == SplitOf(ar, grid))))
  {
    NarrowGrid(grid, LongestAxis(ar, grid), SplitOf(ar, grid));
    assert ar.close(lastSplit, lastSplit);
  }

  // ---- The trail of passes ----

  /** What a choice says, given the turns `us` before it and the deciding turn `z`. */
  ghost predicate ChoiceIs(ar: Arith, boxes: seq<Box>, objs: seq<nat>, left: nat, last: nat, nodeBox: Box,
                           us: seq<Turn>, z: Turn, c: Choice)
    requires left <= last < |objs|
  {
    var s := objs[left..last + 1];
    match c
    case AsLeaf => !Loose(ar, nodeBox, z) && OneSided(ar, boxes, s, z) && us != [] && Repeats(ar, us[|us| - 1], z)
    case AsClip(axis, lo, hi, grid) => Loose(ar, nodeBox, z) && axis == z.axis && lo == z.lo && hi == z.hi
        && grid == z.grid
    case AsSplit(axis, split, clipL, clipR, right, grid, skipped) =>
      && !Loose(ar, nodeBox, z) && !OneSided(ar, boxes, s, z) && skipped == LastSkip(ar, boxes, s, us)
      && axis == z.axis && split == z.split && grid == z.grid && Parts(ar, boxes, objs, left, last, c)
  }

  /** Both sides of a split, with their planes. */
  ghost predicate Parts(ar: Arith, boxes: seq<Box>, objs: seq<nat>, left: nat, last: nat, c: Choice)
    requires c.AsSplit? && left <= last < |objs|
  {
    && left <= c.right < last
    && AllLow(ar, boxes, objs[left..c.right + 1], c.axis, c.split)
    && Most(boxes, objs[left..c.right + 1], c.axis, c.clipL)
    && AllHigh(ar, boxes, objs[c.right + 1..last + 1], c.axis, c.split)
    && Least(boxes, objs[c.right + 1..last + 1], c.axis, c.clipR)
  }

  /** The turn that a pass makes. */
  ghost function TurnOf(ar: Arith, grid: Box, p: Sides): Turn {
    Turn(grid, LongestAxis(ar, grid), SplitOf(ar, grid), p.nodeL, p.nodeR)
  }

  lemma PassIsTurn(ar: Arith, boxes: seq<Box>, objs: seq<nat>, left: nat, last: nat, grid: Box, p: Sides)
    requires PassExact(ar, boxes, objs, left, last, LongestAxis(ar, grid), SplitOf(ar, grid), p)
    ensures TurnOk(ar, boxes, objs[left..last + 1], TurnOf(ar, grid, p))
    ensures var axis, split, s := LongestAxis(ar, grid), SplitOf(ar, grid), objs[left..last + 1];
            && (AllLow(ar, boxes, s, axis, split) <==> p.right == last)
            && (AllHigh(ar, boxes, s, axis, split) <==> left > p.right)
            && (p.right == last ==> p.clipL == p.nodeR) && (left > p.right ==> p.clipR == p.nodeL)
  {
    hide LongestAxis, AllLow, AllHigh, Least, Most;
    SidesTogether(ar, boxes, objs, left, last, LongestAxis(ar, grid), SplitOf(ar, grid), p);
  }

  /** Each side of a pass is empty exactly if all centres are on the other. */
  lemma SidesTogether(ar: Arith, boxes: seq<Box>, objs: seq<nat>, left: nat, last: nat, axis: nat, split: int, p: Sides)
    requires PassExact(ar, boxes, objs, left, last, axis, split, p)
    ensures var s := objs[left..last + 1];
            && (AllLow(ar, boxes, s, axis, split) <==> p.right == last)
            && (AllHigh(ar, boxes, s, axis, split) <==> left > p.right)
            && (p.right == last ==> p.clipL == p.nodeR) && (left > p.right ==> p.clipR == p.nodeL)
  {
    hide PassExact;
    ExactParts(ar, boxes, objs, left, last, axis, split, p);
    var l, r := objs[left..p.right + 1], objs[p.right + 1..last + 1];
    assert objs[left..last + 1] == l + r;
    if p.right == last { assert l + r == l; }
    if left > p.right { assert l + r == r; }
    if p.right < last { SomeIn(boxes, l + r, r, axis, p.clipR); }
    if left <= p.right { SomeOut(boxes, l + r, l, axis, p.clipL); }
  }

  lemma ExactParts(ar: Arith, boxes: seq<Box>, objs: seq<nat>, left: nat, last: nat, axis: nat, split: int, p: Sides)
    requires PassExact(ar, boxes, objs, left, last, axis, split, p)
    ensures left <= last < |objs| && left - 1 <= p.right <= last
    ensures AllLow(ar, boxes, objs[left..p.right + 1], axis, split)
    ensures AllHigh(ar, boxes, objs[p.right + 1..last + 1], axis, split)
    ensures left <= p.right ==> Most(boxes, objs[left..p.right + 1], axis, p.clipL)
    ensures p.right < last ==> Least(boxes, objs[p.right + 1..last + 1], axis, p.clipR)
    ensures Least(boxes, objs[left..last + 1], axis, p.nodeL) && Most(boxes, objs[left..last + 1], axis, p.nodeR)
  {
  }

  lemma SomeIn(boxes: seq<Box>, s: seq<nat>, r: seq<nat>, axis: nat, v: int)
    requires Least(boxes, r, axis, v) && forall o | o in r :: o in s
    ensures exists o :: o in r && o in s && o < |boxes|
  {
  }

  lemma SomeOut(boxes: seq<Box>, s: seq<nat>, l: seq<nat>, axis: nat, v: int)
    requires Most(boxes, l, axis, v) && forall o | o in l :: o in s
    ensures exists o :: o in l && o in s && o < |boxes|
  {
  }

  lemma TrailNext(ar: Arith, boxes: seq<Box>, s: seq<nat>, grid0: Box, nodeBox: Box, us: seq<Turn>, z: Turn)
    requires Decides(ar, boxes, s, grid0, nodeBox, us, z) && !Loose(ar, nodeBox, z) && OneSided(ar, boxes, s, z)
    requires us != [] ==> !Repeats(ar, us[|us| - 1], z)
    ensures Trail(ar, boxes, s, grid0, nodeBox, us + [z], Halved(ar, boxes, s, z))
    ensures LastSkip(ar, boxes, s, us + [z]) == SkipOf(ar, boxes, s, z)
  {
    hide TurnOk, Loose, OneSided, Halved, SkipOf, Repeats;
    var us' := us + [z];
    forall i: nat | i < |us'| ensures Retried(ar, boxes, s, nodeBox, us', i) {
      if i < |us| { assert Retried(ar, boxes, s, nodeBox, us, i); }
    }
    forall i: nat | 0 < i < |us'| ensures us'[i].grid == Halved(ar, boxes, s, us'[i - 1]) {
      assert us'[i - 1] == us[i - 1];
    }
  }

  /** A verdict is what the trail of turns calls for. */
  lemma DecideExact(ar: Arith, boxes: seq<Box>, objs: seq<nat>, left: nat, last: nat, grid0: Box, grid: Box,
                    nodeBox: Box, lastAxis: int, lastSplit: int, skipped: Skipped, p: Sides, us: seq<Turn>)
    requires PassExact(ar, boxes, objs, left, last, LongestAxis(ar, grid), SplitOf(ar, grid), p)
    requires Trail(ar, boxes, objs[left..last + 1], grid0, nodeBox, us, grid)
    requires skipped == LastSkip(ar, boxes, objs[left..last + 1], us)
    requires if us == [] then lastAxis == -1 else lastAxis == us[|us| - 1].axis && lastSplit == us[|us| - 1].split
    ensures var v := Decide(ar, left, last, grid, nodeBox, lastAxis, lastSplit, skipped, p);
            var s, z := objs[left..last + 1], TurnOf(ar, grid, p);
            && Decides(ar, boxes, s, grid0, nodeBox, us, z)
            && (v.Stop? ==> ChoiceIs(ar, boxes, objs, left, last, nodeBox, us, z, v.choice))
            && (v.Retry? ==>
                  && Trail(ar, boxes, s, grid0, nodeBox, us + [z], v.grid)
                  && v.skipped == LastSkip(ar, boxes, s, us + [z]))
  {
    hide LongestAxis, SplitOf, Trail, TurnOk, AllLow, AllHigh, Least, Most;
    PassIsTurn(ar, boxes, objs, left, last, grid, p);
    var s, z := objs[left..last + 1], TurnOf(ar, grid, p);
    var v := Decide(ar, left, last, grid, nodeBox, lastAxis, lastSplit, skipped, p);
    if v.Retry? {
      TrailNext(ar, boxes, s, grid0, nodeBox, us, z);
    }
  }

  lemma StartTrail(ar: Arith, boxes: seq<Box>, objs: seq<nat>, left: nat, last: nat, grid: Box, nodeBox: Box)
    requires left <= last < |objs|
    ensures Trail(ar, boxes, objs[left..last + 1], grid, nodeBox, [], grid)
    ensures LastSkip(ar, boxes, objs[left..last + 1], []) == Nothing && SkippedOk(boxes, objs[left..last + 1], Nothing)
  {
  }

  lemma ChoiceFields(ar: Arith, boxes: seq<Box>, objs: seq<nat>, left: nat, last: nat, nodeBox: Box, us: seq<Turn>,
                     z: Turn, c: Choice)
    requires left <= last < |objs| && ChoiceIs(ar, boxes, objs, left, last, nodeBox, us, z, c)
    ensures c.AsClip? ==> c.axis == z.axis && c.lo == z.lo && c.hi == z.hi && c.grid == z.grid
    ensures c.AsSplit? ==>
              c.axis == z.axis && c.split == z.split && c.grid == z.grid && Parts(ar, boxes, objs, left, last, c)
  {
  }

  /** Rearranging the range leaves the trail as it is. */
  lemma DecidesPermuted(ar: Arith, boxes: seq<Box>, objs: seq<nat>, objs': seq<nat>, l: nat, r: nat, grid: Box,
                        nodeBox: Box, us: seq<Turn>, z: Turn)
    requires Permuted(objs, objs', l, r) && Decides(ar, boxes, objs[l..r], grid, nodeBox, us, z)
    ensures Decides(ar, boxes, objs'[l..r], grid, nodeBox, us, z)
    ensures OneSided(ar, boxes, objs'[l..r], z) <==> OneSided(ar, boxes, objs[l..r], z)
    ensures LastSkip(ar, boxes, objs'[l..r], us) == LastSkip(ar, boxes, objs[l..r], us)
  {
    hide Trail, TurnOk, OneSided, LastSkip;
    SameMembers(objs[l..r], objs'[l..r]);
    TrailSame(ar, boxes, objs[l..r], objs'[l..r], grid, nodeBox, us, z.grid);
    TurnSame(ar, boxes, objs[l..r], objs'[l..r], z);
  }

  lemma TrailPermuted(ar: Arith, boxes: seq<Box>, objs: seq<nat>, objs': seq<nat>, l: nat, r: nat, grid0: Box,
                      nodeBox: Box, us: seq<Turn>, grid: Box)
    requires Permuted(objs, objs', l, r) && Trail(ar, boxes, objs[l..r], grid0, nodeBox, us, grid)
    ensures Trail(ar, boxes, objs'[l..r], grid0, nodeBox, us, grid)
    ensures LastSkip(ar, boxes, objs'[l..r], us) == LastSkip(ar, boxes, objs[l..r], us)
  {
    hide Trail, LastSkip;
    SameMembers(objs[l..r], objs'[l..r]);
    TrailSame(ar, boxes, objs[l..r], objs'[l..r], grid0, nodeBox, us, grid);
  }

  /** Two shaped halves, rearranged one after the other, make a shaped split. */
  lemma SplitShapes(k: Setting, a: seq<nat>, b: seq<nat>, d: seq<nat>, left: nat, last: nat, c: Choice, z: Turn,
                    nodeBox: Box, depth: nat, tl: Bih, tr: Bih)
    requires c.AsSplit? && left <= last < |a| && Parts(k.ar, k.boxes, a, left, last, c)
    requires c.axis == z.axis && c.split == z.split && c.grid == z.grid
    requires Permuted(a, b, left, c.right + 1) && Permuted(b, d, c.right + 1, last + 1)
    requires Shaped(k, b, tl, left, c.right + 1, Box(c.grid.min, c.grid.max.With(c.axis, c.split)),
                    Box(nodeBox.min, nodeBox.max.With(c.axis, c.clipL)), depth + 1)
    requires Shaped(k, d, tr, c.right + 1, last + 1, Box(c.grid.min.With(c.axis, c.split), c.grid.max),
                    Box(nodeBox.min.With(c.axis, c.clipR), nodeBox.max), depth + 1)
    ensures |d| == |a|
    ensures SplitShaped(k, d, Split(c.axis, c.clipL, c.clipR, c.right + 1, tl, tr), left, last + 1, nodeBox, depth, z)
  {
    hide Shaped, SplitShaped, AllLow, AllHigh, Least, Most;
    var mid, end: nat := c.right + 1, last + 1;
    assert b[left..mid] == b[..mid][left..] == d[..mid][left..] == d[left..mid];
    assert a[mid..end] == a[mid..][..end - mid] == b[mid..][..end - mid] == b[mid..end];
    SameMembers(a[left..mid], b[left..mid]);
    SameMembers(b[mid..end], d[mid..end]);
    SameFacts(k.ar, k.boxes, a[left..mid], d[left..mid], c.axis, c.split);
    SameFacts(k.ar, k.boxes, a[left..mid], d[left..mid], c.axis, c.clipL);
    SameFacts(k.ar, k.boxes, a[mid..end], d[mid..end], c.axis, c.split);
    SameFacts(k.ar, k.boxes, a[mid..end], d[mid..end], c.axis, c.clipR);
    ShapedFrame(k, b, d, tl, left, mid, Box(c.grid.min, c.grid.max.With(c.axis, c.split)),
                Box(nodeBox.min, nodeBox.max.With(c.axis, c.clipL)), depth + 1);
    SplitJoins(k, d, Split(c.axis, c.clipL, c.clipR, mid, tl, tr), left, end, nodeBox, depth, z);
  }

  /** The node made for a choice is the one its turns call for, whatever the order within the range. */
  lemma ChoiceShapes(k: Setting, objs: seq<nat>, objs': seq<nat>, left: nat, last: nat, grid: Box, nodeBox: Box,
                     depth: nat, us: seq<Turn>, z: Turn, c: Choice, t: Bih)
    requires left <= last < |objs| && ChoiceIs(k.ar, k.boxes, objs, left, last, nodeBox, us, z, c)
    requires Permuted(objs, objs', left, last + 1) && Decides(k.ar, k.boxes, objs[left..last + 1], grid, nodeBox, us, z)
    requires last + 1 - left > k.leafSize && depth < MAX_STACK_SIZE
    requires c.AsLeaf? ==> t == Leaf(left, last + 1 - left)
    requires c.AsClip? ==> |objs'| == |objs| && ClipShaped(k, objs', t, left, last + 1, nodeBox, depth, z)
    requires c.AsSplit? ==>
               && |objs'| == |objs| && t == Wrap(c.skipped, Inner(c.skipped, t))
               && SplitShaped(k, objs', Inner(c.skipped, t), left, last + 1, nodeBox, depth, z)
    ensures Shaped(k, objs', t, left, last + 1, grid, nodeBox, depth)
  {
    hide Shaped, ShapedBy, ClipShaped, SplitShaped, Decides, Loose, OneSided, LastSkip, Wrap, Inner, Parts, Repeats;
    DecidesPermuted(k.ar, k.boxes, objs, objs', left, last + 1, grid, nodeBox, us, z);
    match c {
      case AsLeaf => ByLeaf(k, objs', t, left, last + 1, nodeBox, depth, us, z);
      case AsClip(_, _, _, _) => ByClip(k, objs', t, left, last + 1, nodeBox, depth, us, z);
      case AsSplit(_, _, _, _, _, _, _) => BySplit(k, objs', t, left, last + 1, nodeBox, depth, us, z);
    }
    ShapedIs(k, objs', t, left, last + 1, grid, nodeBox, depth, us, z);
  }

  // ---- Size of the emitted tree ----

  /** Words that `subdivide` may still append for `m` primitives at a given depth. */
  function Budget(m: int, depth: int): int { 3 * (MAX_STACK_SIZE - depth) * m + 3 * (m - 1) }

  lemma BudgetNonNegative(m: int, depth: int)
    requires 1 <= m && depth <= MAX_STACK_SIZE
    ensures 0 <= Budget(m, depth)
  {
  }

  lemma BudgetClip(m: int, depth: int)
    requires 1 <= m && depth < MAX_STACK_SIZE
    ensures 3 + Budget(m, depth + 1) <= Budget(m, depth)
    ensures 0 <= Budget(m, depth + 1)
  {
  }

  lemma BudgetSplit(nl: int, nr: int, depth: int)
    requires 1 <= nl && 1 <= nr && depth < MAX_STACK_SIZE
    ensures 9 + Budget(nl, depth + 1) + Budget(nr, depth + 1) <= Budget(nl + nr, depth)
    ensures 0 <= Budget(nl, depth + 1) && 0 <= Budget(nr, depth + 1)
  {
    var k := MAX_STACK_SIZE - (depth + 1);
    assert 3 * (k + 1) * (nl + nr) == 3 * k * nl + 3 * k * nr + 3 * (nl + nr);
  }

  // ---- Putting subtrees together ----

  /** `w'` extends `w`, changing none of its words except the node at `at`. */
  ghost predicate Grown(w: seq<Word>, w': seq<Word>, at: nat) {
    |w| <= |w'| && forall i | 0 <= i < |w| && !(at <= i < at + 3) :: w'[i] == w[i]
  }

  lemma GrownSize(w: seq<Word>, w': seq<Word>, at: nat)
    requires Grown(w, w', at)
    ensures |w| <= |w'|
  {
  }

  /** New nodes at or beyond the end of `w` do not disturb it. */
  lemma GrownTwice(w: seq<Word>, w1: seq<Word>, w2: seq<Word>, w3: seq<Word>, at: nat, next: nat)
    requires Grown(w, w1, at) && Grown(w1, w2, next) && Grown(w2, w3, next + 3) && |w| <= next
    ensures Grown(w, w3, at)
  {
  }

  lemma BelowPermuted(boxes: seq<Box>, s: seq<nat>, t: seq<nat>, axis: nat, c: int)
    requires multiset(s) == multiset(t)
    ensures Below(boxes, s, axis, c) ==> Below(boxes, t, axis, c)
    ensures Above(boxes, s, axis, c) ==> Above(boxes, t, axis, c)
  {
    SameMembers(s, t);
  }

  /** Two covered halves, rearranged one after the other, make a covered split. */
  lemma CoversSplit(boxes: seq<Box>, a: seq<nat>, b: seq<nat>, c: seq<nat>, left: nat, mid: nat, end: nat,
                    axis: nat, clipL: int, clipR: int, tl: Bih, tr: Bih)
    requires left <= mid <= end && Permuted(a, b, left, mid) && Permuted(b, c, mid, end)
    requires Below(boxes, a[left..mid], axis, clipL) && Above(boxes, a[mid..end], axis, clipR)
    requires Covers(tl, b, boxes, left, mid) && Covers(tr, c, boxes, mid, end)
    ensures Permuted(a, c, left, end)
    ensures Covers(Split(axis, clipL, clipR, mid, tl, tr), c, boxes, left, end)
  {
    PermutedWiden(a, b, left, mid, left, end);
    PermutedWiden(b, c, mid, end, left, end);
    PermutedTrans(a, b, c, left, end);
    assert b[left..mid] == b[..mid][left..] == c[..mid][left..] == c[left..mid];
    assert a[mid..end] == a[mid..][..end - mid] == b[mid..][..end - mid] == b[mid..end];
    CoversFrame(tl, b, c, boxes, left, mid);
    BelowPermuted(boxes, a[left..mid], c[left..mid], axis, clipL);
    BelowPermuted(boxes, a[mid..end], c[mid..end], axis, clipR);
  }

  lemma CoversLeaf(boxes: seq<Box>, objs: seq<nat>, l: nat, r: nat)
    requires l <= r <= |objs|
    ensures Covers(Leaf(l, r - l), objs, boxes, l, r)
  {
  }

  lemma CoversWrap(boxes: seq<Box>, objs: seq<nat>, l: nat, r: nat, k: Skipped, t: Bih)
    requires Covers(t, objs, boxes, l, r) && SkippedOk(boxes, objs[l..r], k)
    ensures Covers(Wrap(k, t), objs, boxes, l, r)
  {
  }

  /** Node `at` holds the one-sided plane for `k`, whose only child is the fresh node `child`. */
  ghost predicate SkipEmitted(w: seq<Word>, w': seq<Word>, at: nat, child: nat, k: Skipped) {
    && at + 3 <= |w| && Grown(w, w', at)
    && match k
       case Nothing => w' == w && child == at
       case SkipRight(axis, clip) =>
         && |w'| == |w| + 3 && child == |w| && axis < 3 && AxisOf(w'[at]) == axis && !IsClip(w'[at])
         && OffsetOf(w'[at]) == child && FromBits(w'[at + 1]) == clip && FromBits(w'[at + 2]) == INF
       case SkipLeft(axis, clip) =>
         && |w'| == |w| + 3 && child == |w| && axis < 3 && AxisOf(w'[at]) == axis && !IsClip(w'[at])
         && OffsetOf(w'[at]) + 3 == child && FromBits(w'[at + 1]) == -INF && FromBits(w'[at + 2]) == clip
  }

  lemma SkipSizes(w: seq<Word>, w': seq<Word>, at: nat, child: nat, k: Skipped)
    requires SkipEmitted(w, w', at, child, k)
    ensures child + 3 <= |w'| == |w| + if k.Nothing? then 0 else 3
  {
  }

  lemma EncodesWrap(w: seq<Word>, w': seq<Word>, w'': seq<Word>, at: nat, child: nat, k: Skipped, t: Bih)
    requires SkipEmitted(w, w', at, child, k) && Grown(w', w'', child) && Encodes(w'', child, t, |w'|, |w''|)
    ensures Encodes(w'', at, Wrap(k, t), |w|, |w''|) && Grown(w, w'', at)
  {
    EncodesFrame(w'', w'', child, t, |w'|, |w''|, |w|, |w''|);
  }

  lemma EncodesClip(w1: seq<Word>, w2: seq<Word>, at: nat, next: nat, axis: nat, lo: int, hi: int, t: Bih)
    requires at + 3 <= next && next + 3 == |w1| && axis < 3
    requires AxisOf(w1[at]) == axis && IsClip(w1[at]) && OffsetOf(w1[at]) == next
    requires FromBits(w1[at + 1]) == lo && FromBits(w1[at + 2]) == hi
    requires Grown(w1, w2, next) && Encodes(w2, next, t, |w1|, |w2|)
    ensures Encodes(w2, at, Clip(axis, lo, hi, t), next, |w2|)
  {
    EncodesFrame(w2, w2, next, t, |w1|, |w2|, next, |w2|);
    assert w2[at] == w1[at] && w2[at + 1] == w1[at + 1] && w2[at + 2] == w1[at + 2];
  }

  lemma CoversClip(boxes: seq<Box>, objs: seq<nat>, l: nat, r: nat, axis: nat, lo: int, hi: int, t: Bih)
    requires Covers(t, objs, boxes, l, r) && Above(boxes, objs[l..r], axis, lo) && Below(boxes, objs[l..r], axis, hi)
    ensures Covers(Clip(axis, lo, hi, t), objs, boxes, l, r)
  {
  }

  /** Both children encoded one after the other behind a split node. */
  lemma EncodesSplit(w1: seq<Word>, w2: seq<Word>, w3: seq<Word>, at: nat, next: nat,
                     axis: nat, clipL: int, clipR: int, mid: nat, tl: Bih, tr: Bih)
    requires at + 3 <= next && next + 6 == |w1| && axis < 3
    requires AxisOf(w1[at]) == axis && !IsClip(w1[at]) && OffsetOf(w1[at]) == next
    requires FromBits(w1[at + 1]) == clipL && FromBits(w1[at + 2]) == clipR
    requires Grown(w1, w2, next) && Encodes(w2, next, tl, |w1|, |w2|)
    requires Grown(w2, w3, next + 3) && Encodes(w3, next + 3, tr, |w2|, |w3|)
    ensures Encodes(w3, at, Split(axis, clipL, clipR, mid, tl, tr), next, |w3|)
  {
    EncodesFrame(w2, w3, next, tl, |w1|, |w2|, next, |w3|);
    EncodesFrame(w3, w3, next + 3, tr, |w2|, |w3|, next, |w3|);
    assert w3[at] == w2[at] == w1[at] && w3[at + 1] == w2[at + 1] == w1[at + 1];
    assert w3[at + 2] == w2[at + 2] == w1[at + 2];
  }

  class Builder {
    const boxes: seq<Box>
    const ar: Arith
    const maxPrims: int
    const indices: array<nat>
    var tree: seq<Word>

    constructor (boxes: seq<Box>, maxPrims: int, ar: Arith, indices: array<nat>)
      ensures this.boxes == boxes && this.maxPrims == maxPrims && this.ar == ar && this.indices == indices
      ensures tree == [Tag(3, false, 0), 0, 0]
    {
      this.boxes, this.maxPrims, this.ar, this.indices := boxes, maxPrims, ar, indices;
      tree := [Tag(3, false, 0), 0, 0];
    }

    ghost function Set(): Setting { Setting(ar, boxes, maxPrims) }

    ghost predicate Ready()
      reads indices
    {
      indices.Length == |boxes| && forall i | 0 <= i < indices.Length :: indices[i] < |boxes|
    }

    /** One sweep over the range: primitives centred at or before `split` end up first. */
    method Partition(left: nat, last: nat, axis: nat, split: int)
      returns (right: int, clipL: int, clipR: int, nodeL: int, nodeR: int)
      requires Ready() && left <= last < |boxes| && axis < 3
      modifies indices
      ensures left - 1 <= right <= last
      ensures Ready()
      ensures (indices[..], Sweep(left, right + 1, right, last, split, clipL, clipR, nodeL, nodeR)) ==
              SweepAll(ar, Lows(boxes, axis), Highs(boxes, axis), old(indices[..]),
                       Sweep(left, left, last, last, split, -INF, INF, INF, -INF))
    {
      right := last;
      clipL, clipR, nodeL, nodeR := -INF, INF, INF, -INF;
      var i := left;
      ghost var w := Sweep(left, i, right, last, split, clipL, clipR, nodeL, nodeR);
      while i <= right
        invariant left <= i <= right + 1 <= last + 1
        invariant Ready()
        invariant w == Sweep(left, i, right, last, split, clipL, clipR, nodeL, nodeR)
        invariant Sweepable(|boxes|, indices[..], w)
        invariant SweepAll(ar, Lows(boxes, axis), Highs(boxes, axis), indices[..], w) ==
                  SweepAll(ar, Lows(boxes, axis), Highs(boxes, axis), old(indices[..]),
                           Sweep(left, left, last, last, split, -INF, INF, INF, -INF))
        decreases right + 1 - i
      {
        var obj := indices[i];
        var minb, maxb := boxes[obj].min.At(axis), boxes[obj].max.At(axis);
        if ar.mid(minb, maxb) <= split {
          w := KeepLeft(w, minb, maxb);
          i := i + 1;
          clipL := Max(clipL, maxb);
        } else {
          ghost var before := indices[..];
          w := SendRight(w, minb, maxb);
          indices[i], indices[right] := indices[right], indices[i];
          assert indices[..] == Swap(before, i, right);
          right := right - 1;
          clipR := Min(clipR, minb);
        }
        nodeL, nodeR := Min(nodeL, minb), Max(nodeR, maxb);
      }
    }

    method Pass(left: nat, last: nat, axis: nat, split: int) returns (p: Sides)
      requires AllWellFormed(boxes) && Ready() && left <= last < |boxes| && axis < 3
      modifies indices
      ensures Ready() && Permuted(old(indices[..]), indices[..], left, last + 1)
      ensures PassDone(boxes, indices[..], left, last, axis, p)
      ensures PassExact(ar, boxes, indices[..], left, last, axis, split, p)
    {
      hide SweepAll, Swept, Permuted, Lows, Highs, PassOk, Ordered, PassExact;
      ghost var lo, hi, w := Lows(boxes, axis), Highs(boxes, axis),
          Sweep(left, left, last, last, split, -INF, INF, INF, -INF);
      OrderedExtents(boxes, axis);
      SweptInitially(ar, boxes, axis, indices[..], w);
      SweepAllPermutes(ar, lo, hi, indices[..], w);
      SweepAllPartitions(ar, lo, hi, indices[..], w);
      var right, clipL, clipR, nodeL, nodeR := Partition(left, last, axis, split);
      SweptIsPass(ar, boxes, axis, indices[..], Sweep(left, right + 1, right, last, split, clipL, clipR, nodeL, nodeR));
      SweptIsExact(ar, boxes, axis, indices[..],
                   Sweep(left, right + 1, right, last, split, clipL, clipR, nodeL, nodeR));
      p := Sides(right, clipL, clipR, nodeL, nodeR);
    }

    /**
     The retry loop of `subdivide`: pick the longest grid axis, partition at its middle, and while all
     primitives fall on one side shrink the grid.  On the f32 grid every retry either shrinks the grid
     box or will meet the same axis and split again, which makes a leaf.
     */
    method ChooseSplit(left: nat, last: nat, grid0: Box, nodeBox: Box)
      returns (c: Choice, ghost us: seq<Turn>, ghost z: Turn)
      requires Sound(ar) && AllWellFormed(boxes) && Ready() && left <= last < |boxes| && WellFormed(grid0)
      modifies indices
      ensures Ready() && Permuted(old(indices[..]), indices[..], left, last + 1)
      ensures ChoiceOk(ar, boxes, indices[..], left, last, c)
      ensures Decides(ar, boxes, indices[..][left..last + 1], grid0, nodeBox, us, z)
      ensures ChoiceIs(ar, boxes, indices[..], left, last, nodeBox, us, z, c)
    {
      hide Trail, Decides, ChoiceIs, LastSkip, PassExact, PassOk, ChoiceOk, SkippedOk, Sound, AllWellFormed, Permuted;
      hide LongestAxis, SplitOf, GridSize;
      StartTrail(ar, boxes, indices[..], left, last, grid0, nodeBox);
      GridSizeOk(grid0);
      PermutedSame(indices[..], left, last + 1);
      us := [];
      var grid := grid0;
      var lastAxis: int, lastSplit: int := -1, 0;   // no pass yet: axis -1 matches no axis
      var skipped := Nothing;
      while true
        invariant Ready() && Permuted(old(indices[..]), indices[..], left, last + 1)
        invariant WellFormed(grid) && 0 <= GridSize(grid)
        invariant SkippedOk(boxes, indices[left..last + 1], skipped)
        invariant Trail(ar, boxes, indices[..][left..last + 1], grid0, nodeBox, us, grid)
        invariant skipped == LastSkip(ar, boxes, indices[..][left..last + 1], us)
        invariant if us == [] then lastAxis == -1 else lastAxis == us[|us| - 1].axis && lastSplit == us[|us| - 1].split
        decreases GridSize(grid), if lastAxis == LongestAxis(ar, grid) && lastSplit == SplitOf(ar, grid) then 0 else 1
      {
        var axis, split := LongestAxis(ar, grid), SplitOf(ar, grid);
        ghost var before := indices[..];
        var p := Pass(left, last, axis, split);
        SkippedPermuted(boxes, before, indices[..], left, last + 1, skipped);
        PermutedTrans(old(indices[..]), before, indices[..], left, last + 1);
        TrailPermuted(ar, boxes, before, indices[..], left, last + 1, grid0, nodeBox, us, grid);
        DecideExact(ar, boxes, indices[..], left, last, grid0, grid, nodeBox, lastAxis, lastSplit, skipped, p, us);
        z := TurnOf(ar, grid, p);
        DecideStops(ar, boxes, indices[..], left, last, grid, nodeBox, lastAxis, lastSplit, skipped, p);
        DecideProgresses(ar, boxes, indices[..], left, last, grid, nodeBox, lastAxis, lastSplit, skipped, p);
        var v := Decide(ar, left, last, grid, nodeBox, lastAxis, lastSplit, skipped, p);
        if v.Stop? {
          return v.choice, us, z;
        }
        us := us + [z];
        grid, skipped := v.grid, v.skipped;
        lastAxis, lastSplit := axis, split;
      }
    }

    /** Everything a call of `subdivide` may assume about its arguments and the buffers. */
    ghost predicate Callable(left: nat, last: nat, at: nat, depth: nat)
      reads this, indices
    {
      && Sound(ar) && AllWellFormed(boxes) && Ready()
      && left <= last < |boxes| <= CLIP_FLAG && 1 <= depth <= MAX_STACK_SIZE
      && at + 3 <= |tree| && |tree| + Budget(last - left + 1, depth) <= CLIP_FLAG
    }

    /** What such a call leaves behind: node `at` encodes `t`, whose leaves are the range, planes and all. */
    twostate predicate Built(left: nat, last: nat, at: nat, depth: nat, t: Bih)
      reads this, indices
    {
      && Ready() && Permuted(old(indices[..]), indices[..], left, last + 1)
      && Grown(old(tree), tree, at) && |tree| <= |old(tree)| + Budget(last - left + 1, depth)
      && |tree| == |old(tree)| + WordsOf(t)
      && Encodes(tree, at, t, |old(tree)|, |tree|)
      && Covers(t, indices[..], boxes, left, last + 1)
    }

    method PatchNode(at: nat, w0: Word, w1: Word, w2: Word)
      requires at + 3 <= |tree|
      modifies this`tree
      ensures |tree| == |old(tree)| && Grown(old(tree), tree, at)
      ensures tree[at] == w0 && tree[at + 1] == w1 && tree[at + 2] == w2
    {
      tree := tree[at := w0][at + 1 := w1][at + 2 := w2];
    }

    method CreateNode(at: nat, left: nat, last: nat)
      requires at + 3 <= |tree| && left <= last < CLIP_FLAG
      modifies this`tree
      ensures |tree| == |old(tree)| && Grown(old(tree), tree, at)
      ensures Encodes(tree, at, Leaf(left, last + 1 - left), |tree|, |tree|)
    {
      tree := tree[at := Tag(3, false, left)][at + 1 := last - left + 1];
    }

    method Subdivide(left: nat, last: nat, grid: Box, nodeBox: Box, at: nat, depth: nat) returns (ghost t: Bih)
      requires Callable(left, last, at, depth) && WellFormed(grid)
      modifies this`tree, indices
      ensures Built(left, last, at, depth, t)
      ensures Shaped(Set(), indices[..], t, left, last + 1, grid, nodeBox, depth)
      decreases MAX_STACK_SIZE - depth, 1
    {
      hide Encodes, Covers, Budget, Sound, AllWellFormed, Permuted, Grown, ChoiceOk, Shaped, Decides, ChoiceIs;
      BudgetNonNegative(last - left + 1, depth);
      ghost var objs := indices[..];
      PermutedSame(objs, left, last + 1);
      CoversLeaf(boxes, objs, left, last + 1);
      if last - left + 1 <= maxPrims || depth >= MAX_STACK_SIZE {
        CreateNode(at, left, last);
        ShapedLeaf(Set(), objs, left, last + 1, grid, nodeBox, depth);
        return Leaf(left, last + 1 - left);
      }
      var c, us, z := ChooseSplit(left, last, grid, nodeBox);
      ghost var mid := indices[..];
      t := BuildChoice(left, last, c, grid, nodeBox, at, depth, us, z);
      PermutedTrans(objs, mid, indices[..], left, last + 1);
    }

    /** The node for what the search for a plane came up with. */
    method BuildChoice(left: nat, last: nat, c: Choice, ghost grid: Box, nodeBox: Box, at: nat, depth: nat,
                       ghost us: seq<Turn>, ghost z: Turn)
      returns (ghost t: Bih)
      requires Callable(left, last, at, depth) && depth < MAX_STACK_SIZE && last + 1 - left > maxPrims
      requires ChoiceOk(ar, boxes, indices[..], left, last, c)
      requires ChoiceIs(ar, boxes, indices[..], left, last, nodeBox, us, z, c)
      requires Decides(ar, boxes, indices[..][left..last + 1], grid, nodeBox, us, z)
      modifies this`tree, indices
      ensures Built(left, last, at, depth, t)
      ensures Shaped(Set(), indices[..], t, left, last + 1, grid, nodeBox, depth)
      decreases MAX_STACK_SIZE - depth, 0, 2
    {
      hide Encodes, Covers, Budget, Sound, AllWellFormed, Permuted, Grown, ChoiceOk, Shaped, Decides, ChoiceIs;
      hide ClipShaped, SplitShaped, Wrap, Inner;
      ghost var objs := indices[..];
      BudgetNonNegative(last - left + 1, depth);
      CoversLeaf(boxes, objs, left, last + 1);
      PermutedSame(objs, left, last + 1);
      ChoiceFields(ar, boxes, objs, left, last, nodeBox, us, z, c);
      match c {
        case AsLeaf =>
          CreateNode(at, left, last);
          t := Leaf(left, last + 1 - left);
        case AsClip(_, _, _, _) =>
          t := SubdivideClip(left, last, c, nodeBox, at, depth, z);
        case AsSplit(_, _, _, _, _, _, _) =>
          t := SubdivideSplit(left, last, c, nodeBox, at, depth, z);
      }
      ChoiceShapes(Set(), objs, indices[..], left, last, grid, nodeBox, depth, us, z, c, t);
    }

    method EmitNode(at: nat, axis: nat, clip: bool, lo: int, hi: int, children: nat) returns (next: nat)
      requires at + 3 <= |tree| < CLIP_FLAG && axis < 3 && children <= 2
      requires -INF <= lo <= INF && -INF <= hi <= INF
      modifies this`tree
      ensures next == |old(tree)| && |tree| == next + 3 * children && Grown(old(tree), tree, at)
      ensures AxisOf(tree[at]) == axis && IsClip(tree[at]) == clip && OffsetOf(tree[at]) == next
      ensures FromBits(tree[at + 1]) == lo && FromBits(tree[at + 2]) == hi
    {
      next := |tree|;
      tree := tree + seq(3 * children, _ => 0);
      PatchNode(at, Tag(axis, clip, next), FloatBits(lo), FloatBits(hi));
    }

    method SubdivideClip(left: nat, last: nat, c: Choice, nodeBox: Box, at: nat, depth: nat, ghost z: Turn)
      returns (ghost t: Bih)
      requires Callable(left, last, at, depth) && depth < MAX_STACK_SIZE
      requires c.AsClip? && ChoiceOk(ar, boxes, indices[..], left, last, c)
      requires c.axis == z.axis && c.lo == z.lo && c.hi == z.hi && c.grid == z.grid
      modifies this`tree, indices
      ensures Built(left, last, at, depth, t)
      ensures ClipShaped(Set(), indices[..], t, left, last + 1, nodeBox, depth, z)
      decreases MAX_STACK_SIZE - depth, 0, 0
    {
      hide Encodes, Covers, Budget, Sound, AllWellFormed, Below, Above, AxisOf, OffsetOf, IsClip, FromBits, Shaped;
      BudgetClip(last - left + 1, depth);
      var next := EmitNode(at, c.axis, true, c.lo, c.hi, 1);
      ghost var words := tree;
      t := Subdivide(left, last, c.grid, Box(nodeBox.min.With(c.axis, c.lo), nodeBox.max.With(c.axis, c.hi)), next,
                     depth + 1);
      BelowPermuted(boxes, old(indices[left..last + 1]), indices[left..last + 1], c.axis, c.lo);
      BelowPermuted(boxes, old(indices[left..last + 1]), indices[left..last + 1], c.axis, c.hi);
      EncodesClip(words, tree, at, next, c.axis, c.lo, c.hi, t);
      CoversClip(boxes, indices[..], left, last + 1, c.axis, c.lo, c.hi, t);
      t := Clip(c.axis, c.lo, c.hi, t);
    }

    method EmitSkipped(at: nat, k: Skipped) returns (child: nat)
      requires at + 3 <= |tree| < CLIP_FLAG && SkippedOk(boxes, [], k)
      modifies this`tree
      ensures SkipEmitted(old(tree), tree, at, child, k)
    {
      match k
      case Nothing => child := at;
      case SkipRight(axis, clip) =>
        child := |tree|;
        tree := tree + [0, 0, 0];
        PatchNode(at, Tag(axis, false, child), FloatBits(clip), FloatBits(INF));
      case SkipLeft(axis, clip) =>
        child := |tree|;
        tree := tree + [0, 0, 0];
        PatchNode(at, Tag(axis, false, child - 3), FloatBits(-INF), FloatBits(clip));
    }

    method SubdivideSplit(left: nat, last: nat, c: Choice, nodeBox: Box, at: nat, depth: nat, ghost z: Turn)
      returns (ghost t: Bih)
      requires Callable(left, last, at, depth) && depth < MAX_STACK_SIZE
      requires c.AsSplit? && ChoiceOk(ar, boxes, indices[..], left, last, c)
      requires Parts(ar, boxes, indices[..], left, last, c) && c.axis == z.axis && c.split == z.split
      requires c.grid == z.grid
      modifies this`tree, indices
      ensures Built(left, last, at, depth, t) && t == Wrap(c.skipped, Inner(c.skipped, t))
      ensures SplitShaped(Set(), indices[..], Inner(c.skipped, t), left, last + 1, nodeBox, depth, z)
      decreases MAX_STACK_SIZE - depth, 0, 1
    {
      hide Encodes, Covers, Sound, AllWellFormed, Budget, Permuted, Grown, SkippedOk, ChoiceOk, SkipEmitted;
      hide Parts, SplitShaped, Wrap, Inner;
      ghost var objs := indices[..];
      ChoiceSkips(ar, boxes, objs, left, last, c);
      BudgetSplit(c.right + 1 - left, last - c.right, depth);
      var node := EmitSkipped(at, c.skipped);
      ghost var words := tree;
      SkipSizes(old(tree), words, at, node, c.skipped);
      t := SubdivideHalves(left, last, c, nodeBox, node, depth, z);
      InnerHeight(c.skipped, t);
      WordsWrapped(c.skipped, t);
      EncodesWrap(old(tree), words, tree, at, node, c.skipped, t);
      SkippedPermuted(boxes, objs, indices[..], left, last + 1, c.skipped);
      CoversWrap(boxes, indices[..], left, last + 1, c.skipped, t);
      t := Wrap(c.skipped, t);
    }

    method SubdivideHalves(left: nat, last: nat, c: Choice, nodeBox: Box, at: nat, depth: nat, ghost z: Turn)
      returns (ghost t: Bih)
      requires Sound(ar) && AllWellFormed(boxes) && Ready() && left <= last < |boxes| <= CLIP_FLAG
      requires 1 <= depth < MAX_STACK_SIZE && at + 3 <= |tree|
      requires c.AsSplit? && ChoiceOk(ar, boxes, indices[..], left, last, c)
      requires Parts(ar, boxes, indices[..], left, last, c) && c.axis == z.axis && c.split == z.split
      requires c.grid == z.grid
      requires 0 <= Budget(c.right + 1 - left, depth + 1) && 0 <= Budget(last - c.right, depth + 1)
      requires |tree| + 6 + Budget(c.right + 1 - left, depth + 1) + Budget(last - c.right, depth + 1) <= CLIP_FLAG
      modifies this`tree, indices
      ensures Ready() && Permuted(old(indices[..]), indices[..], left, last + 1)
      ensures Grown(old(tree), tree, at)
      ensures |tree| <= |old(tree)| + 6 + Budget(c.right + 1 - left, depth + 1) + Budget(last - c.right, depth + 1)
      ensures Encodes(tree, at, t, |old(tree)|, |tree|)
      ensures Covers(t, indices[..], boxes, left, last + 1)
      ensures SplitShaped(Set(), indices[..], t, left, last + 1, nodeBox, depth, z)
      ensures |tree| == |old(tree)| + WordsOf(t)
      decreases MAX_STACK_SIZE - depth, 0, 0
    {
      hide Encodes, Covers, Budget, Sound, AllWellFormed, Below, Above, Permuted, Grown, Parts, Shaped, SplitShaped;
      hide AxisOf, OffsetOf, IsClip, FromBits, ChoiceOk, WellFormed;
      ghost var objs0 := indices[..];
      ChoiceSplits(ar, boxes, objs0, left, last, c);
      var next := EmitNode(at, c.axis, false, c.clipL, c.clipR, 2);
      ghost var w1 := tree;
      GrownSize(old(tree), w1, at);
      NarrowGrid(c.grid, c.axis, c.split);
      ghost var tl := Subdivide(left, c.right, Box(c.grid.min, c.grid.max.With(c.axis, c.split)),
                                Box(nodeBox.min, nodeBox.max.With(c.axis, c.clipL)), next, depth + 1);
      ghost var w2, objs := tree, indices[..];
      GrownSize(w1, w2, next);
      ghost var tr := Subdivide(c.right + 1, last, Box(c.grid.min.With(c.axis, c.split), c.grid.max),
                                Box(nodeBox.min.With(c.axis, c.clipR), nodeBox.max), next + 3, depth + 1);
      ghost var objs2 := indices[..];
      GrownTwice(old(tree), w1, w2, tree, at, next);
      EncodesSplit(w1, w2, tree, at, next, c.axis, c.clipL, c.clipR, c.right + 1, tl, tr);
      CoversSplit(boxes, objs0, objs, objs2, left, c.right + 1, last + 1, c.axis, c.clipL, c.clipR, tl, tr);
      SplitShapes(Set(), objs0, objs, objs2, left, last, c, z, nodeBox, depth, tl, tr);
      t := Split(c.axis, c.clipL, c.clipR, c.right + 1, tl, tr);
    }
  }

  // ---- The whole build ----

  function MinVec(a: Vec3, b: Vec3): Vec3 { Vec3(Min(a.x, b.x), Min(a.y, b.y), Min(a.z, b.z)) }

  function MaxVec(a: Vec3, b: Vec3): Vec3 { Vec3(Max(a.x, b.x), Max(a.y, b.y), Max(a.z, b.z)) }

  function Merge(b: Box, p: Vec3): Box { Box(MinVec(b.min, p), MaxVec(b.max, p)) }

  predicate Contains(outer: Box, inner: Box) {
    && outer.min.x <= inner.min.x && inner.max.x <= outer.max.x
    && outer.min.y <= inner.min.y && inner.max.y <= outer.max.y
    && outer.min.z <= inner.min.z && inner.max.z <= outer.max.z
  }

  ghost predicate ContainsAll(outer: Box, boxes: seq<Box>) {
    forall i | 0 <= i < |boxes| :: Contains(outer, boxes[i])
  }

  lemma ContainsSelf(b: Box)
    ensures Contains(b, b)
  {
  }

  /** Merging both corners gives the smallest box around two boxes. */
  lemma MergeOk(b: Box, c: Box)
    requires WellFormed(b) && WellFormed(c)
    ensures var m := Merge(Merge(b, c.min), c.max);
            && WellFormed(m) && Contains(m, b) && Contains(m, c)
            && (forall i | Contains(b, i) :: Contains(m, i))
            && (forall o | Contains(o, b) && Contains(o, c) :: Contains(o, m))
  {
  }

  method Bounds(boxes: seq<Box>) returns (bounds: Box)
    requires boxes != [] && AllWellFormed(boxes)
    ensures WellFormed(bounds) && forall i | 0 <= i < |boxes| :: Contains(bounds, boxes[i])
    ensures forall o | ContainsAll(o, boxes) :: Contains(o, bounds)
  {
    hide WellFormed, Contains, Merge;
    ContainsSelf(boxes[0]);
    bounds := boxes[0];
    for k := 1 to |boxes|
      invariant WellFormed(bounds) && forall i | 0 <= i < k :: Contains(bounds, boxes[i])
      invariant forall o | ContainsAll(o, boxes) :: Contains(o, bounds)
    {
      MergeOk(bounds, boxes[k]);
      bounds := Merge(Merge(bounds, boxes[k].min), boxes[k].max);
    }
  }

  lemma {:induction false} HitsCount(boxes: seq<Box>, q: Box, s: seq<nat>, i: nat)
    ensures multiset(Hits(boxes, q, s))[i] == if i < |boxes| && Overlaps(boxes[i], q) then multiset(s)[i] else 0
  {
    if s != [] {
      HitsCount(boxes, q, s[1..], i);
      assert s == [s[0]] + s[1..];
    }
  }

  /** Every primitive whose box meets the query is reported once, nothing else is reported. */
  ghost predicate AnswersLikeScan(bounds: Box, tree: seq<Word>, objects: seq<nat>, boxes: seq<Box>) {
    forall q: Box, i: nat | WellFormed(q) ::
      multiset(Query(bounds, tree, objects, boxes, q))[i] == if i < |boxes| && Overlaps(boxes[i], q) then 1 else 0
  }

  lemma OverlapsOuter(outer: Box, inner: Box, q: Box)
    requires Contains(outer, inner) && Overlaps(inner, q)
    ensures Overlaps(outer, q)
  {
  }

  lemma BuiltAnswersLikeScan(bounds: Box, tree: seq<Word>, objects: seq<nat>, boxes: seq<Box>, t: Bih)
    requires Encodes(tree, 0, t, 3, |tree|) && Covers(t, objects, boxes, 0, |objects|)
    requires multiset(objects) == multiset(Upto(|boxes|))
    requires forall i | 0 <= i < |boxes| :: Contains(bounds, boxes[i])
    ensures AnswersLikeScan(bounds, tree, objects, boxes)
  {
    hide Encodes, Covers, Walk, Hits, Overlaps, Contains;
    forall q: Box, i: nat | WellFormed(q)
      ensures multiset(Query(bounds, tree, objects, boxes, q))[i] ==
              if i < |boxes| && Overlaps(boxes[i], q) then 1 else 0
    {
      WalkIsScan(tree, 0, t, 3, |tree|, objects, boxes, 0, |objects|, q);
      assert objects[0..|objects|] == objects;
      HitsCount(boxes, q, objects, i);
      UptoCount(|boxes|, i);
      if i < |boxes| && Overlaps(boxes[i], q) { OverlapsOuter(bounds, boxes[i], q); }
    }
  }

  lemma BudgetTotal(n: nat)
    ensures 3 + Budget(n, 1) == 192 * n
  {
  }

  lemma EmptyTree(boxes: seq<Box>)
    ensures var tree := [Tag(3, false, 0), 0, 0];
              Encodes(tree, 0, Leaf(0, 0), 3, 3) && Covers(Leaf(0, 0), [], boxes, 0, 0)
  {
  }

  lemma PermutedAll(a: seq<nat>, b: seq<nat>)
    requires Permuted(a, b, 0, |a|)
    ensures |b| == |a| && multiset(a) == multiset(b)
  {
    assert a[0..|a|] == a && b[0..|a|] == b;
  }

  /**
   `Bih::build`.  The word budget keeps every offset clear of the tag bits for up to
   2^29 / 192 (about 2.8 million) primitives.
   */
  method Build(boxes: seq<Box>, leafSize: nat, ar: Arith)
    returns (bounds: Box, tree: seq<Word>, objects: seq<nat>, ghost t: Bih)
    requires Sound(ar) && AllWellFormed(boxes) && 192 * |boxes| <= CLIP_FLAG
    ensures multiset(objects) == multiset(Upto(|boxes|))
    ensures 3 <= |tree| <= Max(3, 192 * |boxes|) && |tree| == 3 + WordsOf(t)
    ensures Encodes(tree, 0, t, 3, |tree|) && Covers(t, objects, boxes, 0, |boxes|)
    ensures AnswersLikeScan(bounds, tree, objects, boxes)
    ensures boxes == [] ==>
              tree == [0xC000_0000, 0, 0] && objects == [] && bounds == Box(Vec3(0, 0, 0), Vec3(0, 0, 0))
    ensures boxes != [] ==>
              && ContainsAll(bounds, boxes) && (forall o | ContainsAll(o, boxes) :: Contains(o, bounds))
              && Shaped(Setting(ar, boxes, leafSize), objects, t, 0, |boxes|, bounds, bounds, 1)
              && LeavesOk(Setting(ar, boxes, leafSize), objects, t, 1)
  {
    hide Shaped, LeavesOk, ContainsAll, Encodes, Covers, AnswersLikeScan, AllWellFormed, Sound, Budget, WellFormed;
    hide Permuted, Contains, Grown;
    BudgetTotal(|boxes|);
    if |boxes| == 0 {
      EmptyTree(boxes);
      bounds := Box(Vec3(0, 0, 0), Vec3(0, 0, 0));
      tree, objects, t := [Tag(3, false, 0), 0, 0], [], Leaf(0, 0);
      BuiltAnswersLikeScan(bounds, tree, objects, boxes, t);
      return;
    }
    bounds := Bounds(boxes);
    var indices := new nat[|boxes|](i => i);
    assert indices[..] == Upto(|boxes|);
    var builder := new Builder(boxes, leafSize, ar, indices);
    t := builder.Subdivide(0, |boxes| - 1, bounds, bounds, 0, 1);
    tree, objects := builder.tree, indices[..];
    GrownSize([Tag(3, false, 0), 0, 0], tree, 0);
    PermutedAll(Upto(|boxes|), objects);
    assert objects[0..|boxes|] == objects && Upto(|boxes|)[0..|boxes|] == Upto(|boxes|);
    BuiltAnswersLikeScan(bounds, tree, objects, boxes, t);
    AllContained(bounds, boxes);
    ShapedLeaves(Setting(ar, boxes, leafSize), objects, t, 0, |boxes|, bounds, bounds, 1);
  }

  lemma AllContained(bounds: Box, boxes: seq<Box>)
    requires forall i | 0 <= i < |boxes| :: Contains(bounds, boxes[i])
    ensures ContainsAll(bounds, boxes)
  {
  }
}

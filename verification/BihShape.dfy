/**
 The shape of the hierarchy: which node stands for a range of primitives, given the grid box, the node box and the
 depth it is built with.  Ranges are compared as sets of primitives; how they are ordered inside is left open.
 */
module BihShape {
  import opened BihLayout

  const MAX_STACK_SIZE := 64

  /**
   The f32 arithmetic the builder relies on, left abstract: the half sum of two coordinates, the
   extent used to pick the longest axis, the "same split as last pass" test and the 1.3 width test.
   */
  datatype Arith = Arith(mid: (int, int) -> int, extent: (int, int) -> int,
                         close: (int, int) -> bool, narrower: (int, int, int, int) -> bool)

  /** A half sum lies between its ordered arguments; a split is within 1e-6 of itself. */
  ghost predicate Sound(ar: Arith) {
    && (forall lo, hi {:trigger ar.mid(lo, hi)} :: Finite(lo) && Finite(hi) && lo <= hi ==> lo <= ar.mid(lo, hi) <= hi)
    && (forall c {:trigger ar.close(c, c)} :: ar.close(c, c))
  }

  datatype Skipped = Nothing | SkipRight(axis: nat, clip: int) | SkipLeft(axis: nat, clip: int)

  ghost function Wrap(k: Skipped, t: Bih): Bih {
    match k
    case Nothing => t
    case SkipRight(axis, clip) => OnlyLeft(axis, clip, t)
    case SkipLeft(axis, clip) => OnlyRight(axis, clip, t)
  }

  // ---- Ranges of primitives on one axis ----

  /** No centre lies beyond `split`. */
  ghost predicate AllLow(ar: Arith, boxes: seq<Box>, s: seq<nat>, axis: nat, split: int) {
    forall o | o in s && o < |boxes| :: ar.mid(boxes[o].min.At(axis), boxes[o].max.At(axis)) <= split
  }

  ghost predicate AllHigh(ar: Arith, boxes: seq<Box>, s: seq<nat>, axis: nat, split: int) {
    forall o | o in s && o < |boxes| :: ar.mid(boxes[o].min.At(axis), boxes[o].max.At(axis)) > split
  }

  /** Where the first box starts. */
  ghost predicate Least(boxes: seq<Box>, s: seq<nat>, axis: nat, v: int) {
    Above(boxes, s, axis, v) && exists o :: o in s && o < |boxes| && boxes[o].min.At(axis) == v
  }

  /** Where the last box ends. */
  ghost predicate Most(boxes: seq<Box>, s: seq<nat>, axis: nat, v: int) {
    Below(boxes, s, axis, v) && exists o :: o in s && o < |boxes| && boxes[o].max.At(axis) == v
  }

  ghost predicate SameSet(s: seq<nat>, s': seq<nat>) { forall o :: o in s <==> o in s' }

  lemma SameFacts(ar: Arith, boxes: seq<Box>, s: seq<nat>, s': seq<nat>, axis: nat, v: int)
    requires SameSet(s, s')
    ensures AllLow(ar, boxes, s, axis, v) <==> AllLow(ar, boxes, s', axis, v)
    ensures AllHigh(ar, boxes, s, axis, v) <==> AllHigh(ar, boxes, s', axis, v)
    ensures Least(boxes, s, axis, v) <==> Least(boxes, s', axis, v)
    ensures Most(boxes, s, axis, v) <==> Most(boxes, s', axis, v)
  {
  }

  // ---- Looking for a plane ----

  /** No axis of the grid box is longer, and no earlier one as long. */
  ghost predicate Longest(ar: Arith, g: Box, axis: nat) {
    axis < 3 && forall a: nat | a < 3 ::
      && ar.extent(g.max.At(axis), g.min.At(axis)) >= ar.extent(g.max.At(a), g.min.At(a))
      && (a < axis ==> ar.extent(g.max.At(axis), g.min.At(axis)) > ar.extent(g.max.At(a), g.min.At(a)))
  }

  /** One look at a range: the middle of the grid box's longest axis, and the extent of the range on that axis. */
  datatype Turn = Turn(grid: Box, axis: nat, split: int, lo: int, hi: int)

  ghost predicate TurnOk(ar: Arith, boxes: seq<Box>, s: seq<nat>, u: Turn) {
    && Longest(ar, u.grid, u.axis) && u.split == ar.mid(u.grid.min.At(u.axis), u.grid.max.At(u.axis))
    && Least(boxes, s, u.axis, u.lo) && Most(boxes, s, u.axis, u.hi)
  }

  /** The range leaves space at both ends of the node box, and is enough narrower. */
  ghost predicate Loose(ar: Arith, nodeBox: Box, u: Turn) {
    var lo, hi := nodeBox.min.At(u.axis), nodeBox.max.At(u.axis);
    lo < u.lo && u.hi < hi && ar.narrower(u.lo, u.hi, lo, hi)
  }

  ghost predicate OneSided(ar: Arith, boxes: seq<Box>, s: seq<nat>, u: Turn) {
    AllLow(ar, boxes, s, u.axis, u.split) || AllHigh(ar, boxes, s, u.axis, u.split)
  }

  /** The half of the grid box that the centres are in. */
  ghost function Halved(ar: Arith, boxes: seq<Box>, s: seq<nat>, u: Turn): Box {
    if AllLow(ar, boxes, s, u.axis, u.split) then Box(u.grid.min, u.grid.max.With(u.axis, u.split))
    else Box(u.grid.min.With(u.axis, u.split), u.grid.max)
  }

  /** The empty half, if no box reaches into it. */
  ghost function SkipOf(ar: Arith, boxes: seq<Box>, s: seq<nat>, u: Turn): Skipped {
    if AllLow(ar, boxes, s, u.axis, u.split) then if u.hi <= u.split then SkipRight(u.axis, u.hi) else Nothing
    else if u.lo >= u.split then SkipLeft(u.axis, u.lo) else Nothing
  }

  ghost predicate Repeats(ar: Arith, u: Turn, v: Turn) { u.axis == v.axis && ar.close(u.split, v.split) }

  /** A turn after which another one follows, in the half grid box. */
  ghost predicate Retried(ar: Arith, boxes: seq<Box>, s: seq<nat>, nodeBox: Box, us: seq<Turn>, i: nat)
    requires i < |us|
  {
    && TurnOk(ar, boxes, s, us[i]) && !Loose(ar, nodeBox, us[i]) && OneSided(ar, boxes, s, us[i])
    && (i > 0 ==> !Repeats(ar, us[i - 1], us[i]))
  }

  /** All turns are retried, and the next one will look at `grid`. */
  ghost predicate Trail(ar: Arith, boxes: seq<Box>, s: seq<nat>, grid0: Box, nodeBox: Box, us: seq<Turn>, grid: Box) {
    && (forall i: nat | i < |us| :: Retried(ar, boxes, s, nodeBox, us, i))
    && (us != [] ==> us[0].grid == grid0)
    && (forall i: nat | 0 < i < |us| :: us[i].grid == Halved(ar, boxes, s, us[i - 1]))
    && grid == if us == [] then grid0 else Halved(ar, boxes, s, us[|us| - 1])
  }

  /** The space remembered from the last turn before the deciding one. */
  ghost function LastSkip(ar: Arith, boxes: seq<Box>, s: seq<nat>, us: seq<Turn>): Skipped {
    if us == [] then Nothing else SkipOf(ar, boxes, s, us[|us| - 1])
  }

  /** `z` is the turn that decides, after the turns `us`. */
  ghost predicate Decides(ar: Arith, boxes: seq<Box>, s: seq<nat>, grid: Box, nodeBox: Box, us: seq<Turn>, z: Turn) {
    Trail(ar, boxes, s, grid, nodeBox, us, z.grid) && TurnOk(ar, boxes, s, z)
  }

  lemma TrailSame(ar: Arith, boxes: seq<Box>, s: seq<nat>, s': seq<nat>, grid0: Box, nodeBox: Box, us: seq<Turn>,
                  grid: Box)
    requires SameSet(s, s') && Trail(ar, boxes, s, grid0, nodeBox, us, grid)
    ensures Trail(ar, boxes, s', grid0, nodeBox, us, grid) && LastSkip(ar, boxes, s', us) == LastSkip(ar, boxes, s, us)
  {
    hide Halved, SkipOf, SameSet, Retried;
    forall i: nat | i < |us| ensures Retried(ar, boxes, s', nodeBox, us, i) {
      RetriedSame(ar, boxes, s, s', nodeBox, us, i);
    }
    forall i: nat | 0 < i < |us| ensures us[i].grid == Halved(ar, boxes, s', us[i - 1]) {
      RetriedSame(ar, boxes, s, s', nodeBox, us, i - 1);
    }
    if us != [] { RetriedSame(ar, boxes, s, s', nodeBox, us, |us| - 1); }
  }

  lemma RetriedSame(ar: Arith, boxes: seq<Box>, s: seq<nat>, s': seq<nat>, nodeBox: Box, us: seq<Turn>, i: nat)
    requires SameSet(s, s') && i < |us| && Retried(ar, boxes, s, nodeBox, us, i)
    ensures Retried(ar, boxes, s', nodeBox, us, i)
    ensures Halved(ar, boxes, s', us[i]) == Halved(ar, boxes, s, us[i])
    ensures SkipOf(ar, boxes, s', us[i]) == SkipOf(ar, boxes, s, us[i])
  {
    hide TurnOk, OneSided, Halved, SkipOf, SameSet, Loose;
    TurnSame(ar, boxes, s, s', us[i]);
  }

  lemma TurnSame(ar: Arith, boxes: seq<Box>, s: seq<nat>, s': seq<nat>, u: Turn)
    requires SameSet(s, s')
    ensures TurnOk(ar, boxes, s, u) ==> TurnOk(ar, boxes, s', u)
    ensures OneSided(ar, boxes, s', u) <==> OneSided(ar, boxes, s, u)
    ensures Halved(ar, boxes, s', u) == Halved(ar, boxes, s, u) && SkipOf(ar, boxes, s', u) == SkipOf(ar, boxes, s, u)
  {
    hide AllLow, AllHigh, Least, Most, Longest, SameSet;
    SameFacts(ar, boxes, s, s', u.axis, u.lo);
    SameFacts(ar, boxes, s, s', u.axis, u.hi);
    SameFacts(ar, boxes, s, s', u.axis, u.split);
  }

  // ---- The shape of a tree ----

  /** The split below a one-sided node. */
  ghost function Inner(k: Skipped, t: Bih): Bih {
    match k
    case Nothing => t
    case SkipRight(_, _) => if t.OnlyLeft? then t.child else t
    case SkipLeft(_, _) => if t.OnlyRight? then t.child else t
  }

  /** Words behind a node for the nodes below it. */
  ghost function WordsOf(t: Bih): nat {
    match t
    case Leaf(_, _) => 0
    case Clip(_, _, _, child) => 3 + WordsOf(child)
    case Split(_, _, _, _, left, right) => 6 + WordsOf(left) + WordsOf(right)
    case OnlyLeft(_, _, child) => 3 + WordsOf(child)
    case OnlyRight(_, _, child) => 3 + WordsOf(child)
  }

  lemma {:induction false} WordsWrapped(k: Skipped, t: Bih)
    ensures WordsOf(Wrap(k, t)) == WordsOf(t) + if k.Nothing? then 0 else 3
  {
  }

  /** Sizes only for termination. */
  ghost function Height(t: Bih): nat {
    match t
    case Leaf(_, _) => 0
    case Clip(_, _, _, child) => Height(child) + 1
    case Split(_, _, _, _, left, right) => Height(left) + Height(right) + 1
    case OnlyLeft(_, _, child) => Height(child) + 1
    case OnlyRight(_, _, child) => Height(child) + 1
  }

  lemma {:induction false} InnerHeight(k: Skipped, t: Bih)
    ensures Height(Inner(k, t)) <= Height(t) && Inner(k, Wrap(k, t)) == t
  {
  }

  /** What a builder with this leaf size makes of `objs[l..r]`. */
  datatype Setting = Setting(ar: Arith, boxes: seq<Box>, leafSize: int)

  ghost predicate Shaped(c: Setting, objs: seq<nat>, t: Bih, l: nat, r: nat, grid: Box, nodeBox: Box, depth: nat)
    decreases Height(t), 1
  {
    l < r <= |objs| &&
    if r - l <= c.leafSize || depth >= MAX_STACK_SIZE then t == Leaf(l, r - l)
    else exists us: seq<Turn>, z: Turn ::
      && Decides(c.ar, c.boxes, objs[l..r], grid, nodeBox, us, z)
      && ShapedBy(c, objs, t, l, r, nodeBox, depth, us, z)
  }

  /** After the deciding turn: a clip node, a leaf if the plane repeats, or a split. */
  ghost predicate ShapedBy(c: Setting, objs: seq<nat>, t: Bih, l: nat, r: nat, nodeBox: Box, depth: nat,
                           us: seq<Turn>, z: Turn)
    requires l < r <= |objs|
    decreases Height(t), 0
  {
    if Loose(c.ar, nodeBox, z) then ClipShaped(c, objs, t, l, r, nodeBox, depth, z)
    else if OneSided(c.ar, c.boxes, objs[l..r], z) then
      us != [] && Repeats(c.ar, us[|us| - 1], z) && t == Leaf(l, r - l)
    else
      var k := LastSkip(c.ar, c.boxes, objs[l..r], us);
      InnerHeight(k, t);
      t == Wrap(k, Inner(k, t)) && SplitShaped(c, objs, Inner(k, t), l, r, nodeBox, depth, z)
  }

  ghost predicate ClipShaped(c: Setting, objs: seq<nat>, t: Bih, l: nat, r: nat, nodeBox: Box, depth: nat, z: Turn)
    requires l < r <= |objs|
    decreases Height(t), 0, 0
  {
    && t.Clip? && t.axis == z.axis && t.lo == z.lo && t.hi == z.hi
    && Shaped(c, objs, t.child, l, r, z.grid,
              Box(nodeBox.min.With(z.axis, z.lo), nodeBox.max.With(z.axis, z.hi)), depth + 1)
  }

  /** Centres at or before the middle go left, the others right; planes and boxes follow. */
  ghost predicate SplitShaped(c: Setting, objs: seq<nat>, t: Bih, l: nat, r: nat, nodeBox: Box, depth: nat, z: Turn)
    requires l < r <= |objs|
    decreases Height(t), 0, 0
  {
    && t.Split? && t.axis == z.axis && l < t.mid < r
    && AllLow(c.ar, c.boxes, objs[l..t.mid], z.axis, z.split) && Most(c.boxes, objs[l..t.mid], z.axis, t.clipL)
    && AllHigh(c.ar, c.boxes, objs[t.mid..r], z.axis, z.split) && Least(c.boxes, objs[t.mid..r], z.axis, t.clipR)
    && Shaped(c, objs, t.left, l, t.mid, Box(z.grid.min, z.grid.max.With(z.axis, z.split)),
              Box(nodeBox.min, nodeBox.max.With(z.axis, t.clipL)), depth + 1)
    && Shaped(c, objs, t.right, t.mid, r, Box(z.grid.min.With(z.axis, z.split), z.grid.max),
              Box(nodeBox.min.With(z.axis, t.clipR), nodeBox.max), depth + 1)
  }

  lemma {:induction false} ByClip(c: Setting, objs: seq<nat>, t: Bih, l: nat, r: nat, nodeBox: Box, depth: nat,
                                  us: seq<Turn>, z: Turn)
    requires l < r <= |objs| && Loose(c.ar, nodeBox, z)
    ensures ShapedBy(c, objs, t, l, r, nodeBox, depth, us, z) <==> ClipShaped(c, objs, t, l, r, nodeBox, depth, z)
    ensures ClipShaped(c, objs, t, l, r, nodeBox, depth, z) <==>
              && t.Clip? && t.axis == z.axis && t.lo == z.lo && t.hi == z.hi
              && Shaped(c, objs, t.child, l, r, z.grid,
                        Box(nodeBox.min.With(z.axis, z.lo), nodeBox.max.With(z.axis, z.hi)), depth + 1)
    ensures t.Clip? ==> Height(t.child) < Height(t)
  {
  }

  lemma {:induction false} ByLeaf(c: Setting, objs: seq<nat>, t: Bih, l: nat, r: nat, nodeBox: Box, depth: nat,
                                  us: seq<Turn>, z: Turn)
    requires l < r <= |objs| && !Loose(c.ar, nodeBox, z) && OneSided(c.ar, c.boxes, objs[l..r], z)
    ensures ShapedBy(c, objs, t, l, r, nodeBox, depth, us, z) <==>
              us != [] && Repeats(c.ar, us[|us| - 1], z) && t == Leaf(l, r - l)
  {
  }

  lemma {:induction false} BySplit(c: Setting, objs: seq<nat>, t: Bih, l: nat, r: nat, nodeBox: Box, depth: nat,
                                   us: seq<Turn>, z: Turn)
    requires l < r <= |objs| && !Loose(c.ar, nodeBox, z) && !OneSided(c.ar, c.boxes, objs[l..r], z)
    ensures var k := LastSkip(c.ar, c.boxes, objs[l..r], us);
            && Height(Inner(k, t)) <= Height(t)
            && (ShapedBy(c, objs, t, l, r, nodeBox, depth, us, z) <==>
                  t == Wrap(k, Inner(k, t)) && SplitShaped(c, objs, Inner(k, t), l, r, nodeBox, depth, z))
  {
    InnerHeight(LastSkip(c.ar, c.boxes, objs[l..r], us), t);
  }

  lemma {:induction false} SplitParts(c: Setting, objs: seq<nat>, t: Bih, l: nat, r: nat, nodeBox: Box, depth: nat,
                                      z: Turn)
    requires l < r <= |objs| && SplitShaped(c, objs, t, l, r, nodeBox, depth, z)
    ensures t.Split? && t.axis == z.axis && l < t.mid < r && Height(t.left) < Height(t) && Height(t.right) < Height(t)
    ensures Shaped(c, objs, t.left, l, t.mid, Box(z.grid.min, z.grid.max.With(z.axis, z.split)),
                   Box(nodeBox.min, nodeBox.max.With(z.axis, t.clipL)), depth + 1)
    ensures Shaped(c, objs, t.right, t.mid, r, Box(z.grid.min.With(z.axis, z.split), z.grid.max),
                   Box(nodeBox.min.With(z.axis, t.clipR), nodeBox.max), depth + 1)
    ensures AllLow(c.ar, c.boxes, objs[l..t.mid], z.axis, z.split) && Most(c.boxes, objs[l..t.mid], z.axis, t.clipL)
    ensures AllHigh(c.ar, c.boxes, objs[t.mid..r], z.axis, z.split) && Least(c.boxes, objs[t.mid..r], z.axis, t.clipR)
  {
  }

  lemma {:induction false} SplitJoins(c: Setting, objs: seq<nat>, t: Bih, l: nat, r: nat, nodeBox: Box, depth: nat,
                                      z: Turn)
    requires l < r <= |objs| && t.Split? && t.axis == z.axis && l < t.mid < r
    requires Shaped(c, objs, t.left, l, t.mid, Box(z.grid.min, z.grid.max.With(z.axis, z.split)),
                    Box(nodeBox.min, nodeBox.max.With(z.axis, t.clipL)), depth + 1)
    requires Shaped(c, objs, t.right, t.mid, r, Box(z.grid.min.With(z.axis, z.split), z.grid.max),
                    Box(nodeBox.min.With(z.axis, t.clipR), nodeBox.max), depth + 1)
    requires AllLow(c.ar, c.boxes, objs[l..t.mid], z.axis, z.split) && Most(c.boxes, objs[l..t.mid], z.axis, t.clipL)
    requires AllHigh(c.ar, c.boxes, objs[t.mid..r], z.axis, z.split) && Least(c.boxes, objs[t.mid..r], z.axis, t.clipR)
    ensures SplitShaped(c, objs, t, l, r, nodeBox, depth, z)
  {
  }

  lemma {:induction false} ShapedIs(c: Setting, objs: seq<nat>, t: Bih, l: nat, r: nat, grid: Box, nodeBox: Box,
                                    depth: nat, us: seq<Turn>, z: Turn)
    requires l < r <= |objs| && r - l > c.leafSize && depth < MAX_STACK_SIZE
    requires Decides(c.ar, c.boxes, objs[l..r], grid, nodeBox, us, z)
    requires ShapedBy(c, objs, t, l, r, nodeBox, depth, us, z)
    ensures Shaped(c, objs, t, l, r, grid, nodeBox, depth)
  {
  }

  lemma {:induction false} ShapedLeaf(c: Setting, objs: seq<nat>, l: nat, r: nat, grid: Box, nodeBox: Box, depth: nat)
    requires l < r <= |objs| && (r - l <= c.leafSize || depth >= MAX_STACK_SIZE)
    ensures Shaped(c, objs, Leaf(l, r - l), l, r, grid, nodeBox, depth)
  {
  }

  /** The turns behind a node that is more than a leaf by size or depth. */
  lemma {:induction false} ShapedTurns(c: Setting, objs: seq<nat>, t: Bih, l: nat, r: nat, grid: Box, nodeBox: Box,
                                       depth: nat)
    returns (us: seq<Turn>, z: Turn)
    requires Shaped(c, objs, t, l, r, grid, nodeBox, depth) && r - l > c.leafSize && depth < MAX_STACK_SIZE
    ensures l < r <= |objs| && Decides(c.ar, c.boxes, objs[l..r], grid, nodeBox, us, z)
    ensures ShapedBy(c, objs, t, l, r, nodeBox, depth, us, z)
  {
    us, z :| Decides(c.ar, c.boxes, objs[l..r], grid, nodeBox, us, z)
             && ShapedBy(c, objs, t, l, r, nodeBox, depth, us, z);
  }

  lemma {:induction false} ShapedSize(c: Setting, objs: seq<nat>, t: Bih, l: nat, r: nat, grid: Box, nodeBox: Box,
                                      depth: nat)
    requires Shaped(c, objs, t, l, r, grid, nodeBox, depth)
    ensures l < r <= |objs| && (r - l <= c.leafSize || depth >= MAX_STACK_SIZE ==> t == Leaf(l, r - l))
  {
  }

  /** Only the range itself matters. */
  lemma {:induction false} ShapedFrame(c: Setting, objs: seq<nat>, objs': seq<nat>, t: Bih, l: nat, r: nat, grid: Box,
                                       nodeBox: Box, depth: nat)
    requires Shaped(c, objs, t, l, r, grid, nodeBox, depth) && l <= r <= |objs| && r <= |objs'|
    requires objs[l..r] == objs'[l..r]
    ensures Shaped(c, objs', t, l, r, grid, nodeBox, depth)
    decreases Height(t), 1
  {
    hide Shaped, ShapedBy, Decides;
    ShapedSize(c, objs, t, l, r, grid, nodeBox, depth);
    if r - l <= c.leafSize || depth >= MAX_STACK_SIZE {
      ShapedLeaf(c, objs', l, r, grid, nodeBox, depth);
    } else {
      var us, z := ShapedTurns(c, objs, t, l, r, grid, nodeBox, depth);
      ShapedByFrame(c, objs, objs', t, l, r, nodeBox, depth, us, z);
      ShapedIs(c, objs', t, l, r, grid, nodeBox, depth, us, z);
    }
  }

  lemma {:induction false} ShapedByFrame(c: Setting, objs: seq<nat>, objs': seq<nat>, t: Bih, l: nat, r: nat,
                                         nodeBox: Box, depth: nat, us: seq<Turn>, z: Turn)
    requires l < r <= |objs| && r <= |objs'| && objs[l..r] == objs'[l..r]
    requires ShapedBy(c, objs, t, l, r, nodeBox, depth, us, z)
    ensures ShapedBy(c, objs', t, l, r, nodeBox, depth, us, z)
    decreases Height(t), 0
  {
    hide AllLow, AllHigh, Least, Most, Shaped, ShapedBy, ClipShaped, SplitShaped, Loose, OneSided, Wrap, Inner, Height;
    if Loose(c.ar, nodeBox, z) {
      ByClip(c, objs, t, l, r, nodeBox, depth, us, z);
      ByClip(c, objs', t, l, r, nodeBox, depth, us, z);
      ShapedFrame(c, objs, objs', t.child, l, r, z.grid,
                  Box(nodeBox.min.With(z.axis, z.lo), nodeBox.max.With(z.axis, z.hi)), depth + 1);
    } else if OneSided(c.ar, c.boxes, objs[l..r], z) {
      ByLeaf(c, objs, t, l, r, nodeBox, depth, us, z);
      ByLeaf(c, objs', t, l, r, nodeBox, depth, us, z);
    } else {
      BySplit(c, objs, t, l, r, nodeBox, depth, us, z);
      BySplit(c, objs', t, l, r, nodeBox, depth, us, z);
      SplitFrame(c, objs, objs', Inner(LastSkip(c.ar, c.boxes, objs[l..r], us), t), l, r, nodeBox, depth, z);
    }
  }

  lemma {:induction false} SplitFrame(c: Setting, objs: seq<nat>, objs': seq<nat>, u: Bih, l: nat, r: nat,
                                      nodeBox: Box, depth: nat, z: Turn)
    requires l < r <= |objs| && r <= |objs'| && objs[l..r] == objs'[l..r]
    requires SplitShaped(c, objs, u, l, r, nodeBox, depth, z)
    ensures SplitShaped(c, objs', u, l, r, nodeBox, depth, z)
    decreases Height(u), 0, 0
  {
    hide AllLow, AllHigh, Least, Most, Shaped, SplitShaped, Height;
    SplitParts(c, objs, u, l, r, nodeBox, depth, z);
    SlicesAgree(objs, objs', l, u.mid, r);
    ShapedFrame(c, objs, objs', u.left, l, u.mid, Box(z.grid.min, z.grid.max.With(z.axis, z.split)),
                Box(nodeBox.min, nodeBox.max.With(z.axis, u.clipL)), depth + 1);
    ShapedFrame(c, objs, objs', u.right, u.mid, r, Box(z.grid.min.With(z.axis, z.split), z.grid.max),
                Box(nodeBox.min.With(z.axis, u.clipR), nodeBox.max), depth + 1);
    SplitJoins(c, objs', u, l, r, nodeBox, depth, z);
  }

  lemma SlicesAgree(a: seq<nat>, b: seq<nat>, l: nat, m: nat, r: nat)
    requires l <= m <= r <= |a| && r <= |b| && a[l..r] == b[l..r]
    ensures a[l..m] == b[l..m] && a[m..r] == b[m..r]
  {
    forall k | l <= k < r ensures a[k] == b[k] { assert a[l..r][k - l] == b[l..r][k - l]; }
  }

  // ---- Leaves ----

  /** All centres lie on one side of the middle of the longest axis of some box. */
  ghost predicate Stuck(c: Setting, s: seq<nat>, z: Turn) {
    TurnOk(c.ar, c.boxes, s, z) && OneSided(c.ar, c.boxes, s, z)
  }

  ghost predicate LeafOk(c: Setting, objs: seq<nat>, l: nat, r: nat, depth: nat)
    requires l <= r <= |objs|
  {
    r - l <= c.leafSize || depth >= MAX_STACK_SIZE || exists z: Turn :: Stuck(c, objs[l..r], z)
  }

  /** Every leaf is small enough, at the greatest depth, or stuck. */
  ghost predicate LeavesOk(c: Setting, objs: seq<nat>, t: Bih, depth: nat) {
    match t
    case Leaf(first, count) => first + count <= |objs| && LeafOk(c, objs, first, first + count, depth)
    case Clip(_, _, _, child) => LeavesOk(c, objs, child, depth + 1)
    case Split(_, _, _, _, left, right) => LeavesOk(c, objs, left, depth + 1) && LeavesOk(c, objs, right, depth + 1)
    case OnlyLeft(_, _, child) => LeavesOk(c, objs, child, depth)
    case OnlyRight(_, _, child) => LeavesOk(c, objs, child, depth)
  }

  lemma {:induction false} ShapedLeaves(c: Setting, objs: seq<nat>, t: Bih, l: nat, r: nat, grid: Box, nodeBox: Box,
                                        depth: nat)
    requires Shaped(c, objs, t, l, r, grid, nodeBox, depth)
    ensures LeavesOk(c, objs, t, depth)
    decreases Height(t)
  {
    hide Shaped, ShapedBy, ClipShaped, SplitShaped, Height, Loose, OneSided, TurnOk, Trail;
    ShapedSize(c, objs, t, l, r, grid, nodeBox, depth);
    if !(r - l <= c.leafSize || depth >= MAX_STACK_SIZE) {
      var us, z := ShapedTurns(c, objs, t, l, r, grid, nodeBox, depth);
      if Loose(c.ar, nodeBox, z) {
        ByClip(c, objs, t, l, r, nodeBox, depth, us, z);
        ShapedLeaves(c, objs, t.child, l, r, z.grid,
                     Box(nodeBox.min.With(z.axis, z.lo), nodeBox.max.With(z.axis, z.hi)), depth + 1);
      } else if OneSided(c.ar, c.boxes, objs[l..r], z) {
        ByLeaf(c, objs, t, l, r, nodeBox, depth, us, z);
        assert Stuck(c, objs[l..r], z);
      } else {
        BySplit(c, objs, t, l, r, nodeBox, depth, us, z);
        var u := Inner(LastSkip(c.ar, c.boxes, objs[l..r], us), t);
        SplitParts(c, objs, u, l, r, nodeBox, depth, z);
        ShapedLeaves(c, objs, u.left, l, u.mid, Box(z.grid.min, z.grid.max.With(z.axis, z.split)),
                     Box(nodeBox.min, nodeBox.max.With(z.axis, u.clipL)), depth + 1);
        ShapedLeaves(c, objs, u.right, u.mid, r, Box(z.grid.min.With(z.axis, z.split), z.grid.max),
                     Box(nodeBox.min.With(z.axis, u.clipR), nodeBox.max), depth + 1);
      }
    }
  }
}

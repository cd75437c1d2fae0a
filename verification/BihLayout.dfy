/**
 The packed bounding interval hierarchy emitted by the vmap assembler: its word layout, the
 tree a run of words stands for, and a reference walker over the words.

 Coordinates are the order keys of the non-NaN f32 values: key `k >= 0` is the float whose bit
 pattern is `k`, key `k < 0` the float with the sign bit set and magnitude `-k`.  Comparing keys is
 comparing floats, and `±INF` are the two infinities, so this is the f32 grid itself.
 */
module BihLayout {

  const INF := 0x7F80_0000
  const SIGN := 0x8000_0000
  const AXIS_UNIT := 0x4000_0000   // 1 << 30
  const CLIP_FLAG := 0x2000_0000   // 1 << 29

  type Word = w: int | 0 <= w < 0x1_0000_0000

  datatype Vec3 = Vec3(x: int, y: int, z: int) {
    function At(axis: nat): int { if axis == 0 then x else if axis == 1 then y else z }

    function With(axis: nat, c: int): Vec3 {
      if axis == 0 then this.(x := c) else if axis == 1 then this.(y := c) else this.(z := c)
    }
  }

  datatype Box = Box(min: Vec3, max: Vec3)

  predicate Finite(c: int) { -INF < c < INF }

  /** Finite coordinates, minimum no larger than maximum on every axis. */
  predicate WellFormed(b: Box) {
    && Finite(b.min.x) && Finite(b.max.x) && b.min.x <= b.max.x
    && Finite(b.min.y) && Finite(b.max.y) && b.min.y <= b.max.y
    && Finite(b.min.z) && Finite(b.max.z) && b.min.z <= b.max.z
  }

  predicate Overlaps(b: Box, q: Box) {
    && b.min.x <= q.max.x && q.min.x <= b.max.x
    && b.min.y <= q.max.y && q.min.y <= b.max.y
    && b.min.z <= q.max.z && q.min.z <= b.max.z
  }

  ghost predicate Holds(b: Box, p: Vec3) {
    b.min.x <= p.x <= b.max.x && b.min.y <= p.y <= b.max.y && b.min.z <= p.z <= b.max.z
  }

  /** Boxes overlap exactly when they share a point. */
  lemma OverlapsShares(b: Box, q: Box)
    requires WellFormed(b) && WellFormed(q)
    ensures Overlaps(b, q) <==> exists p :: Holds(b, p) && Holds(q, p)
  {
    if Overlaps(b, q) {
      var p := Vec3(if b.min.x < q.min.x then q.min.x else b.min.x, if b.min.y < q.min.y then q.min.y else b.min.y,
                    if b.min.z < q.min.z then q.min.z else b.min.z);
      assert Holds(b, p) && Holds(q, p);
    }
  }

  /** The bit pattern of the float with order key `c`. */
  function FloatBits(c: int): (w: Word)
    requires -INF <= c <= INF
    ensures FromBits(w) == c && (w >= 0x8000_0000 <==> c < 0)
  {
    if c >= 0 then c else SIGN - c
  }

  function FromBits(w: Word): int { if w < SIGN then w else SIGN - w }

  // ---- First word of a node: axis in bits 30-31, clip flag in bit 29, offset below ----

  /** With the offset below bit 29 the source's bitwise OR is this sum. */
  function Tag(axis: nat, clip: bool, offset: nat): (w: Word)
    requires axis <= 3 && offset < CLIP_FLAG
    ensures AxisOf(w) == axis && IsClip(w) == clip && OffsetOf(w) == offset
    ensures w / 0x4000_0000 == axis && (w / 0x2000_0000 % 2 == 1 <==> clip) && w % 0x2000_0000 == offset
  {
    axis * AXIS_UNIT + (if clip then CLIP_FLAG else 0) + offset
  }

  function AxisOf(w: Word): nat { w / AXIS_UNIT }

  predicate IsClip(w: Word) { w / CLIP_FLAG % 2 == 1 }

  function OffsetOf(w: Word): nat { w % CLIP_FLAG }

  // ---- Reference walker ----

  /** The members of `s` whose box overlaps the query, in order. */
  function Hits(boxes: seq<Box>, q: Box, s: seq<nat>): seq<nat> {
    if s == [] then []
    else
      (if s[0] < |boxes| && Overlaps(boxes[s[0]], q) then [s[0]] else []) + Hits(boxes, q, s[1..])
  }

  /**
   Depth-first walk from the node at word `at`: a plane that the query does not cross prunes its
   side, a clip node prunes unless the query meets its interval, a leaf tests its objects.
   */
  function Walk(tree: seq<Word>, objects: seq<nat>, boxes: seq<Box>, q: Box, at: nat): seq<nat>
    decreases |tree| - at
  {
    if at + 3 > |tree| then []
    else
      var axis, k := AxisOf(tree[at]), OffsetOf(tree[at]);
      if axis == 3 then
        if k + tree[at + 1] <= |objects| then Hits(boxes, q, objects[k..k + tree[at + 1]]) else []
      else if IsClip(tree[at]) then
        if q.max.At(axis) >= FromBits(tree[at + 1]) && q.min.At(axis) <= FromBits(tree[at + 2]) && k > at
        then Walk(tree, objects, boxes, q, k) else []
      else
        (if q.min.At(axis) <= FromBits(tree[at + 1]) && k > at
         then Walk(tree, objects, boxes, q, k) else []) +
        (if q.max.At(axis) >= FromBits(tree[at + 2]) && k + 3 > at
         then Walk(tree, objects, boxes, q, k + 3) else [])
  }

  /** What a box query against a stored hierarchy reports. */
  function Query(bounds: Box, tree: seq<Word>, objects: seq<nat>, boxes: seq<Box>, q: Box): seq<nat> {
    if Overlaps(bounds, q) then Walk(tree, objects, boxes, q, 0) else []
  }

  // ---- The tree the words stand for ----

  datatype Bih =
    | Leaf(first: nat, count: nat)
    | Clip(axis: nat, lo: int, hi: int, child: Bih)
    | Split(axis: nat, clipL: int, clipR: int, mid: nat, left: Bih, right: Bih)
    | OnlyLeft(axis: nat, clip: int, child: Bih)    // empty space to the right of `clip`
    | OnlyRight(axis: nat, clip: int, child: Bih)   // empty space to the left of `clip`

  /** The node at word `at` encodes `t`, with every descendant at a larger index inside `[lo, hi)`. */
  ghost predicate Encodes(w: seq<Word>, at: nat, t: Bih, lo: nat, hi: nat)
    decreases t
  {
    && at + 3 <= |w| && lo <= hi <= |w|
    && var k := OffsetOf(w[at]);
       match t
       case Leaf(first, count) =>
         AxisOf(w[at]) == 3 && k == first && w[at + 1] == count
       case Clip(axis, l, h, child) =>
         && AxisOf(w[at]) == axis < 3 && IsClip(w[at])
         && FromBits(w[at + 1]) == l && FromBits(w[at + 2]) == h
         && at < k && lo <= k && k + 3 <= hi && Encodes(w, k, child, lo, hi)
       case Split(axis, l, r, _, left, right) =>
         && AxisOf(w[at]) == axis < 3 && !IsClip(w[at])
         && FromBits(w[at + 1]) == l && FromBits(w[at + 2]) == r
         && at < k && lo <= k && k + 6 <= hi
         && Encodes(w, k, left, lo, hi) && Encodes(w, k + 3, right, lo, hi)
       case OnlyLeft(axis, clip, child) =>
         && AxisOf(w[at]) == axis < 3 && !IsClip(w[at])
         && FromBits(w[at + 1]) == clip && FromBits(w[at + 2]) == INF
         && at < k && lo <= k && k + 3 <= hi && Encodes(w, k, child, lo, hi)
       case OnlyRight(axis, clip, child) =>
         && AxisOf(w[at]) == axis < 3 && !IsClip(w[at])
         && FromBits(w[at + 1]) == -INF && FromBits(w[at + 2]) == clip
         && at < k + 3 && lo <= k + 3 && k + 6 <= hi && Encodes(w, k + 3, child, lo, hi)
  }

  /** No member of `s` reaches beyond `c` on the axis. */
  ghost predicate Below(boxes: seq<Box>, s: seq<nat>, axis: nat, c: int) {
    forall o | o in s && o < |boxes| :: boxes[o].max.At(axis) <= c
  }

  /** No member of `s` starts before `c` on the axis. */
  ghost predicate Above(boxes: seq<Box>, s: seq<nat>, axis: nat, c: int) {
    forall o | o in s && o < |boxes| :: c <= boxes[o].min.At(axis)
  }

  /** The leaves of `t` are `objs[l..r]` left to right, and every plane contains the boxes it guards. */
  ghost predicate Covers(t: Bih, objs: seq<nat>, boxes: seq<Box>, l: nat, r: nat) {
    && l <= r <= |objs|
    && match t
       case Leaf(first, count) => first == l && first + count == r
       case Clip(axis, lo, hi, child) =>
         && Above(boxes, objs[l..r], axis, lo) && Below(boxes, objs[l..r], axis, hi)
         && Covers(child, objs, boxes, l, r)
       case Split(axis, clipL, clipR, mid, left, right) =>
         && l <= mid <= r
         && Below(boxes, objs[l..mid], axis, clipL) && Above(boxes, objs[mid..r], axis, clipR)
         && Covers(left, objs, boxes, l, mid) && Covers(right, objs, boxes, mid, r)
       case OnlyLeft(axis, clip, child) =>
         Below(boxes, objs[l..r], axis, clip) && Covers(child, objs, boxes, l, r)
       case OnlyRight(axis, clip, child) =>
         Above(boxes, objs[l..r], axis, clip) && Covers(child, objs, boxes, l, r)
  }

  // ---- The walker is a linear scan ----

  lemma {:induction false} HitsConcat(boxes: seq<Box>, q: Box, s: seq<nat>, t: seq<nat>)
    ensures Hits(boxes, q, s + t) == Hits(boxes, q, s) + Hits(boxes, q, t)
  {
    if s == [] {
      assert s + t == t;
    } else {
      assert (s + t)[1..] == s[1..] + t;
      HitsConcat(boxes, q, s[1..], t);
    }
  }

  lemma {:induction false} NoHits(boxes: seq<Box>, q: Box, s: seq<nat>)
    requires forall o | o in s && o < |boxes| :: !Overlaps(boxes[o], q)
    ensures Hits(boxes, q, s) == []
  {
    if s != [] {
      assert s[0] in s;
      NoHits(boxes, q, s[1..]);
    }
  }

  lemma PrunedLeft(boxes: seq<Box>, q: Box, s: seq<nat>, axis: nat, c: int)
    requires axis < 3 && Below(boxes, s, axis, c) && c < q.min.At(axis)
    ensures Hits(boxes, q, s) == []
  {
    NoHits(boxes, q, s);
  }

  lemma PrunedRight(boxes: seq<Box>, q: Box, s: seq<nat>, axis: nat, c: int)
    requires axis < 3 && Above(boxes, s, axis, c) && q.max.At(axis) < c
    ensures Hits(boxes, q, s) == []
  {
    NoHits(boxes, q, s);
  }

  lemma SplitHits(boxes: seq<Box>, q: Box, objs: seq<nat>, l: nat, mid: nat, r: nat, axis: nat, c: int, d: int)
    requires axis < 3 && l <= mid <= r <= |objs|
    requires Below(boxes, objs[l..mid], axis, c) && Above(boxes, objs[mid..r], axis, d)
    ensures Hits(boxes, q, objs[l..r]) ==
            (if q.min.At(axis) <= c then Hits(boxes, q, objs[l..mid]) else []) +
            (if q.max.At(axis) >= d then Hits(boxes, q, objs[mid..r]) else [])
  {
    if c < q.min.At(axis) { PrunedLeft(boxes, q, objs[l..mid], axis, c); }
    if q.max.At(axis) < d { PrunedRight(boxes, q, objs[mid..r], axis, d); }
    assert objs[l..r] == objs[l..mid] + objs[mid..r];
    HitsConcat(boxes, q, objs[l..mid], objs[mid..r]);
  }

  /** Walking an encoded, covering tree reports exactly the overlapping objects, in stored order. */
  lemma {:induction false} WalkIsScan(w: seq<Word>, at: nat, t: Bih, lo: nat, hi: nat,
                                      objs: seq<nat>, boxes: seq<Box>, l: nat, r: nat, q: Box)
    requires Encodes(w, at, t, lo, hi) && Covers(t, objs, boxes, l, r) && WellFormed(q)
    ensures Walk(w, objs, boxes, q, at) == Hits(boxes, q, objs[l..r])
    decreases t
  {
    hide Hits, Below, Above, OffsetOf, AxisOf, IsClip, FromBits;
    var k := OffsetOf(w[at]);
    match t
    case Leaf(_, _) =>
    case Clip(axis, c, d, child) =>
      WalkIsScan(w, k, child, lo, hi, objs, boxes, l, r, q);
      if q.max.At(axis) < c {
        PrunedRight(boxes, q, objs[l..r], axis, c);
      } else if d < q.min.At(axis) {
        PrunedLeft(boxes, q, objs[l..r], axis, d);
      }
    case Split(axis, c, d, mid, left, right) =>
      WalkIsScan(w, k, left, lo, hi, objs, boxes, l, mid, q);
      WalkIsScan(w, k + 3, right, lo, hi, objs, boxes, mid, r, q);
      SplitHits(boxes, q, objs, l, mid, r, axis, c, d);
    case OnlyLeft(axis, c, child) =>
      WalkIsScan(w, k, child, lo, hi, objs, boxes, l, r, q);
      if c < q.min.At(axis) { PrunedLeft(boxes, q, objs[l..r], axis, c); }
    case OnlyRight(axis, c, child) =>
      WalkIsScan(w, k + 3, child, lo, hi, objs, boxes, l, r, q);
      if q.max.At(axis) < c { PrunedRight(boxes, q, objs[l..r], axis, c); }
  }

  // ---- Frames ----

  lemma {:induction false} EncodesFrame(w: seq<Word>, w': seq<Word>, at: nat, t: Bih,
                                        lo: nat, hi: nat, lo': nat, hi': nat)
    requires Encodes(w, at, t, lo, hi)
    requires lo' <= lo && hi <= hi' <= |w'| && at + 3 <= |w'|
    requires forall i | at <= i < at + 3 || lo <= i < hi :: w[i] == w'[i]
    ensures Encodes(w', at, t, lo', hi')
    decreases t
  {
    var k := OffsetOf(w[at]);
    match t
    case Leaf(_, _) =>
    case Clip(_, _, _, child) => EncodesFrame(w, w', k, child, lo, hi, lo', hi');
    case Split(_, _, _, _, left, right) =>
      EncodesFrame(w, w', k, left, lo, hi, lo', hi');
      EncodesFrame(w, w', k + 3, right, lo, hi, lo', hi');
    case OnlyLeft(_, _, child) => EncodesFrame(w, w', k, child, lo, hi, lo', hi');
    case OnlyRight(_, _, child) => EncodesFrame(w, w', k + 3, child, lo, hi, lo', hi');
  }

  lemma {:induction false} CoversFrame(t: Bih, objs: seq<nat>, objs': seq<nat>, boxes: seq<Box>, l: nat, r: nat)
    requires Covers(t, objs, boxes, l, r) && r <= |objs'| && objs[l..r] == objs'[l..r]
    ensures Covers(t, objs', boxes, l, r)
    decreases t
  {
    match t
    case Leaf(_, _) =>
    case Clip(_, _, _, child) => CoversFrame(child, objs, objs', boxes, l, r);
    case Split(_, _, _, mid, left, right) =>
      assert objs[l..mid] == objs[l..r][..mid - l] == objs'[l..mid];
      assert objs[mid..r] == objs[l..r][mid - l..] == objs'[mid..r];
      CoversFrame(left, objs, objs', boxes, l, mid);
      CoversFrame(right, objs, objs', boxes, mid, r);
    case OnlyLeft(_, _, child) => CoversFrame(child, objs, objs', boxes, l, r);
    case OnlyRight(_, _, child) => CoversFrame(child, objs, objs', boxes, l, r);
  }
}

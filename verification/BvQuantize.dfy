/** Quantizing boxes for the tile tree, over the reals: whatever really overlaps still overlaps quantized. */
module BvQuantize {
  import opened BvTree

  datatype RealVec = RealVec(x: real, y: real, z: real)

  datatype RealBox = RealBox(min: RealVec, max: RealVec)

  /** `dtOverlapBounds`. */
  predicate RealOverlap(a: RealBox, b: RealBox) {
    && a.min.x <= b.max.x && a.max.x >= b.min.x
    && a.min.y <= b.max.y && a.max.y >= b.min.y
    && a.min.z <= b.max.z && a.max.z >= b.min.z
  }

  predicate Inside(tile: RealBox, b: RealBox) {
    && tile.min.x <= b.min.x <= b.max.x <= tile.max.x
    && tile.min.y <= b.min.y <= b.max.y <= tile.max.y
    && tile.min.z <= b.min.z <= b.max.z <= tile.max.z
  }

  function ClampReal(v: real, lo: real, hi: real): real { if v < lo then lo else if v > hi then hi else v }

  function ClampInt(v: int, lo: int, hi: int): int { if v < lo then lo else if v > hi then hi else v }

  /** Conversion to `int`: truncation toward zero. */
  function Truncate(v: real): int { if v >= 0.0 then v.Floor else -((-v).Floor) }

  /** Conversion of a non-negative value to 16 bits. */
  function ToU16(v: real): int { Truncate(v) % 0x10000 }

  function Scaled(v: real, f: real): real { v * f }

  /** How the builder quantizes a polygon coordinate. */
  function ItemCoord(v: real, origin: real, f: real): int { ClampInt(Truncate(Scaled(v - origin, f)), 0, 0xffff) }

  /** How a reader quantizes the query's minimum and maximum: rounded outward to even and odd. */
  function QueryMin(v: real, lo: real, hi: real, f: real): int {
    var u := ToU16(Scaled(ClampReal(v, lo, hi) - lo, f));
    u - u % 2
  }

  function QueryMax(v: real, lo: real, hi: real, f: real): int {
    var u := ToU16(Scaled(ClampReal(v, lo, hi) - lo, f) + 1.0);
    u - u % 2 + 1
  }

  function QuantItem(p: RealBox, tile: RealBox, f: real): Box {
    Box(Vec(ItemCoord(p.min.x, tile.min.x, f), ItemCoord(p.min.y, tile.min.y, f), ItemCoord(p.min.z, tile.min.z, f)),
        Vec(ItemCoord(p.max.x, tile.min.x, f), ItemCoord(p.max.y, tile.min.y, f), ItemCoord(p.max.z, tile.min.z, f)))
  }

  function QuantQuery(q: RealBox, tile: RealBox, f: real): Box {
    Box(Vec(QueryMin(q.min.x, tile.min.x, tile.max.x, f), QueryMin(q.min.y, tile.min.y, tile.max.y, f),
            QueryMin(q.min.z, tile.min.z, tile.max.z, f)),
        Vec(QueryMax(q.max.x, tile.min.x, tile.max.x, f), QueryMax(q.max.y, tile.min.y, tile.max.y, f),
            QueryMax(q.max.z, tile.min.z, tile.max.z, f)))
  }

  lemma Scale(a: real, b: real, f: real)
    requires a <= b && f > 0.0
    ensures Scaled(a, f) <= Scaled(b, f) && Scaled(0.0, f) == 0.0
  {
  }

  lemma FloorMonotone(a: real, b: real)
    requires a <= b
    ensures a.Floor <= b.Floor
  {
  }

  lemma RoundDown(u: real, v: real)
    requires 0.0 <= u <= v < 65535.0
    ensures ToU16(u) - ToU16(u) % 2 <= ClampInt(Truncate(v), 0, 0xffff)
  {
    FloorMonotone(u, v);
    assert 0 <= u.Floor <= v.Floor < 65535;
  }

  lemma RoundUp(u: real, v: real)
    requires 0.0 <= v <= u < 65535.0
    ensures ToU16(u + 1.0) - ToU16(u + 1.0) % 2 + 1 >= ClampInt(Truncate(v), 0, 0xffff)
  {
    FloorMonotone(v, u + 1.0);
    assert 0 <= v.Floor <= (u + 1.0).Floor < 65536 && v.Floor < 65535;
  }

  /** On one axis: the quantized query minimum does not pass the item's maximum, nor its maximum the item's minimum. */
  lemma ConservativeAxis(pmin: real, pmax: real, qmin: real, qmax: real, lo: real, hi: real, f: real)
    requires f > 0.0 && lo <= pmin <= pmax <= hi && Scaled(hi - lo, f) < 65535.0
    requires qmin <= pmax && qmax >= pmin
    ensures QueryMin(qmin, lo, hi, f) <= ItemCoord(pmax, lo, f)
    ensures QueryMax(qmax, lo, hi, f) >= ItemCoord(pmin, lo, f)
  {
    hide ToU16, Truncate, ClampInt, Scaled;
    var a, b := ClampReal(qmin, lo, hi) - lo, ClampReal(qmax, lo, hi) - lo;
    Scale(0.0, a, f);
    Scale(a, pmax - lo, f);
    Scale(pmax - lo, hi - lo, f);
    Scale(0.0, pmin - lo, f);
    Scale(pmin - lo, b, f);
    Scale(b, hi - lo, f);
    RoundDown(Scaled(a, f), Scaled(pmax - lo, f));
    RoundUp(Scaled(b, f), Scaled(pmin - lo, f));
  }

  /** Every interval and query interval on the axis that really meet still meet after quantization. */
  ghost predicate AxisConservative(lo: real, hi: real, f: real) {
    forall pmin, pmax, qmin, qmax | lo <= pmin <= pmax <= hi && qmin <= pmax && qmax >= pmin ::
      StillMeets(pmin, pmax, qmin, qmax, lo, hi, f)
  }

  predicate StillMeets(pmin: real, pmax: real, qmin: real, qmax: real, lo: real, hi: real, f: real) {
    QueryMin(qmin, lo, hi, f) <= ItemCoord(pmax, lo, f) && QueryMax(qmax, lo, hi, f) >= ItemCoord(pmin, lo, f)
  }

  /** At 65535 steps from the origin the query's maximum wraps around to 1. */
  lemma WrapMisses(lo: real, hi: real, f: real)
    requires f > 0.0 && lo <= hi && Scaled(hi - lo, f) >= 65535.0
    ensures !AxisConservative(lo, hi, f)
  {
    hide Scaled, ToU16, Truncate;
    var d := 65535.0 / f;
    var x := lo + d;
    ScaledBack(d, f);
    if d > hi - lo { SameScale(hi - lo, d, f); }
    assert x - lo == d && ClampReal(x, lo, hi) == x;
    AtTheEdge();
    assert ItemCoord(x, lo, f) == 65535;
    assert QueryMax(x, lo, hi, f) == 1;
    assert !StillMeets(x, x, x, x, lo, hi, f);
  }

  lemma ScaledBack(d: real, f: real)
    requires f > 0.0 && d == 65535.0 / f
    ensures Scaled(d, f) == 65535.0
  {
  }

  lemma AtTheEdge()
    ensures Truncate(65535.0) == 65535 && ClampInt(65535, 0, 0xffff) == 65535
    ensures ToU16(65535.0 + 1.0) == 0
  {
    assert 65535.0.Floor == 65535;
    assert 65536.0.Floor == 65536;
    assert 65535.0 + 1.0 == 65536.0;
  }

  lemma SameScale(a: real, b: real, f: real)
    requires f > 0.0 && a < b
    ensures Scaled(a, f) < Scaled(b, f)
  {
  }

  /** Quantization is conservative on an axis exactly when the tile is less than 65535 steps wide. */
  lemma ConservativeExactly(lo: real, hi: real, f: real)
    requires f > 0.0 && lo <= hi
    ensures AxisConservative(lo, hi, f) <==> Scaled(hi - lo, f) < 65535.0
  {
    hide QueryMin, QueryMax, ItemCoord, Scaled;
    if Scaled(hi - lo, f) >= 65535.0 {
      WrapMisses(lo, hi, f);
    } else {
      forall pmin, pmax, qmin, qmax | lo <= pmin <= pmax <= hi && qmin <= pmax && qmax >= pmin
        ensures StillMeets(pmin, pmax, qmin, qmax, lo, hi, f)
      {
        ConservativeAxis(pmin, pmax, qmin, qmax, lo, hi, f);
      }
    }
  }

  /** A polygon inside the tile that really overlaps the query overlaps it after quantization too. */
  lemma Conservative(p: RealBox, q: RealBox, tile: RealBox, f: real)
    requires f > 0.0 && Inside(tile, p) && RealOverlap(q, p)
    requires Scaled(tile.max.x - tile.min.x, f) < 65535.0 && Scaled(tile.max.y - tile.min.y, f) < 65535.0
    requires Scaled(tile.max.z - tile.min.z, f) < 65535.0
    ensures Overlap(QuantQuery(q, tile, f), QuantItem(p, tile, f))
  {
    hide QueryMin, QueryMax, ItemCoord;
    ConservativeAxis(p.min.x, p.max.x, q.min.x, q.max.x, tile.min.x, tile.max.x, f);
    ConservativeAxis(p.min.y, p.max.y, q.min.y, q.max.y, tile.min.y, tile.max.y, f);
    ConservativeAxis(p.min.z, p.max.z, q.min.z, q.max.z, tile.min.z, tile.max.z, f);
  }

  predicate RealContains(outer: RealBox, inner: RealBox) {
    && outer.min.x <= inner.min.x && inner.max.x <= outer.max.x
    && outer.min.y <= inner.min.y && inner.max.y <= outer.max.y
    && outer.min.z <= inner.min.z && inner.max.z <= outer.max.z
  }

  /**
   So the walk over the built tree never misses a polygon that the plain loop over polygon bounds `p` would find, as
   long as the detail bounds `d` that the tree stores contain them.
   */
  lemma TreeNeverMisses(nodes: seq<Node>, items: seq<Item>, k: nat, d: RealBox, p: RealBox, q: RealBox, tile: RealBox,
                        f: real)
    requires k < |items| && items[k].box == QuantItem(d, tile, f)
    requires |nodes| == 2 * |items| && IsTree(nodes, 0, items, 0, |items|) && nodes[|nodes| - 1] == ZERO_NODE
    requires f > 0.0 && Inside(tile, d) && RealContains(d, p) && RealOverlap(q, p)
    requires Scaled(tile.max.x - tile.min.x, f) < 65535.0 && Scaled(tile.max.y - tile.min.y, f) < 65535.0
    requires Scaled(tile.max.z - tile.min.z, f) < 65535.0
    ensures items[k].poly in Walk(nodes, 0, QuantQuery(q, tile, f))
  {
    hide QuantItem, QuantQuery, Overlap, IsTree, Walk, Hits, Tail;
    Conservative(d, q, tile, f);
    HitListed(items, k, QuantQuery(q, tile, f));
    TreeAnswers(nodes, items, QuantQuery(q, tile, f));
  }

  lemma {:induction false} HitListed(items: seq<Item>, k: nat, q: Box)
    requires k < |items| && Overlap(q, items[k].box)
    ensures items[k].poly in Hits(items, q)
    decreases k
  {
    if k > 0 { HitListed(items[1..], k - 1, q); }
  }

  // ---- Tightness ----

  /** Steps from the tile's edge to a query coordinate, which is clamped to the tile first. */
  function Steps(v: real, lo: real, hi: real, f: real): real {
    ((if v < lo then lo else if v > hi then hi else v) - lo) * f
  }

  /** The quantized query is the smallest one with an even minimum at or below and an odd maximum above. */
  lemma QueryExact(v: real, lo: real, hi: real, f: real)
    requires f > 0.0 && lo <= hi && Scaled(hi - lo, f) < 65535.0
    ensures var a, b, u := QueryMin(v, lo, hi, f), QueryMax(v, lo, hi, f), Steps(v, lo, hi, f);
            && a % 2 == 0 && u - 2.0 < a as real <= u && 0 <= a
            && b % 2 == 1 && u < b as real <= u + 2.0
  {
    hide ToU16, Scaled;
    var d := ClampReal(v, lo, hi) - lo;
    Scale(0.0, d, f);
    Scale(d, hi - lo, f);
    ScaledIs(d, f);
    EvenAndOdd(Scaled(d, f));
  }

  lemma ScaledIs(d: real, f: real)
    ensures Scaled(d, f) == d * f
  {
  }

  lemma EvenAndOdd(u: real)
    requires 0.0 <= u < 65535.0
    ensures var a, n := ToU16(u), ToU16(u + 1.0);
            && (a - a % 2) % 2 == 0 && u - 2.0 < (a - a % 2) as real <= u && 0 <= a - a % 2
            && (n - n % 2 + 1) % 2 == 1 && u < (n - n % 2 + 1) as real <= u + 2.0
  {
    hide ToU16;
    FloorOf(u);
    FloorOf(u + 1.0);
  }

  lemma FloorOf(u: real)
    requires 0.0 <= u < 65536.0
    ensures ToU16(u) as real <= u < ToU16(u) as real + 1.0 && 0 <= ToU16(u)
  {
    assert 0 <= u.Floor < 65536;
  }

  /** A polygon coordinate is rounded down to a whole step. */
  lemma ItemExact(v: real, lo: real, hi: real, f: real)
    requires f > 0.0 && lo <= v <= hi && Scaled(hi - lo, f) < 65535.0
    ensures var n, u := ItemCoord(v, lo, f), (v - lo) * f; n as real <= u < n as real + 1.0
  {
    Scale(0.0, v - lo, f);
    Scale(v - lo, hi - lo, f);
  }

  /** The query comes within two steps of the polygon on one side, and within three on the other. */
  predicate NearAxis(pmin: real, pmax: real, qmin: real, qmax: real, lo: real, hi: real, f: real) {
    Steps(qmin, lo, hi, f) < (pmax - lo) * f + 2.0 && (pmin - lo) * f < Steps(qmax, lo, hi, f) + 3.0
  }

  predicate Near(p: RealBox, q: RealBox, tile: RealBox, f: real) {
    && NearAxis(p.min.x, p.max.x, q.min.x, q.max.x, tile.min.x, tile.max.x, f)
    && NearAxis(p.min.y, p.max.y, q.min.y, q.max.y, tile.min.y, tile.max.y, f)
    && NearAxis(p.min.z, p.max.z, q.min.z, q.max.z, tile.min.z, tile.max.z, f)
  }

  lemma TightAxis(pmin: real, pmax: real, qmin: real, qmax: real, lo: real, hi: real, f: real)
    requires f > 0.0 && lo <= pmin <= pmax <= hi && Scaled(hi - lo, f) < 65535.0
    requires StillMeets(pmin, pmax, qmin, qmax, lo, hi, f)
    ensures NearAxis(pmin, pmax, qmin, qmax, lo, hi, f)
  {
    hide QueryMin, QueryMax, ItemCoord, Steps, Scaled;
    QueryExact(qmin, lo, hi, f);
    QueryExact(qmax, lo, hi, f);
    ItemExact(pmin, lo, hi, f);
    ItemExact(pmax, lo, hi, f);
  }

  /** Only polygons near the query overlap it quantized. */
  lemma Tight(p: RealBox, q: RealBox, tile: RealBox, f: real)
    requires f > 0.0 && Inside(tile, p) && Overlap(QuantQuery(q, tile, f), QuantItem(p, tile, f))
    requires Scaled(tile.max.x - tile.min.x, f) < 65535.0 && Scaled(tile.max.y - tile.min.y, f) < 65535.0
    requires Scaled(tile.max.z - tile.min.z, f) < 65535.0
    ensures Near(p, q, tile, f)
  {
    hide QueryMin, QueryMax, ItemCoord, NearAxis;
    TightAxis(p.min.x, p.max.x, q.min.x, q.max.x, tile.min.x, tile.max.x, f);
    TightAxis(p.min.y, p.max.y, q.min.y, q.max.y, tile.min.y, tile.max.y, f);
    TightAxis(p.min.z, p.max.z, q.min.z, q.max.z, tile.min.z, tile.max.z, f);
  }

  /** Item `k` was made from bounds `ds[k]`. */
  ghost predicate MadeFrom(items: seq<Item>, ds: seq<RealBox>, tile: RealBox, f: real) {
    |items| == |ds| && forall k | 0 <= k < |items| :: Inside(tile, ds[k]) && items[k].box == QuantItem(ds[k], tile, f)
  }

  /** So the walk reports, besides the hit of the unused last node, only polygons near the query. */
  lemma WalkOnlyNear(nodes: seq<Node>, items: seq<Item>, ds: seq<RealBox>, q: RealBox, tile: RealBox, f: real, x: nat)
    requires MadeFrom(items, ds, tile, f) && f > 0.0 && items != []
    requires |nodes| == 2 * |items| && IsTree(nodes, 0, items, 0, |items|) && nodes[|nodes| - 1] == ZERO_NODE
    requires Scaled(tile.max.x - tile.min.x, f) < 65535.0 && Scaled(tile.max.y - tile.min.y, f) < 65535.0
    requires Scaled(tile.max.z - tile.min.z, f) < 65535.0
    requires x in Walk(nodes, 0, QuantQuery(q, tile, f)) && x !in Tail(QuantQuery(q, tile, f))
    ensures exists k :: 0 <= k < |items| && items[k].poly == x && Near(ds[k], q, tile, f)
  {
    hide QuantItem, QuantQuery, Overlap, IsTree, Walk, Hits, Tail, Near, Inside;
    TreeAnswers(nodes, items, QuantQuery(q, tile, f));
    var k := HitFrom(items, QuantQuery(q, tile, f), x);
    Tight(ds[k], q, tile, f);
  }

  lemma {:induction false} HitFrom(items: seq<Item>, q: Box, x: nat) returns (k: nat)
    requires x in Hits(items, q)
    ensures k < |items| && items[k].poly == x && Overlap(q, items[k].box)
  {
    if items[0].poly == x && Overlap(q, items[0].box) {
      k := 0;
    } else {
      k := HitFrom(items[1..], q, x);
      k := k + 1;
    }
  }

  /** The overlap tests ask for a common point. */
  lemma OverlapMeets(a: Box, b: Box)
    requires a.min.x <= a.max.x && a.min.y <= a.max.y && a.min.z <= a.max.z
    requires b.min.x <= b.max.x && b.min.y <= b.max.y && b.min.z <= b.max.z
    ensures Overlap(a, b) <==> exists p: Vec :: Holds(a, p) && Holds(b, p)
  {
    if Overlap(a, b) {
      var p := Vec(Max(a.min.x, b.min.x), Max(a.min.y, b.min.y), Max(a.min.z, b.min.z));
      assert Holds(a, p) && Holds(b, p);
    }
  }

  predicate Holds(b: Box, p: Vec) {
    b.min.x <= p.x <= b.max.x && b.min.y <= p.y <= b.max.y && b.min.z <= p.z <= b.max.z
  }

  predicate RealHolds(b: RealBox, p: RealVec) {
    b.min.x <= p.x <= b.max.x && b.min.y <= p.y <= b.max.y && b.min.z <= p.z <= b.max.z
  }

  function MaxReal(a: real, b: real): real { if a < b then b else a }

  lemma RealOverlapMeets(a: RealBox, b: RealBox)
    requires a.min.x <= a.max.x && a.min.y <= a.max.y && a.min.z <= a.max.z
    requires b.min.x <= b.max.x && b.min.y <= b.max.y && b.min.z <= b.max.z
    ensures RealOverlap(a, b) <==> exists p: RealVec :: RealHolds(a, p) && RealHolds(b, p)
  {
    if RealOverlap(a, b) {
      var p := RealVec(MaxReal(a.min.x, b.min.x), MaxReal(a.min.y, b.min.y), MaxReal(a.min.z, b.min.z));
      assert RealHolds(a, p) && RealHolds(b, p);
    }
  }
}

/**
 The `.map` file as its writer and its reader see it: heights packed to 8 or 16 bits, and the rectangle of liquid
 heights.  Floating-point values are reals.
 */
module MapCodec {
  // ---- Height range and clamping ----

  function MaxReal(a: real, b: real): real { if a < b then b else a }

  ghost predicate Within(vs: seq<real>, lo: real, hi: real) { forall i | 0 <= i < |vs| :: lo <= vs[i] <= hi }

  /** The loop starts from bounds that need not be heights; every height still lies between the results. */
  method ComputeHeightRange(vs: seq<real>) returns (lo: real, hi: real)
    ensures Within(vs, lo, hi)
    ensures lo == 20000.0 || lo in vs
    ensures hi == -20000.0 || hi in vs
  {
    lo, hi := 20000.0, -20000.0;
    for i := 0 to |vs|
      invariant forall j | 0 <= j < i :: lo <= vs[j] <= hi
      invariant (lo == 20000.0 || lo in vs) && (hi == -20000.0 || hi in vs)
    {
      if vs[i] > hi { hi := vs[i]; }
      if vs[i] < lo { lo := vs[i]; }
    }
  }

  method ClampHeights(a: array<real>, least: real)
    modifies a
    ensures forall i | 0 <= i < a.Length :: a[i] == if old(a[i]) < least then least else old(a[i])
  {
    for k := 0 to a.Length
      invariant forall i | 0 <= i < k :: a[i] == MaxReal(old(a[i]), least)
      invariant forall i | k <= i < a.Length :: a[i] == old(a[i])
    {
      if a[k] < least { a[k] := least; }
    }
  }

  // ---- Height packing ----

  datatype Format = Flat | Packed(top: nat) | Floats

  datatype Config = Config(limitHeight: bool, leastHeight: real, floatToInt: bool)

  const EPSILON: real := 0.00000011920929

  /** Which form a height range is stored in; `top` is 255 or 65535. */
  function ChooseFormat(lo: real, hi: real, config: Config): (f: Format)
    ensures f.Flat? <==>
              -0.00000011920929 < hi - lo < 0.00000011920929 || (config.floatToInt && hi - lo < 0.005)
    ensures f.Floats? <==> !f.Flat? && (!config.floatToInt || hi - lo >= 2048.0)
    ensures f.Packed? ==> f.top == if hi - lo < 2.0 then 255 else 65535
    ensures f.Packed? ==> hi - lo > 0.0
  {
    if -EPSILON < hi - lo < EPSILON || (config.floatToInt && hi - lo < 0.005) then Flat
    else if config.floatToInt && hi - lo < 2.0 then Packed(255)
    else if config.floatToInt && hi - lo < 2048.0 then Packed(65535)
    else Floats
  }

  function Clamp(v: real, lo: real, hi: real): real { if v < lo then lo else if v > hi then hi else v }

  /** The integer stored for a height: scaled, rounded to nearest, cut to the range of the type. */
  function Pack(v: real, lo: real, hi: real, top: nat): nat
    requires hi > lo
  {
    Clamp((v - lo) * (top as real / (hi - lo)) + 0.5, 0.0, top as real).Floor
  }

  /** What the reader makes of it. */
  function Unpack(raw: nat, lo: real, hi: real, top: nat): real
    requires top > 0
  {
    raw as real * ((hi - lo) / top as real) + lo
  }

  /** A decoded height is at most half a step away from the height encoded. */
  lemma PackError(v: real, lo: real, hi: real, top: nat)
    requires lo <= v <= hi && hi > lo && top > 0
    ensures Pack(v, lo, hi, top) <= top
    ensures -((hi - lo) / (2.0 * top as real)) <= Unpack(Pack(v, lo, hi, top), lo, hi, top) - v
              <= (hi - lo) / (2.0 * top as real)
  {
    var d, t := hi - lo, top as real;
    var x := (v - lo) * (t / d);
    Scaled(v - lo, d, t);
    var raw := Pack(v, lo, hi, top);
    assert -0.5 <= raw as real - x <= 0.5 && raw as real <= t;
    Unscaled(raw as real - x, d, t);
    assert raw as real * (d / t) - x * (d / t) == (raw as real - x) * (d / t);
  }

  /** Scaling from `[0, d]` to `[0, t]`, and back. */
  lemma Scaled(w: real, d: real, t: real)
    requires 0.0 <= w <= d && d > 0.0 && t > 0.0
    ensures 0.0 <= w * (t / d) <= t && w * (t / d) * (d / t) == w
  {
    assert w * (t / d) == w / d * t;
    assert 0.0 <= w / d <= 1.0;
    assert (t / d) * (d / t) == 1.0;
  }

  lemma Unscaled(e: real, d: real, t: real)
    requires -0.5 <= e <= 0.5 && d > 0.0 && t > 0.0
    ensures -(d / (2.0 * t)) <= e * (d / t) <= d / (2.0 * t)
  {
    assert d / t > 0.0 && d / (2.0 * t) == 0.5 * (d / t);
  }

  /** A height section: the header's range, the form, and the numbers in it. */
  datatype Heights = Heights(lo: real, hi: real, format: Format, ints: seq<nat>, reals: seq<real>)

  /** How far a decoded height may be from the height encoded. */
  function Tolerance(h: Heights): real
    requires h.format.Packed? ==> h.format.top > 0
  {
    if h.format.Packed? then (h.hi - h.lo) / (2.0 * h.format.top as real) else 0.0
  }

  /** The reader's height at position `i`. */
  function HeightAt(h: Heights, i: nat): real
    requires !h.format.Flat?
    requires h.format.Packed? ==> h.format.top > 0 && i < |h.ints|
    requires h.format.Floats? ==> i < |h.reals|
  {
    if h.format.Packed? then Unpack(h.ints[i], h.lo, h.hi, h.format.top) else h.reals[i]
  }

  /** A section that holds `count` numbers of its type. */
  ghost predicate Sized(h: Heights, count: nat) {
    && (h.format.Packed? ==> |h.ints| == count && h.format.top > 0 && forall i | 0 <= i < count ::
        h.ints[i] <= h.format.top)
    && (h.format.Floats? ==> |h.reals| == count)
  }

  /** A section holds `vs` in order, every height within the tolerance; a flat one only its minimum. */
  ghost predicate Holds(h: Heights, vs: seq<real>) {
    && Sized(h, |vs|)
    && (h.format.Flat? ==> forall i | 0 <= i < |vs| :: 0.0 <= vs[i] - h.lo < 0.005)
    && (!h.format.Flat? ==> forall i | 0 <= i < |vs| :: -Tolerance(h) <= HeightAt(h, i) - vs[i] <= Tolerance(h))
  }

  /** Only the numbers of the section's own form are there; plain numbers are the heights themselves. */
  ghost predicate Canonical(h: Heights, vs: seq<real>) {
    && (h.format.Packed? ==> h.reals == [] && (h.format.top == 255 || h.format.top == 65535))
    && (h.format.Floats? ==> h.ints == [] && h.reals == vs)
    && (h.format.Flat? ==> h.ints == [] && h.reals == [])
  }

  /** The range of the heights, except that a range starts from 20000 and -20000, and a greater minimum raises it. */
  ghost predicate Spans(vs: seq<real>, lo: real, hi: real, config: Config) {
    && Within(vs, lo, hi)
    && (lo in vs || lo == 20000.0 || (config.limitHeight && lo == config.leastHeight > 20000.0))
    && (hi in vs || hi == -20000.0 || vs == [])
  }

  /** Range, clamping and packing.  The 129 x 129 grid is written first, then the 128 x 128 one. */
  method WriteHeights(v8: array<real>, v9: array<real>, config: Config) returns (h: Heights)
    requires v8 != v9
    modifies v8, v9
    ensures forall i | 0 <= i < v8.Length ::
              v8[i] == if config.limitHeight && old(v8[i]) < config.leastHeight then config.leastHeight else old(v8[i])
    ensures forall i | 0 <= i < v9.Length ::
              v9[i] == if config.limitHeight && old(v9[i]) < config.leastHeight then config.leastHeight else old(v9[i])
    ensures Holds(h, v9[..] + v8[..]) && h.format == ChooseFormat(h.lo, h.hi, config)
    ensures Within(v9[..] + v8[..], h.lo, h.hi) && Canonical(h, v9[..] + v8[..])
    ensures Spans(v9[..] + v8[..], h.lo, h.hi, config)
    ensures h.lo == 20000.0 || h.lo == config.leastHeight || h.lo in old(v8[..]) + old(v9[..])
    ensures h.hi == -20000.0 || h.hi == config.leastHeight || h.hi in old(v8[..]) + old(v9[..])
  {
    var lo, hi := ComputeHeightRange(v8[..] + v9[..]);
    RangeSplits(v8[..], v9[..], lo, hi);
    ghost var low, high := lo, hi;
    if config.limitHeight && lo < config.leastHeight {
      ClampHeights(v8, config.leastHeight);
      ClampHeights(v9, config.leastHeight);
      lo := MaxReal(lo, config.leastHeight);
      hi := MaxReal(hi, config.leastHeight);
    }
    assert Within(v9[..] + v8[..], lo, hi);
    RangeStays(old(v8[..]), old(v9[..]), v8[..], v9[..], low, high, lo, hi, config);
    h := BuildHeights(v9[..] + v8[..], lo, hi, config);
  }

  lemma RangeSplits(a: seq<real>, b: seq<real>, lo: real, hi: real)
    requires Within(a + b, lo, hi)
    ensures Within(a, lo, hi) && Within(b, lo, hi)
  {
    forall i | 0 <= i < |a| ensures lo <= a[i] <= hi { assert (a + b)[i] == a[i]; }
    forall i | 0 <= i < |b| ensures lo <= b[i] <= hi { assert (a + b)[|a| + i] == b[i]; }
  }

  /** Raising heights to a minimum raises the ends of their range with them. */
  lemma RangeStays(was8: seq<real>, was9: seq<real>, v8: seq<real>, v9: seq<real>, low: real, high: real, lo: real,
                   hi: real, config: Config)
    requires |v8| == |was8| && |v9| == |was9| && Within(was8 + was9, low, high) && Within(v9 + v8, lo, hi)
    requires (low == 20000.0 || low in was8 + was9) && (high == -20000.0 || high in was8 + was9)
    requires var raises := config.limitHeight && low < config.leastHeight;
             && (forall i | 0 <= i < |v8| ::
                   v8[i] == if raises && was8[i] < config.leastHeight then config.leastHeight else was8[i])
             && (forall i | 0 <= i < |v9| ::
                   v9[i] == if raises && was9[i] < config.leastHeight then config.leastHeight else was9[i])
             && lo == (if raises then config.leastHeight else low)
             && hi == if raises && high < config.leastHeight then config.leastHeight else high
    ensures Spans(v9 + v8, lo, hi, config)
  {
    var vs := v9 + v8;
    forall x | x in was8 + was9
      ensures (if config.limitHeight && low < config.leastHeight && x < config.leastHeight then config.leastHeight
               else x) in vs
    {
      RaisedIn(was8, was9, v8, v9, if config.limitHeight && low < config.leastHeight then config.leastHeight else x, x);
    }
    if vs != [] { assert (was8 + was9)[0] in was8 + was9; }
  }

  lemma RaisedIn(was8: seq<real>, was9: seq<real>, v8: seq<real>, v9: seq<real>, least: real, x: real)
    requires |v8| == |was8| && |v9| == |was9| && x in was8 + was9
    requires forall i | 0 <= i < |v8| && was8[i] == x :: v8[i] == if x < least then least else x
    requires forall i | 0 <= i < |v9| && was9[i] == x :: v9[i] == if x < least then least else x
    ensures (if x < least then least else x) in v9 + v8
  {
    if i :| 0 <= i < |was9| && was9[i] == x {
      assert (v9 + v8)[i] == v9[i];
    } else {
      var i :| 0 <= i < |was8| && was8[i] == x;
      assert (v9 + v8)[|v9| + i] == v8[i];
    }
  }

  method BuildHeights(vs: seq<real>, lo: real, hi: real, config: Config) returns (h: Heights)
    requires Within(vs, lo, hi)
    ensures Holds(h, vs) && h.lo == lo && h.hi == hi && h.format == ChooseFormat(lo, hi, config) && Canonical(h, vs)
  {
    hide Pack, Unpack;
    var format := ChooseFormat(lo, hi, config);
    var ints: seq<nat> := [];
    match format
    case Flat =>
      h := Heights(lo, hi, format, [], []);
    case Floats =>
      h := Heights(lo, hi, format, [], vs);
    case Packed(top) =>
      for i := 0 to |vs|
        invariant |ints| == i && forall j | 0 <= j < i :: ints[j] == Pack(vs[j], lo, hi, top)
      {
        ints := ints + [Pack(vs[i], lo, hi, top)];
      }
      h := Heights(lo, hi, format, ints, []);
      forall i | 0 <= i < |vs|
        ensures ints[i] <= top && -Tolerance(h) <= HeightAt(h, i) - vs[i] <= Tolerance(h)
      {
        PackError(vs[i], lo, hi, top);
      }
  }

  const V9: nat := 129
  const V8: nat := 128

  /** The reader: no terrain for a flat section, otherwise both grids. */
  method ReadHeights(h: Heights) returns (terrain: bool, v9: seq<real>, v8: seq<real>)
    requires Sized(h, V9 * V9 + V8 * V8)
    ensures terrain <==> !h.format.Flat?
    ensures terrain ==> |v9| == V9 * V9 && |v8| == V8 * V8
    ensures terrain ==> forall vs | Holds(h, vs) && |vs| == V9 * V9 + V8 * V8 ::
              && (forall i | 0 <= i < V9 * V9 :: -Tolerance(h) <= v9[i] - vs[i] <= Tolerance(h))
              && (forall i | 0 <= i < V8 * V8 :: -Tolerance(h) <= v8[i] - vs[V9 * V9 + i] <= Tolerance(h))
  {
    hide Tolerance, Unpack;
    terrain, v9, v8 := !h.format.Flat?, [], [];
    if !terrain { return; }
    for i := 0 to V9 * V9
      invariant |v9| == i && forall j | 0 <= j < i :: v9[j] == HeightAt(h, j)
    {
      v9 := v9 + [if h.format.Packed? then Unpack(h.ints[i], h.lo, h.hi, h.format.top) else h.reals[i]];
    }
    for i := 0 to V8 * V8
      invariant |v8| == i && forall j | 0 <= j < i :: v8[j] == HeightAt(h, V9 * V9 + j)
    {
      v8 := v8 + [if h.format.Packed? then Unpack(h.ints[V9 * V9 + i], h.lo, h.hi, h.format.top)
                  else h.reals[V9 * V9 + i]];
    }
  }

  // ---- Liquid heights ----

  const NO_LIQUID: real := -500.0

  /** The rectangle of liquid heights: its corner, its size in vertices, and the level used where it is flat. */
  datatype Liquid = Liquid(offX: nat, offY: nat, width: nat, height: nat, level: real, flat: bool)

  function Cell(y: nat, x: nat): nat { y * V8 + x }

  function Vert(y: nat, x: nat): nat { y * V9 + x }

  /** Cells and vertices are numbered by rows of 128 and of 129. */
  lemma RowMajor(y: nat, x: nat)
    ensures x < 128 ==> Cell(y, x) / 128 == y && Cell(y, x) % 128 == x
    ensures x < 129 ==> Vert(y, x) / 129 == y && Vert(y, x) % 129 == x
  {
  }

  function Slot(width: nat, r: nat, c: nat): nat { r * width + c }

  datatype Extent = Extent(minX: nat, minY: nat, maxX: nat, maxY: nat, lo: real, hi: real)

  ghost predicate Before(y: nat, x: nat, y1: nat, x1: nat) { y < y1 || (y == y1 && x < x1) }

  /** What the scan up to a cell records: the extent covers every shown cell and is empty only if there is none. */
  ghost predicate Scanned(show: seq<bool>, h: seq<real>, least: real, e: Extent, y1: nat, x1: nat)
    requires |show| == V8 * V8 && |h| == V9 * V9
  {
    && (forall y: nat, x: nat | y < V8 && x < V8 && Before(y, x, y1, x1) ::
          if show[Cell(y, x)]
          then e.minX <= x <= e.maxX && e.minY <= y <= e.maxY && e.lo <= h[Vert(y, x)] <= e.hi
          else e.lo <= least)
    && e.maxX < V8 && e.maxY < V8 && (e.minX == 255 <==> e.minY == 255)
    && (e.minX != 255 ==> e.minX <= e.maxX && e.minY <= e.maxY)
  }

  ghost predicate ShownAt(show: seq<bool>, y: nat, x: nat, y1: nat, x1: nat)
    requires |show| == V8 * V8
  {
    y < V8 && x < V8 && Before(y, x, y1, x1) && show[Cell(y, x)]
  }

  /** The extent is no larger than needed: each side of it runs through a shown cell. */
  ghost predicate Reached(show: seq<bool>, e: Extent, y1: nat, x1: nat)
    requires |show| == V8 * V8
  {
    if e.minX == 255 then e.maxX == 0 && e.maxY == 0
    else
      && (exists y: nat :: ShownAt(show, y, e.minX, y1, x1)) && (exists y: nat :: ShownAt(show, y, e.maxX, y1, x1))
      && (exists x: nat :: ShownAt(show, e.minY, x, y1, x1)) && (exists x: nat :: ShownAt(show, e.maxY, x, y1, x1))
  }

  /** `lo` is a height scanned, or one of the two the scan starts from or lowers to. */
  ghost predicate LowFrom(show: seq<bool>, h: seq<real>, least: real, lo: real, y1: nat, x1: nat)
    requires |show| == V8 * V8 && |h| == V9 * V9
  {
    && lo <= 20000.0
    && (|| lo == 20000.0
        || (lo == least && exists y: nat, x: nat | y < V8 && x < V8 && Before(y, x, y1, x1) :: !show[Cell(y, x)])
        || exists y: nat, x: nat | ShownAt(show, y, x, y1, x1) :: h[Vert(y, x)] == lo)
  }

  ghost predicate HighFrom(show: seq<bool>, h: seq<real>, hi: real, y1: nat, x1: nat)
    requires |show| == V8 * V8 && |h| == V9 * V9
  {
    hi >= -20000.0 && (hi == -20000.0 || exists y: nat, x: nat | ShownAt(show, y, x, y1, x1) :: h[Vert(y, x)] == hi)
  }

  ghost predicate Attained(show: seq<bool>, h: seq<real>, least: real, e: Extent, y1: nat, x1: nat)
    requires |show| == V8 * V8 && |h| == V9 * V9
  {
    Reached(show, e, y1, x1) && LowFrom(show, h, least, e.lo, y1, x1) && HighFrom(show, h, e.hi, y1, x1)
  }

  /** Every hidden cell scanned has its first corner lowered; every other vertex keeps its height. */
  ghost predicate Lowered(show: seq<bool>, was: seq<real>, h: seq<real>, least: real, y1: nat, x1: nat)
    requires |show| == V8 * V8 && |was| == V9 * V9
  {
    && |h| == |was|
    && forall y: nat, x: nat | y < V9 && x < V9 ::
         h[Vert(y, x)] == if y < V8 && x < V8 && Before(y, x, y1, x1) && !show[Cell(y, x)] then least
             else was[Vert(y, x)]
  }

  method ScanLiquid(show: seq<bool>, h: array<real>, least: real) returns (e: Extent)
    requires |show| == V8 * V8 && h.Length == V9 * V9
    modifies h
    ensures Scanned(show, h[..], least, e, V8, 0) && Lowered(show, old(h[..]), h[..], least, V8, 0)
    ensures OldOrLeast(old(h[..]), h[..], least) && LevelFrom(old(h[..]), least, e.lo)
    ensures Attained(show, h[..], least, e, V8, 0)
  {
    hide Scanned, Lowered, Attained;
    e := Extent(255, 255, 0, 0, 20000.0, -20000.0);
    ScanStarts(show, h[..], least, e);
    for y := 0 to V8
      invariant Scanned(show, h[..], least, e, y, 0) && Lowered(show, old(h[..]), h[..], least, y, 0)
      invariant OldOrLeast(old(h[..]), h[..], least) && LevelFrom(old(h[..]), least, e.lo)
      invariant Attained(show, h[..], least, e, y, 0)
    {
      for x := 0 to V8
        invariant Scanned(show, h[..], least, e, y, x) && Lowered(show, old(h[..]), h[..], least, y, x)
        invariant OldOrLeast(old(h[..]), h[..], least) && LevelFrom(old(h[..]), least, e.lo)
        invariant Attained(show, h[..], least, e, y, x)
      {
        ScanStep(show, old(h[..]), h[..], least, e, y, x);
        AttainStep(show, h[..], least, e, y, x);
        if show[Cell(y, x)] {
          e := Widened(e, y, x, h[Vert(y, x)]);
        } else {
          h[Vert(y, x)] := least;
          e := if e.lo > least then e.(lo := least) else e;
        }
      }
      RowEnds(show, old(h[..]), h[..], least, e, y);
      AttainRow(show, h[..], least, e, y);
    }
  }

  ghost predicate OldOrLeast(was: seq<real>, h: seq<real>, least: real) {
    |h| == |was| && forall i | 0 <= i < |h| :: h[i] == was[i] || h[i] == least
  }

  ghost predicate LevelFrom(was: seq<real>, least: real, level: real) {
    level == 20000.0 || level == least || level in was
  }

  lemma ScanStarts(show: seq<bool>, h: seq<real>, least: real, e: Extent)
    requires |show| == V8 * V8 && |h| == V9 * V9 && e == Extent(255, 255, 0, 0, 20000.0, -20000.0)
    ensures Scanned(show, h, least, e, 0, 0) && Lowered(show, h, h, least, 0, 0) && Attained(show, h, least, e, 0, 0)
  {
  }

  lemma AttainStep(show: seq<bool>, h: seq<real>, least: real, e: Extent, y: nat, x: nat)
    requires |show| == V8 * V8 && |h| == V9 * V9 && y < V8 && x < V8 && Attained(show, h, least, e, y, x)
    requires Scanned(show, h, least, e, y, x)
    ensures show[Cell(y, x)] ==> Attained(show, h, least, Widened(e, y, x, h[Vert(y, x)]), y, x + 1)
    ensures !show[Cell(y, x)] ==>
              Attained(show, h[Vert(y, x) := least], least, if e.lo > least then e.(lo := least) else e, y, x + 1)
  {
    hide Reached, LowFrom, HighFrom;
    if show[Cell(y, x)] {
      ReachStep(show, e, y, x, h[Vert(y, x)]);
      LevelsShown(show, h, least, e, y, x);
    } else {
      ReachHidden(show, e, y, x);
      LevelsHidden(show, h, least, e, y, x);
    }
  }

  lemma ReachStep(show: seq<bool>, e: Extent, y: nat, x: nat, v: real)
    requires |show| == V8 * V8 && y < V8 && x < V8 && Reached(show, e, y, x) && show[Cell(y, x)]
    requires (e.minX == 255 <==> e.minY == 255) && (e.minX != 255 ==> e.minX < V8 && e.minY < V8)
    ensures Reached(show, Widened(e, y, x, v), y, x + 1)
  {
    hide Cell;
    assert ShownAt(show, y, x, y, x + 1);
    assert forall a: nat, b: nat | ShownAt(show, a, b, y, x) :: ShownAt(show, a, b, y, x + 1);
  }

  lemma ReachHidden(show: seq<bool>, e: Extent, y: nat, x: nat)
    requires |show| == V8 * V8 && y < V8 && x < V8 && Reached(show, e, y, x)
    ensures Reached(show, e, y, x + 1) && forall lo :: Reached(show, e.(lo := lo), y, x + 1)
  {
    hide Cell;
    assert forall a: nat, b: nat | ShownAt(show, a, b, y, x) :: ShownAt(show, a, b, y, x + 1);
  }

  lemma LevelsShown(show: seq<bool>, h: seq<real>, least: real, e: Extent, y: nat, x: nat)
    requires |show| == V8 * V8 && |h| == V9 * V9 && y < V8 && x < V8 && show[Cell(y, x)]
    requires LowFrom(show, h, least, e.lo, y, x) && HighFrom(show, h, e.hi, y, x)
    ensures var w := Widened(e, y, x, h[Vert(y, x)]);
            LowFrom(show, h, least, w.lo, y, x + 1) && HighFrom(show, h, w.hi, y, x + 1)
  {
    hide Cell, Vert;
    assert ShownAt(show, y, x, y, x + 1);
    assert forall a: nat, b: nat | ShownAt(show, a, b, y, x) :: ShownAt(show, a, b, y, x + 1);
  }

  lemma LevelsHidden(show: seq<bool>, h: seq<real>, least: real, e: Extent, y: nat, x: nat)
    requires |show| == V8 * V8 && |h| == V9 * V9 && y < V8 && x < V8 && !show[Cell(y, x)]
    requires LowFrom(show, h, least, e.lo, y, x) && HighFrom(show, h, e.hi, y, x)
    ensures var h' := h[Vert(y, x) := least];
            && LowFrom(show, h', least, if e.lo > least then least else e.lo, y, x + 1)
            && HighFrom(show, h', e.hi, y, x + 1)
  {
    hide Cell, Vert;
    VertDiffers(y, x);
    var h' := h[Vert(y, x) := least];
    assert Before(y, x, y, x + 1);
    assert forall a: nat, b: nat | ShownAt(show, a, b, y, x) ::
             ShownAt(show, a, b, y, x + 1) && h'[Vert(a, b)] == h[Vert(a, b)];
    assert forall a: nat, b: nat | a < V8 && b < V8 && Before(a, b, y, x) :: Before(a, b, y, x + 1);
  }

  lemma AttainRow(show: seq<bool>, h: seq<real>, least: real, e: Extent, y: nat)
    requires |show| == V8 * V8 && |h| == V9 * V9 && y < V8 && Attained(show, h, least, e, y, V8)
    ensures Attained(show, h, least, e, y + 1, 0)
  {
    hide Cell, Vert;
    assert forall a: nat, b: nat | ShownAt(show, a, b, y, V8) :: ShownAt(show, a, b, y + 1, 0);
    assert forall a: nat, b: nat | a < V8 && b < V8 && Before(a, b, y, V8) :: Before(a, b, y + 1, 0);
  }

  lemma ScanStep(show: seq<bool>, was: seq<real>, h: seq<real>, least: real, e: Extent, y: nat, x: nat)
    requires |show| == V8 * V8 && |was| == |h| == V9 * V9 && y < V8 && x < V8
    requires Scanned(show, h, least, e, y, x) && Lowered(show, was, h, least, y, x)
    ensures show[Cell(y, x)] ==>
              Scanned(show, h, least, Widened(e, y, x, h[Vert(y, x)]), y, x + 1)
                  && Lowered(show, was, h, least, y, x + 1)
    ensures !show[Cell(y, x)] ==>
              && Scanned(show, h[Vert(y, x) := least], least, if e.lo > least then e.(lo := least) else e, y, x + 1)
              && Lowered(show, was, h[Vert(y, x) := least], least, y, x + 1)
  {
    hide Scanned, Lowered;
    if show[Cell(y, x)] {
      ScanShown(show, h, least, e, y, x);
      LowerShown(show, was, h, least, y, x);
    } else {
      ScanHidden(show, h, least, e, y, x);
      LowerHidden(show, was, h, least, y, x);
    }
  }

  lemma ScanShown(show: seq<bool>, h: seq<real>, least: real, e: Extent, y: nat, x: nat)
    requires |show| == V8 * V8 && |h| == V9 * V9 && y < V8 && x < V8 && Scanned(show, h, least, e, y, x)
    requires show[Cell(y, x)]
    ensures Scanned(show, h, least, Widened(e, y, x, h[Vert(y, x)]), y, x + 1)
  {
    hide Cell, Vert;
  }

  lemma ScanHidden(show: seq<bool>, h: seq<real>, least: real, e: Extent, y: nat, x: nat)
    requires |show| == V8 * V8 && |h| == V9 * V9 && y < V8 && x < V8 && Scanned(show, h, least, e, y, x)
    requires !show[Cell(y, x)]
    ensures Scanned(show, h[Vert(y, x) := least], least, if e.lo > least then e.(lo := least) else e, y, x + 1)
  {
    hide Cell, Vert;
    VertDiffers(y, x);
  }

  lemma LowerShown(show: seq<bool>, was: seq<real>, h: seq<real>, least: real, y: nat, x: nat)
    requires |show| == V8 * V8 && |was| == V9 * V9 && y < V8 && x < V8 && Lowered(show, was, h, least, y, x)
    requires show[Cell(y, x)]
    ensures Lowered(show, was, h, least, y, x + 1)
  {
    hide Cell, Vert;
  }

  lemma LowerHidden(show: seq<bool>, was: seq<real>, h: seq<real>, least: real, y: nat, x: nat)
    requires |show| == V8 * V8 && |was| == V9 * V9 && y < V8 && x < V8 && Lowered(show, was, h, least, y, x)
    requires !show[Cell(y, x)]
    ensures Lowered(show, was, h[Vert(y, x) := least], least, y, x + 1)
  {
    hide Cell, Vert;
    VertDiffers(y, x);
  }

  lemma VertDiffers(y: nat, x: nat)
    requires x < V9
    ensures forall y1: nat, x1: nat | x1 < V9 && Vert(y1, x1) == Vert(y, x) :: y1 == y && x1 == x
    ensures y < V9 ==> Vert(y, x) < V9 * V9
    ensures forall y1: nat, x1: nat | x1 < V9 && y1 < V9 :: Vert(y1, x1) < V9 * V9
  {
  }

  lemma RowEnds(show: seq<bool>, was: seq<real>, h: seq<real>, least: real, e: Extent, y: nat)
    requires |show| == V8 * V8 && |was| == |h| == V9 * V9 && y < V8
    requires Scanned(show, h, least, e, y, V8) && Lowered(show, was, h, least, y, V8)
    ensures Scanned(show, h, least, e, y + 1, 0) && Lowered(show, was, h, least, y + 1, 0)
  {
  }

  function Widened(e: Extent, y: nat, x: nat, v: real): Extent {
    Extent(if e.minX > x then x else e.minX, if e.minY > y then y else e.minY,
           if e.maxX < x then x else e.maxX, if e.maxY < y then y else e.maxY,
           if e.lo > v then v else e.lo, if e.hi < v then v else e.hi)
  }

  /** The rectangle lies on the grid. */
  ghost predicate Fits(liq: Liquid) {
    liq.width >= 2 && liq.height >= 2 && liq.offX + liq.width <= V9 && liq.offY + liq.height <= V9
  }

  predicate Inside(liq: Liquid, row: nat, col: nat) {
    liq.offY <= row < liq.offY + liq.height && liq.offX <= col < liq.offX + liq.width
  }

  /** All four corners of every shown cell are in the rectangle. */
  ghost predicate Covers(liq: Liquid, show: seq<bool>)
    requires |show| == V8 * V8
  {
    forall y: nat, x: nat | y < V8 && x < V8 && show[Cell(y, x)] ::
      Inside(liq, y, x) && Inside(liq, y, x + 1) && Inside(liq, y + 1, x) && Inside(liq, y + 1, x + 1)
  }

  /** The first `rows` rows of the rectangle, one after the other. */
  ghost predicate Written(liq: Liquid, payload: seq<real>, h: seq<real>, rows: nat)
    requires |h| == V9 * V9 && Fits(liq) && rows <= liq.height
  {
    && |payload| == Slot(liq.width, rows, 0)
    && forall r: nat, c: nat | r < rows && c < liq.width ::
         SlotBelow(liq.width, rows, r, c); payload[Slot(liq.width, r, c)] == h[Vert(liq.offY + r, liq.offX + c)]
  }

  lemma SlotBelow(width: nat, rows: nat, r: nat, c: nat)
    requires r < rows && c < width
    ensures Slot(width, r, c) < Slot(width, rows, 0)
  {
    assert (rows - r - 1) * width >= 0;
  }

  /** Cell (y, x) is shown. */
  ghost predicate Shown(show: seq<bool>, y: nat, x: nat)
    requires |show| == V8 * V8
  {
    y < V8 && x < V8 && show[Cell(y, x)]
  }

  ghost predicate ColumnShown(show: seq<bool>, x: nat)
    requires |show| == V8 * V8
  {
    exists y: nat :: Shown(show, y, x)
  }

  ghost predicate RowShown(show: seq<bool>, y: nat)
    requires |show| == V8 * V8
  {
    exists x: nat :: Shown(show, y, x)
  }

  /** The rectangle ends one vertex beyond shown cells on all sides; without any it is that of the first cell. */
  ghost predicate Snug(liq: Liquid, show: seq<bool>)
    requires |show| == V8 * V8 && Fits(liq)
  {
    if exists y: nat, x: nat :: Shown(show, y, x) then
      && ColumnShown(show, liq.offX) && ColumnShown(show, liq.offX + liq.width - 2)
      && RowShown(show, liq.offY) && RowShown(show, liq.offY + liq.height - 2)
    else liq.offX == 0 && liq.offY == 0 && liq.width == 2 && liq.height == 2
  }

  /** The least height of shown cells, hidden ones counting as `least`; 20000 bounds it. */
  ghost predicate Lowest(show: seq<bool>, h: seq<real>, least: real, lo: real)
    requires |show| == V8 * V8 && |h| == V9 * V9
  {
    && LowFrom(show, h, least, lo, V8, 0)
    && forall y: nat, x: nat | y < V8 && x < V8 :: lo <= if show[Cell(y, x)] then h[Vert(y, x)] else least
  }

  ghost predicate Highest(show: seq<bool>, h: seq<real>, hi: real)
    requires |show| == V8 * V8 && |h| == V9 * V9
  {
    HighFrom(show, h, hi, V8, 0) && forall y: nat, x: nat | Shown(show, y, x) :: h[Vert(y, x)] <= hi
  }

  method WriteLiquid(show: seq<bool>, h: array<real>, least: real, floatToInt: bool)
    returns (liq: Liquid, payload: seq<real>, ghost top: real)
    requires |show| == V8 * V8 && h.Length == V9 * V9
    modifies h
    ensures Lowered(show, old(h[..]), h[..], least, V8, 0) && Fits(liq) && Covers(liq, show)
    ensures !liq.flat ==> Written(liq, payload, h[..], liq.height)
    ensures liq.flat ==> forall y: nat, x: nat | y < V8 && x < V8 && show[Cell(y, x)] ::
              0.0 <= h[Vert(y, x)] - liq.level < 0.001
    ensures OldOrLeast(old(h[..]), h[..], least) && LevelFrom(old(h[..]), least, liq.level)
    ensures forall k | 0 <= k < |payload| :: payload[k] in h[..]
    ensures liq.flat ==> payload == []
    ensures Snug(liq, show) && Lowest(show, h[..], least, liq.level) && Highest(show, h[..], top)
    ensures liq.flat <==>
              -0.00000011920929 < top - liq.level < 0.00000011920929 || (floatToInt && top - liq.level < 0.001)
  {
    hide Lowered, Written, Slot, Scanned, Covers, OldOrLeast, LevelFrom, Attained, Snug, Lowest, Highest;
    var e := ScanLiquid(show, h, least);
    var flat := -EPSILON < e.hi - e.lo < EPSILON || (floatToInt && e.hi - e.lo < 0.001);
    ExtentCovers(show, h[..], least, e, flat);
    ExtentSnug(show, h[..], least, e, flat);
    top := e.hi;
    liq := Rectangle(e, flat);
    payload := [];
    ghost var heights := h[..];
    if !flat {
      WritesNone(liq, heights);
      for y := 0 to liq.height
        modifies {}
        invariant Written(liq, payload, heights, y) && forall k | 0 <= k < |payload| :: payload[k] in heights
      {
        var row := y + liq.offY;
        var start := Vert(row, liq.offX);
        WritesRow(liq, payload, heights, y);
        assert heights[start..start + liq.width] == h[start..start + liq.width];
        payload := payload + h[start..start + liq.width];
      }
      assert Written(liq, payload, heights, liq.height);
    }
    assert heights == h[..];
  }

  /** The rectangle around an extent: one vertex beyond the last cell, or a single cell when there is none. */
  function Rectangle(e: Extent, flat: bool): Liquid
    requires e.minX == 255 || e.minY == 255 || (e.minX <= e.maxX && e.minY <= e.maxY)
  {
    var d := if e.minX == 255 || e.minY == 255 then e.(minX := 0, minY := 0, maxX := 0, maxY := 0) else e;
    Liquid(d.minX, d.minY, d.maxX - d.minX + 2, d.maxY - d.minY + 2, d.lo, flat)
  }

  lemma ExtentCovers(show: seq<bool>, h: seq<real>, least: real, e: Extent, flat: bool)
    requires |show| == V8 * V8 && |h| == V9 * V9 && Scanned(show, h, least, e, V8, 0)
    ensures forall y: nat, x: nat | y < V8 && x < V8 && show[Cell(y, x)] :: e.lo <= h[Vert(y, x)] <= e.hi
    ensures e.minX == 255 || e.minY == 255 || (e.minX <= e.maxX && e.minY <= e.maxY)
    ensures Fits(Rectangle(e, flat)) && Covers(Rectangle(e, flat), show)
  {
    hide Cell, Vert;
  }

  lemma ExtentSnug(show: seq<bool>, h: seq<real>, least: real, e: Extent, flat: bool)
    requires |show| == V8 * V8 && |h| == V9 * V9 && Scanned(show, h, least, e, V8, 0)
    requires Attained(show, h, least, e, V8, 0)
    ensures e.minX == 255 || e.minY == 255 || (e.minX <= e.maxX && e.minY <= e.maxY)
    ensures Fits(Rectangle(e, flat)) && Snug(Rectangle(e, flat), show)
    ensures Lowest(show, h, least, e.lo) && Highest(show, h, e.hi)
  {
    hide Cell, Vert;
    assert forall y: nat, x: nat | ShownAt(show, y, x, V8, 0) :: Shown(show, y, x);
    assert forall y: nat, x: nat | Shown(show, y, x) :: Before(y, x, V8, 0);
    if e.minX != 255 {
      assert ColumnShown(show, e.minX) && ColumnShown(show, e.maxX) && RowShown(show, e.minY) && RowShown(show, e.maxY);
    }
  }

  lemma WritesNone(liq: Liquid, h: seq<real>)
    requires |h| == V9 * V9 && Fits(liq)
    ensures Written(liq, [], h, 0)
  {
    assert Slot(liq.width, 0, 0) == 0;
  }

  lemma WritesRow(liq: Liquid, payload: seq<real>, h: seq<real>, y: nat)
    requires |h| == V9 * V9 && Fits(liq) && y < liq.height && Written(liq, payload, h, y)
    ensures var start := Vert(y + liq.offY, liq.offX);
              start + liq.width <= |h| && Written(liq, payload + h[start..start + liq.width], h, y + 1)
  {
    var start := Vert(y + liq.offY, liq.offX);
    var payload' := payload + h[start..start + liq.width];
    assert Slot(liq.width, y + 1, 0) == Slot(liq.width, y, 0) + liq.width;
    forall r: nat, c: nat | r < y + 1 && c < liq.width
      ensures Slot(liq.width, r, c) < |payload'|
      ensures payload'[Slot(liq.width, r, c)] == h[Vert(liq.offY + r, liq.offX + c)]
    {
      if r < y { SlotBelow(liq.width, y, r, c); }
    }
  }

  // ---- Reading ----

  /** How many vertices of the rectangle come before a vertex, row by row. */
  function Index(liq: Liquid, row: nat, col: nat): nat {
    var c := if col < liq.offX then 0 else if col >= liq.offX + liq.width then liq.width else col - liq.offX;
    if row < liq.offY then 0
    else if row >= liq.offY + liq.height then Slot(liq.width, liq.height, 0)
    else Slot(liq.width, row - liq.offY, c)
  }

  lemma IndexZero(liq: Liquid)
    ensures Fits(liq) ==> Index(liq, 0, 0) == 0
  {
  }

  lemma IndexNext(liq: Liquid, row: nat, col: nat)
    requires Fits(liq) && col < V9
    ensures Index(liq, row, col + 1) == Index(liq, row, col) + if Inside(liq, row, col) then 1 else 0
    ensures Index(liq, row, V9) == Index(liq, row + 1, 0)
    ensures Inside(liq, row, col) ==> Index(liq, row, col) < Slot(liq.width, liq.height, 0)
  {
    if liq.offY <= row < liq.offY + liq.height {
      assert Slot(liq.width, row - liq.offY, liq.width) == Slot(liq.width, row + 1 - liq.offY, 0);
      if Inside(liq, row, col) { SlotBelow(liq.width, liq.height, row - liq.offY, col - liq.offX); }
    }
  }

  /** The reader's liquid heights; inside the rectangle they are the writer's, outside they are marked invalid. */
  method ReadLiquid(liq: Liquid, payload: seq<real>) returns (v: seq<real>)
    requires Fits(liq) && (!liq.flat ==> |payload| == Slot(liq.width, liq.height, 0))
    ensures |v| == V9 * V9
    ensures liq.flat ==> forall i | 0 <= i < |v| :: v[i] == liq.level
    ensures !liq.flat ==> forall h: seq<real> | |h| == V9 * V9 && Written(liq, payload, h, liq.height) ::
              forall row: nat, col: nat | row < V9 && col < V9 ::
                v[Vert(row, col)] == if Inside(liq, row, col) then h[Vert(row, col)] else NO_LIQUID
  {
    hide Index, Slot, Written;
    v := [];
    if liq.flat {
      v := seq(V9 * V9, _ => liq.level);
      return;
    }
    var j := 0;
    IndexZero(liq);
    for i := 0 to V9 * V9
      invariant |v| == i && j == Index(liq, i / V9, i % V9)
      invariant forall k: nat | k < i :: v[k] == ReadAt(liq, payload, k)
    {
      var row, col := i / V9, i % V9;
      IndexNext(liq, row, col);
      if row < liq.offY || row >= liq.offY + liq.height || col < liq.offX || col >= liq.offX + liq.width {
        v := v + [NO_LIQUID];
      } else {
        v := v + [payload[j]];
        j := j + 1;
      }
      NextVertex(i);
    }
    forall h: seq<real> | |h| == V9 * V9 && Written(liq, payload, h, liq.height)
      ensures forall row: nat, col: nat | row < V9 && col < V9 ::
                v[Vert(row, col)] == if Inside(liq, row, col) then h[Vert(row, col)] else NO_LIQUID
    {
      forall row: nat, col: nat | row < V9 && col < V9
        ensures v[Vert(row, col)] == if Inside(liq, row, col) then h[Vert(row, col)] else NO_LIQUID
      {
        ReadsBack(liq, payload, h, row, col);
      }
    }
  }

  function ReadAt(liq: Liquid, payload: seq<real>, k: nat): real {
    var row, col := k / V9, k % V9;
    if Inside(liq, row, col) && Index(liq, row, col) < |payload| then payload[Index(liq, row, col)] else NO_LIQUID
  }

  lemma NextVertex(i: nat)
    ensures if i % V9 == V9 - 1 then (i + 1) / V9 == i / V9 + 1 && (i + 1) % V9 == 0
            else (i + 1) / V9 == i / V9 && (i + 1) % V9 == i % V9 + 1
  {
  }

  lemma ReadsBack(liq: Liquid, payload: seq<real>, h: seq<real>, row: nat, col: nat)
    requires Fits(liq) && |h| == V9 * V9 && Written(liq, payload, h, liq.height) && row < V9 && col < V9
    ensures Vert(row, col) < V9 * V9
    ensures ReadAt(liq, payload, Vert(row, col)) == if Inside(liq, row, col) then h[Vert(row, col)] else NO_LIQUID
  {
    hide Slot;
    assert Vert(row, col) / V9 == row && Vert(row, col) % V9 == col;
    if Inside(liq, row, col) {
      var r, c := row - liq.offY, col - liq.offX;
      SlotBelow(liq.width, liq.height, r, c);
      assert payload[Slot(liq.width, r, c)] == h[Vert(liq.offY + r, liq.offX + c)];
    }
  }
}

/** From heights and liquid in memory to the bytes of a `.map` file and back to what the reader works with. */
module MapRoundTrip {
  import opened Basics
  import opened MapCodec
  import opened MapFile

  /** 32-bit floats: which reals they hold, their bits, and the value of bits. */
  datatype FloatCodec = FloatCodec(holds: real -> bool, bits: real -> word, value: word -> real)

  ghost predicate CodecOk(fc: FloatCodec) { forall x | fc.holds(x) :: fc.value(fc.bits(x)) == x }

  ghost predicate AllHeld(fc: FloatCodec, vs: seq<real>) { forall i | 0 <= i < |vs| :: fc.holds(vs[i]) }

  function ToBits(fc: FloatCodec, vs: seq<real>): (r: seq<word>)
    ensures |r| == |vs| && forall i | 0 <= i < |vs| :: r[i] == fc.bits(vs[i])
  {
    seq(|vs|, i requires 0 <= i < |vs| => fc.bits(vs[i]))
  }

  function ToValues(fc: FloatCodec, ws: seq<word>): (r: seq<real>)
    ensures |r| == |ws| && forall i | 0 <= i < |ws| :: r[i] == fc.value(ws[i])
  {
    seq(|ws|, i requires 0 <= i < |ws| => fc.value(ws[i]))
  }

  lemma FloatsRoundTrip(fc: FloatCodec, vs: seq<real>)
    requires CodecOk(fc) && AllHeld(fc, vs)
    ensures ToValues(fc, ToBits(fc, vs)) == vs
  {
    var r := ToValues(fc, ToBits(fc, vs));
    forall i | 0 <= i < |vs| ensures r[i] == vs[i] {
      assert fc.holds(vs[i]);
    }
  }

  // ---- Heights ----

  function Bytes(ns: seq<nat>): seq<byte>
    requires forall i | 0 <= i < |ns| :: ns[i] < 256
  {
    ns
  }

  function HalvesOf(ns: seq<nat>): seq<half>
    requires forall i | 0 <= i < |ns| :: ns[i] < 0x1_0000
  {
    ns
  }

  ghost predicate Storable(h: Heights) {
    Sized(h, V9_SQ + V8_SQ) && (h.format.Packed? ==> h.format.top == 255 || h.format.top == 65535)
  }

  function HeightSectionOf(fc: FloatCodec, h: Heights): HeightSection
    requires Storable(h)
  {
    HeightSection(fc.bits(h.lo), fc.bits(h.hi),
                  match h.format
                  case Flat => Nothing
                  case Packed(top) => if top == 255 then Int8(Bytes(h.ints)) else Int16(HalvesOf(h.ints))
                  case Floats => Float32(ToBits(fc, h.reals)))
  }

  function HeightsOf(fc: FloatCodec, s: HeightSection): Heights {
    var lo, hi := fc.value(s.lo), fc.value(s.hi);
    match s.data
    case Nothing => Heights(lo, hi, Flat, [], [])
    case Int8(bytes) => Heights(lo, hi, Packed(255), bytes, [])
    case Int16(halves) => Heights(lo, hi, Packed(65535), halves, [])
    case Float32(words) => Heights(lo, hi, Floats, [], ToValues(fc, words))
  }

  lemma SectionRoundTrip(fc: FloatCodec, h: Heights, vs: seq<real>)
    requires CodecOk(fc) && Storable(h) && Canonical(h, vs) && fc.holds(h.lo) && fc.holds(h.hi) && AllHeld(fc, h.reals)
    ensures HeightOk(HeightSectionOf(fc, h)) && HeightsOf(fc, HeightSectionOf(fc, h)) == h
  {
    FloatsRoundTrip(fc, h.reals);
  }

  // ---- Liquid ----

  function LiquidSectionOf(fc: FloatCodec, liq: Liquid, payload: seq<real>, flags: byte, kind: half,
                           cells: Option<CellTypes>): LiquidSection
    requires liq.offX < 256 && liq.offY < 256 && liq.width < 256 && liq.height < 256
  {
    LiquidSection(flags, kind, liq.offX, liq.offY, liq.width, liq.height, fc.bits(liq.level), cells,
                  if liq.flat then None else Some(ToBits(fc, payload)))
  }

  function LiquidOf(fc: FloatCodec, l: LiquidRead): (Liquid, seq<real>) {
    (Liquid(l.offX, l.offY, l.width, l.height, fc.value(l.level), l.heights.None?),
     if l.heights.None? then [] else ToValues(fc, l.heights.value))
  }

  lemma LiquidRoundTrip(fc: FloatCodec, liq: Liquid, payload: seq<real>, flags: byte, kind: half,
                        cells: Option<CellTypes>)
    requires CodecOk(fc) && Fits(liq) && fc.holds(liq.level) && AllHeld(fc, payload)
    requires if liq.flat then payload == [] else |payload| == Slot(liq.width, liq.height, 0)
    requires cells.Some? ==> |cells.value.entries| == CELLS && |cells.value.flags| == CELLS
    ensures var s := LiquidSectionOf(fc, liq, payload, flags, kind, cells);
            LiquidOk(s) && LiquidOf(fc, Spread(s)) == (liq, payload)
  {
    FloatsRoundTrip(fc, payload);
    SlotIsProduct(liq.width, liq.height);
  }

  lemma SlotIsProduct(a: nat, b: nat)
    ensures Slot(a, b, 0) == a * b
  {
  }

  /** Cell types of the whole grid, and the one that stands for all when they agree. */
  method BuildCells(entries: seq<half>, flags: seq<byte>) returns (present: bool, kind: half, flag: byte,
                                                                   cells: Option<CellTypes>)
    requires |entries| == CELLS && |flags| == CELLS
    ensures present <==> exists i :: 0 <= i < CELLS && (flags[i] != 0 || entries[i] != entries[0])
    ensures cells.Some? ==> cells.value == CellTypes(entries, flags)
    ensures present && cells.None? ==> forall i | 0 <= i < CELLS :: entries[i] == kind && flags[i] == flag
  {
    var fullType := false;
    var i := 0;
    while i < CELLS && !fullType
      invariant 0 <= i <= CELLS
      invariant !fullType ==> forall k | 0 <= k < i :: entries[k] == entries[0] && flags[k] == flags[0]
      invariant fullType ==> exists k :: 0 <= k < CELLS && (entries[k] != entries[0] || flags[k] != flags[0])
      decreases CELLS - i, if fullType then 0 else 1
    {
      if entries[i] != entries[0] || flags[i] != flags[0] { fullType := true; } else { i := i + 1; }
    }
    present := flags[0] != 0 || fullType;
    kind, flag := if fullType then 0 else entries[0], if fullType then 0 else flags[0];
    cells := if fullType then Some(CellTypes(entries, flags)) else None;
    if present && !fullType { assert flags[0] != 0; }
    if fullType {
      var k :| 0 <= k < CELLS && (entries[k] != entries[0] || flags[k] != flags[0]);
      assert flags[k] != 0 || entries[k] != entries[0] || flags[0] != 0;
    }
  }

  // ---- Areas ----

  const NO_AREA: half := 1

  /** The area of a cell as the header and the payload give it. */
  function AreaAt(a: Area, i: nat): half
    requires a.flags == NO_AREA || i < |a.payload|
  {
    if a.flags == NO_AREA then a.gridArea else a.payload[i]
  }

  method BuildArea(areas: seq<half>) returns (a: Area)
    ensures a.flags == NO_AREA || |a.payload| == |areas|
    ensures forall i | 0 <= i < |areas| :: AreaAt(a, i) == areas[i]
    ensures a.flags == NO_AREA ==> a.payload == []
  {
    var first: half := if |areas| > 0 then areas[0] else 0xffff;
    for i := 0 to |areas|
      invariant forall k | 0 <= k < i :: areas[k] == first
    {
      if areas[i] != first {
        a := Area(0, 0, areas);
        return;
      }
    }
    a := Area(NO_AREA, first, []);
  }

  // ---- From grids to a file and back ----

  /** The grids of one map tile as the extractor has them. */
  datatype Tile = Tile(show: seq<bool>, entries: seq<half>, flags: seq<byte>, areas: seq<half>, holes: seq<half>)

  ghost predicate TileOk(t: Tile) {
    |t.show| == V8 * V8 && |t.entries| == |t.flags| == |t.areas| == |t.holes| == CELLS
  }

  /** Some cell has liquid: a flag, or types that differ. */
  ghost predicate HasLiquid(t: Tile)
    requires TileOk(t)
  {
    exists i :: 0 <= i < CELLS && (t.flags[i] != 0 || t.entries[i] != t.entries[0])
  }

  /** Every number that can reach the file is a 32-bit float. */
  ghost predicate Inputs(fc: FloatCodec, config: Config, v8: seq<real>, v9: seq<real>, surface: seq<real>) {
    && CodecOk(fc) && fc.holds(20000.0) && fc.holds(-20000.0) && fc.holds(config.leastHeight)
    && AllHeld(fc, v8) && AllHeld(fc, v9) && AllHeld(fc, surface)
  }

  datatype Stored = Stored(h: Heights, liquid: Option<(Liquid, seq<real>)>)

  /** The contents the extractor builds for its grids; `l` gives the liquid types as the file states them. */
  ghost predicate Describes(fc: FloatCodec, t: Tile, s: Stored, m: MapContents)
    requires TileOk(t)
  {
    && ContentsOk(m) && Storable(s.h) && m.height == HeightSectionOf(fc, s.h) && m.holes == t.holes
    && HeightsOf(fc, m.height) == s.h
    && (m.liquid.Some? <==> HasLiquid(t)) && (m.liquid.Some? <==> s.liquid.Some?)
    && (m.liquid.Some? ==>
          && LiquidOf(fc, Spread(m.liquid.value)) == s.liquid.value
          && Spread(m.liquid.value).entries == t.entries && Spread(m.liquid.value).flags == t.flags)
    && (m.area.flags == NO_AREA || |m.area.payload| == CELLS)
    && forall i | 0 <= i < CELLS :: AreaAt(m.area, i) == t.areas[i]
  }

  /**
   Rectangle, level and flatness of the liquid: the smallest rectangle, the least height, and flat exactly if heights
   hardly differ.
   */
  ghost predicate LiquidChosen(show: seq<bool>, surface: seq<real>, config: Config, liq: Liquid)
    requires |show| == V8 * V8 && |surface| == V9 * V9 && Fits(liq)
  {
    && Snug(liq, show) && Lowest(show, surface, config.leastHeight, liq.level)
    && exists top: real :: Highest(show, surface, top) && (liq.flat <==> HardlyAbove(top, liq.level, config.floatToInt))
  }

  predicate HardlyAbove(top: real, level: real, floatToInt: bool) {
    -0.00000011920929 < top - level < 0.00000011920929 || (floatToInt && top - level < 0.001)
  }

  /** What the extractor leaves in its grids, and how the stored numbers relate to them. */
  ghost predicate Kept(t: Tile, s: Stored, vs: seq<real>, was: seq<real>, surface: seq<real>, config: Config)
    requires TileOk(t)
  {
    && Holds(s.h, vs)
    && (s.liquid.Some? ==>
          var (liq, payload) := s.liquid.value;
          && |was| == V9 * V9 && Lowered(t.show, was, surface, config.leastHeight, V8, 0) && Fits(liq)
          && Covers(liq, t.show) && LiquidChosen(t.show, surface, config, liq)
          && (!liq.flat ==> Written(liq, payload, surface, liq.height))
          && (liq.flat ==> payload == [] && FlatAt(t.show, surface, liq.level)))
  }

  /** The first corner of every shown cell is at the level. */
  ghost predicate FlatAt(show: seq<bool>, surface: seq<real>, level: real)
    requires |show| == V8 * V8 && |surface| == V9 * V9
  {
    forall y: nat, x: nat | y < V8 && x < V8 && show[Cell(y, x)] :: 0.0 <= surface[Vert(y, x)] - level < 0.001
  }

  method BuildLiquid(fc: FloatCodec, t: Tile, surface: array<real>, config: Config)
    returns (l: Option<LiquidSection>, liquid: Option<(Liquid, seq<real>)>)
    requires TileOk(t) && surface.Length == V9 * V9 && CodecOk(fc)
    requires AllHeld(fc, surface[..]) && fc.holds(20000.0) && fc.holds(config.leastHeight)
    modifies surface
    ensures (l.Some? <==> HasLiquid(t)) && (l.Some? <==> liquid.Some?)
    ensures l.Some? ==>
              && LiquidOk(l.value) && LiquidOf(fc, Spread(l.value)) == liquid.value
              && Spread(l.value).entries == t.entries && Spread(l.value).flags == t.flags
    ensures liquid.Some? ==>
              var (liq, payload) := liquid.value;
              && Lowered(t.show, old(surface[..]), surface[..], config.leastHeight, V8, 0) && Fits(liq)
              && Covers(liq, t.show) && LiquidChosen(t.show, surface[..], config, liq)
              && (!liq.flat ==> Written(liq, payload, surface[..], liq.height))
              && (liq.flat ==> payload == [] && FlatAt(t.show, surface[..], liq.level))
  {
    hide Lowered, Written, Slot, Scanned, Covers, LiquidOf, LiquidOk, Snug, Lowest, Highest;
    l, liquid := None, None;
    var present, kind, flag, cells := BuildCells(t.entries, t.flags);
    if !present { return; }
    var liq, payload, top := WriteLiquid(t.show, surface, config.leastHeight, config.floatToInt);
    assert Highest(t.show, surface[..], top) && (liq.flat <==> HardlyAbove(top, liq.level, config.floatToInt));
    LiquidHeld(fc, old(surface[..]), surface[..], config.leastHeight, payload, liq);
    WrittenSize(liq, payload, surface[..]);
    LiquidRoundTrip(fc, liq, payload, flag, kind, cells);
    l := Some(LiquidSectionOf(fc, liq, payload, flag, kind, cells));
    liquid := Some((liq, payload));
    assert Spread(l.value).entries == t.entries && Spread(l.value).flags == t.flags;
  }

  lemma WrittenSize(liq: Liquid, payload: seq<real>, surface: seq<real>)
    requires |surface| == V9 * V9 && Fits(liq)
    ensures Written(liq, payload, surface, liq.height) ==> |payload| == Slot(liq.width, liq.height, 0)
  {
  }

  lemma LiquidHeld(fc: FloatCodec, was: seq<real>, surface: seq<real>, least: real, payload: seq<real>, liq: Liquid)
    requires AllHeld(fc, was) && fc.holds(least) && fc.holds(20000.0)
    requires OldOrLeast(was, surface, least) && LevelFrom(was, least, liq.level)
    requires forall k | 0 <= k < |payload| :: payload[k] in surface
    ensures fc.holds(liq.level) && AllHeld(fc, payload)
  {
  }

  /** The extractor: area, heights, liquid and holes into the bytes of one file. */
  method ExtractTile(fc: FloatCodec, t: Tile, v8: array<real>, v9: array<real>, surface: array<real>, config: Config)
    returns (file: seq<byte>, ghost m: MapContents, ghost s: Stored)
    requires TileOk(t) && v8.Length == V8 * V8 && v9.Length == surface.Length == V9 * V9
    requires v8 != v9 && surface != v8 && surface != v9 && Inputs(fc, config, v8[..], v9[..], surface[..])
    modifies v8, v9, surface
    ensures Describes(fc, t, s, m) && file == MapBytes(m)
    ensures Kept(t, s, v9[..] + v8[..], old(surface[..]), surface[..], config)
    ensures s.h.format == ChooseFormat(s.h.lo, s.h.hi, config) && Spans(v9[..] + v8[..], s.h.lo, s.h.hi, config)
    ensures forall i | 0 <= i < V8 * V8 ::
              v8[i] == if config.limitHeight && old(v8[i]) < config.leastHeight then config.leastHeight else old(v8[i])
    ensures forall i | 0 <= i < V9 * V9 ::
              v9[i] == if config.limitHeight && old(v9[i]) < config.leastHeight then config.leastHeight else old(v9[i])
  {
    hide Lowered, Written, Covers, FlatAt, Holds, Canonical, LiquidOf, LiquidOk, HeightOk, HeightsOf, HeightSectionOf;
    hide Spread, MapBytes;
    hide Tolerance, HasLiquid, LiquidChosen, Spans;
    var area := BuildArea(t.areas);
    var h := WriteHeights(v8, v9, config);
    HeightsHeld(fc, config, old(v8[..]), old(v9[..]), v8[..], v9[..], h);
    var liquid, stored := BuildLiquid(fc, t, surface, config);
    var contents := MapContents(area, HeightSectionOf(fc, h), liquid, t.holes);
    file := WriteMap(contents);
    m, s := contents, Stored(h, stored);
  }

  lemma HeightsHeld(fc: FloatCodec, config: Config, was8: seq<real>, was9: seq<real>, v8: seq<real>, v9: seq<real>,
                    h: Heights)
    requires CodecOk(fc) && fc.holds(20000.0) && fc.holds(-20000.0) && fc.holds(config.leastHeight)
    requires AllHeld(fc, was8) && AllHeld(fc, was9) && |was8| == |v8| == V8 * V8 && |was9| == |v9| == V9 * V9
    requires forall i | 0 <= i < |v8| :: v8[i] == was8[i] || v8[i] == config.leastHeight
    requires forall i | 0 <= i < |v9| :: v9[i] == was9[i] || v9[i] == config.leastHeight
    requires Holds(h, v9 + v8) && Canonical(h, v9 + v8)
    requires h.lo == 20000.0 || h.lo == config.leastHeight || h.lo in was8 + was9
    requires h.hi == -20000.0 || h.hi == config.leastHeight || h.hi in was8 + was9
    ensures Storable(h) && HeightOk(HeightSectionOf(fc, h)) && HeightsOf(fc, HeightSectionOf(fc, h)) == h
  {
    hide HeightOk, HeightSectionOf, HeightsOf, Tolerance, HeightAt;
    forall x | x in was8 + was9 ensures fc.holds(x) { AnyHeld(fc, was8, was9, x); }
    forall i | 0 <= i < |v9 + v8| ensures fc.holds((v9 + v8)[i]) {
      if i < |v9| { assert (v9 + v8)[i] == v9[i]; } else { assert (v9 + v8)[i] == v8[i - |v9|]; }
    }
    assert h.format.Floats? || h.reals == [];
    assert AllHeld(fc, h.reals);
    SectionRoundTrip(fc, h, v9 + v8);
  }

  lemma AnyHeld(fc: FloatCodec, a: seq<real>, b: seq<real>, x: real)
    requires AllHeld(fc, a) && AllHeld(fc, b) && x in a + b
    ensures fc.holds(x)
  {
  }

  /** What the mesh generator has of a tile: two height grids, holes, and liquid types and heights. */
  datatype Loaded = Loaded(terrain: bool, v9: seq<real>, v8: seq<real>, holes: seq<half>, liquid: Option<LoadedLiquid>)

  datatype LoadedLiquid = LoadedLiquid(entries: seq<half>, flags: seq<byte>, heights: seq<real>)

  /** The generator: read the sections, unpack the heights, spread the liquid rectangle. */
  method LoadTile(fc: FloatCodec, file: seq<byte>, skipLiquid: bool, ghost t: Tile, ghost s: Stored,
                  ghost m: MapContents)
    returns (r: Option<Loaded>)
    requires TileOk(t) && Describes(fc, t, s, m) && file == MapBytes(m)
    requires s.liquid.Some? ==> var (liq, payload) := s.liquid.value;
               Fits(liq) && (!liq.flat ==> |payload| == Slot(liq.width, liq.height, 0))
    ensures r.None? <==> s.h.format.Flat? && (skipLiquid || !HasLiquid(t))
    ensures r.Some? ==> TerrainBack(t, s, r.value)
    ensures r.Some? ==> (r.value.liquid.Some? <==> HasLiquid(t) && !skipLiquid)
    ensures r.Some? && r.value.liquid.Some? ==> LiquidBack(t, s, r.value.liquid.value)
  {
    hide Slot, MapBytes, HeightSectionOf, HeightOk, LiquidOk, HasLiquid;
    r := None;
    var read := ReadMap(file, skipLiquid);
    assert read == Expected(m, skipLiquid);
    NothingIsFlat(fc, s.h);
    if read.Some? {
      var h := HeightsOf(fc, read.value.height);
      assert h == s.h;
      var terrain, v9, v8 := ReadHeights(h);
      var liquid: Option<LoadedLiquid> := None;
      if read.value.liquid.Some? {
        var l := read.value.liquid.value;
        var (liq, payload) := LiquidOf(fc, l);
        var heights := MapCodec.ReadLiquid(liq, payload);
        liquid := Some(LoadedLiquid(l.entries, l.flags, heights));
      }
      r := Some(Loaded(terrain, v9, v8, read.value.holes, liquid));
    }
  }

  lemma NothingIsFlat(fc: FloatCodec, h: Heights)
    requires Storable(h)
    ensures HeightSectionOf(fc, h).data.Nothing? <==> h.format.Flat?
  {
  }

  /** Both grids are back within the tolerance of their form, and the holes with them. */
  ghost predicate TerrainBack(t: Tile, s: Stored, r: Loaded)
    requires TileOk(t) && Storable(s.h)
  {
    && (r.terrain <==> !s.h.format.Flat?)
    && (r.terrain ==>
          && |r.v9| == V9 * V9 && |r.v8| == V8 * V8 && r.holes == t.holes
          && forall vs | Holds(s.h, vs) && |vs| == V9 * V9 + V8 * V8 ::
               && (forall i | 0 <= i < V9 * V9 :: -Tolerance(s.h) <= r.v9[i] - vs[i] <= Tolerance(s.h))
               && (forall i | 0 <= i < V8 * V8 :: -Tolerance(s.h) <= r.v8[i] - vs[V9 * V9 + i] <= Tolerance(s.h)))
  }

  /** Types and flags are back, and the heights inside the rectangle. */
  ghost predicate LiquidBack(t: Tile, s: Stored, l: LoadedLiquid)
    requires TileOk(t) && s.liquid.Some? && Fits(s.liquid.value.0)
  {
    var (liq, payload) := s.liquid.value;
    && l.entries == t.entries && l.flags == t.flags && |l.heights| == V9 * V9
    && (liq.flat ==> forall i | 0 <= i < V9 * V9 :: l.heights[i] == liq.level)
    && (!liq.flat ==> forall h: seq<real> | |h| == V9 * V9 && Written(liq, payload, h, liq.height) ::
          forall row: nat, col: nat | row < V9 && col < V9 ::
            l.heights[Vert(row, col)] == if Inside(liq, row, col) then h[Vert(row, col)] else NO_LIQUID)
  }

  /**
   A shown cell has its liquid height back: all corners exactly, or the first one nearly when the rectangle is flat.
   */
  ghost predicate CellBack(liq: Liquid, surface: seq<real>, heights: seq<real>, y: nat, x: nat)
    requires |surface| == |heights| == V9 * V9 && y < V8 && x < V8
  {
    if liq.flat then 0.0 <= surface[Vert(y, x)] - heights[Vert(y, x)] < 0.001
    else
      && heights[Vert(y, x)] == surface[Vert(y, x)] && heights[Vert(y, x + 1)] == surface[Vert(y, x + 1)]
      && heights[Vert(y + 1, x)] == surface[Vert(y + 1, x)]
      && heights[Vert(y + 1, x + 1)] == surface[Vert(y + 1, x + 1)]
  }

  /** Every vertex: the level if the rectangle is flat, else its height inside and the invalid mark outside. */
  ghost predicate AllBack(liq: Liquid, surface: seq<real>, heights: seq<real>)
    requires |surface| == |heights| == V9 * V9
  {
    forall row: nat, col: nat | row < V9 && col < V9 ::
      heights[Vert(row, col)] ==
        if liq.flat then liq.level else if Inside(liq, row, col) then surface[Vert(row, col)] else -500.0
  }

  /** A tile written to a file and loaded from its bytes. */
  method ExtractThenLoad(fc: FloatCodec, t: Tile, v8: array<real>, v9: array<real>, surface: array<real>,
                         config: Config, skipLiquid: bool)
    returns (r: Option<Loaded>, ghost s: Stored)
    requires TileOk(t) && v8.Length == V8 * V8 && v9.Length == surface.Length == V9 * V9
    requires v8 != v9 && surface != v8 && surface != v9 && Inputs(fc, config, v8[..], v9[..], surface[..])
    modifies v8, v9, surface
    ensures forall i | 0 <= i < V8 * V8 ::
              v8[i] == if config.limitHeight && old(v8[i]) < config.leastHeight then config.leastHeight else old(v8[i])
    ensures forall i | 0 <= i < V9 * V9 ::
              v9[i] == if config.limitHeight && old(v9[i]) < config.leastHeight then config.leastHeight else old(v9[i])
    ensures Sized(s.h, V9 * V9 + V8 * V8) && s.h.format == ChooseFormat(s.h.lo, s.h.hi, config)
    ensures Spans(v9[..] + v8[..], s.h.lo, s.h.hi, config)
    ensures r.None? <==> s.h.format.Flat? && (skipLiquid || !HasLiquid(t))
    ensures r.Some? ==> (r.value.terrain <==> !s.h.format.Flat?)
    ensures r.Some? && r.value.terrain ==>
              && |r.value.v9| == V9 * V9 && |r.value.v8| == V8 * V8 && r.value.holes == t.holes
              && (forall i | 0 <= i < V9 * V9 :: -Tolerance(s.h) <= r.value.v9[i] - v9[i] <= Tolerance(s.h))
              && (forall i | 0 <= i < V8 * V8 :: -Tolerance(s.h) <= r.value.v8[i] - v8[i] <= Tolerance(s.h))
    ensures r.Some? && r.value.terrain && !config.floatToInt ==> r.value.v9 == v9[..] && r.value.v8 == v8[..]
    ensures r.Some? ==> (r.value.liquid.Some? <==> HasLiquid(t) && !skipLiquid)
    ensures r.Some? && r.value.liquid.Some? ==>
              var l := r.value.liquid.value;
              && l.entries == t.entries && l.flags == t.flags && |l.heights| == V9 * V9 && s.liquid.Some?
              && Lowered(t.show, old(surface[..]), surface[..], config.leastHeight, V8, 0)
              && Fits(s.liquid.value.0) && LiquidChosen(t.show, surface[..], config, s.liquid.value.0)
              && AllBack(s.liquid.value.0, surface[..], l.heights)
              && forall y: nat, x: nat | y < V8 && x < V8 && t.show[Cell(y, x)] ::
                   CellBack(s.liquid.value.0, surface[..], l.heights, y, x)
  {
    hide MapBytes, HeightSectionOf, HeightOk, LiquidOk, HasLiquid, Lowered, Written, Covers, Tolerance, CellBack;
    hide Holds, HeightsOf;
    hide TerrainBack, LiquidBack, Inputs, Slot, LiquidOf, Spread, FlatAt, Fits, LiquidChosen, AllBack, Spans;
    var file; ghost var m;
    file, m, s := ExtractTile(fc, t, v8, v9, surface, config);
    if s.liquid.Some? { WrittenSize(s.liquid.value.0, s.liquid.value.1, surface[..]); }
    r := LoadTile(fc, file, skipLiquid, t, s, m);
    HoldsSized(s.h, v9[..] + v8[..]);
    if r.Some? {
      TerrainNear(t, s, r.value, v9[..], v8[..]);
      if r.value.terrain && !config.floatToInt { FloatsExact(s.h, config, r.value, v9[..], v8[..]); }
      if r.value.liquid.Some? {
        CellsBack(t, s, r.value.liquid.value, surface[..]);
      }
    }
  }

  /** Plain numbers come back as they were. */
  lemma FloatsExact(h: Heights, config: Config, r: Loaded, v9: seq<real>, v8: seq<real>)
    requires !config.floatToInt && h.format == ChooseFormat(h.lo, h.hi, config) && !h.format.Flat?
    requires |r.v9| == |v9| && |r.v8| == |v8|
    requires forall i | 0 <= i < |v9| :: -Tolerance(h) <= r.v9[i] - v9[i] <= Tolerance(h)
    requires forall i | 0 <= i < |v8| :: -Tolerance(h) <= r.v8[i] - v8[i] <= Tolerance(h)
    ensures r.v9 == v9 && r.v8 == v8
  {
    assert Tolerance(h) == 0.0;
  }

  lemma HoldsSized(h: Heights, vs: seq<real>)
    requires Holds(h, vs)
    ensures Sized(h, |vs|)
  {
  }

  lemma TerrainNear(t: Tile, s: Stored, r: Loaded, v9: seq<real>, v8: seq<real>)
    requires TileOk(t) && Storable(s.h) && TerrainBack(t, s, r) && Holds(s.h, v9 + v8) && |v9| == V9 * V9
    requires |v8| == V8 * V8
    ensures r.terrain <==> !s.h.format.Flat?
    ensures r.terrain ==>
              && |r.v9| == V9 * V9 && |r.v8| == V8 * V8 && r.holes == t.holes
              && (forall i | 0 <= i < V9 * V9 :: -Tolerance(s.h) <= r.v9[i] - v9[i] <= Tolerance(s.h))
              && (forall i | 0 <= i < V8 * V8 :: -Tolerance(s.h) <= r.v8[i] - v8[i] <= Tolerance(s.h))
  {
    hide Holds, Tolerance;
    if r.terrain {
      var vs := v9 + v8;
      assert Holds(s.h, vs) && |vs| == V9 * V9 + V8 * V8;
      forall i | 0 <= i < V8 * V8 ensures -Tolerance(s.h) <= r.v8[i] - v8[i] <= Tolerance(s.h) {
        assert vs[V9 * V9 + i] == v8[i];
      }
    }
  }

  lemma CellsBack(t: Tile, s: Stored, l: LoadedLiquid, surface: seq<real>)
    requires TileOk(t) && s.liquid.Some? && Fits(s.liquid.value.0) && LiquidBack(t, s, l) && |surface| == V9 * V9
    requires Covers(s.liquid.value.0, t.show)
    requires var (liq, payload) := s.liquid.value;
             if liq.flat then FlatAt(t.show, surface, liq.level) else Written(liq, payload, surface, liq.height)
    ensures l.entries == t.entries && l.flags == t.flags && |l.heights| == V9 * V9
    ensures AllBack(s.liquid.value.0, surface, l.heights)
    ensures forall y: nat, x: nat | y < V8 && x < V8 && t.show[Cell(y, x)] ::
              CellBack(s.liquid.value.0, surface, l.heights, y, x)
  {
    hide Written, Inside, Fits;
    var (liq, payload) := s.liquid.value;
    forall y: nat, x: nat | y < V8 && x < V8 && t.show[Cell(y, x)] ensures CellBack(liq, surface, l.heights, y, x) {
      CellCorners(liq, t.show, y, x);
    }
  }

  lemma CellCorners(liq: Liquid, show: seq<bool>, y: nat, x: nat)
    requires |show| == V8 * V8 && Covers(liq, show) && y < V8 && x < V8 && show[Cell(y, x)]
    ensures Inside(liq, y, x) && Inside(liq, y, x + 1) && Inside(liq, y + 1, x) && Inside(liq, y + 1, x + 1)
  {
  }
}

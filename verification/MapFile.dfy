/**
 The bytes of a `.map` file: sections one after the other behind a header of offsets, and the reader that seeks to them.
 Floating-point numbers are their 32-bit patterns here.
 */
module MapFile {
  import opened Basics

  type half = n: nat | n < 0x1_0000

  type word = n: nat | n < 0x1_0000_0000

  // ---- Little-endian numbers ----

  function U16(n: half): (r: seq<byte>)
    ensures |r| == 2
  {
    [n % 256, n / 256]
  }

  function U32(n: word): (r: seq<byte>)
    ensures |r| == 4
  {
    [n % 256, n / 256 % 256, n / 0x1_0000 % 256, n / 0x100_0000]
  }

  /** Reads past the end give 0. */
  function GetU8(f: seq<byte>, p: nat): byte { if p < |f| then f[p] else 0 }

  function GetU16(f: seq<byte>, p: nat): half {
    if p + 2 > |f| then 0
    else
      var b0: nat, b1: nat := f[p], f[p + 1];
      b0 + 256 * b1
  }

  function GetU32(f: seq<byte>, p: nat): word {
    if p + 4 > |f| then 0
    else
      var b0: nat, b1: nat, b2: nat, b3: nat := f[p], f[p + 1], f[p + 2], f[p + 3];
      b0 + 256 * b1 + 0x1_0000 * b2 + 0x100_0000 * b3
  }

  function Halves(hs: seq<half>): (r: seq<byte>)
    ensures |r| == 2 * |hs|
  {
    if hs == [] then [] else Halves(hs[..|hs| - 1]) + U16(hs[|hs| - 1])
  }

  function Words(ws: seq<word>): (r: seq<byte>)
    ensures |r| == 4 * |ws|
  {
    if ws == [] then [] else Words(ws[..|ws| - 1]) + U32(ws[|ws| - 1])
  }

  /** Reading inside a part of a file is reading the part. */
  lemma Within(pre: seq<byte>, mid: seq<byte>, post: seq<byte>, k: nat)
    ensures k < |mid| ==> GetU8(pre + mid + post, |pre| + k) == GetU8(mid, k)
    ensures k + 2 <= |mid| ==> GetU16(pre + mid + post, |pre| + k) == GetU16(mid, k)
    ensures k + 4 <= |mid| ==> GetU32(pre + mid + post, |pre| + k) == GetU32(mid, k)
  {
    var f := pre + mid + post;
    assert forall i | 0 <= i < |mid| :: f[|pre| + i] == mid[i];
  }

  lemma HalfRead(n: half)
    ensures GetU16(U16(n), 0) == n
  {
  }

  lemma WordRead(n: word)
    ensures GetU32(U32(n), 0) == n
  {
    var b0, b1, b2, b3 := n % 256, n / 256 % 256, n / 0x1_0000 % 256, n / 0x100_0000;
    assert n / 256 / 256 == n / 0x1_0000 && n / 0x1_0000 / 256 == n / 0x100_0000;
  }

  lemma {:induction false} HalvesRead(hs: seq<half>, i: nat)
    requires i < |hs|
    ensures GetU16(Halves(hs), 2 * i) == hs[i]
  {
    var front, last := hs[..|hs| - 1], hs[|hs| - 1];
    if i < |front| {
      HalvesRead(front, i);
      Within([], Halves(front), U16(last), 2 * i);
      assert [] + Halves(front) + U16(last) == Halves(hs);
    } else {
      HalfRead(last);
      Within(Halves(front), U16(last), [], 0);
      assert Halves(front) + U16(last) + [] == Halves(hs);
    }
  }

  lemma {:induction false} WordsRead(ws: seq<word>, i: nat)
    requires i < |ws|
    ensures GetU32(Words(ws), 4 * i) == ws[i]
  {
    var front, last := ws[..|ws| - 1], ws[|ws| - 1];
    if i < |front| {
      WordsRead(front, i);
      Within([], Words(front), U32(last), 4 * i);
      assert [] + Words(front) + U32(last) == Words(ws);
    } else {
      WordRead(last);
      Within(Words(front), U32(last), [], 0);
      assert Words(front) + U32(last) + [] == Words(ws);
    }
  }

  /** Lists read back from the middle of a file. */
  lemma HalvesWithin(pre: seq<byte>, hs: seq<half>, post: seq<byte>, i: nat)
    requires i < |hs|
    ensures GetU16(pre + Halves(hs) + post, |pre| + 2 * i) == hs[i]
  {
    hide GetU16, Halves;
    HalvesRead(hs, i);
    Within(pre, Halves(hs), post, 2 * i);
  }

  lemma WordsWithin(pre: seq<byte>, ws: seq<word>, post: seq<byte>, i: nat)
    requires i < |ws|
    ensures GetU32(pre + Words(ws) + post, |pre| + 4 * i) == ws[i]
  {
    hide GetU32, Words;
    WordsRead(ws, i);
    Within(pre, Words(ws), post, 4 * i);
  }

  // ---- Sections ----

  const CELLS: nat := 256
  const V9_SQ: nat := 129 * 129
  const V8_SQ: nat := 128 * 128

  const MAP_MAGIC: word := 0x5350414d
  const VERSION_MAGIC: word := 0x342e3173
  const AREA_MAGIC: word := 0x41455241
  const HEIGHT_MAGIC: word := 0x5447484d
  const LIQUID_MAGIC: word := 0x51494c4d

  datatype Area = Area(flags: half, gridArea: half, payload: seq<half>)

  /** The numbers of a height section: the 129 x 129 grid, then the 128 x 128 one; none for a flat section. */
  datatype HeightData = Nothing | Int8(bytes: seq<byte>) | Int16(halves: seq<half>) | Float32(words: seq<word>)

  datatype HeightSection = HeightSection(lo: word, hi: word, data: HeightData)

  /** Types and flags per cell unless all are the same; heights of a rectangle unless it is flat. */
  datatype LiquidSection = LiquidSection(liquidFlags: byte, liquidType: half, offX: byte, offY: byte, width: byte,
                                         height: byte,
                                         level: word, cells: Option<CellTypes>, heights: Option<seq<word>>)

  datatype CellTypes = CellTypes(entries: seq<half>, flags: seq<byte>)

  ghost predicate HeightOk(h: HeightSection) {
    match h.data
    case Nothing => true
    case Int8(bytes) => |bytes| == V9_SQ + V8_SQ
    case Int16(halves) => |halves| == V9_SQ + V8_SQ
    case Float32(words) => |words| == V9_SQ + V8_SQ
  }

  ghost predicate LiquidOk(l: LiquidSection) {
    && (l.cells.Some? ==> |l.cells.value.entries| == CELLS && |l.cells.value.flags| == CELLS)
    && (l.heights.Some? ==> |l.heights.value| == l.width * l.height)
  }

  function HeightFlags(d: HeightData): word {
    match d
    case Nothing => 1
    case Int16(_) => 2
    case Int8(_) => 4
    case Float32(_) => 0
  }

  function LiquidFlags(l: LiquidSection): byte { (if l.cells.None? then 1 else 0) + if l.heights.None? then 2 else 0 }

  function HeightPayload(d: HeightData): seq<byte> {
    match d
    case Nothing => []
    case Int8(bytes) => bytes
    case Int16(halves) => Halves(halves)
    case Float32(words) => Words(words)
  }

  function CellPayload(l: LiquidSection): seq<byte> {
    if l.cells.None? then [] else Halves(l.cells.value.entries) + l.cells.value.flags
  }

  function LiquidPayload(l: LiquidSection): seq<byte> {
    CellPayload(l) + if l.heights.None? then [] else Words(l.heights.value)
  }

  function AreaBytes(a: Area): seq<byte> { Words([AREA_MAGIC]) + Halves([a.flags, a.gridArea]) + Halves(a.payload) }

  function HeightBytes(h: HeightSection): seq<byte> {
    Words([HEIGHT_MAGIC, HeightFlags(h.data), h.lo, h.hi]) + HeightPayload(h.data)
  }

  function LiquidHeader(l: LiquidSection): (r: seq<byte>)
    ensures |r| == 16
  {
    U32(LIQUID_MAGIC) + [LiquidFlags(l), l.liquidFlags] + U16(l.liquidType) + [l.offX, l.offY, l.width, l.height]
        + U32(l.level)
  }

  function LiquidBytes(l: Option<LiquidSection>): seq<byte> {
    if l.None? then [] else LiquidHeader(l.value) + LiquidPayload(l.value)
  }

  // ---- The whole file ----

  datatype MapContents = MapContents(area: Area, height: HeightSection, liquid: Option<LiquidSection>, holes: seq<half>)

  ghost predicate ContentsOk(m: MapContents) {
    && |m.area.payload| <= CELLS && HeightOk(m.height) && (m.liquid.Some? ==> LiquidOk(m.liquid.value))
    && |m.holes| == CELLS
  }

  function AreaOffset(): nat { 40 }

  function HeightOffset(m: MapContents): nat { AreaOffset() + |AreaBytes(m.area)| }

  function LiquidOffset(m: MapContents): nat { HeightOffset(m) + |HeightBytes(m.height)| }

  function HolesOffset(m: MapContents): nat { LiquidOffset(m) + |LiquidBytes(m.liquid)| }

  /** The header as a reader has to find it: every offset is where the section begins, 0 for no liquid. */
  function HeaderWords(m: MapContents): (ws: seq<nat>)
    ensures |ws| == 10
  {
    [MAP_MAGIC, VERSION_MAGIC, AreaOffset(), |AreaBytes(m.area)|, HeightOffset(m), |HeightBytes(m.height)|,
     if m.liquid.None? then 0 else LiquidOffset(m), |LiquidBytes(m.liquid)|, HolesOffset(m), 2 * |m.holes|]
  }

  ghost predicate AllWords(ws: seq<nat>) { forall i | 0 <= i < |ws| :: ws[i] < 0x1_0000_0000 }

  /** No section can push an offset beyond 32 bits. */
  lemma SizesFit(m: MapContents)
    requires ContentsOk(m)
    ensures AllWords(HeaderWords(m))
  {
    hide Halves, Words;
    SectionSizes(m);
    HeightPayloadSize(m.height);
    if m.liquid.Some? { LiquidPayloadSize(m.liquid.value); }
  }

  lemma HeightPayloadSize(h: HeightSection)
    requires HeightOk(h)
    ensures |HeightPayload(h.data)| <= 4 * (V9_SQ + V8_SQ)
  {
  }

  lemma LiquidPayloadSize(l: LiquidSection)
    requires LiquidOk(l)
    ensures |LiquidPayload(l)| <= 3 * CELLS + 4 * 256 * 256
  {
    CellSize(l);
    AreaBound(l.width, l.height);
  }

  lemma AreaBound(a: byte, b: byte)
    ensures a * b <= 256 * 256
  {
  }

  ghost function HeaderBytes(m: MapContents): (r: seq<byte>)
    requires ContentsOk(m)
    ensures |r| == 40
  {
    SizesFit(m);
    Words(HeaderWords(m))
  }

  ghost function MapBytes(m: MapContents): seq<byte>
    requires ContentsOk(m)
  {
    HeaderBytes(m) + AreaBytes(m.area) + HeightBytes(m.height) + LiquidBytes(m.liquid) + Halves(m.holes)
  }

  /** Offsets from section sizes as the extractor computes them, then one section after the other. */
  method WriteMap(m: MapContents) returns (file: seq<byte>)
    requires ContentsOk(m)
    ensures file == MapBytes(m)
  {
    hide AreaBytes, HeightBytes, LiquidBytes, Halves, Words;
    SizesFit(m);
    SectionSizes(m);
    var areaSize := 8 + 2 * |m.area.payload|;
    var heightOffset := 40 + areaSize;
    var heightSize := 16 + |HeightPayload(m.height.data)|;
    var liquidOffset, liquidSize, holesOffset := 0, 0, heightOffset + heightSize;
    if m.liquid.Some? {
      liquidOffset := heightOffset + heightSize;
      liquidSize := 16 + |LiquidPayload(m.liquid.value)|;
      holesOffset := liquidOffset + liquidSize;
    }
    var header: seq<nat> := [MAP_MAGIC, VERSION_MAGIC, 40, areaSize, heightOffset, heightSize, liquidOffset, liquidSize,
                             holesOffset, 2 * |m.holes|];
    assert header == HeaderWords(m);
    file := Words(header);
    file := file + AreaBytes(m.area);
    file := file + HeightBytes(m.height);
    if m.liquid.Some? { file := file + LiquidBytes(m.liquid); }
    NoLiquidBytes();
    file := file + Halves(m.holes);
  }

  lemma SectionSizes(m: MapContents)
    ensures |AreaBytes(m.area)| == 8 + 2 * |m.area.payload|
    ensures |HeightBytes(m.height)| == 16 + |HeightPayload(m.height.data)|
    ensures |LiquidBytes(m.liquid)| == if m.liquid.None? then 0 else 16 + |LiquidPayload(m.liquid.value)|
  {
  }

  lemma NoLiquidBytes()
    ensures LiquidBytes(None) == []
  {
  }

  /** The file and its sections carry the marks MAPS, s1.4, AREA, MHGT and MLIQ where they begin. */
  lemma SectionMarks(m: MapContents)
    requires ContentsOk(m)
    ensures GetU32(MapBytes(m), 0) == 0x5350414d && GetU32(MapBytes(m), 4) == 0x342e3173
    ensures GetU32(MapBytes(m), 40) == 0x41455241 && GetU32(MapBytes(m), HeightOffset(m)) == 0x5447484d
    ensures m.liquid.Some? ==> GetU32(MapBytes(m), LiquidOffset(m)) == 0x51494c4d
  {
    hide GetU32, Words, Halves, MapBytes, HeightPayload, LiquidPayload, HeightOffset, LiquidOffset;
    var header := seq(10, i requires 0 <= i < 10 => GetU32(MapBytes(m), 4 * i));
    HeaderMarks(m, header);
    var pre, post := AreaPlace(m);
    var rest := Halves([m.area.flags, m.area.gridArea]) + Halves(m.area.payload);
    assert pre + (Words([AREA_MAGIC]) + rest) + post == pre + Words([AREA_MAGIC]) + (rest + post);
    assert AreaBytes(m.area) == Words([AREA_MAGIC]) + rest;
    WordsWithin(pre, [AREA_MAGIC], rest + post, 0);
    pre, post := HeightPlace(m);
    var ws: seq<word> := [HEIGHT_MAGIC, HeightFlags(m.height.data), m.height.lo, m.height.hi];
    var payload := HeightPayload(m.height.data);
    assert pre + (Words(ws) + payload) + post == pre + Words(ws) + (payload + post);
    WordsWithin(pre, ws, payload + post, 0);
    if m.liquid.Some? {
      var l := m.liquid.value;
      pre, post := LiquidPlace(m);
      var tail := [LiquidFlags(l), l.liquidFlags] + U16(l.liquidType) + [l.offX, l.offY, l.width, l.height]
          + U32(l.level);
      assert LiquidHeader(l) == U32(LIQUID_MAGIC) + tail;
      assert pre + (LiquidHeader(l) + LiquidPayload(l)) + post == pre + U32(LIQUID_MAGIC)
          + (tail + LiquidPayload(l) + post);
      WordRead(LIQUID_MAGIC);
      Within(pre, U32(LIQUID_MAGIC), tail + LiquidPayload(l) + post, 0);
    }
  }

  lemma HeaderMarks(m: MapContents, header: seq<word>)
    requires ContentsOk(m) && |header| == 10 && forall i | 0 <= i < 10 :: header[i] == GetU32(MapBytes(m), 4 * i)
    ensures header[0] == 0x5350414d && header[1] == 0x342e3173
  {
    hide GetU32, Words, AreaBytes, HeightBytes, LiquidBytes, Halves;
    SizesFit(m);
    var ws := HeaderWords(m);
    var rest := AreaBytes(m.area) + HeightBytes(m.height) + LiquidBytes(m.liquid) + Halves(m.holes);
    assert MapBytes(m) == [] + Words(ws) + rest;
    forall i | 0 <= i < 10 ensures header[i] == ws[i] { WordsWithin([], ws, rest, i); }
  }

  lemma AreaPlace(m: MapContents) returns (pre: seq<byte>, post: seq<byte>)
    requires ContentsOk(m)
    ensures MapBytes(m) == pre + AreaBytes(m.area) + post && |pre| == 40
  {
    hide HeaderBytes, AreaBytes, HeightBytes, LiquidBytes, Halves;
    pre, post := HeaderBytes(m), HeightBytes(m.height) + LiquidBytes(m.liquid) + Halves(m.holes);
  }

  // ---- Reading ----

  /** What the reader takes from a file; cell types are spread from the header when they are all the same. */
  datatype MapRead = MapRead(height: HeightSection, holes: seq<half>, liquid: Option<LiquidRead>)

  datatype LiquidRead = LiquidRead(typesLoaded: bool, entries: seq<half>, flags: seq<byte>, offX: byte, offY: byte,
                                   width: byte, height: byte, level: word, heights: Option<seq<word>>)

  function Bit(n: nat, k: nat): bool
    requires k > 0
  {
    n / k % 2 == 1
  }

  method ReadBytes(f: seq<byte>, p: nat, n: nat) returns (r: seq<byte>)
    ensures |r| == n && forall i | 0 <= i < n :: r[i] == GetU8(f, p + i)
  {
    r := [];
    for i := 0 to n
      invariant |r| == i && forall k | 0 <= k < i :: r[k] == GetU8(f, p + k)
    {
      r := r + [GetU8(f, p + i)];
    }
  }

  method ReadHalves(f: seq<byte>, p: nat, n: nat) returns (r: seq<half>)
    ensures |r| == n && forall i | 0 <= i < n :: r[i] == GetU16(f, p + 2 * i)
  {
    r := [];
    for i := 0 to n
      invariant |r| == i && forall k | 0 <= k < i :: r[k] == GetU16(f, p + 2 * k)
    {
      r := r + [GetU16(f, p + 2 * i)];
    }
  }

  method ReadWords(f: seq<byte>, p: nat, n: nat) returns (r: seq<word>)
    ensures |r| == n && forall i | 0 <= i < n :: r[i] == GetU32(f, p + 4 * i)
  {
    r := [];
    for i := 0 to n
      invariant |r| == i && forall k | 0 <= k < i :: r[k] == GetU32(f, p + 4 * k)
    {
      r := r + [GetU32(f, p + 4 * i)];
    }
  }

  /** What reading the written file must give; holes are only looked at with terrain, liquid only if wanted. */
  function Expected(m: MapContents, skipLiquid: bool): Option<MapRead> {
    var liquid := if m.liquid.None? || skipLiquid then None else Some(Spread(m.liquid.value));
    if m.height.data.Nothing? && liquid.None? then None
    else Some(MapRead(m.height, if m.height.data.Nothing? then seq(CELLS, _ => 0) else m.holes, liquid))
  }

  function Spread(l: LiquidSection): LiquidRead {
    LiquidRead(l.cells.Some?, if l.cells.Some? then l.cells.value.entries else seq(CELLS, _ => l.liquidType),
               if l.cells.Some? then l.cells.value.flags else seq(CELLS, _ => l.liquidFlags),
               l.offX, l.offY, l.width, l.height, l.level, l.heights)
  }

  /** The reading part of `load_map_portion`: header, version test, then a seek to each section. */
  method ReadMap(f: seq<byte>, skipLiquid: bool) returns (r: Option<MapRead>)
    ensures forall m | ContentsOk(m) && f == MapBytes(m) :: r == Expected(m, skipLiquid)
  {
    hide MapBytes, GetU32, GetU16, HeaderWords, HeightOffset, LiquidOffset, HolesOffset, Expected, Spread;
    var header := ReadWords(f, 0, 10);
    forall m | ContentsOk(m) && f == MapBytes(m) ensures HeaderIs(m, header) { HeaderRead(m, header); }
    if header[1] != VERSION_MAGIC { return None; }
    var heightOffset, liquidOffset, holesOffset, holesSize := header[4], header[6], header[8], header[9];
    var height := ReadHeight(f, heightOffset);
    var haveLiquid := liquidOffset != 0 && !skipLiquid;
    if height.data.Nothing? && !haveLiquid {
      forall m | ContentsOk(m) && f == MapBytes(m) ensures Expected(m, skipLiquid) == None { Expects(m, skipLiquid); }
      return None;
    }
    var holes: seq<half> := seq(CELLS, _ => 0);
    if !height.data.Nothing? && holesSize > 0 {
      holes := ReadHalves(f, holesOffset, CELLS);
    }
    var liquid: Option<LiquidRead> := None;
    if haveLiquid {
      var l := ReadLiquid(f, liquidOffset);
      liquid := Some(l);
    }
    r := Some(MapRead(height, holes, liquid));
    forall m | ContentsOk(m) && f == MapBytes(m) ensures r == Expected(m, skipLiquid) {
      HolesRead(m, holesOffset, holes);
      Expects(m, skipLiquid);
    }
  }

  /** What the header says, field by field. */
  ghost predicate HeaderIs(m: MapContents, header: seq<word>) {
    && |header| == 10 && header[1] == VERSION_MAGIC && header[4] == HeightOffset(m) && header[8] == HolesOffset(m)
    && header[6] == (if m.liquid.None? then 0 else LiquidOffset(m)) && header[9] == 2 * |m.holes| && LiquidOffset(m) > 0
  }

  lemma Expects(m: MapContents, skipLiquid: bool)
    ensures var liquid := if m.liquid.None? || skipLiquid then None else Some(Spread(m.liquid.value));
            && (m.height.data.Nothing? && liquid.None? ==> Expected(m, skipLiquid) == None)
            && (m.height.data.Nothing? && liquid.Some? ==>
                  Expected(m, skipLiquid) == Some(MapRead(m.height, seq(CELLS, _ => 0), liquid)))
            && (!m.height.data.Nothing? ==> Expected(m, skipLiquid) == Some(MapRead(m.height, m.holes, liquid)))
  {
  }

  method ReadHeight(f: seq<byte>, p: nat) returns (h: HeightSection)
    ensures forall m | ContentsOk(m) && f == MapBytes(m) && p == HeightOffset(m) :: h == m.height
  {
    hide MapBytes, GetU32, GetU16, GetU8, HeightOffset;
    var header := ReadWords(f, p, 4);
    var flags := header[1];
    var data := Nothing;
    if !Bit(flags, 1) {
      if Bit(flags, 4) {
        var bytes := ReadBytes(f, p + 16, V9_SQ + V8_SQ);
        data := Int8(bytes);
      } else if Bit(flags, 2) {
        var halves := ReadHalves(f, p + 16, V9_SQ + V8_SQ);
        data := Int16(halves);
      } else {
        var words := ReadWords(f, p + 16, V9_SQ + V8_SQ);
        data := Float32(words);
      }
    }
    h := HeightSection(header[2], header[3], data);
    forall m | ContentsOk(m) && f == MapBytes(m) && p == HeightOffset(m) ensures h == m.height {
      HeightRead(m, p, header, data);
    }
  }

  method ReadLiquid(f: seq<byte>, p: nat) returns (l: LiquidRead)
    ensures forall m | ContentsOk(m) && f == MapBytes(m) && m.liquid.Some? && p == LiquidOffset(m) ::
              l == Spread(m.liquid.value)
  {
    hide MapBytes, GetU32, GetU16, GetU8, LiquidOffset, Spread;
    var flags, liquidFlags, liquidType := GetU8(f, p + 4), GetU8(f, p + 5), GetU16(f, p + 6);
    var offX, offY, width, height := GetU8(f, p + 8), GetU8(f, p + 9), GetU8(f, p + 10), GetU8(f, p + 11);
    var level := GetU32(f, p + 12);
    var at := p + 16;
    var entries, cellFlags: seq<byte>;
    if !Bit(flags, 1) {
      entries := ReadHalves(f, at, CELLS);
      cellFlags := ReadBytes(f, at + 2 * CELLS, CELLS);
      at := at + 3 * CELLS;
    } else {
      entries, cellFlags := seq(CELLS, _ => liquidType), seq(CELLS, _ => liquidFlags);
    }
    var heights: Option<seq<word>> := None;
    if !Bit(flags, 2) {
      var columns: nat, rows: nat := width, height;
      var words := ReadWords(f, at, columns * rows);
      heights := Some(words);
    }
    l := LiquidRead(!Bit(flags, 1), entries, cellFlags, offX, offY, width, height, level, heights);
    forall m | ContentsOk(m) && f == MapBytes(m) && m.liquid.Some? && p == LiquidOffset(m)
      ensures l == Spread(m.liquid.value)
    {
      LiquidIsRead(m, p, l);
    }
  }

  // ---- The reader finds what was written ----

  lemma HeaderRead(m: MapContents, header: seq<word>)
    requires ContentsOk(m) && |header| == 10 && forall i | 0 <= i < 10 :: header[i] == GetU32(MapBytes(m), 4 * i)
    ensures HeaderIs(m, header)
  {
    hide GetU32, Words, AreaBytes, HeightBytes, LiquidBytes, Halves;
    SizesFit(m);
    var ws := HeaderWords(m);
    var rest := AreaBytes(m.area) + HeightBytes(m.height) + LiquidBytes(m.liquid) + Halves(m.holes);
    assert MapBytes(m) == [] + Words(ws) + rest;
    forall i | 0 <= i < 10 ensures header[i] == ws[i] { WordsWithin([], ws, rest, i); }
  }

  /** The height section begins where the header says. */
  lemma HeightPlace(m: MapContents) returns (pre: seq<byte>, post: seq<byte>)
    requires ContentsOk(m)
    ensures MapBytes(m) == pre + HeightBytes(m.height) + post && |pre| == HeightOffset(m)
  {
    hide HeaderBytes, AreaBytes, HeightBytes, LiquidBytes, Halves;
    pre, post := HeaderBytes(m) + AreaBytes(m.area), LiquidBytes(m.liquid) + Halves(m.holes);
  }

  lemma LiquidPlace(m: MapContents) returns (pre: seq<byte>, post: seq<byte>)
    requires ContentsOk(m)
    ensures MapBytes(m) == pre + LiquidBytes(m.liquid) + post && |pre| == LiquidOffset(m)
  {
    hide HeaderBytes, AreaBytes, HeightBytes, LiquidBytes, Halves;
    pre, post := HeaderBytes(m) + AreaBytes(m.area) + HeightBytes(m.height), Halves(m.holes);
  }

  lemma HolesRead(m: MapContents, p: nat, holes: seq<half>)
    requires ContentsOk(m) && p == HolesOffset(m)
    ensures |holes| == CELLS && (forall i | 0 <= i < CELLS :: holes[i] == GetU16(MapBytes(m), p + 2 * i)) ==>
              holes == m.holes
  {
    hide GetU16, HeaderBytes, AreaBytes, HeightBytes, LiquidBytes, Halves;
    var pre := HeaderBytes(m) + AreaBytes(m.area) + HeightBytes(m.height) + LiquidBytes(m.liquid);
    assert MapBytes(m) == pre + Halves(m.holes) + [];
    forall i | 0 <= i < CELLS ensures GetU16(MapBytes(m), p + 2 * i) == m.holes[i] {
      HalvesWithin(pre, m.holes, [], i);
    }
  }

  /** Flags tell the formats apart. */
  lemma FlagBits(d: HeightData)
    ensures Bit(HeightFlags(d), 1) <==> d.Nothing?
    ensures Bit(HeightFlags(d), 4) <==> d.Int8?
    ensures Bit(HeightFlags(d), 2) <==> d.Int16?
  {
  }

  lemma LiquidFlagBits(l: LiquidSection)
    ensures Bit(LiquidFlags(l), 1) <==> l.cells.None?
    ensures Bit(LiquidFlags(l), 2) <==> l.heights.None?
  {
  }

  ghost predicate DataRead(f: seq<byte>, p: nat, flags: nat, data: HeightData) {
    if Bit(flags, 1) then data == Nothing
    else if Bit(flags, 4) then
      data.Int8? && |data.bytes| == V9_SQ + V8_SQ && forall i | 0 <= i < V9_SQ + V8_SQ ::
          data.bytes[i] == GetU8(f, p + i)
    else if Bit(flags, 2) then
      data.Int16? && |data.halves| == V9_SQ + V8_SQ && forall i | 0 <= i < V9_SQ + V8_SQ ::
          data.halves[i] == GetU16(f, p + 2 * i)
    else
      data.Float32? && |data.words| == V9_SQ + V8_SQ && forall i | 0 <= i < V9_SQ + V8_SQ ::
          data.words[i] == GetU32(f, p + 4 * i)
  }

  lemma HeightRead(m: MapContents, p: nat, header: seq<word>, data: HeightData)
    requires ContentsOk(m) && p == HeightOffset(m) && |header| == 4
    requires forall i | 0 <= i < 4 :: header[i] == GetU32(MapBytes(m), p + 4 * i)
    requires DataRead(MapBytes(m), p + 16, header[1], data)
    ensures HeightSection(header[2], header[3], data) == m.height
  {
    hide GetU32, GetU16, GetU8, Words, Halves, MapBytes, HeightOffset, HeightPayload, Bit;
    var pre, post := HeightPlace(m);
    var ws: seq<word> := [HEIGHT_MAGIC, HeightFlags(m.height.data), m.height.lo, m.height.hi];
    var payload := HeightPayload(m.height.data);
    assert pre + (Words(ws) + payload) + post == pre + Words(ws) + (payload + post);
    forall i | 0 <= i < 4 ensures header[i] == ws[i] { WordsWithin(pre, ws, payload + post, i); }
    FlagBits(m.height.data);
    assert pre + (Words(ws) + payload) + post == (pre + Words(ws)) + payload + post;
    PayloadRead(pre + Words(ws), m.height, post, data);
  }

  lemma PayloadRead(pre: seq<byte>, h: HeightSection, post: seq<byte>, data: HeightData)
    requires HeightOk(h) && DataRead(pre + HeightPayload(h.data) + post, |pre|, HeightFlags(h.data), data)
    ensures data == h.data
  {
    hide GetU32, GetU16, GetU8, Words, Halves, Bit;
    FlagBits(h.data);
    match h.data
    case Nothing =>
    case Int8(bytes) =>
      forall i | 0 <= i < |bytes| ensures data.bytes[i] == bytes[i] {
        Within(pre, bytes, post, i);
        ByteRead(bytes, i);
      }
    case Int16(halves) =>
      forall i | 0 <= i < |halves| ensures data.halves[i] == halves[i] { HalvesWithin(pre, halves, post, i); }
    case Float32(words) =>
      forall i | 0 <= i < |words| ensures data.words[i] == words[i] { WordsWithin(pre, words, post, i); }
  }

  lemma ByteRead(bs: seq<byte>, i: nat)
    requires i < |bs|
    ensures GetU8(bs, i) == bs[i]
  {
  }

  /** The fields of a liquid section as they stand in a file. */
  ghost predicate LiquidFrom(f: seq<byte>, p: nat, l: LiquidRead) {
    var flags := GetU8(f, p + 4);
    && l.typesLoaded == !Bit(flags, 1) && |l.entries| == CELLS && |l.flags| == CELLS
    && l.offX == GetU8(f, p + 8) && l.offY == GetU8(f, p + 9) && l.width == GetU8(f, p + 10)
    && l.height == GetU8(f, p + 11)
    && l.level == GetU32(f, p + 12)
    && (forall i | 0 <= i < CELLS :: l.entries[i] == if l.typesLoaded then GetU16(f, p + 16 + 2 * i)
        else GetU16(f, p + 6))
    && (forall i | 0 <= i < CELLS :: l.flags[i] == if l.typesLoaded then GetU8(f, p + 16 + 2 * CELLS + i)
        else GetU8(f, p + 5))
    && (l.heights.None? <==> Bit(flags, 2))
    && (l.heights.Some? ==>
          && |l.heights.value| == l.width * l.height
          && forall i | 0 <= i < |l.heights.value| ::
               l.heights.value[i] == GetU32(f, p + 16 + (if l.typesLoaded then 3 * CELLS else 0) + 4 * i))
  }

  lemma LiquidIsRead(m: MapContents, p: nat, l: LiquidRead)
    requires ContentsOk(m) && m.liquid.Some? && p == LiquidOffset(m) && LiquidFrom(MapBytes(m), p, l)
    ensures l == Spread(m.liquid.value)
  {
    hide GetU32, GetU16, GetU8, Words, Halves, MapBytes, LiquidOffset, LiquidHeader, LiquidPayload;
    var pre, post := LiquidPlace(m);
    SectionRead(pre, m.liquid.value, post, l);
  }

  lemma HeaderFields(l: LiquidSection)
    ensures var h := LiquidHeader(l);
            && GetU8(h, 4) == LiquidFlags(l) && GetU8(h, 5) == l.liquidFlags && GetU16(h, 6) == l.liquidType
            && GetU8(h, 8) == l.offX && GetU8(h, 9) == l.offY && GetU8(h, 10) == l.width && GetU8(h, 11) == l.height
            && GetU32(h, 12) == l.level
  {
    var a, b, c := U32(LIQUID_MAGIC) + [LiquidFlags(l), l.liquidFlags], [l.offX, l.offY, l.width, l.height],
        U32(l.level);
    assert LiquidHeader(l) == a + U16(l.liquidType) + (b + c) == (a + U16(l.liquidType) + b) + c + [];
    HalfRead(l.liquidType);
    WordRead(l.level);
    Within(a, U16(l.liquidType), b + c, 0);
    Within(a + U16(l.liquidType) + b, c, [], 0);
  }

  lemma SectionRead(pre: seq<byte>, s: LiquidSection, post: seq<byte>, l: LiquidRead)
    requires LiquidOk(s) && LiquidFrom(pre + LiquidBytes(Some(s)) + post, |pre|, l)
    ensures l == Spread(s)
  {
    hide GetU32, GetU16, GetU8, Words, Halves, LiquidHeader, Bit, CellPayload, LiquidFlags;
    var h, cells := LiquidHeader(s), CellPayload(s);
    var heights := if s.heights.None? then [] else Words(s.heights.value);
    var f := pre + LiquidBytes(Some(s)) + post;
    assert f == pre + h + (cells + heights + post);
    HeaderFields(s);
    LiquidFlagBits(s);
    FieldsWithin(pre, h, cells + heights + post);
    if s.cells.Some? {
      assert f == (pre + h) + cells + (heights + post);
      CellsRead(pre + h, s, heights + post, l.entries, l.flags);
    }
    assert l.entries == Spread(s).entries && l.flags == Spread(s).flags;
    if s.heights.Some? {
      assert f == (pre + h + cells) + Words(s.heights.value) + post;
      CellSize(s);
      HeightsRead(pre + h + cells, s.heights.value, post, l.heights.value);
    }
  }

  lemma CellSize(s: LiquidSection)
    requires LiquidOk(s)
    ensures |CellPayload(s)| == if s.cells.Some? then 3 * CELLS else 0
  {
  }

  lemma CellsRead(pre: seq<byte>, s: LiquidSection, post: seq<byte>, entries: seq<half>, flags: seq<byte>)
    requires LiquidOk(s) && s.cells.Some? && |entries| == CELLS && |flags| == CELLS
    requires var f := pre + CellPayload(s) + post;
             && (forall i | 0 <= i < CELLS :: entries[i] == GetU16(f, |pre| + 2 * i))
             && (forall i | 0 <= i < CELLS :: flags[i] == GetU8(f, |pre| + 2 * CELLS + i))
    ensures entries == s.cells.value.entries && flags == s.cells.value.flags
  {
    hide GetU16, GetU8, Halves;
    var es, fs := s.cells.value.entries, s.cells.value.flags;
    var f := pre + CellPayload(s) + post;
    assert f == pre + Halves(es) + (fs + post);
    assert f == (pre + Halves(es)) + fs + post;
    forall i | 0 <= i < CELLS ensures entries[i] == es[i] && flags[i] == fs[i] {
      HalvesWithin(pre, es, fs + post, i);
      Within(pre + Halves(es), fs, post, i);
      ByteRead(fs, i);
    }
  }

  lemma HeightsRead(pre: seq<byte>, ws: seq<word>, post: seq<byte>, read: seq<word>)
    requires |read| == |ws| && forall i | 0 <= i < |ws| :: read[i] == GetU32(pre + Words(ws) + post, |pre| + 4 * i)
    ensures read == ws
  {
    hide GetU32, Words;
    forall i | 0 <= i < |ws| ensures read[i] == ws[i] { WordsWithin(pre, ws, post, i); }
  }

  lemma FieldsWithin(pre: seq<byte>, h: seq<byte>, post: seq<byte>)
    requires |h| == 16
    ensures var f, p := pre + h + post, |pre|;
            && GetU8(f, p + 4) == GetU8(h, 4) && GetU8(f, p + 5) == GetU8(h, 5) && GetU16(f, p + 6) == GetU16(h, 6)
            && GetU8(f, p + 8) == GetU8(h, 8) && GetU8(f, p + 9) == GetU8(h, 9) && GetU8(f, p + 10) == GetU8(h, 10)
            && GetU8(f, p + 11) == GetU8(h, 11) && GetU32(f, p + 12) == GetU32(h, 12)
  {
    hide GetU32, GetU16, GetU8;
    Within(pre, h, post, 4);
    Within(pre, h, post, 5);
    Within(pre, h, post, 6);
    Within(pre, h, post, 8);
    Within(pre, h, post, 9);
    Within(pre, h, post, 10);
    Within(pre, h, post, 11);
    Within(pre, h, post, 12);
  }
}
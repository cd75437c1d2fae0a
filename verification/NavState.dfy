/** The tile table as a value: where every slot is, and why no link dangles. */
module NavState {
  import opened Basics
  import opened IndexLists
  import opened NavTile

  datatype Tile = Tile(salt: nat, next: int, body: Option<Body>)

  /** Reference layout and position hash of a mesh. */
  datatype Config = Config(layout: Layout, hash: (int, int) -> nat, lutSize: nat)

  ghost predicate ConfigOk(c: Config) {
    c.layout.Ok() && c.lutSize >= 1 && forall x, y :: c.hash(x, y) < c.lutSize
  }

  /** Tiles, list heads (free list, then one per hash bucket), and the lists they thread. */
  datatype Mesh = Mesh(ts: seq<Tile>, heads: seq<int>, slots: seq<seq<nat>>, lists: seq<seq<seq<nat>>>)

  ghost function SlotNexts(ts: seq<Tile>): seq<int> { seq(|ts|, i requires 0 <= i < |ts| => ts[i].next) }

  /** The list a slot belongs on. */
  ghost function Home(c: Config, t: Tile): nat {
    match t.body
    case None => 0
    case Some(b) => 1 + c.hash(b.x, b.y)
  }

  /** Every slot is on exactly one list, and it is its home. */
  ghost predicate SlotsOk(c: Config, m: Mesh) {
    && |m.heads| == c.lutSize + 1
    && Threaded(SlotNexts(m.ts), m.heads, m.slots)
    && forall i: nat | i < |m.ts| :: Home(c, m.ts[i]) < |m.slots| && i in m.slots[Home(c, m.ts[i])]
  }

  predicate Near(x: int, y: int, b: Body) { x - 1 <= b.x <= x + 1 && y - 1 <= b.y <= y + 1 }

  /** `isValidPolyRef`. */
  predicate ValidRef(c: Layout, ts: seq<Tile>, ref: nat)
    requires c.Ok()
  {
    var it := DecodeTile(c, ref);
    && ref != 0 && it < |ts| && ts[it].salt == DecodeSalt(c, ref) && ts[it].body.Some?
    && DecodePoly(c, ref) < |ts[it].body.value.polys|
  }

  /** A reference a tile at (x, y) may hold: valid, and into a tile at the same or a neighbouring position. */
  predicate GoodRef(c: Layout, ts: seq<Tile>, x: int, y: int, ref: nat)
    requires c.Ok()
  {
    ValidRef(c, ts, ref) && Near(x, y, ts[DecodeTile(c, ref)].body.value)
  }

  ghost predicate TileOk(c: Layout, t: Tile, ls: seq<seq<nat>>) {
    && 1 <= t.salt < c.salts
    && (t.body.Some? ==> DataOk(c, t.body.value) && LinksOk(t.body.value, ls) && |ls| == |t.body.value.polys| + 1)
  }

  ghost predicate TilesOk(c: Layout, m: Mesh) {
    |m.lists| == |m.ts| <= c.tiles && forall i | 0 <= i < |m.ts| :: TileOk(c, m.ts[i], m.lists[i])
  }

  /** Every link in use refers to a polygon that exists. */
  ghost predicate LinksGood(c: Layout, ts: seq<Tile>, b: Body, ls: seq<seq<nat>>)
    requires c.Ok() && ls != []
  {
    forall j: nat | j < |b.links| && j !in ls[0] :: GoodRef(c, ts, b.x, b.y, b.links[j].ref)
  }

  ghost predicate RefsOk(c: Layout, m: Mesh)
    requires c.Ok()
  {
    |m.lists| == |m.ts| &&
    forall i | 0 <= i < |m.ts| && m.ts[i].body.Some? ::
        m.lists[i] != [] && LinksGood(c, m.ts, m.ts[i].body.value, m.lists[i])
  }

  predicate SamePlace(a: Body, b: Body) { a.x == b.x && a.y == b.y && a.layer == b.layer }

  ghost predicate Unique(ts: seq<Tile>) {
    forall i, j | 0 <= i < j < |ts| && ts[i].body.Some? && ts[j].body.Some? ::
        !SamePlace(ts[i].body.value, ts[j].body.value)
  }

  ghost predicate MeshOk(c: Config, m: Mesh) {
    ConfigOk(c) && SlotsOk(c, m) && TilesOk(c.layout, m) && RefsOk(c.layout, m) && Unique(m.ts)
  }

  // ---- Changing links only ----

  /** Tiles agree on everything but links and vertices. */
  ghost predicate SameTile(t: Tile, t': Tile) {
    && t'.salt == t.salt && t'.next == t.next && (t'.body.Some? <==> t.body.Some?)
    && (t.body.Some? ==> Frame(t'.body.value) == Frame(t.body.value))
  }

  ghost predicate SameShape(ts: seq<Tile>, ts': seq<Tile>) {
    |ts'| == |ts| && forall i | 0 <= i < |ts| :: SameTile(ts[i], ts'[i])
  }

  lemma SameShapeTrans(a: seq<Tile>, b: seq<Tile>, c: seq<Tile>)
    requires SameShape(a, b) && SameShape(b, c)
    ensures SameShape(a, c)
  {
    hide Frame;
    forall i | 0 <= i < |a| ensures SameTile(a[i], c[i]) {
      assert SameTile(a[i], b[i]) && SameTile(b[i], c[i]);
    }
  }

  lemma SameFrame(t: Tile, t': Tile)
    requires SameTile(t, t') && t.body.Some?
    ensures var b, b' := t.body.value, t'.body.value;
            && t'.body.Some? && |b'.polys| == |b.polys| && |b'.links| == |b.links| && SamePlace(b, b')
            && b'.cons == b.cons
  {
    FrameSize(t.body.value, t'.body.value);
  }

  lemma GoodRefFrame(c: Layout, ts: seq<Tile>, ts': seq<Tile>, x: int, y: int, ref: nat)
    requires c.Ok() && SameShape(ts, ts') && GoodRef(c, ts, x, y, ref)
    ensures GoodRef(c, ts', x, y, ref)
  {
    hide DecodeTile, DecodeSalt, DecodePoly, Frame;
    var it := DecodeTile(c, ref);
    assert SameTile(ts[it], ts'[it]);
    SameFrame(ts[it], ts'[it]);
  }

  lemma LinksGoodFrame(c: Layout, ts: seq<Tile>, ts': seq<Tile>, b: Body, ls: seq<seq<nat>>)
    requires c.Ok() && ls != [] && SameShape(ts, ts') && LinksGood(c, ts, b, ls)
    ensures LinksGood(c, ts', b, ls)
  {
    hide SameShape, GoodRef;
    forall j: nat | j < |b.links| && j !in ls[0] ensures GoodRef(c, ts', b.x, b.y, b.links[j].ref) {
      GoodRefFrame(c, ts, ts', b.x, b.y, b.links[j].ref);
    }
  }

  // ---- Growing ----

  ghost predicate LinksGrow(m: Mesh, m': Mesh) {
    && |m'.ts| == |m.ts| && |m.lists| == |m.ts| && |m'.lists| == |m.ts|
    && forall t | 0 <= t < |m.ts| && m.ts[t].body.Some? ::
         m'.ts[t].body.Some? && BodyGrows(m.ts[t].body.value, m.lists[t], m'.ts[t].body.value, m'.lists[t])
  }

  /** Only links were added and vertices moved. */
  ghost predicate Grown(m: Mesh, m': Mesh) {
    SameShape(m.ts, m'.ts) && LinksGrow(m, m') && m'.heads == m.heads && m'.slots == m.slots
  }

  lemma GrownRefl(c: Layout, m: Mesh)
    requires TilesOk(c, m)
    ensures Grown(m, m)
  {
    hide LinksOk, DataOk;
    forall t | 0 <= t < |m.ts| && m.ts[t].body.Some? ensures m.lists[t] != [] {
      assert TileOk(c, m.ts[t], m.lists[t]);
    }
  }

  lemma GrownTrans(a: Mesh, b: Mesh, c: Mesh)
    requires Grown(a, b) && Grown(b, c)
    ensures Grown(a, c)
  {
    hide SameShape, Along;
    SameShapeTrans(a.ts, b.ts, c.ts);
    forall t | 0 <= t < |a.ts| && a.ts[t].body.Some?
      ensures c.ts[t].body.Some? && BodyGrows(a.ts[t].body.value, a.lists[t], c.ts[t].body.value, c.lists[t])
    {
      assert b.ts[t].body.Some?;
    }
  }

  /** One tile's links changed, and only grew. */
  lemma GrownOne(c: Layout, m: Mesh, i: nat, b: Body, ls: seq<seq<nat>>)
    requires TilesOk(c, m) && i < |m.ts| && |m.lists| == |m.ts| && m.ts[i].body.Some?
    requires BodyGrows(m.ts[i].body.value, m.lists[i], b, ls)
    requires SameShape(m.ts, WithLinks(m, i, b, ls).ts)
    ensures Grown(m, WithLinks(m, i, b, ls))
  {
    hide SameShape, Along, BodyGrows;
    var m' := WithLinks(m, i, b, ls);
    forall t | 0 <= t < |m.ts| && m.ts[t].body.Some?
      ensures m'.ts[t].body.Some? && BodyGrows(m.ts[t].body.value, m.lists[t], m'.ts[t].body.value, m'.lists[t])
    {
      if t != i { BodySame(c, m, t); }
    }
  }

  lemma BodySame(c: Layout, m: Mesh, t: nat)
    requires TilesOk(c, m) && t < |m.ts| && m.ts[t].body.Some?
    ensures BodyGrows(m.ts[t].body.value, m.lists[t], m.ts[t].body.value, m.lists[t])
  {
    assert TileOk(c, m.ts[t], m.lists[t]);
  }

  function WithBody(t: Tile, b: Body): Tile { t.(body := Some(b)) }

  ghost function WithLinks(m: Mesh, i: nat, b: Body, ls: seq<seq<nat>>): Mesh
    requires i < |m.ts| && i < |m.lists|
  {
    m.(ts := m.ts[i := WithBody(m.ts[i], b)], lists := m.lists[i := ls])
  }

  lemma DataOkFrame(c: Layout, b: Body, b': Body)
    requires DataOk(c, b) && Frame(b') == Frame(b)
    ensures DataOk(c, b')
  {
    FrameSize(b', b);
    forall i, j | 0 <= i < |b'.polys| && 0 <= j < |b'.polys[i].neis|
      ensures b'.polys[i].neis[j].Inner? ==> b'.polys[i].neis[j].poly < |b'.polys|
    {
      FrameOfPoly(b', b, i, 0);
    }
  }

  /** Rewriting the links of one tile keeps the mesh in order, if the new links are threaded and good. */
  lemma RelinkOk(c: Config, m: Mesh, i: nat, b: Body, ls: seq<seq<nat>>)
    requires MeshOk(c, m) && i < |m.ts| && |m.ts| == |m.lists| && m.ts[i].body.Some?
    requires Frame(b) == Frame(m.ts[i].body.value)
    requires LinksOk(b, ls) && |ls| == |b.polys| + 1 && LinksGood(c.layout, m.ts, b, ls)
    ensures MeshOk(c, WithLinks(m, i, b, ls)) && SameShape(m.ts, WithLinks(m, i, b, ls).ts)
  {
    var m' := WithLinks(m, i, b, ls);
    assert SameShape(m.ts, m'.ts);
    FrameSize(b, m.ts[i].body.value);
    RelinkSlots(c, m, m');
    RelinkTiles(c.layout, m, i, b, ls);
    RelinkRefs(c.layout, m, i, b, ls);
  }

  lemma RelinkSlots(c: Config, m: Mesh, m': Mesh)
    requires ConfigOk(c) && SlotsOk(c, m) && Unique(m.ts) && SameShape(m.ts, m'.ts) && m'.heads == m.heads
    requires m'.slots == m.slots
    ensures SlotsOk(c, m') && Unique(m'.ts)
  {
    hide Frame, Threaded;
    forall i: nat | i < |m.ts| ensures Home(c, m'.ts[i]) == Home(c, m.ts[i]) && m'.ts[i].next == m.ts[i].next {
      assert SameTile(m.ts[i], m'.ts[i]);
      if m.ts[i].body.Some? { SameFrame(m.ts[i], m'.ts[i]); }
    }
    assert SlotNexts(m'.ts) == SlotNexts(m.ts);
    forall i, j | 0 <= i < j < |m'.ts| && m'.ts[i].body.Some? && m'.ts[j].body.Some?
      ensures !SamePlace(m'.ts[i].body.value, m'.ts[j].body.value)
    {
      assert SameTile(m.ts[i], m'.ts[i]) && SameTile(m.ts[j], m'.ts[j]);
      SameFrame(m.ts[i], m'.ts[i]);
      SameFrame(m.ts[j], m'.ts[j]);
    }
  }

  lemma RelinkTiles(c: Layout, m: Mesh, i: nat, b: Body, ls: seq<seq<nat>>)
    requires TilesOk(c, m) && i < |m.ts| && m.ts[i].body.Some? && Frame(b) == Frame(m.ts[i].body.value)
    requires LinksOk(b, ls) && |ls| == |b.polys| + 1
    ensures TilesOk(c, WithLinks(m, i, b, ls))
  {
    hide DataOk, LinksOk, Frame;
    var m' := WithLinks(m, i, b, ls);
    forall k | 0 <= k < |m'.ts| ensures TileOk(c, m'.ts[k], m'.lists[k]) {
      assert TileOk(c, m.ts[k], m.lists[k]);
      if k == i { DataOkFrame(c, m.ts[i].body.value, b); }
    }
  }

  lemma RelinkRefs(c: Layout, m: Mesh, i: nat, b: Body, ls: seq<seq<nat>>)
    requires c.Ok() && RefsOk(c, m) && i < |m.ts| && m.ts[i].body.Some? && ls != []
    requires SameShape(m.ts, WithLinks(m, i, b, ls).ts) && LinksGood(c, m.ts, b, ls)
    ensures RefsOk(c, WithLinks(m, i, b, ls))
  {
    hide LinksGood, SameShape;
    var m' := WithLinks(m, i, b, ls);
    forall k | 0 <= k < |m'.ts| && m'.ts[k].body.Some?
      ensures m'.lists[k] != [] && LinksGood(c, m'.ts, m'.ts[k].body.value, m'.lists[k])
    {
      LinksGoodFrame(c, m.ts, m'.ts, m'.ts[k].body.value, m'.lists[k]);
    }
  }

  /** A polygon of a live tile, addressed from a tile next to it. */
  lemma MakeRef(c: Layout, m: Mesh, u: nat, ip: nat, x: int, y: int)
    requires c.Ok() && TilesOk(c, m) && u < |m.ts| && m.ts[u].body.Some?
    requires ip < |m.ts[u].body.value.polys| && Near(x, y, m.ts[u].body.value)
    ensures GoodRef(c, m.ts, x, y, Encode(c, m.ts[u].salt, u, ip))
  {
    hide Encode, DecodeTile, DecodePoly, DecodeSalt;
    assert TileOk(c, m.ts[u], m.lists[u]);
    DecodeEncode(c, m.ts[u].salt, u, ip);
  }

  /** Adding one good link to a polygon of tile `i`. */
  lemma AddLinkOk(c: Config, m: Mesh, i: nat, p: nat, ref: nat, edge: nat, side: nat)
    requires MeshOk(c, m) && i < |m.ts| && |m.ts| == |m.lists| && m.ts[i].body.Some? && p < |m.ts[i].body.value.polys|
    requires var b := m.ts[i].body.value; GoodRef(c.layout, m.ts, b.x, b.y, ref)
    ensures var b, ls := m.ts[i].body.value, m.lists[i];
            && Fillable(b) && |ls| == |b.polys| + 1
            && var m' := WithLinks(m, i, PushLink(b, p, ref, edge, side), PushLists(ls, p));
               MeshOk(c, m') && Grown(m, m')
  {
    var b, ls := m.ts[i].body.value, m.lists[i];
    assert TileOk(c.layout, m.ts[i], m.lists[i]) && LinksGood(c.layout, m.ts, b, ls);
    hide MeshOk, LinksUpto, GoodRef, BodyGrows, Grown;
    assert TilesOk(c.layout, m) by { MeshTiles(c, m); }
    PushLinkOk(b, ls, |b.polys|, p, ref, edge, side);
    PushLinkFrame(b, p, ref, edge, side);
    var b', ls' := PushLink(b, p, ref, edge, side), PushLists(ls, p);
    forall j: nat | j < |b'.links| && j !in ls'[0] ensures GoodRef(c.layout, m.ts, b'.x, b'.y, b'.links[j].ref) {
      PushLinkUsed(b, ls, p, ref, edge, side, j);
    }
    RelinkOk(c, m, i, b', ls');
    PushGrows(b, ls, p, ref, edge, side);
    GrownOne(c.layout, m, i, b', ls');
  }

  lemma MeshTiles(c: Config, m: Mesh)
    requires MeshOk(c, m)
    ensures TilesOk(c.layout, m)
  {
  }

  /** No link in use in tile `i` refers into tile `target`. */
  ghost predicate Avoids(c: Layout, m: Mesh, i: nat, target: nat)
    requires c.Ok()
  {
    i < |m.ts| && i < |m.lists| && (m.ts[i].body.Some? ==>
      m.lists[i] != [] &&
      forall j: nat | j < |m.ts[i].body.value.links| && j !in m.lists[i][0] ::
        DecodeTile(c, m.ts[i].body.value.links[j].ref) != target)
  }

  /** Disconnecting tile `i` from a target tile. */
  lemma UnconnectOk(c: Config, m: Mesh, i: nat, target: nat, b: Body, ls: seq<seq<nat>>)
    requires MeshOk(c, m) && i < |m.ts| && |m.ts| == |m.lists| && m.ts[i].body.Some? && m.lists[i] != []
    requires LinksOk(b, ls) && |ls| == |m.lists[i]| && Frame(b) == Frame(m.ts[i].body.value)
    requires SameInfo(b, m.ts[i].body.value)
    requires forall k | 1 <= k < |ls| :: ls[k] == Kept(c.layout, m.ts[i].body.value.links, target, m.lists[i][k])
    ensures var m' := WithLinks(m, i, b, ls);
            MeshOk(c, m') && SameShape(m.ts, m'.ts) && Avoids(c.layout, m', i, target)
  {
    var b0, ls0 := m.ts[i].body.value, m.lists[i];
    assert TileOk(c.layout, m.ts[i], m.lists[i]) && LinksGood(c.layout, m.ts, b0, ls0);
    hide MeshOk, LinksUpto, GoodRef, Kept, DecodeTile, Frame;
    FrameSize(b, b0);
    forall j: nat | j < |b.links| && j !in ls[0]
      ensures GoodRef(c.layout, m.ts, b.x, b.y, b.links[j].ref) && DecodeTile(c.layout, b.links[j].ref) != target
    {
      StillUsed(c.layout, b0, ls0, b, ls, target, j);
    }
    RelinkOk(c, m, i, b, ls);
  }

  /** Some tiles other than `target` were stripped of their links into it; the rest of the mesh is the same. */
  ghost predicate Stripping(c: Layout, m: Mesh, m': Mesh, target: nat)
    requires c.Ok()
  {
    && |m'.ts| == |m.ts| && |m.lists| == |m.ts| && |m'.lists| == |m.ts| && m'.heads == m.heads && m'.slots == m.slots
    && forall i: nat | i < |m.ts| :: TileStripping(c, m, m', target, i)
  }

  ghost predicate TileStripping(c: Layout, m: Mesh, m': Mesh, target: nat, i: nat)
    requires c.Ok() && i < |m.ts| && |m'.ts| == |m.ts| && |m.lists| == |m.ts| && |m'.lists| == |m.ts|
  {
    || (m'.ts[i] == m.ts[i] && m'.lists[i] == m.lists[i])
    || (i != target && TileStripped(c, m, m', target, i))
  }

  ghost predicate TileStripped(c: Layout, m: Mesh, m': Mesh, target: nat, i: nat)
    requires c.Ok() && i < |m.ts| && |m'.ts| == |m.ts| && |m.lists| == |m.ts| && |m'.lists| == |m.ts|
  {
    && m'.ts[i].salt == m.ts[i].salt && (m'.ts[i].body.Some? <==> m.ts[i].body.Some?)
    && (m.ts[i].body.Some? ==>
        BodyStripped(c, m.ts[i].body.value, m.lists[i], m'.ts[i].body.value, m'.lists[i], target))
  }

  lemma StrippingStep(c: Layout, m: Mesh, m1: Mesh, m2: Mesh, target: nat, k: nat)
    requires c.Ok() && Stripping(c, m, m1, target) && k < |m.ts| && k != target
    requires m2 == m1.(ts := m2.ts, lists := m2.lists) && |m2.ts| == |m1.ts| == |m2.lists|
    requires TileStripped(c, m1, m2, target, k)
    requires forall i | 0 <= i < |m.ts| && i != k :: m2.ts[i] == m1.ts[i] && m2.lists[i] == m1.lists[i]
    ensures Stripping(c, m, m2, target)
  {
    hide BodyStripped;
    forall i: nat | i < |m.ts| ensures TileStripping(c, m, m2, target, i) {
      assert TileStripping(c, m, m1, target, i);
      if i == k && m.ts[i].body.Some? && !(m1.ts[i] == m.ts[i] && m1.lists[i] == m.lists[i]) {
        StrippedTwice(c, m.ts[i].body.value, m.lists[i], m1.ts[i].body.value, m1.lists[i], m2.ts[i].body.value,
                      m2.lists[i], target);
      }
    }
  }

  lemma StrippingNone(c: Layout, m: Mesh, target: nat)
    requires c.Ok() && |m.lists| == |m.ts|
    ensures Stripping(c, m, m, target)
  {
  }

  lemma StrippingSizes(c: Layout, m: Mesh, m': Mesh, target: nat)
    requires c.Ok() && Stripping(c, m, m', target)
    ensures |m'.ts| == |m.ts| && |m.lists| == |m.ts| && |m'.lists| == |m.ts|
  {
  }

  lemma StrippingTrans(c: Layout, m: Mesh, m1: Mesh, m2: Mesh, target: nat)
    requires c.Ok() && Stripping(c, m, m1, target) && Stripping(c, m1, m2, target)
    ensures Stripping(c, m, m2, target)
  {
    hide BodyStripped;
    forall i: nat | i < |m.ts| ensures TileStripping(c, m, m2, target, i) {
      assert TileStripping(c, m, m1, target, i) && TileStripping(c, m1, m2, target, i);
      if && m.ts[i].body.Some? && !(m1.ts[i] == m.ts[i] && m1.lists[i] == m.lists[i])
         && !(m2.ts[i] == m1.ts[i] && m2.lists[i] == m1.lists[i])
      {
        StrippedTwice(c, m.ts[i].body.value, m.lists[i], m1.ts[i].body.value, m1.lists[i], m2.ts[i].body.value,
                      m2.lists[i], target);
      }
    }
  }

  /** When no tile refers to `target` any more, every other one was stripped. */
  lemma StrippingDone(c: Config, m: Mesh, m': Mesh, target: nat, i: nat)
    requires MeshOk(c, m') && Stripping(c.layout, m, m', target) && i < |m.ts| && i != target
    requires Avoids(c.layout, m', i, target)
    ensures TileStripped(c.layout, m, m', target, i)
  {
    assert TileStripping(c.layout, m, m', target, i) && TileOk(c.layout, m'.ts[i], m'.lists[i]);
    if m'.ts[i].body.Some? && m'.ts[i] == m.ts[i] && m'.lists[i] == m.lists[i] {
      StrippedIdle(c.layout, m'.ts[i].body.value, m'.lists[i], target);
    }
  }

  // ---- Moving a slot between lists ----

  /** The tile table after unlinking slot `x` (after `prev`, or first) and replacing it by `t`. */
  function Relocate(ts: seq<Tile>, prev: int, x: nat, t: Tile): seq<Tile>
    requires x < |ts| && prev < |ts|
  {
    if prev < 0 then ts[x := t] else ts[prev := ts[prev].(next := ts[x].next)][x := t]
  }

  lemma RelocateNexts(ts: seq<Tile>, prev: int, x: nat, t: Tile)
    requires x < |ts| && -1 <= prev < |ts| && prev != x
    ensures SlotNexts(Relocate(ts, prev, x, t)) == MoveNext(SlotNexts(ts), prev, x, t.next)
  {
  }

  /** Slots other than `x` keep their contents. */
  ghost predicate OthersSame(ts: seq<Tile>, ts': seq<Tile>, x: nat) {
    |ts'| == |ts| && forall i | 0 <= i < |ts| && i != x :: ts'[i].salt == ts[i].salt && ts'[i].body == ts[i].body
  }

  lemma MovedMember(slots: seq<seq<nat>>, a: nat, p: nat, b: nat, k: nat, i: nat)
    requires a < |slots| && b < |slots| && a != b && p < |slots[a]| && k < |slots| && i in slots[k] && i != slots[a][p]
    ensures i in MoveLists(slots, a, p, b)[k]
  {
    var q :| 0 <= q < |slots[k]| && slots[k][q] == i;
    var s := MoveLists(slots, a, p, b)[k];
    if k == a {
      assert s == Without(slots[a], p);
      assert s[if q < p then q else q - 1] == i;
    } else if k == b {
      assert s[q + 1] == i;
    }
  }

  /** Taking a slot from its home to the home of its new contents keeps every slot in its place. */
  lemma RelocateSlots(c: Config, m: Mesh, a: nat, p: nat, t: Tile)
    requires ConfigOk(c) && SlotsOk(c, m) && a < |m.slots| && p < |m.slots[a]|
    requires Home(c, t) < |m.slots| && a != Home(c, t) && |m.heads| == |m.slots| && t.next == m.heads[Home(c, t)]
    ensures var x, prev, b := m.slots[a][p], if p == 0 then NULL else m.slots[a][p - 1], Home(c, t);
            && x < |m.ts| && prev < |m.ts|
            && OthersSame(m.ts, Relocate(m.ts, prev, x, t), x) && Relocate(m.ts, prev, x, t)[x] == t
            && SlotsOk(c, m.(ts := Relocate(m.ts, prev, x, t),
                             heads := MoveHeads(SlotNexts(m.ts), m.heads, a, prev, x, b),
                             slots := MoveLists(m.slots, a, p, b)))
  {
    var x, prev, b := m.slots[a][p], if p == 0 then NULL else m.slots[a][p - 1], Home(c, t);
    RelocateThreads(m.ts, m.heads, m.slots, a, p, b, t);
    hide Threaded, MoveLists, MoveHeads, Relocate;
    var ts' := Relocate(m.ts, prev, x, t);
    var slots' := MoveLists(m.slots, a, p, b);
    forall i: nat | i < |ts'| ensures Home(c, ts'[i]) < |slots'| && i in slots'[Home(c, ts'[i])] {
      if i != x {
        assert Home(c, ts'[i]) == Home(c, m.ts[i]);
        MovedMember(m.slots, a, p, b, Home(c, m.ts[i]), i);
      }
    }
  }

  lemma RelocateThreads(ts: seq<Tile>, heads: seq<int>, slots: seq<seq<nat>>, a: nat, p: nat, b: nat, t: Tile)
    requires Threaded(SlotNexts(ts), heads, slots) && a < |slots| && b < |slots| && a != b && p < |slots[a]|
    requires |heads| == |slots| && t.next == heads[b]
    ensures var x, prev := slots[a][p], if p == 0 then NULL else slots[a][p - 1];
            && x < |ts| && prev < |ts|
            && OthersSame(ts, Relocate(ts, prev, x, t), x) && Relocate(ts, prev, x, t)[x] == t
            && |MoveHeads(SlotNexts(ts), heads, a, prev, x, b)| == |heads|
            && |MoveLists(slots, a, p, b)| == |slots| && x in MoveLists(slots, a, p, b)[b]
            && Threaded(SlotNexts(Relocate(ts, prev, x, t)), MoveHeads(SlotNexts(ts), heads, a, prev, x, b),
                        MoveLists(slots, a, p, b))
  {
    hide Threaded, SlotNexts;
    var x, prev := slots[a][p], if p == 0 then NULL else slots[a][p - 1];
    NextsSize(ts);
    MoveThreads(SlotNexts(ts), heads, slots, a, p, b);
    if p > 0 && prev == x { Exclusive(SlotNexts(ts), heads, slots, a, p - 1, a, p); }
    RelocateNexts(ts, prev, x, t);
    assert MoveLists(slots, a, p, b)[b][0] == x;
  }

  lemma NextsSize(ts: seq<Tile>)
    ensures |SlotNexts(ts)| == |ts|
  {
  }

  /** A slot is found on its home list. */
  lemma OnHomeList(c: Config, m: Mesh, x: nat, a: nat, p: nat)
    requires ConfigOk(c) && SlotsOk(c, m) && x < |m.ts| && a < |m.slots| && p < |m.slots[a]| && m.slots[a][p] == x
    ensures a == Home(c, m.ts[x])
  {
    var q :| 0 <= q < |m.slots[Home(c, m.ts[x])]| && m.slots[Home(c, m.ts[x])][q] == x;
    Exclusive(SlotNexts(m.ts), m.heads, m.slots, a, p, Home(c, m.ts[x]), q);
  }

  // ---- Installing and removing a tile ----

  lemma GoodRefElsewhere(c: Layout, ts: seq<Tile>, ts': seq<Tile>, slot: nat, x: int, y: int, ref: nat)
    requires c.Ok() && OthersSame(ts, ts', slot) && GoodRef(c, ts, x, y, ref) && DecodeTile(c, ref) != slot
    ensures GoodRef(c, ts', x, y, ref)
  {
    hide DecodeTile, DecodeSalt, DecodePoly;
  }

  lemma LinksGoodElsewhere(c: Layout, m: Mesh, ts': seq<Tile>, slot: nat, i: nat)
    requires c.Ok() && RefsOk(c, m) && OthersSame(m.ts, ts', slot) && Avoids(c, m, i, slot) && m.ts[i].body.Some?
    ensures LinksGood(c, ts', m.ts[i].body.value, m.lists[i])
  {
    hide GoodRef, DecodeTile, OthersSame;
    var b, ls := m.ts[i].body.value, m.lists[i];
    assert LinksGood(c, m.ts, b, ls);
    forall j: nat | j < |b.links| && j !in ls[0] ensures GoodRef(c, ts', b.x, b.y, b.links[j].ref) {
      GoodRefElsewhere(c, m.ts, ts', slot, b.x, b.y, b.links[j].ref);
    }
  }

  /** Nothing refers to a free slot. */
  lemma FreeSlotAvoided(c: Layout, m: Mesh, slot: nat, i: nat)
    requires c.Ok() && RefsOk(c, m) && slot < |m.ts| && m.ts[slot].body.None? && i < |m.ts|
    ensures Avoids(c, m, i, slot)
  {
    hide DecodeTile, DecodeSalt, DecodePoly;
    if m.ts[i].body.Some? {
      assert LinksGood(c, m.ts, m.ts[i].body.value, m.lists[i]);
    }
  }

  lemma ReplaceTiles(c: Layout, m: Mesh, ts': seq<Tile>, slot: nat, ls: seq<seq<nat>>)
    requires TilesOk(c, m) && slot < |m.ts| && OthersSame(m.ts, ts', slot) && TileOk(c, ts'[slot], ls)
    ensures TilesOk(c, m.(ts := ts', lists := m.lists[slot := ls]))
  {
    hide DataOk, LinksOk;
    var m' := m.(ts := ts', lists := m.lists[slot := ls]);
    forall i | 0 <= i < |ts'| ensures TileOk(c, m'.ts[i], m'.lists[i]) {
      assert TileOk(c, m.ts[i], m.lists[i]);
    }
  }

  /** New contents for a slot nobody refers to. */
  lemma ReplaceRefs(c: Layout, m: Mesh, ts': seq<Tile>, slot: nat, ls: seq<seq<nat>>)
    requires c.Ok() && RefsOk(c, m) && slot < |m.ts| && OthersSame(m.ts, ts', slot)
    requires forall i: nat | i < |m.ts| && i != slot :: Avoids(c, m, i, slot)
    requires ts'[slot].body.Some? ==> ls != [] && LinksGood(c, ts', ts'[slot].body.value, ls)
    ensures RefsOk(c, m.(ts := ts', lists := m.lists[slot := ls]))
  {
    hide LinksGood;
    var m' := m.(ts := ts', lists := m.lists[slot := ls]);
    forall i | 0 <= i < |ts'| && m'.ts[i].body.Some?
      ensures m'.lists[i] != [] && LinksGood(c, ts', m'.ts[i].body.value, m'.lists[i])
    {
      if i != slot {
        assert Avoids(c, m, i, slot);
        LinksGoodElsewhere(c, m, ts', slot, i);
      }
    }
  }

  /** The reference names a polygon of the tile being installed. */
  ghost predicate OwnRef(c: Layout, salt: nat, slot: nat, n: nat, ref: nat) {
    exists ip: nat | ip < n :: ref == Encode(c, salt, slot, ip)
  }

  ghost predicate OwnLinks(c: Layout, salt: nat, slot: nat, b: Body, ls: seq<seq<nat>>)
    requires ls != []
  {
    forall j: nat | j < |b.links| && j !in ls[0] :: OwnRef(c, salt, slot, |b.polys|, b.links[j].ref)
  }

  lemma OwnLinksGood(c: Layout, ts: seq<Tile>, slot: nat, b: Body, ls: seq<seq<nat>>)
    requires c.Ok() && slot < |ts| <= c.tiles && ts[slot].body == Some(b) && ts[slot].salt < c.salts
    requires ts[slot].salt >= 1
    requires |b.polys| <= c.polys && ls != [] && OwnLinks(c, ts[slot].salt, slot, b, ls)
    ensures LinksGood(c, ts, b, ls)
  {
    hide Encode, DecodeTile, DecodePoly, DecodeSalt;
    forall j: nat | j < |b.links| && j !in ls[0] ensures GoodRef(c, ts, b.x, b.y, b.links[j].ref) {
      assert OwnRef(c, ts[slot].salt, slot, |b.polys|, b.links[j].ref);
      var ip: nat :| ip < |b.polys| && b.links[j].ref == Encode(c, ts[slot].salt, slot, ip);
      DecodeEncode(c, ts[slot].salt, slot, ip);
    }
  }

  /** No live tile occupies the place of `b`. */
  ghost predicate PlaceFree(ts: seq<Tile>, b: Body) {
    forall i | 0 <= i < |ts| && ts[i].body.Some? :: !SamePlace(ts[i].body.value, b)
  }

  /** Slot `slots[a][p]` with new contents `t`, on the list where `t` belongs. */
  ghost function Moved(c: Config, m: Mesh, a: nat, p: nat, t: Tile, ls: seq<seq<nat>>): Mesh
    requires ConfigOk(c) && SlotsOk(c, m) && |m.lists| == |m.ts| && a < |m.slots| && p < |m.slots[a]|
  {
    assert Linked(SlotNexts(m.ts), m.heads[a], m.slots[a]);
    var x, prev := m.slots[a][p], if p == 0 then NULL else m.slots[a][p - 1];
    Mesh(Relocate(m.ts, prev, x, t), MoveHeads(SlotNexts(m.ts), m.heads, a, prev, x, Home(c, t)),
         MoveLists(m.slots, a, p, Home(c, t)), m.lists[x := ls])
  }

  /** The four parts of a moved mesh. */
  lemma MovedIs(c: Config, m: Mesh, m': Mesh, a: nat, p: nat, prev: int, t: Tile, ls: seq<seq<nat>>)
    requires ConfigOk(c) && SlotsOk(c, m) && |m.lists| == |m.ts| && a < |m.slots| && p < |m.slots[a]|
    requires |m.heads| == |m.slots| && Home(c, t) < |m.slots| && m.slots[a][p] < |m.ts| == |SlotNexts(m.ts)|
    requires prev == (if p == 0 then NULL else m.slots[a][p - 1]) && prev < |m.ts|
    requires m'.ts == Relocate(m.ts, prev, m.slots[a][p], t)
    requires m'.heads == MoveHeads(SlotNexts(m.ts), m.heads, a, prev, m.slots[a][p], Home(c, t))
    requires m'.slots == MoveLists(m.slots, a, p, Home(c, t)) && m'.lists == m.lists[m.slots[a][p] := ls]
    ensures m' == Moved(c, m, a, p, t, ls)
  {
    hide SlotsOk, Relocate, MoveHeads, MoveLists, SlotNexts;
  }

  /** Replacing the contents of a slot that nothing refers to, moving it to its new home. */
  lemma MovedOk(c: Config, m: Mesh, a: nat, p: nat, t: Tile, ls: seq<seq<nat>>)
    requires MeshOk(c, m) && |m.lists| == |m.ts| && a < |m.slots| && p < |m.slots[a]| && |m.heads| == |m.slots|
    requires Home(c, t) < |m.slots| && a != Home(c, t) && t.next == m.heads[Home(c, t)]
    requires TileOk(c.layout, t, ls)
    requires t.body.Some? ==>
               PlaceFree(m.ts, t.body.value) && OwnLinks(c.layout, t.salt, m.slots[a][p], t.body.value, ls)
    requires forall i: nat | i < |m.ts| && i != m.slots[a][p] :: Avoids(c.layout, m, i, m.slots[a][p])
    ensures MeshOk(c, Moved(c, m, a, p, t, ls))
    ensures m.slots[a][p] < |m.ts| && OthersSame(m.ts, Moved(c, m, a, p, t, ls).ts, m.slots[a][p])
    ensures Moved(c, m, a, p, t, ls).ts[m.slots[a][p]] == t
  {
    var x := m.slots[a][p];
    var m' := Moved(c, m, a, p, t, ls);
    RelocateSlots(c, m, a, p, t);
    assert SlotsOk(c, m') by {
      assert SlotsOk(c, m.(ts := m'.ts, heads := m'.heads, slots := m'.slots));
    }
    hide SlotsOk, Moved, Relocate, LinksUpto, LinksOk;
    if t.body.Some? { OwnLinksGood(c.layout, m'.ts, x, t.body.value, ls); }
    ReplaceTiles(c.layout, m, m'.ts, x, ls);
    ReplaceRefs(c.layout, m, m'.ts, x, ls);
    ReplaceUnique(m.ts, m'.ts, x);
    TilesOkAnySlots(c.layout, m.(ts := m'.ts, lists := m'.lists), m');
  }

  lemma ReplaceUnique(ts: seq<Tile>, ts': seq<Tile>, x: nat)
    requires Unique(ts) && OthersSame(ts, ts', x) && x < |ts|
    requires ts'[x].body.Some? ==> PlaceFree(ts, ts'[x].body.value)
    ensures Unique(ts')
  {
  }

  lemma TilesOkAnySlots(c: Layout, m: Mesh, m': Mesh)
    requires c.Ok() && TilesOk(c, m) && RefsOk(c, m) && m'.ts == m.ts && m'.lists == m.lists
    ensures TilesOk(c, m') && RefsOk(c, m')
  {
  }

  // ---- Distance ----

  /** Links only lead to the same or an adjacent position. */
  lemma FarAvoids(c: Layout, m: Mesh, i: nat, x: nat)
    requires c.Ok() && RefsOk(c, m) && i < |m.ts| && x < |m.ts| && m.ts[x].body.Some?
    requires m.ts[i].body.Some? ==> !Near(m.ts[i].body.value.x, m.ts[i].body.value.y, m.ts[x].body.value)
    ensures Avoids(c, m, i, x)
  {
    hide DecodeTile, DecodeSalt, DecodePoly;
    if m.ts[i].body.Some? {
      assert LinksGood(c, m.ts, m.ts[i].body.value, m.lists[i]);
    }
  }

  // ---- Looking up by position ----

  predicate AtPlace(t: Tile, x: int, y: int) { t.body.Some? && t.body.value.x == x && t.body.value.y == y }

  /** The slots of a chain that hold a tile at (x, y), in chain order. */
  function PlaceFilter(ts: seq<Tile>, s: seq<nat>, x: int, y: int): seq<nat> {
    if s == [] then []
    else (if s[0] < |ts| && AtPlace(ts[s[0]], x, y) then [s[0]] else []) + PlaceFilter(ts, s[1..], x, y)
  }

  lemma {:induction false} PlaceFilterMember(ts: seq<Tile>, s: seq<nat>, x: int, y: int, i: nat)
    ensures i in PlaceFilter(ts, s, x, y) <==> i in s && i < |ts| && AtPlace(ts[i], x, y)
  {
    if s != [] {
      PlaceFilterMember(ts, s[1..], x, y, i);
      assert s == [s[0]] + s[1..];
    }
  }

  /** All live tiles at (x, y), as the bucket's chain lists them. */
  ghost function TilesAt(c: Config, m: Mesh, x: int, y: int): seq<nat>
    requires 1 + c.hash(x, y) < |m.slots|
  {
    PlaceFilter(m.ts, m.slots[1 + c.hash(x, y)], x, y)
  }

  lemma InHome(c: Config, m: Mesh, i: nat)
    requires SlotsOk(c, m) && i < |m.ts|
    ensures |m.slots| == c.lutSize + 1 && Home(c, m.ts[i]) < |m.slots| && i in m.slots[Home(c, m.ts[i])]
  {
  }

  lemma TilesAtComplete(c: Config, m: Mesh, x: int, y: int, i: nat)
    requires ConfigOk(c) && SlotsOk(c, m) && i < |m.ts|
    ensures 1 + c.hash(x, y) < |m.slots| && (i in TilesAt(c, m, x, y) <==> AtPlace(m.ts[i], x, y))
  {
    hide SlotsOk, PlaceFilter;
    InHome(c, m, i);
    PlaceFilterMember(m.ts, m.slots[1 + c.hash(x, y)], x, y, i);
  }

  lemma {:induction false} PlaceFilterFrame(ts: seq<Tile>, ts': seq<Tile>, s: seq<nat>, x: int, y: int)
    requires |ts| == |ts'| && forall i | 0 <= i < |ts| :: AtPlace(ts'[i], x, y) == AtPlace(ts[i], x, y)
    ensures PlaceFilter(ts', s, x, y) == PlaceFilter(ts, s, x, y)
  {
    if s != [] { PlaceFilterFrame(ts, ts', s[1..], x, y); }
  }

  // ---- What the invariant means ----

  /** Every slot is in one place only: free slots on the free list, tiles on the chain of their position. */
  lemma SlotInOnePlace(c: Config, m: Mesh, x: nat, a: nat, p: nat)
    requires MeshOk(c, m) && x < |m.ts| && a < |m.slots| && p < |m.slots[a]|
    ensures m.slots[a][p] == x ==> a == Home(c, m.ts[x])
    ensures m.slots[a][p] == x ==> forall q | 0 <= q < |m.slots[a]| && q != p :: m.slots[a][q] != x
    ensures x in m.slots[Home(c, m.ts[x])]
  {
    InHome(c, m, x);
    if m.slots[a][p] == x {
      OnHomeList(c, m, x, a, p);
      forall q | 0 <= q < |m.slots[a]| && q != p ensures m.slots[a][q] != x {
        if m.slots[a][q] == x { Exclusive(SlotNexts(m.ts), m.heads, m.slots, a, p, a, q); }
      }
    }
  }

  /** In a live tile every link is free or on the list of exactly one polygon, once. */
  lemma LinkInOnePlace(c: Config, m: Mesh, t: nat, x: nat) returns (k: nat, i: nat)
    requires MeshOk(c, m) && t < |m.ts| && m.ts[t].body.Some? && x < |m.ts[t].body.value.links|
    ensures |m.lists| == |m.ts| && |m.lists[t]| == |m.ts[t].body.value.polys| + 1
    ensures k < |m.lists[t]| && i < |m.lists[t][k]| && m.lists[t][k][i] == x
    ensures forall a: nat, j: nat | a < |m.lists[t]| && j < |m.lists[t][a]| && m.lists[t][a][j] == x :: a == k && j == i
  {
    var b, ls := m.ts[t].body.value, m.lists[t];
    assert TileOk(c.layout, m.ts[t], ls);
    assert Count(ls, x) == 1;
    k, i := OnSomeList(ls, x);
    forall a: nat, j: nat | a < |ls| && j < |ls[a]| && ls[a][j] == x ensures a == k && j == i {
      Exclusive(Nexts(b.links), Heads(b, |b.polys|), ls, a, j, k, i);
    }
  }

  /** Walking any polygon's links only meets references to existing polygons of tiles here or next door. */
  lemma NoDanglingLink(c: Config, m: Mesh, t: nat, p: nat, i: nat)
    requires MeshOk(c, m) && t < |m.ts| && m.ts[t].body.Some? && p < |m.ts[t].body.value.polys|
    requires |m.lists| == |m.ts| && p + 1 < |m.lists[t]| && i < |m.lists[t][p + 1]|
    ensures var b := m.ts[t].body.value;
            m.lists[t][p + 1][i] < |b.links| && GoodRef(c.layout, m.ts, b.x, b.y, b.links[m.lists[t][p + 1][i]].ref)
  {
    var b, ls := m.ts[t].body.value, m.lists[t];
    assert TileOk(c.layout, m.ts[t], ls) && LinksGood(c.layout, m.ts, b, ls);
    hide GoodRef;
    var x := ls[p + 1][i];
    assert Linked(Nexts(b.links), Heads(b, |b.polys|)[p + 1], ls[p + 1]);
    NotOnTwo(Nexts(b.links), Heads(b, |b.polys|), ls, p + 1, 0, x);
  }
}

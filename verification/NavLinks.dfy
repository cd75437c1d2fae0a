/**
 Facts about meshes that the tile manager's methods rely on: which links portals and off-mesh connections ask for,
 what connecting and disconnecting keep, and how positions are looked up.
 */
module NavLinks {
  import opened Basics
  import opened IndexLists
  import opened NavTile
  import opened NavState

  const MAX_NEIS := 32
  const NO_SIDE := 0xff

  /**
   Geometry tests, arbitrary here: do two portal edges touch, and which polygon of a tile (if any) an
   off-mesh connection's start or end point snaps to, and where on it.
   They are asked about the frames of tiles, which hold the ground vertices: only the end points of off-mesh
   connections snap, and those are not looked at again.
   */
  datatype Geometry = Geometry(touches: (Body, nat, nat, Body, nat, nat) -> bool,
                               nearest: (Body, OffMesh, bool) -> Option<(nat, Vertex)>)

  ghost predicate GeometryOk(g: Geometry) {
    forall b, con, end :: g.nearest(b, con, end).Some? ==> g.nearest(b, con, end).value.0 < |b.polys|
  }

  function OppositeTile(side: nat): nat { (side + 4) % 8 }

  lemma MeshSizes(c: Config, m: Mesh)
    requires MeshOk(c, m)
    ensures |m.lists| == |m.ts| <= c.layout.tiles && c.layout.Ok() && ConfigOk(c)
    ensures |m.heads| == |m.slots| == c.lutSize + 1
  {
  }

  lemma MeshTile(c: Config, m: Mesh, i: nat)
    requires MeshOk(c, m) && i < |m.ts|
    ensures i < |m.lists| && TileOk(c.layout, m.ts[i], m.lists[i])
    ensures m.ts[i].body.Some? ==> m.lists[i] != []
  {
  }

  function Polys(t: Tile): nat { if t.body.Some? then |t.body.value.polys| else 0 }

  /** Both tiles are live and at the same or neighbouring positions. */
  ghost predicate Adjacent(ts: seq<Tile>, t: nat, u: nat) {
    && t < |ts| && u < |ts| && ts[t].body.Some? && ts[u].body.Some?
    && Near(ts[t].body.value.x, ts[t].body.value.y, ts[u].body.value)
  }

  lemma BothLive(ts: seq<Tile>, t: nat, u: nat)
    requires Adjacent(ts, t, u)
    ensures t < |ts| && u < |ts| && ts[t].body.Some? && ts[u].body.Some?
  {
  }

  lemma AdjacentFrame(ts: seq<Tile>, ts': seq<Tile>, t: nat, u: nat)
    requires SameShape(ts, ts') && Adjacent(ts, t, u)
    ensures Adjacent(ts', t, u) && Polys(ts'[t]) == Polys(ts[t]) && Polys(ts'[u]) == Polys(ts[u])
    ensures ts'[t].body.value.cons == ts[t].body.value.cons && ts'[u].body.value.cons == ts[u].body.value.cons
  {
    hide Frame;
    assert SameTile(ts[t], ts'[t]) && SameTile(ts[u], ts'[u]);
    SameFrame(ts[t], ts'[t]);
    SameFrame(ts[u], ts'[u]);
  }

  lemma SameShapeRefl(ts: seq<Tile>)
    ensures SameShape(ts, ts)
  {
  }

  lemma MeshRef(c: Config, m: Mesh, u: nat, k: nat, x: int, y: int)
    requires MeshOk(c, m) && u < |m.ts| && m.ts[u].body.Some? && k < |m.ts[u].body.value.polys|
    requires Near(x, y, m.ts[u].body.value)
    ensures c.layout.Ok() && GoodRef(c.layout, m.ts, x, y, Encode(c.layout, m.ts[u].salt, u, k))
  {
    MakeRef(c.layout, m, u, k, x, y);
  }

  // ---- Portal links ----

  /** The polygons of `b` below `n` that portal edge `j` of polygon `i` connects to, in order. */
  ghost function Connecting(g: Geometry, a: Body, i: nat, j: nat, b: Body, side: nat, n: nat): seq<nat> {
    if n == 0 then []
    else Connecting(g, a, i, j, b, side, n - 1) + if Connects(g, a, i, j, b, n - 1, side) then [n - 1] else []
  }

  lemma {:induction false} ConnectingExact(g: Geometry, a: Body, i: nat, j: nat, b: Body, side: nat, n: nat, k: nat)
    ensures k in Connecting(g, a, i, j, b, side, n) <==> k < n && Connects(g, a, i, j, b, k, side)
  {
    hide Connects;
    if n > 0 { ConnectingExact(g, a, i, j, b, side, n - 1, k); }
  }

  lemma ConnectingBelow(g: Geometry, a: Body, i: nat, j: nat, b: Body, side: nat, n: nat, k: nat)
    requires k in Take(Connecting(g, a, i, j, b, side, n), 4)
    ensures k < n
  {
    ConnectingExact(g, a, i, j, b, side, n, k);
  }

  function ToRequests(c: Layout, con: seq<nat>, u: nat, salt: nat, i: nat, j: nat, dir: nat): seq<Request> {
    seq(|con|, k requires 0 <= k < |con| => Request(i, Encode(c, salt, u, con[k]), j, dir))
  }

  /** What portal edge `j` of polygon `i` asks for. */
  ghost function EdgeRequests(g: Geometry, c: Layout, a: Body, b: Body, u: nat, salt: nat, side: int, i: nat,
                              j: nat): seq<Request>
    requires i < |a.polys| && j < |a.polys[i].neis|
  {
    var nei := a.polys[i].neis[j];
    if nei.Portal? && (side == -1 || nei.dir == side)
    then ToRequests(c, Take(Connecting(g, a, i, j, b, OppositeTile(nei.dir), |b.polys|), 4), u, salt, i, j, nei.dir)
    else []
  }

  ghost function PolyRequests(g: Geometry, c: Layout, a: Body, b: Body, u: nat, salt: nat, side: int, i: nat,
                              j: nat): seq<Request>
    requires i < |a.polys| && j <= |a.polys[i].neis|
  {
    if j == 0 then []
    else PolyRequests(g, c, a, b, u, salt, side, i, j - 1) + EdgeRequests(g, c, a, b, u, salt, side, i, j - 1)
  }

  /**
   Every link that the first `n` polygons of tile `a` should have into tile `b` on `side`, in the order they are made.
   */
  ghost function ExtRequests(g: Geometry, c: Layout, a: Body, b: Body, u: nat, salt: nat, side: int,
                             n: nat): seq<Request>
    requires n <= |a.polys|
  {
    if n == 0 then []
    else
      ExtRequests(g, c, a, b, u, salt, side, n - 1) +
      PolyRequests(g, c, a, b, u, salt, side, n - 1, |a.polys[n - 1].neis|)
  }

  /** Tile `t` has served these requests since `m0`; nothing else has changed. */
  ghost predicate ExtProgress(m0: Mesh, m: Mesh, t: nat, done: seq<Request>) {
    && t < |m0.ts| == |m.ts| && |m0.lists| == |m.lists| == |m0.ts| && m0.ts[t].body.Some? && m.ts[t].body.Some?
    && Served(m0.ts[t].body.value, m0.lists[t], m.ts[t].body.value, m.lists[t], done)
    && forall k | 0 <= k < |m.ts| && k != t :: m.ts[k] == m0.ts[k] && m.lists[k] == m0.lists[k]
  }

  /** The whole effect of connecting the portals of `t` with tile `u`. */
  ghost predicate ExtLinked(g: Geometry, c: Config, m: Mesh, m': Mesh, t: nat, u: nat, side: int) {
    && t < |m.ts| && u < |m.ts| && m.ts[t].body.Some? && m.ts[u].body.Some?
    && var a := Frame(m.ts[t].body.value);
       ExtProgress(m, m', t, ExtRequests(g, c.layout, a, Frame(m.ts[u].body.value), u, m.ts[u].salt, side, |a.polys|))
  }

  lemma ExtStarts(c: Config, m: Mesh, t: nat)
    requires MeshOk(c, m) && t < |m.ts| && m.ts[t].body.Some?
    ensures ExtProgress(m, m, t, [])
  {
    assert TileOk(c.layout, m.ts[t], m.lists[t]);
    ServedNone(m.ts[t].body.value, m.lists[t]);
  }

  lemma LiveLinks(c: Config, m: Mesh, t: nat)
    requires MeshOk(c, m) && t < |m.ts| == |m.lists| && m.ts[t].body.Some?
    ensures LinksOk(m.ts[t].body.value, m.lists[t]) && |m.lists[t]| == |m.ts[t].body.value.polys| + 1
  {
    assert TileOk(c.layout, m.ts[t], m.lists[t]);
  }

  lemma ExtStep(c: Config, m0: Mesh, m1: Mesh, m2: Mesh, t: nat, done: seq<Request>, r: Request)
    requires MeshOk(c, m1) && ExtProgress(m0, m1, t, done) && r.poly < |m1.ts[t].body.value.polys|
    requires Fillable(m1.ts[t].body.value) && r.poly + 1 < |m1.lists[t]|
    requires m2 == WithLinks(m1, t, PushLink(m1.ts[t].body.value, r.poly, r.ref, r.edge, r.side),
                             PushLists(m1.lists[t], r.poly))
    ensures ExtProgress(m0, m2, t, done + [r])
  {
    hide MeshOk, Served, PushLink, PushLists, LinksOk;
    LiveLinks(c, m1, t);
    ServeOne(m0.ts[t].body.value, m0.lists[t], m1.ts[t].body.value, m1.lists[t], done, r);
  }

  /** Tile `t` shows the link asked for. */
  ghost predicate HasLink(m: Mesh, t: nat, r: Request) {
    && t < |m.ts| && t < |m.lists| && m.ts[t].body.Some? && r.poly + 1 < |m.lists[t]|
    && (r.ref, r.edge, r.side) in Along(m.ts[t].body.value.links, m.lists[t][r.poly + 1])
  }

  /** Tile `t` has no link left. */
  ghost predicate Full(m: Mesh, t: nat) {
    t < |m.lists| && m.lists[t] != [] && m.lists[t][0] == []
  }

  /** Tile `t` has every link its portals on `side` call for into tile `u`, unless it ran out of links. */
  ghost predicate Joined(g: Geometry, c: Config, m: Mesh, t: nat, u: nat, side: int) {
    && t < |m.ts| && u < |m.ts| && m.ts[t].body.Some? && m.ts[u].body.Some?
    && var a := Frame(m.ts[t].body.value);
       var rs := ExtRequests(g, c.layout, a, Frame(m.ts[u].body.value), u, m.ts[u].salt, side, |a.polys|);
       Full(m, t) || forall i | 0 <= i < |rs| :: HasLink(m, t, rs[i])
  }

  /** An off-mesh connection and the polygon it lands on are linked, as far as links are left. */
  ghost predicate Attached(c: Config, m: Mesh, u: nat, p: nat, t: nat, k: nat, edge: nat, side: nat, back: bool,
                           backSide: nat) {
    && u < |m.ts| && t < |m.ts| && m.ts[u].body.Some? && m.ts[t].body.Some?
    && (Full(m, u) || HasLink(m, u, Request(p, Encode(c.layout, m.ts[t].salt, t, k), edge, side)))
    && (back ==> Full(m, t) || HasLink(m, t, Request(k, Encode(c.layout, m.ts[u].salt, u, p), 0xff, backSide)))
  }

  lemma AttachedStays(c: Config, m: Mesh, m': Mesh, u: nat, p: nat, t: nat, k: nat, edge: nat, side: nat, back: bool,
                      backSide: nat)
    requires Grown(m, m') && Attached(c, m, u, p, t, k, edge, side, back, backSide)
    ensures Attached(c, m', u, p, t, k, edge, side, back, backSide)
  {
    hide Grown, HasLink, Full, Encode, Frame;
    TileSame(m, m', u);
    TileSame(m, m', t);
    HasLinkStays(m, m', u, Request(p, Encode(c.layout, m.ts[t].salt, t, k), edge, side));
    HasLinkStays(m, m', t, Request(k, Encode(c.layout, m.ts[u].salt, u, p), 0xff, backSide));
  }

  lemma NowAttached(c: Config, m: Mesh, u: nat, p: nat, t: nat, k: nat, edge: nat, side: nat, back: bool, backSide: nat)
    requires u < |m.ts| && t < |m.ts| && m.ts[u].body.Some? && m.ts[t].body.Some?
    requires Full(m, u) || HasLink(m, u, Request(p, Encode(c.layout, m.ts[t].salt, t, k), edge, side))
    requires back ==> Full(m, t) || HasLink(m, t, Request(k, Encode(c.layout, m.ts[u].salt, u, p), 0xff, backSide))
    ensures Attached(c, m, u, p, t, k, edge, side, back, backSide)
  {
  }

  function SideCode(side: int): nat { if side < 0 then NO_SIDE else side }

  function OppositeCode(side: int): nat { if side < 0 then NO_SIDE else OppositeTile(side) }

  // ---- End points of off-mesh connections ----

  /** Where connection `i` of the tile starts on its own ground. */
  ghost predicate StartPoint(g: Geometry, b: Body, i: nat, v: Vertex) {
    var f := Frame(b);
    i < |f.cons| && g.nearest(f, f.cons[i], false).Some? && g.nearest(f, f.cons[i], false).value.1 == v
  }

  /** Where connection `i` of tile `u` lands in tile `t`. */
  ghost predicate LandPoint(g: Geometry, m: Mesh, t: nat, u: nat, side: int, i: nat, v: Vertex) {
    && t < |m.ts| && u < |m.ts| && m.ts[t].body.Some? && m.ts[u].body.Some?
    && var a, b := Frame(m.ts[t].body.value), Frame(m.ts[u].body.value);
       i < |b.cons| && b.cons[i].side == OppositeCode(side) && g.nearest(a, b.cons[i], true).Some? &&
       g.nearest(a, b.cons[i], true).value.1 == v
  }

  ghost predicate EndPoint(g: Geometry, m: Mesh, u: nat, i: nat, v: Vertex) {
    exists t: nat, side: int :: LandPoint(g, m, t, u, side, i, v)
  }

  /** An end point stays, or moves onto the ground: starts have even numbers, ends odd ones. */
  ghost predicate EndMoves(g: Geometry, m: Mesh, u: nat, k: nat, was: Vertex, now: Vertex)
    requires u < |m.ts| && m.ts[u].body.Some?
  {
    || now == was
    || (k % 2 == 0 && StartPoint(g, m.ts[u].body.value, k / 2, now))
    || (k % 2 == 1 && EndPoint(g, m, u, k / 2, now))
  }

  ghost predicate AllMove(g: Geometry, m: Mesh, u: nat, was: seq<Vertex>, now: seq<Vertex>)
    requires u < |m.ts| && m.ts[u].body.Some?
  {
    |now| == |was| && forall k: nat | k < |was| :: EndMoves(g, m, u, k, was[k], now[k])
  }

  /** No end point moved except onto the ground. */
  ghost predicate EndsMoved(g: Geometry, m: Mesh, m': Mesh) {
    |m'.ts| == |m.ts| && forall u: nat | u < |m.ts| && m.ts[u].body.Some? ::
      m'.ts[u].body.Some? && AllMove(g, m', u, m.ts[u].body.value.ends, m'.ts[u].body.value.ends)
  }

  ghost predicate SameEnds(m: Mesh, m': Mesh) {
    |m'.ts| == |m.ts| && forall u: nat | u < |m.ts| && m.ts[u].body.Some? ::
      m'.ts[u].body.Some? && m'.ts[u].body.value.ends == m.ts[u].body.value.ends
  }

  /** One end point of tile `u` moved, and no other anywhere. */
  ghost predicate SnapsOnly(m: Mesh, m': Mesh, u: nat, at: nat, v: Vertex) {
    |m'.ts| == |m.ts| && forall w: nat | w < |m.ts| && m.ts[w].body.Some? ::
      && m'.ts[w].body.Some?
      && m'.ts[w].body.value.ends ==
           if w == u then Snapped(m.ts[w].body.value.ends, at, v) else m.ts[w].body.value.ends
  }

  lemma SameThenMoved(g: Geometry, m: Mesh, m': Mesh)
    requires SameEnds(m, m')
    ensures EndsMoved(g, m, m')
  {
  }

  lemma SameEndsRefl(m: Mesh)
    ensures SameEnds(m, m)
  {
  }

  lemma SameEndsTrans(m0: Mesh, m1: Mesh, m2: Mesh)
    requires SameEnds(m0, m1) && SameEnds(m1, m2)
    ensures SameEnds(m0, m2)
  {
  }

  lemma SnapThenSame(m0: Mesh, m1: Mesh, m2: Mesh, u: nat, at: nat, v: Vertex)
    requires SnapsOnly(m0, m1, u, at, v) && SameEnds(m1, m2)
    ensures SnapsOnly(m0, m2, u, at, v)
  {
  }

  /** A pushed link leaves end points alone. */
  lemma PushSameEnds(m: Mesh, t: nat, p: nat, ref: nat, edge: nat, side: nat, ls: seq<seq<nat>>)
    requires t < |m.ts| && t < |m.lists| && m.ts[t].body.Some?
    requires p < |m.ts[t].body.value.polys| && Fillable(m.ts[t].body.value)
    ensures SameEnds(m, WithLinks(m, t, PushLink(m.ts[t].body.value, p, ref, edge, side), ls))
  {
  }

  lemma StartSnaps(g: Geometry, m: Mesh, m': Mesh, u: nat, i: nat, v: Vertex)
    requires SnapsOnly(m, m', u, 2 * i, v) && u < |m'.ts| && m'.ts[u].body.Some?
    requires StartPoint(g, m'.ts[u].body.value, i, v)
    ensures EndsMoved(g, m, m')
  {
    hide StartPoint, EndPoint;
    assert 2 * i / 2 == i && 2 * i % 2 == 0;
  }

  lemma EndSnaps(g: Geometry, m: Mesh, m': Mesh, t: nat, u: nat, side: int, i: nat, v: Vertex)
    requires SnapsOnly(m, m', u, 2 * i + 1, v) && LandPoint(g, m', t, u, side, i, v)
    ensures EndsMoved(g, m, m')
  {
    hide StartPoint;
    assert EndPoint(g, m', u, i, v);
    assert (2 * i + 1) / 2 == i && (2 * i + 1) % 2 == 1;
  }

  lemma EndPointStays(g: Geometry, m: Mesh, m': Mesh, u: nat, i: nat, v: Vertex)
    requires Grown(m, m') && EndPoint(g, m, u, i, v)
    ensures EndPoint(g, m', u, i, v)
  {
    hide Grown, Frame;
    var t: nat, side: int :| LandPoint(g, m, t, u, side, i, v);
    TileSame(m, m', t);
    TileSame(m, m', u);
    assert LandPoint(g, m', t, u, side, i, v);
  }

  lemma EndMovesStays(g: Geometry, m: Mesh, m': Mesh, u: nat, k: nat, was: Vertex, now: Vertex)
    requires Grown(m, m') && u < |m.ts| && m.ts[u].body.Some? && EndMoves(g, m, u, k, was, now)
    ensures u < |m'.ts| && m'.ts[u].body.Some? && EndMoves(g, m', u, k, was, now)
  {
    hide Grown, Frame, EndPoint;
    TileSame(m, m', u);
    if EndPoint(g, m, u, k / 2, now) { EndPointStays(g, m, m', u, k / 2, now); }
  }

  lemma AllMoveTrans(g: Geometry, m1: Mesh, m2: Mesh, u: nat, a: seq<Vertex>, b: seq<Vertex>, d: seq<Vertex>)
    requires Grown(m1, m2) && u < |m1.ts| && m1.ts[u].body.Some? && AllMove(g, m1, u, a, b)
    requires u < |m2.ts| && m2.ts[u].body.Some? && AllMove(g, m2, u, b, d)
    ensures AllMove(g, m2, u, a, d)
  {
    hide Grown, EndMoves;
    forall k: nat | k < |a| ensures EndMoves(g, m2, u, k, a[k], d[k]) {
      assert EndMoves(g, m1, u, k, a[k], b[k]) && EndMoves(g, m2, u, k, b[k], d[k]);
      EndMovesStays(g, m1, m2, u, k, a[k], b[k]);
      TwoMoves(g, m2, u, k, a[k], b[k], d[k]);
    }
  }

  lemma TwoMoves(g: Geometry, m: Mesh, u: nat, k: nat, a: Vertex, b: Vertex, d: Vertex)
    requires u < |m.ts| && m.ts[u].body.Some? && EndMoves(g, m, u, k, a, b) && EndMoves(g, m, u, k, b, d)
    ensures EndMoves(g, m, u, k, a, d)
  {
  }

  lemma EndsTrans(g: Geometry, m0: Mesh, m1: Mesh, m2: Mesh)
    requires EndsMoved(g, m0, m1) && EndsMoved(g, m1, m2) && Grown(m1, m2)
    ensures EndsMoved(g, m0, m2)
  {
    hide Grown, AllMove;
    forall u: nat | u < |m0.ts| && m0.ts[u].body.Some?
      ensures m2.ts[u].body.Some? && AllMove(g, m2, u, m0.ts[u].body.value.ends, m2.ts[u].body.value.ends)
    {
      AllMoveTrans(g, m1, m2, u, m0.ts[u].body.value.ends, m1.ts[u].body.value.ends, m2.ts[u].body.value.ends);
    }
  }

  /** Off-mesh connection `i` of tile `t` is tied to the polygon its start lands on and begins there, if it lands. */
  ghost predicate Based(g: Geometry, c: Config, m: Mesh, t: nat, i: nat) {
    && t < |m.ts| && m.ts[t].body.Some?
    && var b := Frame(m.ts[t].body.value);
       i < |b.cons| &&
       var near := g.nearest(b, b.cons[i], false);
       near.Some? ==>
         && Attached(c, m, t, b.cons[i].poly, t, near.value.0, 0, NO_SIDE, true, NO_SIDE)
         && var ends := m.ts[t].body.value.ends; 2 * i < |ends| ==> ends[2 * i] == near.value.1
  }

  ghost predicate AllBased(g: Geometry, c: Config, m: Mesh, t: nat) {
    t < |m.ts| && m.ts[t].body.Some? && forall i: nat | i < |m.ts[t].body.value.cons| :: Based(g, c, m, t, i)
  }

  lemma AllBasedStays(g: Geometry, c: Config, m: Mesh, m': Mesh, t: nat)
    requires Grown(m, m') && EndsMoved(g, m, m') && AllBased(g, c, m, t)
    ensures AllBased(g, c, m', t)
  {
    hide Grown, Based, EndsMoved;
    GrownLists(m, m', t);
    forall i: nat | i < |m.ts[t].body.value.cons| ensures Based(g, c, m', t, i) {
      BasedStays(g, c, m, m', t, i);
    }
  }

  lemma BasedStays(g: Geometry, c: Config, m: Mesh, m': Mesh, t: nat, i: nat)
    requires Grown(m, m') && EndsMoved(g, m, m') && Based(g, c, m, t, i)
    ensures Based(g, c, m', t, i)
  {
    hide Grown, Attached, Frame, EndPoint;
    TileSame(m, m', t);
    assert 2 * i / 2 == i && 2 * i % 2 == 0;
    assert 2 * i < |m.ts[t].body.value.ends| ==>
             EndMoves(g, m', t, 2 * i, m.ts[t].body.value.ends[2 * i], m'.ts[t].body.value.ends[2 * i]);
    var b := Frame(m.ts[t].body.value);
    var near := g.nearest(b, b.cons[i], false);
    if near.Some? { AttachedStays(c, m, m', t, b.cons[i].poly, t, near.value.0, 0, NO_SIDE, true, NO_SIDE); }
  }

  /** The polygon of connection `i` of tile `u` has a link: its start could be connected. */
  ghost predicate HasStart(m: Mesh, u: nat, i: nat) {
    && u < |m.ts| && m.ts[u].body.Some?
    && var b := m.ts[u].body.value;
         i < |b.cons| && b.cons[i].poly < |b.polys| && b.polys[b.cons[i].poly].firstLink != NULL
  }

  /**
   Connection `i` of tile `u`, if it leaves towards `t` and lands there, is tied to the polygon it lands on and ends on
   the ground (where it lands in `t`, unless it landed elsewhere later).
   */
  ghost predicate Landed(g: Geometry, c: Config, m: Mesh, t: nat, u: nat, side: int, i: nat) {
    && t < |m.ts| && u < |m.ts| && m.ts[t].body.Some? && m.ts[u].body.Some?
    && var a, b := Frame(m.ts[t].body.value), Frame(m.ts[u].body.value);
       i < |b.cons| &&
       var con := b.cons[i];
       var near := g.nearest(a, con, true);
       con.side == OppositeCode(side) && near.Some? ==>
         && Attached(c, m, u, con.poly, t, near.value.0, 1, OppositeCode(side), con.bidir, SideCode(side))
         && var ends := m.ts[u].body.value.ends; 2 * i + 1 < |ends| ==> EndPoint(g, m, u, i, ends[2 * i + 1])
  }

  /**
   The turn of connection `i`: tied to where it lands if its start is connected by then, otherwise nothing happens.
   */
  ghost predicate LandStep(g: Geometry, c: Config, m: Mesh, m': Mesh, t: nat, u: nat, side: int, i: nat) {
    if LandsNow(g, m, t, u, side, i) then
      && Grown(m, m') && Landed(g, c, m', t, u, side, i)
      && SnapsOnly(m, m', u, 2 * i + 1,
                   g.nearest(Frame(m.ts[t].body.value), m.ts[u].body.value.cons[i], true).value.1)
    else m' == m
  }

  ghost predicate LandsNow(g: Geometry, m: Mesh, t: nat, u: nat, side: int, i: nat) {
    && HasStart(m, u, i) && t < |m.ts| && m.ts[t].body.Some?
    && var con := m.ts[u].body.value.cons[i];
       con.side == OppositeCode(side) && g.nearest(Frame(m.ts[t].body.value), con, true).Some?
  }

  /** The meshes between the turns of the connections of `u`. */
  ghost predicate Landings(g: Geometry, c: Config, ms: seq<Mesh>, t: nat, u: nat, side: int) {
    forall i | 0 <= i < |ms| - 1 :: LandStep(g, c, ms[i], ms[i + 1], t, u, side, i)
  }

  lemma LandingsNone(g: Geometry, c: Config, m: Mesh, t: nat, u: nat, side: int)
    ensures Landings(g, c, [m], t, u, side)
  {
  }

  lemma LandingsNext(g: Geometry, c: Config, ms: seq<Mesh>, m: Mesh, t: nat, u: nat, side: int)
    requires ms != [] && Landings(g, c, ms, t, u, side) && LandStep(g, c, ms[|ms| - 1], m, t, u, side, |ms| - 1)
    ensures Landings(g, c, ms + [m], t, u, side)
  {
    hide LandStep;
    var ms' := ms + [m];
    forall i | 0 <= i < |ms'| - 1 ensures LandStep(g, c, ms'[i], ms'[i + 1], t, u, side, i) {
      if i < |ms| - 1 { assert LandStep(g, c, ms[i], ms[i + 1], t, u, side, i); }
    }
  }

  lemma LandedStays(g: Geometry, c: Config, m: Mesh, m': Mesh, t: nat, u: nat, side: int, i: nat)
    requires Grown(m, m') && EndsMoved(g, m, m') && Landed(g, c, m, t, u, side, i)
    ensures Landed(g, c, m', t, u, side, i)
  {
    hide Grown, Attached, Frame, EndPoint, StartPoint;
    EndedStays(g, m, m', u, i);
    TileSame(m, m', t);
    TileSame(m, m', u);
    var a, b := Frame(m.ts[t].body.value), Frame(m.ts[u].body.value);
    var con := b.cons[i];
    var near := g.nearest(a, con, true);
    if con.side == OppositeCode(side) && near.Some? {
      AttachedStays(c, m, m', u, con.poly, t, near.value.0, 1, OppositeCode(side), con.bidir, SideCode(side));
    }
  }

  lemma EndedStays(g: Geometry, m: Mesh, m': Mesh, u: nat, i: nat)
    requires Grown(m, m') && EndsMoved(g, m, m') && u < |m.ts| && m.ts[u].body.Some?
    ensures u < |m'.ts| && m'.ts[u].body.Some? && |m'.ts[u].body.value.ends| == |m.ts[u].body.value.ends|
    ensures 2 * i + 1 < |m.ts[u].body.value.ends| && EndPoint(g, m, u, i, m.ts[u].body.value.ends[2 * i + 1]) ==>
              EndPoint(g, m', u, i, m'.ts[u].body.value.ends[2 * i + 1])
  {
    hide Grown, EndPoint, StartPoint;
    var k := 2 * i + 1;
    assert k / 2 == i && k % 2 == 1;
    var a, b := m.ts[u].body.value.ends, m'.ts[u].body.value.ends;
    if k < |a| && EndPoint(g, m, u, i, a[k]) {
      EndPointStays(g, m, m', u, i, a[k]);
      assert EndMoves(g, m', u, k, a[k], b[k]);
    }
  }

  lemma NowBased(g: Geometry, c: Config, m: Mesh, t: nat, i: nat)
    requires t < |m.ts| && m.ts[t].body.Some? && i < |m.ts[t].body.value.cons|
    requires var con, near := m.ts[t].body.value.cons[i],
               g.nearest(Frame(m.ts[t].body.value), m.ts[t].body.value.cons[i], false);
             near.Some? ==>
               && Attached(c, m, t, con.poly, t, near.value.0, 0, NO_SIDE, true, NO_SIDE)
               && var ends := m.ts[t].body.value.ends; 2 * i < |ends| ==> ends[2 * i] == near.value.1
    ensures Based(g, c, m, t, i)
  {
  }

  lemma NowLanded(g: Geometry, c: Config, m: Mesh, t: nat, u: nat, side: int, i: nat)
    requires t < |m.ts| && u < |m.ts| && m.ts[t].body.Some? && m.ts[u].body.Some? && i < |m.ts[u].body.value.cons|
    requires var con, near := m.ts[u].body.value.cons[i],
               g.nearest(Frame(m.ts[t].body.value), m.ts[u].body.value.cons[i], true);
             con.side == OppositeCode(side) && near.Some? ==>
               && Attached(c, m, u, con.poly, t, near.value.0, 1, OppositeCode(side), con.bidir, SideCode(side))
               && var ends := m.ts[u].body.value.ends; 2 * i + 1 < |ends| ==> ends[2 * i + 1] == near.value.1
    ensures Landed(g, c, m, t, u, side, i)
  {
    var ends := m.ts[u].body.value.ends;
    if 2 * i + 1 < |ends| && LandPoint(g, m, t, u, side, i, ends[2 * i + 1]) {
      assert EndPoint(g, m, u, i, ends[2 * i + 1]);
    }
  }

  lemma StartIs(m: Mesh, u: nat, i: nat)
    requires u < |m.ts| && m.ts[u].body.Some? && i < |m.ts[u].body.value.cons|
    requires m.ts[u].body.value.cons[i].poly < |m.ts[u].body.value.polys|
    ensures HasStart(m, u, i) <==> m.ts[u].body.value.polys[m.ts[u].body.value.cons[i].poly].firstLink != NULL
  {
  }

  lemma StartBound(m: Mesh, u: nat)
    requires u < |m.ts| && m.ts[u].body.Some?
    ensures forall i: nat | HasStart(m, u, i) :: i < |m.ts[u].body.value.cons|
  {
  }

  lemma NearestOk(g: Geometry, b: Body)
    requires GeometryOk(g)
    ensures forall con, end :: g.nearest(Frame(b), con, end).Some? ==> g.nearest(Frame(b), con, end).value.0 < |b.polys|
  {
    FrameIdem(b);
  }

  /** A polygon that had a link still has one. */
  lemma StartStays(c: Config, m: Mesh, m': Mesh, u: nat, i: nat)
    requires MeshOk(c, m) && MeshOk(c, m') && Grown(m, m') && HasStart(m, u, i)
    ensures HasStart(m', u, i)
  {
    MeshTile(c, m, u);
    MeshTile(c, m', u);
    GrownLists(m, m', u);
    hide MeshOk, Grown, LinksUpto, Along;
    var b, b' := m.ts[u].body.value, m'.ts[u].body.value;
    var p := b.cons[i].poly;
    ListStep(b, m.lists[u], p, 0);
    ListStep(b', m'.lists[u], p, 0);
    AlongSize(b.links, m.lists[u][p + 1]);
    AlongSize(b'.links, m'.lists[u][p + 1]);
    var x := Along(b.links, m.lists[u][p + 1])[0];
    assert x in Along(b.links, m.lists[u][p + 1]);
    assert x in Along(b'.links, m'.lists[u][p + 1]);
  }

  lemma AlongSize(links: seq<NavTile.Link>, s: seq<nat>)
    ensures |Along(links, s)| == |s|
  {
  }

  lemma GrownLists(m: Mesh, m': Mesh, u: nat)
    requires Grown(m, m') && u < |m.ts| && m.ts[u].body.Some?
    ensures u < |m'.ts| && m'.ts[u].body.Some? && u < |m.lists| && u < |m'.lists|
    ensures BodyGrows(m.ts[u].body.value, m.lists[u], m'.ts[u].body.value, m'.lists[u])
    ensures |m'.ts[u].body.value.polys| == |m.ts[u].body.value.polys|
    ensures m'.ts[u].body.value.cons == m.ts[u].body.value.cons
  {
    assert SameTile(m.ts[u], m'.ts[u]);
    SameFrame(m.ts[u], m'.ts[u]);
  }

  /** The tiles found at a position are joined with `t` both ways; `m` says which tiles those are. */
  ghost predicate PlaceJoined(g: Geometry, c: Config, m: Mesh, m': Mesh, t: nat, x: int, y: int, side: int, back: int)
    requires 1 + c.hash(x, y) < |m.slots|
  {
    forall n | n in Take(TilesAt(c, m, x, y), MAX_NEIS) && n != t ::
        Joined(g, c, m', t, n, side) && Joined(g, c, m', n, t, back)
  }

  /** Tile `t` is joined with its other layers and with all neighbouring tiles. */
  ghost predicate Woven(g: Geometry, c: Config, m: Mesh, t: nat) {
    && t < |m.ts| && m.ts[t].body.Some? && |m.slots| == c.lutSize + 1 && (forall x, y :: c.hash(x, y) < c.lutSize)
    && var x, y := m.ts[t].body.value.x, m.ts[t].body.value.y;
       && PlaceJoined(g, c, m, m, t, x, y, -1, -1)
       && PlaceJoined(g, c, m, m, t, x + 1, y, 0, 4) && PlaceJoined(g, c, m, m, t, x + 1, y + 1, 1, 5)
       && PlaceJoined(g, c, m, m, t, x, y + 1, 2, 6) && PlaceJoined(g, c, m, m, t, x - 1, y + 1, 3, 7)
       && PlaceJoined(g, c, m, m, t, x - 1, y, 4, 0) && PlaceJoined(g, c, m, m, t, x - 1, y - 1, 5, 1)
       && PlaceJoined(g, c, m, m, t, x, y - 1, 6, 2) && PlaceJoined(g, c, m, m, t, x + 1, y - 1, 7, 3)
  }

  lemma {:induction false} RequestPolys(g: Geometry, c: Layout, a: Body, b: Body, u: nat, salt: nat, side: int, n: nat)
    requires n <= |a.polys|
    ensures forall r | r in ExtRequests(g, c, a, b, u, salt, side, n) :: r.poly < n
  {
    if n > 0 {
      RequestPolys(g, c, a, b, u, salt, side, n - 1);
      PolyRequestPoly(g, c, a, b, u, salt, side, n - 1, |a.polys[n - 1].neis|);
    }
  }

  lemma {:induction false} PolyRequestPoly(g: Geometry, c: Layout, a: Body, b: Body, u: nat, salt: nat, side: int,
                                           i: nat, j: nat)
    requires i < |a.polys| && j <= |a.polys[i].neis|
    ensures forall r | r in PolyRequests(g, c, a, b, u, salt, side, i, j) :: r.poly == i
  {
    hide Connecting, Encode;
    if j > 0 { PolyRequestPoly(g, c, a, b, u, salt, side, i, j - 1); }
  }

  lemma ExtJoins(g: Geometry, c: Config, m: Mesh, m': Mesh, t: nat, u: nat, side: int)
    requires MeshOk(c, m) && Grown(m, m') && ExtLinked(g, c, m, m', t, u, side)
    ensures Joined(g, c, m', t, u, side)
  {
    hide MeshOk, ExtRequests, Along, Frame, SameShape;
    var a := Frame(m.ts[t].body.value);
    var rs := ExtRequests(g, c.layout, a, Frame(m.ts[u].body.value), u, m.ts[u].salt, side, |a.polys|);
    MeshTile(c, m, t);
    TileSame(m, m', t);
    TileSame(m, m', u);
    FrameIdem(m.ts[t].body.value);
    RequestPolys(g, c.layout, a, Frame(m.ts[u].body.value), u, m.ts[u].salt, side, |a.polys|);
    if |rs| <= |m.lists[t][0]| {
      forall i | 0 <= i < |rs| ensures HasLink(m', t, rs[i]) {
        var r := rs[i];
        assert r in rs && r.poly < |a.polys| && r.poly + 1 < |m'.lists[t]|;
        PushedOnly(Along(m.ts[t].body.value.links, m.lists[t][r.poly + 1]), rs, r.poly, (r.ref, r.edge, r.side));
      }
    }
  }

  /** Every inner edge of the tile's polygons has its link, if the tile came with links enough for that. */
  ghost predicate InnerJoined(c: Config, m: Mesh, x: nat, data: Body) {
    && x < |m.ts|
    && var base := Encode(c.layout, m.ts[x].salt, x, 0);
       WantedFrom(data.polys, base, 0) <= |data.links| ==>
         forall i, w | 0 <= i < |data.polys| && w in WantedLinks(data.polys[i], base) ::
             HasLink(m, x, Request(i, w.0, w.1, w.2))
  }

  ghost predicate LinkedInside(data: Body, base: nat, b: Body, ls: seq<seq<nat>>) {
    && |ls| == |data.polys| + 1
    && (WantedFrom(data.polys, base, 0) <= |data.links| ==>
          forall i | 0 <= i < |data.polys| :: Along(b.links, ls[i + 1]) == WantedLinks(data.polys[i], base))
    && forall i, w | 0 <= i < |data.polys| && w in Along(b.links, ls[i + 1]) :: w in WantedLinks(data.polys[i], base)
  }

  lemma InnerInstalled(c: Config, m: Mesh, x: nat, data: Body, b: Body, ls: seq<seq<nat>>)
    requires x < |m.ts| && x < |m.lists| && m.ts[x].body == Some(b) && m.lists[x] == ls
    requires LinkedInside(data, Encode(c.layout, m.ts[x].salt, x, 0), b, ls)
    ensures InnerJoined(c, m, x, data)
  {
    hide Encode, Along, WantedLinks, WantedFrom;
    var base := Encode(c.layout, m.ts[x].salt, x, 0);
    if WantedFrom(data.polys, base, 0) <= |data.links| {
      forall i, w | 0 <= i < |data.polys| && w in WantedLinks(data.polys[i], base)
        ensures HasLink(m, x, Request(i, w.0, w.1, w.2))
      {
        assert Along(b.links, ls[i + 1]) == WantedLinks(data.polys[i], base);
      }
    }
  }

  lemma InnerStays(c: Config, m: Mesh, m': Mesh, x: nat, data: Body)
    requires Grown(m, m') && InnerJoined(c, m, x, data) && m.ts[x].body.Some?
    ensures InnerJoined(c, m', x, data)
  {
    hide Grown, HasLink, WantedLinks, WantedFrom, Encode;
    TileSame(m, m', x);
    var base := Encode(c.layout, m.ts[x].salt, x, 0);
    forall i, w | 0 <= i < |data.polys| && w in WantedLinks(data.polys[i], base)
        && HasLink(m, x, Request(i, w.0, w.1, w.2))
      ensures HasLink(m', x, Request(i, w.0, w.1, w.2))
    {
      HasLinkStays(m, m', x, Request(i, w.0, w.1, w.2));
    }
  }

  lemma TileSame(m: Mesh, m': Mesh, t: nat)
    requires Grown(m, m') && t < |m.ts| && m.ts[t].body.Some?
    ensures t < |m'.ts| && m'.ts[t].body.Some? && m'.ts[t].salt == m.ts[t].salt
    ensures Frame(m'.ts[t].body.value) == Frame(m.ts[t].body.value)
  {
    assert SameTile(m.ts[t], m'.ts[t]);
  }

  lemma HasLinkStays(m: Mesh, m': Mesh, t: nat, r: Request)
    requires Grown(m, m')
    ensures HasLink(m, t, r) ==> HasLink(m', t, r)
    ensures Full(m, t) && t < |m.ts| && m.ts[t].body.Some? ==> Full(m', t)
  {
    hide Along, SameShape;
  }

  lemma JoinedStays(g: Geometry, c: Config, m: Mesh, m': Mesh, t: nat, u: nat, side: int)
    requires Grown(m, m') && Joined(g, c, m, t, u, side)
    ensures Joined(g, c, m', t, u, side)
  {
    hide Grown, HasLink, Full, ExtRequests, Frame;
    TileSame(m, m', t);
    TileSame(m, m', u);
    var a := Frame(m.ts[t].body.value);
    var rs := ExtRequests(g, c.layout, a, Frame(m.ts[u].body.value), u, m.ts[u].salt, side, |a.polys|);
    HasLinkStays(m, m', t, Request(0, 0, 0, 0));
    forall i | 0 <= i < |rs| && HasLink(m, t, rs[i]) ensures HasLink(m', t, rs[i]) {
      HasLinkStays(m, m', t, rs[i]);
    }
  }

  /** A push leaves the link there, unless none was left. */
  lemma PushHas(c: Config, m: Mesh, m': Mesh, t: nat, r: Request)
    requires MeshOk(c, m) && t < |m.ts| && m.ts[t].body.Some? && r.poly < |m.ts[t].body.value.polys|
    requires Fillable(m.ts[t].body.value) && |m.lists| == |m.ts| && r.poly + 1 < |m.lists[t]|
    requires m' == WithLinks(m, t, PushLink(m.ts[t].body.value, r.poly, r.ref, r.edge, r.side),
                             PushLists(m.lists[t], r.poly))
    ensures Full(m', t) || HasLink(m', t, r)
  {
    hide MeshOk, LinksUpto, Along;
    MeshTile(c, m, t);
    var b, ls := m.ts[t].body.value, m.lists[t];
    FreeHead(b, ls, |b.polys|);
    if ls[0] != [] {
      PushLinkAlong(b, ls, |b.polys|, r.poly, r.ref, r.edge, r.side, r.poly + 1);
      assert HasLink(m', t, r);
    }
  }

  lemma GrownShape(m: Mesh, m': Mesh)
    requires Grown(m, m')
    ensures SameShape(m.ts, m'.ts) && |m'.ts| == |m.ts| && m'.slots == m.slots
  {
  }

  lemma GrownLive(m: Mesh, m': Mesh, t: nat)
    requires Grown(m, m') && t < |m.ts| && m.ts[t].body.Some?
    ensures t < |m'.ts| && m'.ts[t].body.Some? && SamePlace(m.ts[t].body.value, m'.ts[t].body.value)
    ensures SameShape(m.ts, m'.ts)
  {
    LiveFrame(m.ts, m'.ts, t);
  }

  /** Growing does not change which tiles are where. */
  lemma TilesAtGrown(c: Config, m: Mesh, m': Mesh, x: int, y: int)
    requires Grown(m, m') && 1 + c.hash(x, y) < |m.slots|
    ensures 1 + c.hash(x, y) < |m'.slots| && TilesAt(c, m', x, y) == TilesAt(c, m, x, y)
  {
    hide SameShape, LinksGrow;
    GrownShape(m, m');
    forall i: nat | i < |m.ts| ensures AtPlace(m'.ts[i], x, y) == AtPlace(m.ts[i], x, y) {
      AtPlaceFrame(m.ts, m'.ts, i, x, y);
    }
    PlaceFilterFrame(m.ts, m'.ts, m.slots[1 + c.hash(x, y)], x, y);
  }

  /** Joined tiles stay joined, and `m` and `m1` agree on which tiles those are. */
  lemma PlaceJoinedStays(g: Geometry, c: Config, m: Mesh, m1: Mesh, m2: Mesh, m3: Mesh, t: nat, x: int, y: int,
                         side: int, back: int)
    requires Grown(m, m1) && Grown(m2, m3) && 1 + c.hash(x, y) < |m.slots| && |m1.slots| == |m.slots|
    requires PlaceJoined(g, c, m1, m2, t, x, y, side, back)
    ensures PlaceJoined(g, c, m, m3, t, x, y, side, back)
  {
    hide Grown, Joined, PlaceFilter, Take;
    TilesAtGrown(c, m, m1, x, y);
    forall n | n in Take(TilesAt(c, m, x, y), MAX_NEIS) && n != t
      ensures Joined(g, c, m3, t, n, side) && Joined(g, c, m3, n, t, back)
    {
      JoinedStays(g, c, m2, m3, t, n, side);
      JoinedStays(g, c, m2, m3, n, t, back);
    }
  }

  /** Same position, and the neighbours on the first `i` sides. */
  ghost predicate SidesJoined(g: Geometry, c: Config, m: Mesh, m': Mesh, t: nat, x: int, y: int, i: nat)
    requires |m.slots| == c.lutSize + 1 && (forall x, y :: c.hash(x, y) < c.lutSize)
  {
    && PlaceJoined(g, c, m, m', t, x, y, -1, -1)
    && forall k: nat | k < i :: PlaceJoined(g, c, m, m', t, x + StepX(k), y + StepY(k), k, OppositeTile(k))
  }

  lemma SidesJoinedStays(g: Geometry, c: Config, m: Mesh, m1: Mesh, m2: Mesh, t: nat, x: int, y: int, i: nat)
    requires Grown(m, m) && Grown(m1, m2) && |m.slots| == c.lutSize + 1 && (forall x, y :: c.hash(x, y) < c.lutSize)
    requires SidesJoined(g, c, m, m1, t, x, y, i)
    ensures SidesJoined(g, c, m, m2, t, x, y, i)
  {
    hide Grown, PlaceJoined;
    PlaceJoinedStays(g, c, m, m, m1, m2, t, x, y, -1, -1);
    forall k: nat | k < i ensures PlaceJoined(g, c, m, m2, t, x + StepX(k), y + StepY(k), k, OppositeTile(k)) {
      PlaceJoinedStays(g, c, m, m, m1, m2, t, x + StepX(k), y + StepY(k), k, OppositeTile(k));
    }
  }

  lemma PlaceJoinedNow(g: Geometry, c: Config, m: Mesh, m': Mesh, t: nat, x: int, y: int, side: int, back: int)
    requires Grown(m, m') && 1 + c.hash(x, y) < |m.slots| && PlaceJoined(g, c, m, m', t, x, y, side, back)
    ensures 1 + c.hash(x, y) < |m'.slots| && PlaceJoined(g, c, m', m', t, x, y, side, back)
  {
    hide Grown, Joined, PlaceFilter, Take;
    TilesAtGrown(c, m, m', x, y);
  }

  lemma WovenNow(g: Geometry, c: Config, m: Mesh, m': Mesh, t: nat)
    requires Grown(m, m') && t < |m.ts| && m.ts[t].body.Some? && |m.slots| == c.lutSize + 1
    requires (forall x, y :: c.hash(x, y) < c.lutSize)
    requires SidesJoined(g, c, m, m', t, m.ts[t].body.value.x, m.ts[t].body.value.y, 8)
    ensures Woven(g, c, m', t)
  {
    hide Grown, PlaceJoined;
    GrownLive(m, m', t);
    GrownShape(m, m');
    var x, y := m.ts[t].body.value.x, m.ts[t].body.value.y;
    PlaceJoinedNow(g, c, m, m', t, x, y, -1, -1);
    forall k: nat | k < 8 ensures PlaceJoined(g, c, m', m', t, x + StepX(k), y + StepY(k), k, OppositeTile(k)) {
      PlaceJoinedNow(g, c, m, m', t, x + StepX(k), y + StepY(k), k, OppositeTile(k));
    }
    assert PlaceJoined(g, c, m', m', t, x + StepX(0), y + StepY(0), 0, OppositeTile(0));
    assert PlaceJoined(g, c, m', m', t, x + StepX(1), y + StepY(1), 1, OppositeTile(1));
    assert PlaceJoined(g, c, m', m', t, x + StepX(2), y + StepY(2), 2, OppositeTile(2));
    assert PlaceJoined(g, c, m', m', t, x + StepX(3), y + StepY(3), 3, OppositeTile(3));
    assert PlaceJoined(g, c, m', m', t, x + StepX(4), y + StepY(4), 4, OppositeTile(4));
    assert PlaceJoined(g, c, m', m', t, x + StepX(5), y + StepY(5), 5, OppositeTile(5));
    assert PlaceJoined(g, c, m', m', t, x + StepX(6), y + StepY(6), 6, OppositeTile(6));
    assert PlaceJoined(g, c, m', m', t, x + StepX(7), y + StepY(7), 7, OppositeTile(7));
  }

  lemma FrameIdem(b: Body)
    ensures |Frame(b).polys| == |b.polys|
  {
  }

  lemma MeshGrown(c: Config, m: Mesh)
    requires MeshOk(c, m)
    ensures Grown(m, m)
  {
    GrownRefl(c.layout, m);
  }

  lemma GrownAdjacent(m: Mesh, m': Mesh, t: nat, u: nat)
    requires Grown(m, m') && Adjacent(m.ts, t, u)
    ensures Adjacent(m'.ts, t, u) && m'.ts[u].salt == m.ts[u].salt && m'.ts[t].salt == m.ts[t].salt
    ensures Polys(m'.ts[t]) == Polys(m.ts[t]) == |Frame(m.ts[t].body.value).polys|
    ensures Polys(m'.ts[u]) == Polys(m.ts[u]) == |Frame(m.ts[u].body.value).polys|
    ensures m'.ts[t].body.value.cons == m.ts[t].body.value.cons && m'.ts[u].body.value.cons == m.ts[u].body.value.cons
    ensures Frame(m'.ts[t].body.value) == Frame(m.ts[t].body.value)
    ensures Frame(m'.ts[u].body.value) == Frame(m.ts[u].body.value)
  {
    AdjacentFrame(m.ts, m'.ts, t, u);
    assert SameTile(m.ts[u], m'.ts[u]) && SameTile(m.ts[t], m'.ts[t]);
  }

  /** Some portal edge of polygon `k` on `side` touches edge `j` of polygon `i`. */
  ghost predicate Connects(g: Geometry, a: Body, i: nat, j: nat, b: Body, k: nat, side: nat) {
    k < |b.polys| && exists e: nat | e < |b.polys[k].neis| ::
        b.polys[k].neis[e] == Portal(side) && g.touches(a, i, j, b, k, e)
  }

  lemma EndsOk(c: Config, m: Mesh, t: nat, ends: seq<Vertex>)
    requires MeshOk(c, m) && t < |m.ts| && m.ts[t].body.Some?
    ensures t < |m.lists|
    ensures var m' := WithLinks(m, t, m.ts[t].body.value.(ends := ends), m.lists[t]);
            MeshOk(c, m') && Grown(m, m')
  {
    var b, ls := m.ts[t].body.value, m.lists[t];
    assert TileOk(c.layout, m.ts[t], ls) && LinksGood(c.layout, m.ts, b, ls);
    var b' := b.(ends := ends);
    assert Frame(b') == Frame(b) && Heads(b', |b'.polys|) == Heads(b, |b.polys|);
    hide LinksUpto, GoodRef, MeshOk, Grown;
    assert TilesOk(c.layout, m) by { MeshTiles(c, m); }
    assert LinksOk(b', ls) && LinksGood(c.layout, m.ts, b', ls) by { EndsKeep(c.layout, m.ts, b, ends, ls); }
    RelinkOk(c, m, t, b', ls);
    BodySame(c.layout, m, t);
    GrownOne(c.layout, m, t, b', ls);
  }

  lemma EndsKeep(c: Layout, ts: seq<Tile>, b: Body, ends: seq<Vertex>, ls: seq<seq<nat>>)
    requires c.Ok() && ls != [] && LinksOk(b, ls) && LinksGood(c, ts, b, ls)
    ensures LinksOk(b.(ends := ends), ls) && LinksGood(c, ts, b.(ends := ends), ls)
  {
    hide GoodRef, Threaded;
  }

  lemma MeshCons(c: Config, m: Mesh, t: nat, i: nat)
    requires MeshOk(c, m) && t < |m.ts| && m.ts[t].body.Some? && i < |m.ts[t].body.value.cons|
    ensures m.ts[t].body.value.cons[i].poly < |m.ts[t].body.value.polys|
  {
    assert TileOk(c.layout, m.ts[t], m.lists[t]);
  }

  predicate Placed(t: Tile, x: int, y: int, layer: int) {
    t.body.Some? && t.body.value.x == x && t.body.value.y == y && t.body.value.layer == layer
  }

  /** Walking a bucket's chain follows its list. */
  lemma ChainStep(c: Config, m: Mesh, chain: nat, p: nat)
    requires MeshOk(c, m) && chain < |m.slots|
    ensures |m.heads| == |m.slots| && m.heads[chain] == At(m.slots[chain], 0)
    ensures p < |m.slots[chain]| ==>
              m.slots[chain][p] < |m.ts| && m.ts[m.slots[chain][p]].next == At(m.slots[chain], p + 1)
  {
    assert Linked(SlotNexts(m.ts), m.heads[chain], m.slots[chain]);
  }

  lemma PlacedOnChain(c: Config, m: Mesh, i: nat, chain: nat, x: int, y: int, layer: int)
    requires MeshOk(c, m) && i < |m.ts| && chain == 1 + c.hash(x, y)
    requires forall k | 0 <= k < |m.slots[chain]| ::
               m.slots[chain][k] < |m.ts| && !Placed(m.ts[m.slots[chain][k]], x, y, layer)
    ensures !Placed(m.ts[i], x, y, layer)
  {
    hide Threaded;
    InHome(c, m, i);
  }

  lemma FilterNone(ts: seq<Tile>, s: seq<nat>, x: int, y: int)
    requires s == []
    ensures PlaceFilter(ts, s, x, y) == []
  {
  }

  lemma FilterStep(ts: seq<Tile>, s: seq<nat>, p: nat, x: int, y: int)
    requires p < |s| && s[p] < |ts|
    ensures PlaceFilter(ts, s[p..], x, y) == (if AtPlace(ts[s[p]], x, y) then [s[p]] else [])
              + PlaceFilter(ts, s[p + 1..], x, y)
  {
    assert s[p..][1..] == s[p + 1..];
  }

  // ---- Facts for removal ----

  /** At most `MAX_NEIS` tiles share a position, so position lookups are complete. */
  ghost predicate Uncrowded(c: Config, m: Mesh) {
    |m.slots| == c.lutSize + 1 && (forall x, y :: c.hash(x, y) < c.lutSize) &&
    forall x, y {:trigger TilesAt(c, m, x, y)} :: |TilesAt(c, m, x, y)| <= MAX_NEIS
  }

  /** Room for one more tile at (x, y). */
  ghost predicate HasRoom(c: Config, m: Mesh, x: int, y: int) {
    Uncrowded(c, m) && |TilesAt(c, m, x, y)| < MAX_NEIS
  }

  lemma {:induction false} FilterConcat(ts: seq<Tile>, a: seq<nat>, b: seq<nat>, x: int, y: int)
    ensures PlaceFilter(ts, a + b, x, y) == PlaceFilter(ts, a, x, y) + PlaceFilter(ts, b, x, y)
  {
    if a == [] {
      assert a + b == b;
    } else {
      assert (a + b)[1..] == a[1..] + b;
      FilterConcat(ts, a[1..], b, x, y);
    }
  }

  lemma {:induction false} FilterFrame(ts: seq<Tile>, ts': seq<Tile>, s: seq<nat>, x: int, y: int)
    requires |ts'| == |ts| && forall i | i in s && i < |ts| :: AtPlace(ts'[i], x, y) == AtPlace(ts[i], x, y)
    ensures PlaceFilter(ts', s, x, y) == PlaceFilter(ts, s, x, y)
  {
    if s != [] {
      assert s[0] in s;
      FilterFrame(ts, ts', s[1..], x, y);
    }
  }

  lemma {:induction false} FilterShrinks(ts: seq<Tile>, ts': seq<Tile>, s: seq<nat>, x: int, y: int)
    requires |ts'| == |ts| && forall i | 0 <= i < |ts| && AtPlace(ts'[i], x, y) :: AtPlace(ts[i], x, y)
    ensures |PlaceFilter(ts', s, x, y)| <= |PlaceFilter(ts, s, x, y)|
  {
    if s != [] { FilterShrinks(ts, ts', s[1..], x, y); }
  }

  /** Emptying a slot crowds no position. */
  lemma UncrowdedEmptied(c: Config, m: Mesh, m': Mesh, chain: nat, p: nat, slot: nat)
    requires Uncrowded(c, m) && 1 <= chain < |m.slots| && p < |m.slots[chain]|
    requires m'.slots == MoveLists(m.slots, chain, p, 0)
    requires OthersSame(m.ts, m'.ts, slot) && slot < |m.ts| && m'.ts[slot].body.None?
    ensures Uncrowded(c, m')
  {
    hide PlaceFilter;
    forall x, y ensures |TilesAt(c, m', x, y)| <= MAX_NEIS {
      var k := 1 + c.hash(x, y);
      var s := m.slots[k];
      assert |TilesAt(c, m, x, y)| <= MAX_NEIS;
      FilterShrinks(m.ts, m'.ts, m'.slots[k], x, y);
      if k == chain {
        FilterConcat(m.ts, s[..p], s[p + 1..], x, y);
        FilterConcat(m.ts, s[..p], [s[p]] + s[p + 1..], x, y);
        FilterConcat(m.ts, [s[p]], s[p + 1..], x, y);
        assert s[..p] + ([s[p]] + s[p + 1..]) == s;
      }
    }
  }

  /** Filling a slot keeps every position within bounds if its own had room. */
  lemma UncrowdedFilled(c: Config, m: Mesh, m': Mesh, p: nat, b: Body)
    requires MeshOk(c, m) && HasRoom(c, m, b.x, b.y) && |m.slots| > 0 && p < |m.slots[0]| && m.slots[0][p] < |m.ts|
    requires m'.slots == MoveLists(m.slots, 0, p, 1 + c.hash(b.x, b.y)) && OthersSame(m.ts, m'.ts, m.slots[0][p])
    requires m'.ts[m.slots[0][p]].body == Some(b)
    ensures Uncrowded(c, m')
  {
    hide PlaceFilter, MeshOk;
    var slot := m.slots[0][p];
    forall x, y ensures |TilesAt(c, m', x, y)| <= MAX_NEIS {
      var k := 1 + c.hash(x, y);
      var s := m.slots[k];
      assert |TilesAt(c, m, x, y)| <= MAX_NEIS;
      FreeNotChained(c, m, p, k);
      FilterFrame(m.ts, m'.ts, s, x, y);
      FilterConcat(m'.ts, [slot], s, x, y);
      FilterSingle(m'.ts, slot, x, y);
    }
  }

  lemma FilterSingle(ts: seq<Tile>, i: nat, x: int, y: int)
    ensures PlaceFilter(ts, [i], x, y) == if i < |ts| && AtPlace(ts[i], x, y) then [i] else []
  {
  }

  lemma FreeNotChained(c: Config, m: Mesh, p: nat, k: nat)
    requires MeshOk(c, m) && 1 <= k < |m.slots| && p < |m.slots[0]|
    ensures m.slots[0][p] !in m.slots[k]
  {
    NotOnTwo(SlotNexts(m.ts), m.heads, m.slots, 0, k, m.slots[0][p]);
  }

  /** Tiles at (x, y) other than `tile` have no link into `tile`. */
  ghost predicate Clear(c: Config, m: Mesh, tile: nat, x: int, y: int)
    requires c.layout.Ok()
  {
    forall i: nat | i < |m.ts| && i != tile && AtPlace(m.ts[i], x, y) :: Avoids(c.layout, m, i, tile)
  }

  /** Tiles that had no link into `tile` still have none. */
  ghost predicate KeepsAvoiding(c: Config, m: Mesh, m': Mesh, tile: nat)
    requires c.layout.Ok()
  {
    |m'.ts| == |m.ts| && forall i: nat | i < |m.ts| && Avoids(c.layout, m, i, tile) :: Avoids(c.layout, m', i, tile)
  }

  lemma AvoidsFrame(c: Layout, m: Mesh, m': Mesh, i: nat, tile: nat)
    requires c.Ok() && Avoids(c, m, i, tile) && i < |m'.ts| && i < |m'.lists|
    requires i < |m.ts| && m'.ts[i] == m.ts[i] && i < |m.lists| && m'.lists[i] == m.lists[i]
    ensures Avoids(c, m', i, tile)
  {
    hide DecodeTile;
  }

  lemma KeepsAvoidingStep(c: Config, m: Mesh, m1: Mesh, m2: Mesh, k: nat, tile: nat)
    requires c.layout.Ok() && KeepsAvoiding(c, m, m1, tile) && |m2.ts| == |m1.ts| == |m1.lists| == |m2.lists|
    requires forall i | 0 <= i < |m1.ts| && i != k :: m2.ts[i] == m1.ts[i] && m2.lists[i] == m1.lists[i]
    requires Avoids(c.layout, m2, k, tile)
    ensures KeepsAvoiding(c, m, m2, tile)
  {
    hide Avoids;
    forall i: nat | i < |m.ts| && Avoids(c.layout, m, i, tile) ensures Avoids(c.layout, m2, i, tile) {
      if i != k { AvoidsFrame(c.layout, m1, m2, i, tile); }
    }
  }

  lemma NeighbourLive(c: Config, m: Mesh, m1: Mesh, x: int, y: int, i: nat)
    requires MeshOk(c, m) && SameShape(m.ts, m1.ts) && 1 + c.hash(x, y) < |m.slots|
    requires i in Take(TilesAt(c, m, x, y), MAX_NEIS)
    ensures i < |m.ts| && i < |m1.ts| && m1.ts[i].body.Some? && AtPlace(m1.ts[i], x, y)
  {
    PlaceFilterMember(m.ts, m.slots[1 + c.hash(x, y)], x, y, i);
    hide PlaceFilter, Frame, SlotsOk;
    assert i in TilesAt(c, m, x, y);
    assert SameTile(m.ts[i], m1.ts[i]);
    SameFrame(m.ts[i], m1.ts[i]);
  }

  lemma ClearDone(c: Config, m: Mesh, m': Mesh, tile: nat, x: int, y: int, neis: seq<nat>)
    requires MeshOk(c, m) && Uncrowded(c, m) && SameShape(m.ts, m'.ts)
    requires neis == Take(TilesAt(c, m, x, y), MAX_NEIS)
    requires forall k | 0 <= k < |neis| && neis[k] != tile :: Avoids(c.layout, m', neis[k], tile)
    ensures Clear(c, m', tile, x, y)
  {
    hide Avoids, PlaceFilter, Frame;
    assert neis == TilesAt(c, m, x, y);
    forall i: nat | i < |m'.ts| && i != tile && AtPlace(m'.ts[i], x, y) ensures Avoids(c.layout, m', i, tile) {
      assert SameTile(m.ts[i], m'.ts[i]);
      SameFrame(m.ts[i], m'.ts[i]);
      TilesAtComplete(c, m, x, y, i);
      var k :| 0 <= k < |neis| && neis[k] == i;
    }
  }

  function StepX(side: nat): int {
    if side == 0 || side == 1 || side == 7 then 1 else if side == 3 || side == 4 || side == 5 then -1 else 0
  }

  function StepY(side: nat): int {
    if side == 1 || side == 2 || side == 3 then 1 else if side == 5 || side == 6 || side == 7 then -1 else 0
  }

  /** The same for -1, which stands for the position itself. */
  function SideX(side: int): int { if side < 0 then 0 else StepX(side) }

  function SideY(side: int): int { if side < 0 then 0 else StepY(side) }

  /** Tile `b` is where `side` of tile `a` leads. */
  predicate Aside(a: Body, b: Body, side: int) { b.x == a.x + SideX(side) && b.y == a.y + SideY(side) }

  ghost predicate Beside(ts: seq<Tile>, t: nat, u: nat, side: int) {
    && t < |ts| && u < |ts| && ts[t].body.Some? && ts[u].body.Some? && Aside(ts[t].body.value, ts[u].body.value, side)
  }

  lemma BesideFrame(ts: seq<Tile>, ts': seq<Tile>, t: nat, u: nat, side: int)
    requires SameShape(ts, ts')
    ensures Beside(ts', t, u, side) <==> Beside(ts, t, u, side)
  {
    if t < |ts| { assert SameTile(ts[t], ts'[t]); }
    if u < |ts| { assert SameTile(ts[u], ts'[u]); }
  }

  /** Position (x, y) is where `side` of the tile leads, and `back` leads from there to the tile. */
  predicate Facing(b: Body, x: int, y: int, side: int, back: int) {
    && x == b.x + SideX(side) && y == b.y + SideY(side) && b.x == x + SideX(back) && b.y == y + SideY(back)
  }

  lemma PairFrame(m: Mesh, m': Mesh, t: nat, u: nat, side: int, back: int)
    requires Grown(m, m') && Adjacent(m.ts, t, u)
    ensures Adjacent(m'.ts, t, u) && Adjacent(m'.ts, u, t)
    ensures Beside(m'.ts, t, u, side) <==> Beside(m.ts, t, u, side)
    ensures Beside(m'.ts, u, t, back) <==> Beside(m.ts, u, t, back)
  {
    hide Beside, Grown;
    GrownShape(m, m');
    GrownAdjacent(m, m', t, u);
    BesideFrame(m.ts, m'.ts, t, u, side);
    BesideFrame(m.ts, m'.ts, u, t, back);
  }

  lemma OppositeSide(side: nat)
    requires side < 8
    ensures SideX(OppositeTile(side)) == -SideX(side) && SideY(OppositeTile(side)) == -SideY(side)
  {
  }

  lemma LiveFrame(ts: seq<Tile>, ts': seq<Tile>, i: nat)
    requires SameShape(ts, ts') && i < |ts| && ts[i].body.Some?
    ensures i < |ts'| && ts'[i].body.Some? && SamePlace(ts[i].body.value, ts'[i].body.value)
  {
    hide Frame;
    assert SameTile(ts[i], ts'[i]);
    SameFrame(ts[i], ts'[i]);
  }

  lemma AtPlaceFrame(ts: seq<Tile>, ts': seq<Tile>, i: nat, x: int, y: int)
    requires SameShape(ts, ts') && i < |ts|
    ensures AtPlace(ts'[i], x, y) == AtPlace(ts[i], x, y)
  {
    hide Frame;
    assert SameTile(ts[i], ts'[i]);
    if ts[i].body.Some? { SameFrame(ts[i], ts'[i]); }
  }

  lemma UncrowdedFrame(c: Config, m: Mesh, m': Mesh)
    requires Uncrowded(c, m) && SameShape(m.ts, m'.ts) && m'.slots == m.slots
    ensures Uncrowded(c, m')
  {
    hide SameShape;
    forall x, y ensures |TilesAt(c, m', x, y)| <= MAX_NEIS {
      assert |m.ts| == |m'.ts| by { ShapeSize(m.ts, m'.ts); }
      forall i: nat | i < |m.ts| ensures AtPlace(m'.ts[i], x, y) == AtPlace(m.ts[i], x, y) {
        AtPlaceFrame(m.ts, m'.ts, i, x, y);
      }
      PlaceFilterFrame(m.ts, m'.ts, m.slots[1 + c.hash(x, y)], x, y);
      assert |TilesAt(c, m, x, y)| <= MAX_NEIS;
    }
  }

  lemma ShapeSize(ts: seq<Tile>, ts': seq<Tile>)
    requires SameShape(ts, ts')
    ensures |ts'| == |ts|
  {
  }

  lemma ClearFrame(c: Config, m: Mesh, m': Mesh, tile: nat, x: int, y: int)
    requires c.layout.Ok() && Clear(c, m, tile, x, y) && KeepsAvoiding(c, m, m', tile) && SameShape(m.ts, m'.ts)
    ensures Clear(c, m', tile, x, y)
  {
    hide Avoids, SameShape;
    forall i: nat | i < |m'.ts| && i != tile && AtPlace(m'.ts[i], x, y) ensures Avoids(c.layout, m', i, tile) {
      AtPlaceFrame(m.ts, m'.ts, i, x, y);
    }
  }

  lemma SideOf(dx: int, dy: int) returns (k: nat)
    requires -1 <= dx <= 1 && -1 <= dy <= 1 && (dx != 0 || dy != 0)
    ensures k < 8 && StepX(k) == dx && StepY(k) == dy
  {
    k := if dx == 1 then (if dy == 0 then 0 else if dy == 1 then 1 else 7)
         else if dx == 0 then (if dy == 1 then 2 else 6)
         else (if dy == 1 then 3 else if dy == 0 then 4 else 5);
  }

  lemma ClearAt(c: Config, m: Mesh, tile: nat, x: int, y: int, i: nat)
    requires c.layout.Ok() && Clear(c, m, tile, x, y) && i < |m.ts| && i != tile && AtPlace(m.ts[i], x, y)
    ensures Avoids(c.layout, m, i, tile)
  {
  }

  /** Same position plus eight neighbours is everything near; tiles farther away never linked here. */
  lemma AllClear(c: Config, m: Mesh, m': Mesh, tile: nat, x: int, y: int)
    requires MeshOk(c, m') && SameShape(m.ts, m'.ts) && tile < |m.ts| && AtPlace(m.ts[tile], x, y)
    requires Clear(c, m', tile, x, y)
    requires forall k: nat | k < 8 :: Clear(c, m', tile, x + StepX(k), y + StepY(k))
    ensures forall i: nat | i < |m'.ts| && i != tile :: Avoids(c.layout, m', i, tile)
  {
    hide SameShape, Avoids, MeshOk, Clear, StepX, StepY, SlotsOk, RefsOk, TilesOk, Unique;
    MeshParts(c, m');
    LiveFrame(m.ts, m'.ts, tile);
    forall i: nat | i < |m'.ts| && i != tile ensures Avoids(c.layout, m', i, tile) {
      if m'.ts[i].body.Some? && Near(m'.ts[i].body.value.x, m'.ts[i].body.value.y, m'.ts[tile].body.value) {
        var dx, dy := m'.ts[i].body.value.x - x, m'.ts[i].body.value.y - y;
        if dx == 0 && dy == 0 {
          ClearAt(c, m', tile, x, y, i);
        } else {
          var k := SideOf(dx, dy);
          ClearAt(c, m', tile, x + StepX(k), y + StepY(k), i);
        }
      } else {
        FarAvoids(c.layout, m', i, tile);
      }
    }
  }

  lemma MeshHome(c: Config, m: Mesh, i: nat)
    requires MeshOk(c, m) && i < |m.ts|
    ensures Home(c, m.ts[i]) < |m.slots| && i in m.slots[Home(c, m.ts[i])]
  {
    InHome(c, m, i);
  }

  lemma EvictOk(c: Config, m: Mesh, chain: nat, p: nat, salt: nat)
    requires MeshOk(c, m) && 1 <= chain < |m.slots| == |m.heads| && |m.lists| == |m.ts| && p < |m.slots[chain]|
    requires 1 <= salt < c.layout.salts
    requires forall i: nat | i < |m.ts| && i != m.slots[chain][p] :: Avoids(c.layout, m, i, m.slots[chain][p])
    ensures ConfigOk(c) && SlotsOk(c, m)
    ensures var x, m' := m.slots[chain][p], Moved(c, m, chain, p, Tile(salt, m.heads[0], None), []);
            && MeshOk(c, m') && x < |m.ts| && OthersSame(m.ts, m'.ts, x) && m'.ts[x] == Tile(salt, m.heads[0], None)
  {
    MovedOk(c, m, chain, p, Tile(salt, m.heads[0], None), []);
  }

  /** The reference names an existing slot by its current salt. */
  predicate Named(c: Layout, ts: seq<Tile>, ref: nat) {
    c.Ok() && ref != 0 && DecodeTile(c, ref) < |ts| && ts[DecodeTile(c, ref)].salt == DecodeSalt(c, ref)
  }

  ghost predicate Tracked(c: Layout, ts: seq<Tile>, born: seq<nat>, removals: seq<nat>)
    requires c.Ok()
  {
    && |born| == |removals| == |ts|
    && forall i | 0 <= i < |ts| :: 1 <= born[i] < c.salts && ts[i].salt == SaltAfter(c, born[i], removals[i])
  }

  /** Slots other than `x` keep salt and contents, up to links. */
  ghost predicate OthersKept(ts: seq<Tile>, ts': seq<Tile>, x: nat) {
    |ts'| == |ts| && forall i | 0 <= i < |ts| && i != x ::
      && ts'[i].salt == ts[i].salt && (ts'[i].body.Some? <==> ts[i].body.Some?)
      && (ts[i].body.Some? ==> Frame(ts'[i].body.value) == Frame(ts[i].body.value))
  }

  lemma StrippedBefore(c: Layout, m: Mesh, m1: Mesh, m2: Mesh, x: nat, i: nat)
    requires c.Ok() && i < |m.ts| && i != x && |m1.ts| == |m.ts| && |m.lists| == |m.ts| && |m1.lists| == |m.ts|
    requires |m2.lists| == |m.ts|
    requires TileStripped(c, m, m1, x, i) && OthersSame(m1.ts, m2.ts, x) && m2.lists[i] == m1.lists[i]
    ensures TileStripped(c, m, m2, x, i)
  {
    hide BodyStripped;
  }

  lemma ShapeThenSame(ts: seq<Tile>, ts1: seq<Tile>, ts2: seq<Tile>, x: nat)
    requires SameShape(ts, ts1) && OthersSame(ts1, ts2, x)
    ensures OthersKept(ts, ts2, x)
  {
    hide Frame;
    forall i | 0 <= i < |ts| && i != x
      ensures && ts2[i].salt == ts[i].salt && (ts2[i].body.Some? <==> ts[i].body.Some?)
              && (ts[i].body.Some? ==> Frame(ts2[i].body.value) == Frame(ts[i].body.value))
    {
      assert SameTile(ts[i], ts1[i]);
    }
  }

  lemma TrackRemoval(c: Layout, ts: seq<Tile>, ts': seq<Tile>, born: seq<nat>, removals: seq<nat>, x: nat)
    requires c.Ok() && Tracked(c, ts, born, removals) && OthersKept(ts, ts', x) && x < |ts|
    requires ts'[x].salt == NextSalt(c, ts[x].salt)
    ensures Tracked(c, ts', born, removals[x := removals[x] + 1])
  {
    hide NextSalt, Frame;
    forall i | 0 <= i < |ts|
      ensures ts'[i].salt == SaltAfter(c, born[i], removals[x := removals[x] + 1][i])
    {
    }
  }

  // ---- References over runs ----

  /**
   A reference valid at one time is valid at a later one exactly when its slot is in use with the polygon in range and
   the removals in between are a multiple of one less than the number of salts.
   */
  lemma RefReturns(c: Layout, ts: seq<Tile>, ts': seq<Tile>, born: seq<nat>, removals: seq<nat>, removals': seq<nat>,
                   ref: nat)
    requires c.Ok() && Tracked(c, ts, born, removals) && Tracked(c, ts', born, removals') && ValidRef(c, ts, ref)
    requires |ts'| == |ts| && removals[DecodeTile(c, ref)] <= removals'[DecodeTile(c, ref)]
    ensures var x := DecodeTile(c, ref);
            ValidRef(c, ts', ref) <==> Returned(c, ts', removals'[x] - removals[x], ref)
  {
    hide DecodeTile, DecodePoly, DecodeSalt, SaltAfter;
    var x := DecodeTile(c, ref);
    if removals[x] < removals'[x] {
      StaleReference(c, born[x], removals[x], removals'[x]);
    }
  }

  /** The slot is in use, the polygon in range, and `n` removals are whole cycles of salts. */
  ghost predicate Returned(c: Layout, ts: seq<Tile>, n: nat, ref: nat)
    requires c.Ok()
  {
    var x := DecodeTile(c, ref);
    && x < |ts| && ts[x].body.Some? && DecodePoly(c, ref) < |ts[x].body.value.polys|
    && n % (c.salts - 1) == 0
  }

  /** Too few removals to come round: the reference is as dead as its tile. */
  lemma StaysStale(c: Layout, ts: seq<Tile>, ts': seq<Tile>, born: seq<nat>, removals: seq<nat>, removals': seq<nat>,
                   ref: nat)
    requires c.Ok() && Tracked(c, ts, born, removals) && Tracked(c, ts', born, removals') && ValidRef(c, ts, ref)
    requires |ts'| == |ts|
    requires 0 < removals'[DecodeTile(c, ref)] - removals[DecodeTile(c, ref)] < c.salts - 1
    ensures !ValidRef(c, ts', ref)
  {
    hide DecodeTile, DecodePoly, DecodeSalt, SaltAfter;
    RefReturns(c, ts, ts', born, removals, removals', ref);
    SmallMod(removals'[DecodeTile(c, ref)] - removals[DecodeTile(c, ref)], c.salts - 1);
  }

  lemma SmallMod(n: nat, d: nat)
    requires n < d
    ensures n % d == n
  {
  }

  lemma RoomAt(c: Config, m: Mesh, x: int, y: int)
    requires Uncrowded(c, m)
    ensures 1 + c.hash(x, y) < |m.slots|
    ensures |Take(TilesAt(c, m, x, y), MAX_NEIS)| < MAX_NEIS <==> |TilesAt(c, m, x, y)| < MAX_NEIS
    ensures |TilesAt(c, m, x, y)| < MAX_NEIS ==> HasRoom(c, m, x, y)
  {
  }

  // ---- Facts for adding ----

  lemma FreeIsFree(c: Config, m: Mesh, p: nat)
    requires MeshOk(c, m) && |m.slots| > 0 && p < |m.slots[0]| && m.slots[0][p] < |m.ts|
    ensures m.ts[m.slots[0][p]].body.None?
  {
    OnHomeList(c, m, m.slots[0][p], 0, p);
  }

  lemma DataRefs(c: Layout, b: Body, base: nat)
    requires DataOk(c, b)
    ensures |b.links| >= 1
    ensures forall i | 0 <= i < |b.polys| :: RefsInside(b.polys[i], base, (r: nat) => base <= r < base + |b.polys|)
  {
  }

  lemma OwnFromBase(c: Layout, salt: nat, x: nat, b: Body, ls: seq<seq<nat>>, ok: nat -> bool)
    requires ls != [] && UsedRefs(b, ls, ok)
    requires forall r: nat :: ok(r) ==> Encode(c, salt, x, 0) <= r < Encode(c, salt, x, 0) + |b.polys|
    ensures OwnLinks(c, salt, x, b, ls)
  {
    forall j: nat | j < |b.links| && j !in ls[0] ensures OwnRef(c, salt, x, |b.polys|, b.links[j].ref) {
      assert ok(b.links[j].ref);
      var ip: nat := b.links[j].ref - Encode(c, salt, x, 0);
      assert b.links[j].ref == Encode(c, salt, x, ip);
    }
  }

  lemma MeshParts(c: Config, m: Mesh)
    requires MeshOk(c, m)
    ensures ConfigOk(c) && SlotsOk(c, m) && TilesOk(c.layout, m) && RefsOk(c.layout, m) && Unique(m.ts)
  {
  }

  lemma InstallOk(c: Config, m: Mesh, p: nat, t: Tile, data: Body, ls: seq<seq<nat>>)
    requires MeshOk(c, m) && |m.slots| == |m.heads| == c.lutSize + 1 && |m.lists| == |m.ts| && p < |m.slots[0]|
    requires m.slots[0][p] < |m.ts| && m.ts[m.slots[0][p]].body.None? && 1 <= t.salt < c.layout.salts && t.body.Some?
    requires var b := t.body.value;
             && Frame(b) == Frame(data) && DataOk(c.layout, data) && LinksOk(b, ls) && |ls| == |b.polys| + 1
             && PlaceFree(m.ts, data) && OwnLinks(c.layout, t.salt, m.slots[0][p], b, ls)
             && c.hash(b.x, b.y) < c.lutSize && t.next == m.heads[1 + c.hash(b.x, b.y)]
    ensures ConfigOk(c) && SlotsOk(c, m)
    ensures var x, m' := m.slots[0][p], Moved(c, m, 0, p, t, ls);
            MeshOk(c, m') && OthersSame(m.ts, m'.ts, x) && m'.ts[x] == t
  {
    hide MeshOk, SlotsOk, RefsOk, TilesOk, Avoids, Frame, DataOk, LinksOk, LinksUpto, Moved, OwnLinks, ConfigOk, Unique;
    MeshParts(c, m);
    DataOkFrame(c.layout, data, t.body.value);
    FrameSize(t.body.value, data);
    assert PlaceFree(m.ts, t.body.value);
    forall i: nat | i < |m.ts| && i != m.slots[0][p] ensures Avoids(c.layout, m, i, m.slots[0][p]) {
      FreeSlotAvoided(c.layout, m, m.slots[0][p], i);
    }
    MovedOk(c, m, 0, p, t, ls);
  }

  datatype AddResult = Added(ref: nat) | WrongMagic | WrongVersion | InvalidParam | AlreadyOccupied | OutOfMemory

  /** What the file format promises, apart from the polygon count the mesh checks itself. */
  ghost predicate FormatOk(b: Body) {
    && |b.links| >= 1
    && (forall i | 0 <= i < |b.cons| :: b.cons[i].poly < |b.polys|)
    && (forall i, j | 0 <= i < |b.polys| && 0 <= j < |b.polys[i].neis| ::
          b.polys[i].neis[j].Inner? ==> b.polys[i].neis[j].poly < |b.polys|)
  }

  lemma FormatThenData(c: Layout, b: Body)
    requires FormatOk(b) && |b.polys| <= c.polys
    ensures DataOk(c, b)
  {
  }

  /** Some slot is free, or the one `lastRef` asks for is. */
  ghost predicate SlotAvailable(c: Layout, ts: seq<Tile>, lastRef: nat)
    requires c.Ok()
  {
    if lastRef == 0 then exists i :: 0 <= i < |ts| && ts[i].body.None?
    else DecodeTile(c, lastRef) < |ts| && ts[DecodeTile(c, lastRef)].body.None?
  }

  /** The outcome of a successful addition. */
  ghost predicate AddedOk(c: Layout, ts: seq<Tile>, ts': seq<Tile>, data: Body, lastRef: nat, ref: nat)
    requires c.Ok()
  {
    var x := DecodeTile(c, ref);
    && x < |ts| == |ts'| && ts[x].body.None? && ts'[x].body.Some? && Frame(ts'[x].body.value) == Frame(data)
    && OthersKept(ts, ts', x)
    && ref == Encode(c, ts'[x].salt, x, 0) && DecodeSalt(c, ref) == ts'[x].salt
    && (if lastRef == 0 then ts'[x].salt == ts[x].salt
        else x == DecodeTile(c, lastRef) && ts'[x].salt == DecodeSalt(c, lastRef))
  }

  lemma AddedNow(c: Layout, ts: seq<Tile>, ts': seq<Tile>, data: Body, lastRef: nat, x: nat, ref: nat)
    requires c.Ok() && x < |ts| == |ts'| && ts[x].body.None? && ts'[x].body.Some?
    requires Frame(ts'[x].body.value) == Frame(data)
    requires OthersKept(ts, ts', x) && ref == Encode(c, ts'[x].salt, x, 0) && DecodeTile(c, ref) == x
    requires DecodeSalt(c, ref) == ts'[x].salt
    requires if lastRef == 0 then ts'[x].salt == ts[x].salt
               else x == DecodeTile(c, lastRef) && ts'[x].salt == DecodeSalt(c, lastRef)
    ensures AddedOk(c, ts, ts', data, lastRef, ref)
  {
  }

  lemma NonePlaced(ts: seq<Tile>, b: Body)
    requires forall i: nat | i < |ts| && ts[i].body.Some? :: !Placed(ts[i], b.x, b.y, b.layer)
    ensures PlaceFree(ts, b)
  {
  }

  lemma SaltInRange(c: Config, m: Mesh, x: nat, lastRef: nat)
    requires MeshOk(c, m) && x < |m.ts|
    ensures c.layout.Ok() && 1 <= m.ts[x].salt < c.layout.salts && DecodeSalt(c.layout, lastRef) < c.layout.salts
  {
    assert TileOk(c.layout, m.ts[x], m.lists[x]);
  }

  lemma SameThenShape(ts: seq<Tile>, ts1: seq<Tile>, ts2: seq<Tile>, x: nat, data: Body)
    requires OthersSame(ts, ts1, x) && SameShape(ts1, ts2) && x < |ts|
    requires ts1[x].body.Some? && Frame(ts1[x].body.value) == Frame(data)
    ensures OthersKept(ts, ts2, x) && ts2[x].body.Some? && Frame(ts2[x].body.value) == Frame(data)
    ensures ts2[x].salt == ts1[x].salt
  {
    hide Frame;
    forall i | 0 <= i < |ts| && i != x
      ensures && ts2[i].salt == ts[i].salt && (ts2[i].body.Some? <==> ts[i].body.Some?)
              && (ts[i].body.Some? ==> Frame(ts2[i].body.value) == Frame(ts[i].body.value))
    {
      assert SameTile(ts1[i], ts2[i]);
    }
    assert SameTile(ts1[x], ts2[x]);
  }

  /** Without `lastRef` no counter changes; with it those of slot `x` start anew, and no others change. */
  ghost predicate CountsKept(born: seq<nat>, removals: seq<nat>, born': seq<nat>, removals': seq<nat>, x: nat,
                             lastRef: nat) {
    if lastRef == 0 then born' == born && removals' == removals
    else x < |born'| && x < |born| && x < |removals| && born' == born[x := born'[x]] && removals' == removals[x := 0]
  }

  lemma TrackedSizes(c: Layout, ts: seq<Tile>, born: seq<nat>, removals: seq<nat>)
    requires c.Ok() && Tracked(c, ts, born, removals)
    ensures |born| == |removals| == |ts|
  {
  }

  lemma TrackAddition(c: Layout, ts: seq<Tile>, ts': seq<Tile>, born: seq<nat>, removals: seq<nat>, x: nat,
                      restored: bool)
    requires c.Ok() && Tracked(c, ts, born, removals) && OthersKept(ts, ts', x) && x < |ts|
    requires 1 <= ts'[x].salt < c.salts && (!restored ==> ts'[x].salt == ts[x].salt)
    ensures if restored then Tracked(c, ts', born[x := ts'[x].salt], removals[x := 0])
              else Tracked(c, ts', born, removals)
  {
    hide Frame, NextSalt;
  }

  lemma EncodedTile(c: Config, m: Mesh, x: nat)
    requires MeshOk(c, m) && x < |m.ts|
    ensures var ref := Encode(c.layout, m.ts[x].salt, x, 0);
            c.layout.Ok() && DecodeTile(c.layout, ref) == x && DecodeSalt(c.layout, ref) == m.ts[x].salt
  {
    assert TileOk(c.layout, m.ts[x], m.lists[x]);
    DecodeEncode(c.layout, m.ts[x].salt, x, 0);
  }

  // ---- The empty mesh ----

  lemma {:induction false} NoCount(ls: seq<seq<nat>>, x: nat)
    requires forall k | 0 <= k < |ls| :: ls[k] == []
    ensures Count(ls, x) == 0
  {
    if ls != [] { NoCount(ls[1..], x); }
  }

  lemma InitUncrowded(c: Config, m: Mesh)
    requires ConfigOk(c) && m.slots == [Upto(|m.ts|)] + seq(c.lutSize, _ => [])
    ensures Uncrowded(c, m)
  {
  }

  lemma InitOk(c: Config, m: Mesh)
    requires ConfigOk(c) && |m.ts| <= c.layout.tiles
    requires forall i | 0 <= i < |m.ts| :: m.ts[i] == Tile(1, if i + 1 < |m.ts| then i + 1 else NULL, None)
    requires m.heads == [if |m.ts| > 0 then 0 else NULL] + seq(c.lutSize, _ => NULL)
    requires m.slots == [Upto(|m.ts|)] + seq(c.lutSize, _ => []) && m.lists == seq(|m.ts|, _ => [])
    ensures MeshOk(c, m)
  {
    var n := |m.ts|;
    forall k | 0 <= k < |m.slots| ensures Linked(SlotNexts(m.ts), m.heads[k], m.slots[k]) {
    }
    forall x: nat ensures Count(m.slots, x) == if x < n then 1 else 0 {
      NoCount(m.slots[1..], x);
      UptoCount(n, x);
    }
    forall i: nat | i < n ensures i in m.slots[0] {
      assert Upto(n)[i] == i;
    }
  }
}

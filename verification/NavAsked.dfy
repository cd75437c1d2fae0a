/**
 Which links a tile may carry: every one is asked for by a portal or by an off-mesh connection, and connecting tiles
 adds no others.
 */
module NavAsked {
  import opened Basics
  import opened NavTile
  import opened NavState
  import opened NavLinks

  // ---- Requests ----

  /** A portal of tile `t` on `side` asks for `r` into tile `u` on that side. */
  ghost predicate PortalAsks(g: Geometry, c: Config, m: Mesh, t: nat, u: nat, side: int, r: Request) {
    && t < |m.ts| && u < |m.ts| && m.ts[t].body.Some? && m.ts[u].body.Some?
    && var a, b := Frame(m.ts[t].body.value), Frame(m.ts[u].body.value);
       t != u && Aside(a, b, side) && r in ExtRequests(g, c.layout, a, b, u, m.ts[u].salt, side, |a.polys|)
  }

  /** Off-mesh connection `i` of tile `t` asks for `r` where it starts. */
  ghost predicate BaseAsks(g: Geometry, c: Config, m: Mesh, t: nat, i: nat, r: Request) {
    && t < |m.ts| && m.ts[t].body.Some?
    && var b := Frame(m.ts[t].body.value);
       i < |b.cons| &&
       var con, near := b.cons[i], g.nearest(b, b.cons[i], false);
       near.Some? &&
       var k := near.value.0;
       || r == Request(con.poly, Encode(c.layout, m.ts[t].salt, t, k), 0, NO_SIDE)
       || r == Request(k, Encode(c.layout, m.ts[t].salt, t, con.poly), 0xff, NO_SIDE)
  }

  /** Off-mesh connection `i` of tile `u`, on `side` of tile `v` and landing there, asks tile `t` for `r`. */
  ghost predicate LandAsks(g: Geometry, c: Config, m: Mesh, t: nat, v: nat, u: nat, side: int, i: nat, r: Request) {
    && u < |m.ts| && v < |m.ts| && m.ts[u].body.Some? && m.ts[v].body.Some?
    && var a, b := Frame(m.ts[v].body.value), Frame(m.ts[u].body.value);
       Aside(a, b, side) && i < |b.cons| &&
       var con, near := b.cons[i], g.nearest(a, b.cons[i], true);
       con.side == OppositeCode(side) && near.Some? &&
       var k := near.value.0;
       || (t == u && r == Request(con.poly, Encode(c.layout, m.ts[v].salt, v, k), 1, OppositeCode(side)))
       || (t == v && con.bidir && r == Request(k, Encode(c.layout, m.ts[u].salt, u, con.poly), 0xff, SideCode(side)))
  }

  ghost predicate Asked(g: Geometry, c: Config, m: Mesh, t: nat, r: Request) {
    || (exists u, side :: PortalAsks(g, c, m, t, u, side, r))
    || (exists i :: BaseAsks(g, c, m, t, i, r))
    || (exists v, u, side, i :: LandAsks(g, c, m, t, v, u, side, i, r))
  }

  lemma FrameAside(a: Body, b: Body, side: int)
    ensures Aside(Frame(a), Frame(b), side) <==> Aside(a, b, side)
  {
  }

  lemma AskedStays(g: Geometry, c: Config, m: Mesh, m': Mesh, t: nat, r: Request)
    requires Grown(m, m') && Asked(g, c, m, t, r)
    ensures Asked(g, c, m', t, r)
  {
    hide Grown, Frame, ExtRequests, Encode;
    if u: nat, side: int :| PortalAsks(g, c, m, t, u, side, r) {
      TileSame(m, m', t);
      TileSame(m, m', u);
      assert PortalAsks(g, c, m', t, u, side, r);
    } else if i: nat :| BaseAsks(g, c, m, t, i, r) {
      TileSame(m, m', t);
      assert BaseAsks(g, c, m', t, i, r);
    } else {
      var v: nat, u: nat, side: int, i: nat :| LandAsks(g, c, m, t, v, u, side, i, r);
      TileSame(m, m', v);
      TileSame(m, m', u);
      assert LandAsks(g, c, m', t, v, u, side, i, r);
    }
  }

  // ---- Only what is asked for ----

  function ToRequest(q: nat, w: Shown): Request
    requires q > 0
  {
    Request(q - 1, w.0, w.1, w.2)
  }

  /** Polygon `q - 1` of tile `t` shows the links it showed before, and in front of them links asked for. */
  ghost predicate ListAsked(g: Geometry, c: Config, m: Mesh, m': Mesh, t: nat, q: nat)
    requires t < |m.ts| && t < |m'.ts| && m.ts[t].body.Some? && m'.ts[t].body.Some?
    requires t < |m.lists| && t < |m'.lists| && 1 <= q < |m.lists[t]| && |m'.lists[t]| == |m.lists[t]|
  {
    var was, now := Along(m.ts[t].body.value.links, m.lists[t][q]), Along(m'.ts[t].body.value.links, m'.lists[t][q]);
    EndsWith(now, was) && forall k | 0 <= k < |now| - |was| :: Asked(g, c, m', t, ToRequest(q, now[k]))
  }

  ghost predicate TileAsked(g: Geometry, c: Config, m: Mesh, m': Mesh, t: nat) {
    && t < |m.ts| && t < |m'.ts| && m.ts[t].body.Some? && m'.ts[t].body.Some?
    && t < |m.lists| && t < |m'.lists| && |m'.lists[t]| == |m.lists[t]|
    && forall q: nat | 1 <= q < |m.lists[t]| :: ListAsked(g, c, m, m', t, q)
  }

  ghost predicate OnlyAsked(g: Geometry, c: Config, m: Mesh, m': Mesh) {
    |m'.ts| == |m.ts| && forall t: nat | t < |m.ts| && m.ts[t].body.Some? :: TileAsked(g, c, m, m', t)
  }

  /** Links were added, all of them asked for, and end points moved onto the ground; nothing else changed. */
  ghost predicate Extended(g: Geometry, c: Config, m: Mesh, m': Mesh) {
    Grown(m, m') && OnlyAsked(g, c, m, m') && EndsMoved(g, m, m')
  }

  /** Links were added; if `asked`, all of them were asked for. */
  ghost predicate LinksAdded(asked: bool, g: Geometry, c: Config, m: Mesh, m': Mesh) {
    Grown(m, m') && (asked ==> OnlyAsked(g, c, m, m'))
  }

  lemma LinksAddedTrans(asked: bool, g: Geometry, c: Config, m0: Mesh, m1: Mesh, m2: Mesh)
    requires LinksAdded(asked, g, c, m0, m1) && LinksAdded(asked, g, c, m1, m2)
    ensures LinksAdded(asked, g, c, m0, m2)
  {
    hide Grown, OnlyAsked;
    GrownTrans(m0, m1, m2);
    if asked { AskedTrans(g, c, m0, m1, m2); }
  }

  /** The same, and end points moved onto the ground. */
  ghost predicate Grows(asked: bool, g: Geometry, c: Config, m: Mesh, m': Mesh) {
    LinksAdded(asked, g, c, m, m') && EndsMoved(g, m, m')
  }

  lemma GrowsTrans(asked: bool, g: Geometry, c: Config, m0: Mesh, m1: Mesh, m2: Mesh)
    requires Grows(asked, g, c, m0, m1) && Grows(asked, g, c, m1, m2)
    ensures Grows(asked, g, c, m0, m2)
  {
    hide Grown, OnlyAsked, EndsMoved;
    LinksAddedTrans(asked, g, c, m0, m1, m2);
    EndsTrans(g, m0, m1, m2);
  }

  lemma ExtendedRefl(g: Geometry, c: Config, m: Mesh)
    requires MeshOk(c, m)
    ensures Extended(g, c, m, m)
  {
    hide Along, Asked, EndsMoved;
    MeshGrown(c, m);
    MeshSizes(c, m);
    EndsRefl(g, m);
  }

  lemma EndsRefl(g: Geometry, m: Mesh)
    ensures EndsMoved(g, m, m)
  {
    SameThenMoved(g, m, m);
  }

  lemma ExtendedTrans(g: Geometry, c: Config, m0: Mesh, m1: Mesh, m2: Mesh)
    requires Extended(g, c, m0, m1) && Extended(g, c, m1, m2)
    ensures Extended(g, c, m0, m2)
  {
    hide Grown, OnlyAsked, EndsMoved;
    GrownTrans(m0, m1, m2);
    AskedTrans(g, c, m0, m1, m2);
    EndsTrans(g, m0, m1, m2);
  }

  lemma AskedTrans(g: Geometry, c: Config, m0: Mesh, m1: Mesh, m2: Mesh)
    requires OnlyAsked(g, c, m0, m1) && OnlyAsked(g, c, m1, m2) && Grown(m1, m2)
    ensures OnlyAsked(g, c, m0, m2)
  {
    hide Grown, ListAsked;
    forall t: nat | t < |m0.ts| && m0.ts[t].body.Some? ensures TileAsked(g, c, m0, m2, t) {
      assert TileAsked(g, c, m0, m1, t) && TileAsked(g, c, m1, m2, t);
      forall q: nat | 1 <= q < |m0.lists[t]| ensures ListAsked(g, c, m0, m2, t, q) {
        ListAskedTrans(g, c, m0, m1, m2, t, q);
      }
    }
  }

  lemma ListAskedTrans(g: Geometry, c: Config, m0: Mesh, m1: Mesh, m2: Mesh, t: nat, q: nat)
    requires Grown(m1, m2) && TileAsked(g, c, m0, m1, t) && TileAsked(g, c, m1, m2, t) && 1 <= q < |m0.lists[t]|
    ensures ListAsked(g, c, m0, m2, t, q)
  {
    hide Grown, Asked, Along;
    assert ListAsked(g, c, m0, m1, t, q) && ListAsked(g, c, m1, m2, t, q);
    var a, b := Along(m0.ts[t].body.value.links, m0.lists[t][q]), Along(m1.ts[t].body.value.links, m1.lists[t][q]);
    var d := Along(m2.ts[t].body.value.links, m2.lists[t][q]);
    EndsWithTrans(a, b, d);
    forall k | 0 <= k < |d| - |a| ensures Asked(g, c, m2, t, ToRequest(q, d[k])) {
      if k >= |d| - |b| {
        var j := k - (|d| - |b|);
        assert d[k] == d[|d| - |b|..][j] == b[j];
        AskedStays(g, c, m1, m2, t, ToRequest(q, b[j]));
      }
    }
  }

  /** Tiles other than `i` are the same, and tile `i` shows the same links. */
  lemma SameAsked(g: Geometry, c: Config, m: Mesh, i: nat, b: Body)
    requires MeshOk(c, m) && i < |m.ts| == |m.lists| && m.ts[i].body.Some? && b.links == m.ts[i].body.value.links
    ensures OnlyAsked(g, c, m, WithLinks(m, i, b, m.lists[i]))
  {
    hide Along, Asked;
  }

  /** One link pushed, and it was asked for. */
  lemma PushAsked(g: Geometry, c: Config, m: Mesh, m': Mesh, t: nat, r: Request)
    requires MeshOk(c, m) && t < |m.ts| && m.ts[t].body.Some? && r.poly < |m.ts[t].body.value.polys|
    requires Fillable(m.ts[t].body.value) && |m.lists| == |m.ts| && r.poly + 1 < |m.lists[t]| && Grown(m, m')
    requires m' == WithLinks(m, t, PushLink(m.ts[t].body.value, r.poly, r.ref, r.edge, r.side),
                             PushLists(m.lists[t], r.poly))
    requires Asked(g, c, m, t, r)
    ensures OnlyAsked(g, c, m, m')
  {
    hide MeshOk, Grown, LinksOk, LinksUpto, Along, Asked, PushLink, PushLists, DataOk;
    MeshTile(c, m, t);
    AskedStays(g, c, m, m', t, r);
    GrownLists(m, m', t);
    var b, ls := m.ts[t].body.value, m.lists[t];
    forall q: nat | 1 <= q < |ls| ensures ListAsked(g, c, m, m', t, q) {
      PushShows(b, ls, r, q);
    }
    forall k: nat | k < |m.ts| && m.ts[k].body.Some? ensures TileAsked(g, c, m, m', k) {
    }
  }

  lemma PushShows(b: Body, ls: seq<seq<nat>>, r: Request, q: nat)
    requires LinksOk(b, ls) && |ls| == |b.polys| + 1 && r.poly < |b.polys| && 1 <= q < |ls| && Fillable(b)
    ensures var b', ls' := PushLink(b, r.poly, r.ref, r.edge, r.side), PushLists(ls, r.poly);
            && |ls'| == |ls|
            && (|| Along(b'.links, ls'[q]) == Along(b.links, ls[q])
                || (q - 1 == r.poly && Along(b'.links, ls'[q]) == [(r.ref, r.edge, r.side)] + Along(b.links, ls[q])))
  {
    hide LinksUpto, Along;
    FreeHead(b, ls, |b.polys|);
    if ls[0] != [] { PushLinkAlong(b, ls, |b.polys|, r.poly, r.ref, r.edge, r.side, q); }
  }

  /** Serving the requests of portals adds only links that portals ask for. */
  lemma ExtAsked(g: Geometry, c: Config, m: Mesh, m': Mesh, t: nat, u: nat, side: int)
    requires MeshOk(c, m) && Grown(m, m') && ExtLinked(g, c, m, m', t, u, side) && t != u && Beside(m.ts, t, u, side)
    ensures OnlyAsked(g, c, m, m')
  {
    hide MeshOk, Grown, Along, Asked, ExtRequests, Frame, Served;
    MeshSizes(c, m);
    TileSame(m, m', t);
    TileSame(m, m', u);
    GrownLists(m, m', t);
    forall q: nat | 1 <= q < |m.lists[t]| ensures ListAsked(g, c, m, m', t, q) {
      ExtListAsked(g, c, m, m', t, u, side, q);
    }
    forall k: nat | k < |m.ts| && m.ts[k].body.Some? ensures TileAsked(g, c, m, m', k) {
    }
  }

  lemma ExtListAsked(g: Geometry, c: Config, m: Mesh, m': Mesh, t: nat, u: nat, side: int, q: nat)
    requires Grown(m, m') && ExtLinked(g, c, m, m', t, u, side) && 1 <= q < |m.lists[t]| && t != u
    requires Beside(m.ts, t, u, side)
    ensures |m'.lists[t]| == |m.lists[t]| && ListAsked(g, c, m, m', t, q)
  {
    hide Grown, Along, ExtRequests, Frame, Pushed;
    TileSame(m, m', t);
    TileSame(m, m', u);
    var b, b', ls, ls' := m.ts[t].body.value, m'.ts[t].body.value, m.lists[t], m'.lists[t];
    var a := Frame(b);
    var rs := ExtRequests(g, c.layout, a, Frame(m.ts[u].body.value), u, m.ts[u].salt, side, |a.polys|);
    var taken := if |rs| <= |ls[0]| then rs else rs[..|ls[0]|];
    var was, now := Along(b.links, ls[q]), Along(b'.links, ls'[q]);
    FrameAside(b, m.ts[u].body.value, side);
    PushedFront(was, taken, q - 1, 0);
    forall k | 0 <= k < |now| - |was| ensures Asked(g, c, m', t, ToRequest(q, now[k])) {
      PushedFront(was, taken, q - 1, k);
      var i :| 0 <= i < |taken| && taken[i].poly == q - 1 && now[k] == Shows(taken[i]);
      assert taken[i] in rs && ToRequest(q, now[k]) == taken[i];
      assert PortalAsks(g, c, m', t, u, side, taken[i]);
    }
  }

  /** What attaching a connection at its start asks for. */
  lemma BaseAsked(g: Geometry, c: Config, m: Mesh, t: nat, i: nat)
    requires t < |m.ts| && m.ts[t].body.Some? && i < |m.ts[t].body.value.cons|
    requires g.nearest(Frame(m.ts[t].body.value), m.ts[t].body.value.cons[i], false).Some?
    ensures var con := m.ts[t].body.value.cons[i];
            var k := g.nearest(Frame(m.ts[t].body.value), con, false).value.0;
            && Asked(g, c, m, t, Request(con.poly, Encode(c.layout, m.ts[t].salt, t, k), 0, NO_SIDE))
            && Asked(g, c, m, t, Request(k, Encode(c.layout, m.ts[t].salt, t, con.poly), 0xff, NO_SIDE))
  {
    hide Encode;
    var con := m.ts[t].body.value.cons[i];
    var k := g.nearest(Frame(m.ts[t].body.value), con, false).value.0;
    assert BaseAsks(g, c, m, t, i, Request(con.poly, Encode(c.layout, m.ts[t].salt, t, k), 0, NO_SIDE));
    assert BaseAsks(g, c, m, t, i, Request(k, Encode(c.layout, m.ts[t].salt, t, con.poly), 0xff, NO_SIDE));
  }

  /** What attaching a connection where it lands asks for. */
  lemma LandAsked(g: Geometry, c: Config, m: Mesh, t: nat, u: nat, side: int, i: nat)
    requires t < |m.ts| && u < |m.ts| && m.ts[t].body.Some? && m.ts[u].body.Some? && i < |m.ts[u].body.value.cons|
    requires m.ts[u].body.value.cons[i].side == OppositeCode(side) && Beside(m.ts, t, u, side)
    requires g.nearest(Frame(m.ts[t].body.value), m.ts[u].body.value.cons[i], true).Some?
    ensures var con := m.ts[u].body.value.cons[i];
            var k := g.nearest(Frame(m.ts[t].body.value), con, true).value.0;
            && Asked(g, c, m, u, Request(con.poly, Encode(c.layout, m.ts[t].salt, t, k), 1, OppositeCode(side)))
            && (con.bidir ==> Asked(g, c, m, t,
                                    Request(k, Encode(c.layout, m.ts[u].salt, u, con.poly), 0xff, SideCode(side))))
  {
    hide Encode;
    var con := m.ts[u].body.value.cons[i];
    var k := g.nearest(Frame(m.ts[t].body.value), con, true).value.0;
    assert LandAsks(g, c, m, u, t, u, side, i,
                    Request(con.poly, Encode(c.layout, m.ts[t].salt, t, k), 1, OppositeCode(side)));
    assert con.bidir ==>
        LandAsks(g, c, m, t, t, u, side, i,
                 Request(k, Encode(c.layout, m.ts[u].salt, u, con.poly), 0xff, SideCode(side)));
  }

  // ---- Off-mesh connections between tiles ----

  /**
   The tiles found at a position and tile `t`, both ways: each off-mesh connection whose start was connected in `m` is
   landed in `m'`.
   */
  ghost predicate PlaceLanded(g: Geometry, c: Config, m: Mesh, m': Mesh, t: nat, x: int, y: int, side: int, back: int)
    requires 1 + c.hash(x, y) < |m.slots|
  {
    forall n | n in Take(TilesAt(c, m, x, y), MAX_NEIS) && n != t :: PairLanded(g, c, m, m', t, n, side, back)
  }

  ghost predicate PairLanded(g: Geometry, c: Config, m: Mesh, m': Mesh, t: nat, n: nat, side: int, back: int) {
    && (forall i: nat | HasStart(m, n, i) :: Landed(g, c, m', t, n, side, i))
    && (forall i: nat | HasStart(m, t, i) :: Landed(g, c, m', n, t, back, i))
  }

  lemma PairLandedStays(g: Geometry, c: Config, m: Mesh, m1: Mesh, m2: Mesh, m3: Mesh, t: nat, n: nat, side: int,
                        back: int)
    requires MeshOk(c, m) && MeshOk(c, m1) && Grown(m, m1) && Grown(m2, m3) && EndsMoved(g, m2, m3)
    requires PairLanded(g, c, m1, m2, t, n, side, back)
    ensures PairLanded(g, c, m, m3, t, n, side, back)
  {
    hide MeshOk, Grown, Landed, HasStart, EndsMoved;
    forall i: nat | HasStart(m, n, i) ensures Landed(g, c, m3, t, n, side, i) {
      StartStays(c, m, m1, n, i);
      LandedStays(g, c, m2, m3, t, n, side, i);
    }
    forall i: nat | HasStart(m, t, i) ensures Landed(g, c, m3, n, t, back, i) {
      StartStays(c, m, m1, t, i);
      LandedStays(g, c, m2, m3, n, t, back, i);
    }
  }

  /** All that connecting a pair of tiles does, seen from `m`. */
  ghost predicate PairDone(g: Geometry, c: Config, m: Mesh, m': Mesh, t: nat, n: nat, side: int, back: int) {
    Joined(g, c, m', t, n, side) && Joined(g, c, m', n, t, back) && PairLanded(g, c, m, m', t, n, side, back)
  }

  lemma PairDoneStays(g: Geometry, c: Config, m: Mesh, m1: Mesh, m2: Mesh, m3: Mesh, t: nat, n: nat, side: int,
                      back: int)
    requires MeshOk(c, m) && MeshOk(c, m1) && Grown(m, m1) && Grown(m2, m3) && EndsMoved(g, m2, m3)
    requires PairDone(g, c, m1, m2, t, n, side, back)
    ensures PairDone(g, c, m, m3, t, n, side, back)
  {
    hide MeshOk, Grown, Joined, PairLanded, EndsMoved;
    JoinedStays(g, c, m2, m3, t, n, side);
    JoinedStays(g, c, m2, m3, n, t, back);
    PairLandedStays(g, c, m, m1, m2, m3, t, n, side, back);
  }

  lemma PlaceLandedStays(g: Geometry, c: Config, m: Mesh, m1: Mesh, m2: Mesh, m3: Mesh, t: nat, x: int, y: int,
                         side: int, back: int)
    requires MeshOk(c, m) && MeshOk(c, m1) && Grown(m, m1) && Grown(m2, m3) && EndsMoved(g, m2, m3)
    requires 1 + c.hash(x, y) < |m.slots| && |m1.slots| == |m.slots| && PlaceLanded(g, c, m1, m2, t, x, y, side, back)
    ensures PlaceLanded(g, c, m, m3, t, x, y, side, back)
  {
    hide MeshOk, Grown, PairLanded, PlaceFilter, Take, EndsMoved;
    TilesAtGrown(c, m, m1, x, y);
    forall n | n in Take(TilesAt(c, m, x, y), MAX_NEIS) && n != t ensures PairLanded(g, c, m, m3, t, n, side, back) {
      PairLandedStays(g, c, m, m1, m2, m3, t, n, side, back);
    }
  }

  /** Same position, and the neighbours on the first `i` sides. */
  ghost predicate SidesLanded(g: Geometry, c: Config, m: Mesh, m': Mesh, t: nat, x: int, y: int, i: nat)
    requires |m.slots| == c.lutSize + 1 && (forall x, y :: c.hash(x, y) < c.lutSize)
  {
    && PlaceLanded(g, c, m, m', t, x, y, -1, -1)
    && forall k: nat | k < i :: PlaceLanded(g, c, m, m', t, x + StepX(k), y + StepY(k), k, OppositeTile(k))
  }

  lemma SidesLandedStays(g: Geometry, c: Config, m: Mesh, m1: Mesh, m2: Mesh, t: nat, x: int, y: int, i: nat)
    requires MeshOk(c, m) && Grown(m, m) && Grown(m1, m2) && |m.slots| == c.lutSize + 1 && EndsMoved(g, m1, m2)
    requires (forall x, y :: c.hash(x, y) < c.lutSize)
    requires SidesLanded(g, c, m, m1, t, x, y, i)
    ensures SidesLanded(g, c, m, m2, t, x, y, i)
  {
    hide MeshOk, Grown, PlaceLanded, EndsMoved;
    PlaceLandedStays(g, c, m, m, m1, m2, t, x, y, -1, -1);
    forall k: nat | k < i ensures PlaceLanded(g, c, m, m2, t, x + StepX(k), y + StepY(k), k, OppositeTile(k)) {
      PlaceLandedStays(g, c, m, m, m1, m2, t, x + StepX(k), y + StepY(k), k, OppositeTile(k));
    }
  }

  /** Connection `i` of tile `t` lands where it starts, and the tile has links left. */
  ghost predicate StartLands(g: Geometry, m: Mesh, t: nat, i: nat) {
    && t < |m.ts| && m.ts[t].body.Some? && !Full(m, t)
    && var b := Frame(m.ts[t].body.value);
       i < |b.cons| && g.nearest(b, b.cons[i], false).Some?
  }

  /** Then it is connected at its start from the time connections are based. */
  lemma LandsThenStarts(g: Geometry, c: Config, m: Mesh, m': Mesh, t: nat, i: nat)
    requires MeshOk(c, m) && AllBased(g, c, m, t) && Grown(m, m') && StartLands(g, m', t, i)
    ensures HasStart(m, t, i)
  {
    hide MeshOk, Grown, Frame, LinksOk, LinksUpto, DataOk, Along, Encode;
    TileSame(m, m', t);
    GrownLists(m, m', t);
    MeshTile(c, m, t);
    var b := m.ts[t].body.value;
    FrameCons(b);
    MeshCons(c, m, t, i);
    assert Based(g, c, m, t, i);
    var near := g.nearest(Frame(b), b.cons[i], false);
    HasLinkStays(m, m', t, Request(0, 0, 0, 0));
    var r := Request(b.cons[i].poly, Encode(c.layout, m.ts[t].salt, t, near.value.0), 0, NO_SIDE);
    assert HasLink(m, t, r);
    AlongSize(b.links, m.lists[t][r.poly + 1]);
    ListStep(b, m.lists[t], r.poly, 0);
  }

  lemma FrameCons(b: Body)
    ensures Frame(b).cons == b.cons
  {
  }

  /** Between tile `t` and the tiles at a position: connections that had a start before, and all of `t` that land. */
  ghost predicate PlaceCrossed(g: Geometry, c: Config, m: Mesh, m': Mesh, t: nat, x: int, y: int, side: int, back: int)
    requires 1 + c.hash(x, y) < |m'.slots|
  {
    forall n | n in Take(TilesAt(c, m', x, y), MAX_NEIS) && n != t ::
      && (forall i: nat | HasStart(m, n, i) :: Landed(g, c, m', t, n, side, i))
      && (forall i: nat | StartLands(g, m', t, i) :: Landed(g, c, m', n, t, back, i))
  }

  /** The same for the other layers and all eight neighbours of `t`. */
  ghost predicate Crossed(g: Geometry, c: Config, m: Mesh, m': Mesh, t: nat) {
    && t < |m'.ts| && m'.ts[t].body.Some? && |m'.slots| == c.lutSize + 1 && (forall x, y :: c.hash(x, y) < c.lutSize)
    && var x, y := m'.ts[t].body.value.x, m'.ts[t].body.value.y;
       && PlaceCrossed(g, c, m, m', t, x, y, -1, -1)
       && PlaceCrossed(g, c, m, m', t, x + 1, y, 0, 4) && PlaceCrossed(g, c, m, m', t, x + 1, y + 1, 1, 5)
       && PlaceCrossed(g, c, m, m', t, x, y + 1, 2, 6) && PlaceCrossed(g, c, m, m', t, x - 1, y + 1, 3, 7)
       && PlaceCrossed(g, c, m, m', t, x - 1, y, 4, 0) && PlaceCrossed(g, c, m, m', t, x - 1, y - 1, 5, 1)
       && PlaceCrossed(g, c, m, m', t, x, y - 1, 6, 2) && PlaceCrossed(g, c, m, m', t, x + 1, y - 1, 7, 3)
  }

  // ---- Adding a tile ----

  /** Tiles other than `x` keep their links and got only links asked for. */
  ghost predicate OthersExtended(g: Geometry, c: Config, m: Mesh, m': Mesh, x: nat) {
    && |m.lists| == |m.ts| && |m'.ts| == |m.ts| && |m'.lists| == |m.ts|
    && forall i: nat | i < |m.ts| && i != x && m.ts[i].body.Some? ::
         && TileAsked(g, c, m, m', i)
         && BodyGrows(m.ts[i].body.value, m.lists[i], m'.ts[i].body.value, m'.lists[i])
         && AllMove(g, m', i, m.ts[i].body.value.ends, m'.ts[i].body.value.ends)
  }

  /** A polygon of tile `x` shows inner links, all of them if there were enough, and in front links asked for. */
  ghost predicate OwnList(g: Geometry, c: Config, m: Mesh, x: nat, data: Body, i: nat, inner: seq<Shown>)
    requires x < |m.ts| && x < |m.lists| && m.ts[x].body.Some? && |m.lists[x]| == |data.polys| + 1 && i < |data.polys|
  {
    var now, base := Along(m.ts[x].body.value.links, m.lists[x][i + 1]), Encode(c.layout, m.ts[x].salt, x, 0);
    && EndsWith(now, inner) && (forall w | w in inner :: w in WantedLinks(data.polys[i], base))
    && (WantedFrom(data.polys, base, 0) <= |data.links| ==> inner == WantedLinks(data.polys[i], base))
    && forall k | 0 <= k < |now| - |inner| :: Asked(g, c, m, x, ToRequest(i + 1, now[k]))
  }

  /** Tile `x` has only inner links and links asked for. */
  ghost predicate OwnAsked(g: Geometry, c: Config, m: Mesh, x: nat, data: Body) {
    && x < |m.ts| && x < |m.lists| && m.ts[x].body.Some? && |m.lists[x]| == |data.polys| + 1
    && forall i: nat | i < |data.polys| :: OwnShown(g, c, m, x, data, i)
  }

  ghost predicate OwnShown(g: Geometry, c: Config, m: Mesh, x: nat, data: Body, i: nat)
    requires x < |m.ts| && x < |m.lists| && m.ts[x].body.Some? && |m.lists[x]| == |data.polys| + 1 && i < |data.polys|
  {
    exists inner :: OwnList(g, c, m, x, data, i, inner)
  }

  /** Everything adding tile `x` promises about links: those that must be there, those kept, and no others. */
  ghost predicate Connected(g: Geometry, c: Config, m: Mesh, m': Mesh, x: nat, data: Body) {
    && Woven(g, c, m', x) && AllBased(g, c, m', x) && InnerJoined(c, m', x, data) && Crossed(g, c, m, m', x)
    && OthersExtended(g, c, m, m', x) && OwnAsked(g, c, m', x, data)
    && AllMove(g, m', x, data.ends, m'.ts[x].body.value.ends)
  }

  /** From the mesh before a slot was filled (`m`), over the mesh just after (`m1`), to the connected mesh. */
  lemma OthersExtend(g: Geometry, c: Config, m: Mesh, m1: Mesh, m2: Mesh, x: nat)
    requires |m.lists| == |m.ts| && |m1.lists| == |m.ts| && x < |m.ts| && OthersSame(m.ts, m1.ts, x)
    requires m1.lists == m.lists[x := m1.lists[x]]
    requires Extended(g, c, m1, m2)
    ensures OthersExtended(g, c, m, m2, x)
  {
    hide Grown, Along, Asked, SameShape, AllMove;
    GrownShape(m1, m2);
    forall i: nat | i < |m.ts| && i != x && m.ts[i].body.Some?
      ensures TileAsked(g, c, m, m2, i) && BodyGrows(m.ts[i].body.value, m.lists[i], m2.ts[i].body.value, m2.lists[i])
      ensures AllMove(g, m2, i, m.ts[i].body.value.ends, m2.ts[i].body.value.ends)
    {
      assert TileAsked(g, c, m1, m2, i);
      GrownLists(m1, m2, i);
      forall q: nat | 1 <= q < |m.lists[i]| ensures ListAsked(g, c, m, m2, i, q) {
        assert ListAsked(g, c, m1, m2, i, q);
      }
    }
    GrownListSizes(m1, m2);
  }

  lemma GrownListSizes(m: Mesh, m': Mesh)
    requires Grown(m, m')
    ensures |m'.lists| == |m.lists| == |m.ts|
  {
  }

  lemma OwnExtends(g: Geometry, c: Config, m: Mesh, m': Mesh, x: nat, data: Body, ls: seq<seq<nat>>)
    requires Extended(g, c, m, m') && x < |m.ts| && x < |m.lists| && m.ts[x].body.Some? && m.lists[x] == ls
    requires LinkedInside(data, Encode(c.layout, m.ts[x].salt, x, 0), m.ts[x].body.value, ls)
    ensures OwnAsked(g, c, m', x, data)
  {
    hide Grown, Along, Asked, WantedLinks, WantedFrom, Encode;
    TileSame(m, m', x);
    assert TileAsked(g, c, m, m', x);
    forall i: nat | i < |data.polys| ensures OwnShown(g, c, m', x, data, i) {
      assert ListAsked(g, c, m, m', x, i + 1);
      assert OwnList(g, c, m', x, data, i, Along(m.ts[x].body.value.links, ls[i + 1]));
    }
  }

  /** A start in the mesh before the slot was filled is a start after. */
  lemma CrossedBefore(g: Geometry, c: Config, m: Mesh, m1: Mesh, m2: Mesh, x: nat)
    requires OthersSame(m.ts, m1.ts, x) && Crossed(g, c, m1, m2, x)
    ensures Crossed(g, c, m, m2, x)
  {
    hide Landed, StartLands, TilesAt, Take;
    forall n: nat, i: nat | n != x && HasStart(m, n, i) ensures HasStart(m1, n, i) {
    }
    var px, py := m2.ts[x].body.value.x, m2.ts[x].body.value.y;
    PlaceCrossedBefore(g, c, m, m1, m2, x, px + 1, py, 0, 4);
    PlaceCrossedBefore(g, c, m, m1, m2, x, px + 1, py + 1, 1, 5);
    PlaceCrossedBefore(g, c, m, m1, m2, x, px, py + 1, 2, 6);
    PlaceCrossedBefore(g, c, m, m1, m2, x, px - 1, py + 1, 3, 7);
    PlaceCrossedBefore(g, c, m, m1, m2, x, px - 1, py, 4, 0);
    PlaceCrossedBefore(g, c, m, m1, m2, x, px - 1, py - 1, 5, 1);
    PlaceCrossedBefore(g, c, m, m1, m2, x, px, py - 1, 6, 2);
    PlaceCrossedBefore(g, c, m, m1, m2, x, px + 1, py - 1, 7, 3);
    PlaceCrossedBefore(g, c, m, m1, m2, x, px, py, -1, -1);
  }

  lemma PlaceCrossedBefore(g: Geometry, c: Config, m: Mesh, m1: Mesh, m2: Mesh, x: nat, px: int, py: int, side: int,
                           back: int)
    requires 1 + c.hash(px, py) < |m2.slots| && PlaceCrossed(g, c, m1, m2, x, px, py, side, back)
    requires forall n: nat, i: nat | n != x && HasStart(m, n, i) :: HasStart(m1, n, i)
    ensures PlaceCrossed(g, c, m, m2, x, px, py, side, back)
  {
    hide Landed, StartLands, TilesAt, Take, HasStart;
  }

  /** `m` before connecting, `mb` after basing, `ml` when tiles are about to be connected, `m'` at the end. */
  lemma CrossedPlace(g: Geometry, c: Config, m: Mesh, mb: Mesh, ml: Mesh, m': Mesh, t: nat, x: int, y: int, side: int,
                     back: int)
    requires MeshOk(c, m) && MeshOk(c, mb) && MeshOk(c, ml) && Grown(m, ml) && Grown(mb, ml) && Grown(ml, m')
    requires Grown(mb, m')
    requires AllBased(g, c, mb, t) && 1 + c.hash(x, y) < |ml.slots| && PlaceLanded(g, c, ml, m', t, x, y, side, back)
    ensures 1 + c.hash(x, y) < |m'.slots| && PlaceCrossed(g, c, m, m', t, x, y, side, back)
  {
    hide MeshOk, Grown, AllBased, Landed, HasStart, StartLands, PlaceFilter, Take;
    TilesAtGrown(c, ml, m', x, y);
    forall n | n in Take(TilesAt(c, m', x, y), MAX_NEIS) && n != t
      ensures forall i: nat | HasStart(m, n, i) :: Landed(g, c, m', t, n, side, i)
      ensures forall i: nat | StartLands(g, m', t, i) :: Landed(g, c, m', n, t, back, i)
    {
      assert PairLanded(g, c, ml, m', t, n, side, back);
      forall i: nat | HasStart(m, n, i) ensures Landed(g, c, m', t, n, side, i) { StartStays(c, m, ml, n, i); }
      forall i: nat | StartLands(g, m', t, i) ensures Landed(g, c, m', n, t, back, i) {
        LandsThenStarts(g, c, mb, m', t, i);
        StartStays(c, mb, ml, t, i);
      }
    }
  }

  lemma CrossedNow(g: Geometry, c: Config, m: Mesh, mb: Mesh, ml: Mesh, m': Mesh, t: nat)
    requires MeshOk(c, m) && MeshOk(c, mb) && MeshOk(c, ml) && Grown(m, ml) && Grown(mb, ml) && Grown(ml, m')
    requires Grown(mb, m')
    requires AllBased(g, c, mb, t) && |ml.slots| == c.lutSize + 1 && (forall x, y :: c.hash(x, y) < c.lutSize)
    requires t < |m'.ts| && m'.ts[t].body.Some?
    requires SidesLanded(g, c, ml, m', t, m'.ts[t].body.value.x, m'.ts[t].body.value.y, 8)
    ensures Crossed(g, c, m, m', t)
  {
    hide MeshOk, Grown, AllBased, PlaceLanded, PlaceCrossed;
    GrownShape(ml, m');
    var x, y := m'.ts[t].body.value.x, m'.ts[t].body.value.y;
    CrossedPlace(g, c, m, mb, ml, m', t, x, y, -1, -1);
    assert PlaceLanded(g, c, ml, m', t, x + StepX(0), y + StepY(0), 0, OppositeTile(0));
    CrossedPlace(g, c, m, mb, ml, m', t, x + 1, y, 0, 4);
    assert PlaceLanded(g, c, ml, m', t, x + StepX(1), y + StepY(1), 1, OppositeTile(1));
    CrossedPlace(g, c, m, mb, ml, m', t, x + 1, y + 1, 1, 5);
    assert PlaceLanded(g, c, ml, m', t, x + StepX(2), y + StepY(2), 2, OppositeTile(2));
    CrossedPlace(g, c, m, mb, ml, m', t, x, y + 1, 2, 6);
    assert PlaceLanded(g, c, ml, m', t, x + StepX(3), y + StepY(3), 3, OppositeTile(3));
    CrossedPlace(g, c, m, mb, ml, m', t, x - 1, y + 1, 3, 7);
    assert PlaceLanded(g, c, ml, m', t, x + StepX(4), y + StepY(4), 4, OppositeTile(4));
    CrossedPlace(g, c, m, mb, ml, m', t, x - 1, y, 4, 0);
    assert PlaceLanded(g, c, ml, m', t, x + StepX(5), y + StepY(5), 5, OppositeTile(5));
    CrossedPlace(g, c, m, mb, ml, m', t, x - 1, y - 1, 5, 1);
    assert PlaceLanded(g, c, ml, m', t, x + StepX(6), y + StepY(6), 6, OppositeTile(6));
    CrossedPlace(g, c, m, mb, ml, m', t, x, y - 1, 6, 2);
    assert PlaceLanded(g, c, ml, m', t, x + StepX(7), y + StepY(7), 7, OppositeTile(7));
    CrossedPlace(g, c, m, mb, ml, m', t, x + 1, y - 1, 7, 3);
  }
}

/** `dtNavMesh`: adding and removing tiles, connecting and disconnecting them, looking them up. */
module NavMesh {
  import opened Basics
  import opened IndexLists
  import opened NavTile
  import opened NavState
  import opened NavLinks
  import opened NavAsked
  import opened NavRun

  class NavMesh {
    const c: Config
    const geo: Geometry
    const tiles: array<Tile>
    const posLookup: array<int>
    var nextFree: int
    ghost var slots: seq<seq<nat>>
    ghost var lists: seq<seq<seq<nat>>>
    ghost var born: seq<nat>       // salt each slot started with, or was last restored to
    ghost var removals: seq<nat>   // removals of each slot since then

    /** `init`: every slot free with salt 1, chained in index order, and no tile anywhere. */
    constructor (c: Config, geo: Geometry, maxTiles: nat)
      requires ConfigOk(c) && GeometryOk(geo) && maxTiles <= c.layout.tiles
      ensures this.c == c && this.geo == geo && Valid() && SaltsTracked()
      ensures tiles.Length == maxTiles && forall i | 0 <= i < maxTiles :: tiles[i].salt == 1 && tiles[i].body.None?
      ensures fresh(tiles) && fresh(posLookup) && Uncrowded(c, M())
      ensures born == seq(maxTiles, _ => 1) && removals == seq(maxTiles, _ => 0)
    {
      this.c, this.geo := c, geo;
      tiles := new Tile[maxTiles](_ => Tile(1, NULL, None));
      posLookup := new int[c.lutSize](_ => NULL);
      nextFree := NULL;
      new;
      for i := maxTiles downto 0
        invariant nextFree == if i < maxTiles then i else NULL
        invariant forall k | 0 <= k < maxTiles :: tiles[k].salt == 1 && tiles[k].body.None?
        invariant forall k | i <= k < maxTiles :: tiles[k].next == if k + 1 < maxTiles then k + 1 else NULL
        invariant posLookup[..] == seq(c.lutSize, _ => NULL)
      {
        tiles[i] := Tile(1, nextFree, None);
        nextFree := i;
      }
      slots := [Upto(maxTiles)] + seq(c.lutSize, _ => []);
      lists := seq(maxTiles, _ => []);
      born, removals := seq(maxTiles, _ => 1), seq(maxTiles, _ => 0);
      InitOk(c, M());
      InitUncrowded(c, M());
    }

    ghost predicate SaltsTracked()
      reads this, tiles
    {
      c.layout.Ok() && Tracked(c.layout, tiles[..], born, removals)
    }

    ghost function M(): Mesh
      reads this, tiles, posLookup
    {
      Mesh(tiles[..], [nextFree] + posLookup[..], slots, lists)
    }

    ghost predicate Valid()
      reads this, tiles, posLookup
    {
      GeometryOk(geo) && MeshOk(c, M())
    }

    predicate Live(i: nat)
      reads tiles
    {
      i < tiles.Length && tiles[i].body.Some?
    }

    // ---- Links ----

    /** `allocLink` and the linking that follows it everywhere in the source. */
    method AddLink(i: nat, p: nat, ref: nat, edge: nat, side: nat)
      requires Valid() && Live(i) && p < |tiles[i].body.value.polys|
      requires var b := tiles[i].body.value; GoodRef(c.layout, tiles[..], b.x, b.y, ref)
      modifies tiles, this`lists
      ensures Valid() && Grown(old(M()), M())
      ensures Fillable(old(tiles[i].body.value)) && |old(lists)| == tiles.Length && p + 1 < |old(lists)[i]|
      ensures M() == WithLinks(old(M()), i, PushLink(old(tiles[i].body.value), p, ref, edge, side),
                               PushLists(old(lists)[i], p))
    {
      hide MeshOk, GoodRef, Grown, PushLink;
      ghost var m := M();
      MeshSizes(c, m);
      AddLinkOk(c, m, i, p, ref, edge, side);
      var b := PushLink(tiles[i].body.value, p, ref, edge, side);
      tiles[i] := WithBody(tiles[i], b);
      lists := lists[i := PushLists(lists[i], p)];
      assert M() == WithLinks(m, i, b, PushLists(m.lists[i], p));
    }

    /** `unconnectLinks(tile, target)`. */
    method Unconnect(i: nat, target: nat)
      requires Valid() && Live(i)
      modifies tiles, this`lists
      ensures Valid() && SameShape(old(tiles[..]), tiles[..])
      ensures Avoids(c.layout, M(), i, target)
      ensures forall k | 0 <= k < tiles.Length && k != i :: tiles[k] == old(tiles[k])
      ensures |lists| == |old(lists)| == tiles.Length && forall k | 0 <= k < tiles.Length && k != i ::
                lists[k] == old(lists)[k]
      ensures TileStripped(c.layout, old(M()), M(), target, i)
    {
      hide MeshOk, SameShape, Avoids, LinksOk, LinksUpto, Kept, Frame;
      ghost var m := M();
      MeshSizes(c, m);
      MeshTile(c, m, i);
      ghost var ls;
      var b;
      b, ls := UnconnectLinks(c.layout, tiles[i].body.value, lists[i], target);
      UnconnectOk(c, m, i, target, b, ls);
      tiles[i] := WithBody(tiles[i], b);
      lists := lists[i := ls];
      assert M() == WithLinks(m, i, b, ls);
    }

    /** A link from polygon `p` of tile `t` to polygon `k` of tile `u` next to it. */
    method LinkTo(t: nat, p: nat, u: nat, k: nat, edge: nat, side: nat)
      requires Valid() && Adjacent(tiles[..], t, u) && p < Polys(tiles[t]) && k < Polys(tiles[u])
      modifies tiles, this`lists
      ensures Valid() && Grown(old(M()), M()) && SameEnds(old(M()), M())
      ensures Fillable(old(tiles[t].body.value)) && |old(lists)| == tiles.Length && p + 1 < |old(lists)[t]|
      ensures var ref := Encode(c.layout, old(tiles[u].salt), u, k);
              M() == WithLinks(old(M()), t, PushLink(old(tiles[t].body.value), p, ref, edge, side),
                               PushLists(old(lists)[t], p))
    {
      hide MeshOk, Grown, GoodRef, Encode, PushLink, SameEnds;
      ghost var m := M();
      MeshSizes(c, M());
      MeshTile(c, M(), t);
      MeshRef(c, M(), u, k, tiles[t].body.value.x, tiles[t].body.value.y);
      AddLink(t, p, Encode(c.layout, tiles[u].salt, u, k), edge, side);
      PushSameEnds(m, t, p, Encode(c.layout, m.ts[u].salt, u, k), edge, side, PushLists(m.lists[t], p));
    }

    /** `findConnectingPolys`: the first four polygons of `b` with a portal on `side` that touches the edge. */
    method FindConnectingPolys(a: Body, i: nat, j: nat, b: Body, side: nat) returns (con: seq<nat>)
      ensures con == Take(Connecting(geo, a, i, j, b, side, |b.polys|), 4)
    {
      hide Connects;
      con := [];
      for k := 0 to |b.polys|
        invariant con == Take(Connecting(geo, a, i, j, b, side, k), 4)
      {
        var hit := PolyConnects(a, i, j, b, k, side);
        if hit && |con| < 4 {
          con := con + [k];
        }
      }
    }

    method PolyConnects(a: Body, i: nat, j: nat, b: Body, k: nat, side: nat) returns (hit: bool)
      requires k < |b.polys|
      ensures hit <==> Connects(geo, a, i, j, b, k, side)
    {
      for e := 0 to |b.polys[k].neis|
        invariant forall f | 0 <= f < e :: !(b.polys[k].neis[f] == Portal(side) && geo.touches(a, i, j, b, k, f))
      {
        if b.polys[k].neis[e] == Portal(side) && geo.touches(a, i, j, b, k, e) {
          return true;
        }
      }
      return false;
    }

    /**
     `connectExtLinks(tile, target, side)`: portals of `t` facing `side` (all of them for -1) ask for links into
     `u`, and the requests are served in order until tile `t` has no link left.
     */
    method ConnectExtLinks(t: nat, u: nat, side: int)
      requires Valid() && Adjacent(tiles[..], t, u)
      modifies tiles, this`lists
      ensures Valid() && ExtLinked(geo, c, old(M()), M(), t, u, side)
      ensures Grows(t != u && Beside(old(tiles[..]), t, u, side), geo, c, old(M()), M())
    {
      hide MeshOk, Grown, OnlyAsked, ExtProgress, EdgeRequests, ToRequests, Frame, SameEnds, EndsMoved;
      SameEndsRefl(M());
      ghost var m0 := M();
      MeshGrown(c, m0);
      ExtStarts(c, m0, t);
      var a, b := Frame(tiles[t].body.value), Frame(tiles[u].body.value);
      FrameIdem(tiles[t].body.value);
      FrameIdem(tiles[u].body.value);
      ghost var salt := tiles[u].salt;
      for i := 0 to |a.polys|
        invariant Valid() && Grown(m0, M())
        invariant ExtProgress(m0, M(), t, ExtRequests(geo, c.layout, a, b, u, salt, side, i)) && SameEnds(m0, M())
      {
        ghost var done := ExtRequests(geo, c.layout, a, b, u, salt, side, i);
        assert done + PolyRequests(geo, c.layout, a, b, u, salt, side, i, 0) == done;
        for j := 0 to |a.polys[i].neis|
          invariant Valid() && Grown(m0, M())
          invariant ExtProgress(m0, M(), t, done + PolyRequests(geo, c.layout, a, b, u, salt, side, i, j))
          invariant SameEnds(m0, M())
        {
          ConnectEdge(m0, a, b, t, u, side, i, j, done + PolyRequests(geo, c.layout, a, b, u, salt, side, i, j));
          assert done + (PolyRequests(geo, c.layout, a, b, u, salt, side, i, j)
                         + EdgeRequests(geo, c.layout, a, b, u, salt, side, i, j))
              == (done + PolyRequests(geo, c.layout, a, b, u, salt, side, i, j))
                  + EdgeRequests(geo, c.layout, a, b, u, salt, side, i, j);
        }
      }
      SameThenMoved(geo, m0, M());
      if t != u && Beside(m0.ts, t, u, side) { ExtAsked(geo, c, m0, M(), t, u, side); }
    }

    /** The links one portal edge asks for. */
    method ConnectEdge(ghost m0: Mesh, a: Body, b: Body, t: nat, u: nat, side: int, i: nat, j: nat,
                       ghost done: seq<Request>)
      requires Valid() && Grown(m0, M()) && Adjacent(m0.ts, t, u) && ExtProgress(m0, M(), t, done)
      requires a == Frame(m0.ts[t].body.value) && b == Frame(m0.ts[u].body.value)
      requires i < |a.polys| && j < |a.polys[i].neis| && SameEnds(m0, M())
      modifies tiles, this`lists
      ensures Valid() && Grown(m0, M()) && SameEnds(m0, M())
      ensures ExtProgress(m0, M(), t, done + EdgeRequests(geo, c.layout, a, b, u, m0.ts[u].salt, side, i, j))
    {
      hide MeshOk, Grown, ExtProgress, Frame, Connecting, Encode, SameEnds;
      var nei := a.polys[i].neis[j];
      if nei.Portal? && (side == -1 || nei.dir == side) {
        var con := FindConnectingPolys(a, i, j, b, OppositeTile(nei.dir));
        ghost var salt := m0.ts[u].salt;
        assert done + ToRequests(c.layout, con[..0], u, salt, i, j, nei.dir) == done;
        for k := 0 to |con|
          invariant Valid() && Grown(m0, M())
          invariant ExtProgress(m0, M(), t, done + ToRequests(c.layout, con[..k], u, salt, i, j, nei.dir))
          invariant SameEnds(m0, M())
        {
          ghost var m1 := M();
          GrownAdjacent(m0, m1, t, u);
          ConnectingBelow(geo, a, i, j, b, OppositeTile(nei.dir), |b.polys|, con[k]);
          LinkTo(t, i, u, con[k], j, nei.dir);
          GrownTrans(m0, m1, M());
          SameEndsTrans(m0, m1, M());
          ghost var req := Request(i, Encode(c.layout, salt, u, con[k]), j, nei.dir);
          ExtStep(c, m0, m1, M(), t, done + ToRequests(c.layout, con[..k], u, salt, i, j, nei.dir), req);
          assert ToRequests(c.layout, con[..k + 1], u, salt, i, j, nei.dir)
              == ToRequests(c.layout, con[..k], u, salt, i, j, nei.dir) + [req];
          assert done + (ToRequests(c.layout, con[..k], u, salt, i, j, nei.dir) + [req])
              == (done + ToRequests(c.layout, con[..k], u, salt, i, j, nei.dir)) + [req];
        }
        assert con[..|con|] == con;
      } else {
        assert done + [] == done;
      }
    }

    /** Moves one end point of an off-mesh connection. */
    method SetEnd(t: nat, at: nat, point: Vertex)
      requires Valid() && Live(t)
      modifies tiles
      ensures Valid() && Grown(old(M()), M()) && OnlyAsked(geo, c, old(M()), M())
      ensures SnapsOnly(old(M()), M(), t, at, point)
    {
      hide MeshOk, Grown, OnlyAsked;
      ghost var m := M();
      var b := tiles[t].body.value;
      var ends := Snapped(b.ends, at, point);
      MeshSizes(c, m);
      EndsOk(c, m, t, ends);
      SameAsked(geo, c, m, t, b.(ends := ends));
      tiles[t] := WithBody(tiles[t], b.(ends := ends));
      assert M() == WithLinks(m, t, b.(ends := ends), m.lists[t]);
    }

    /** Snap an off-mesh connection of tile `u` to polygon `k` of tile `t` and link the two, as was asked for. */
    method Attach(u: nat, p: nat, t: nat, k: nat, at: nat, point: Vertex, edge: nat, side: nat, back: bool,
                  backSide: nat)
      requires Valid() && Adjacent(tiles[..], u, t) && p < Polys(tiles[u]) && k < Polys(tiles[t])
      modifies tiles, this`lists
      ensures Valid() && Attached(c, M(), u, p, t, k, edge, side, back, backSide)
      ensures var m := old(M());
              var there := Asked(geo, c, m, u, Request(p, Encode(c.layout, m.ts[t].salt, t, k), edge, side));
              var here := Asked(geo, c, m, t, Request(k, Encode(c.layout, m.ts[u].salt, u, p), 0xff, backSide));
              LinksAdded(there && (back ==> here), geo, c, m, M())
      ensures SnapsOnly(old(M()), M(), u, at, point)
    {
      hide MeshOk, Grown, OnlyAsked, Asked, PushLink, Encode, HasLink, Frame, Attached, SnapsOnly, SameEnds;
      ghost var m := M();
      SetEnd(u, at, point);
      ghost var m1 := M();
      GrownAdjacent(m, m1, u, t);
      ghost var there := Request(p, Encode(c.layout, m.ts[t].salt, t, k), edge, side);
      ghost var here := Request(k, Encode(c.layout, m.ts[u].salt, u, p), 0xff, backSide);
      ghost var asked := Asked(geo, c, m, u, there) && (back ==> Asked(geo, c, m, t, here));
      if asked { AskedStays(geo, c, m, m1, u, there); }
      LinkAsked(u, p, t, k, edge, side);
      ghost var m2 := M();
      GrownAdjacent(m1, m2, u, t);
      LinksAddedTrans(asked, geo, c, m, m1, m2);
      SnapThenSame(m, m1, m2, u, at, point);
      if back {
        if asked { AskedStays(geo, c, m, m2, t, here); }
        LinkAsked(t, k, u, p, 0xff, backSide);
        LinksAddedTrans(asked, geo, c, m, m2, M());
        SnapThenSame(m, m2, M(), u, at, point);
        GrownAdjacent(m2, M(), u, t);
        HasLinkStays(m2, M(), u, there);
      }
      NowAttached(c, M(), u, p, t, k, edge, side, back, backSide);
    }

    /** A link, whether it was asked for or not. */
    method LinkAsked(t: nat, p: nat, u: nat, k: nat, edge: nat, side: nat)
      requires Valid() && Adjacent(tiles[..], t, u) && p < Polys(tiles[t]) && k < Polys(tiles[u])
      modifies tiles, this`lists
      ensures Valid()
      ensures var m, r := old(M()), Request(p, Encode(c.layout, old(tiles[u].salt), u, k), edge, side);
              LinksAdded(Asked(geo, c, m, t, r), geo, c, m, M())
      ensures SameEnds(old(M()), M())
      ensures Full(M(), t) || HasLink(M(), t, Request(p, Encode(c.layout, old(tiles[u].salt), u, k), edge, side))
    {
      hide MeshOk, Grown, OnlyAsked, Asked, PushLink, PushLists, Encode, HasLink, Full, SameEnds;
      ghost var m := M();
      LinkTo(t, p, u, k, edge, side);
      ghost var r := Request(p, Encode(c.layout, m.ts[u].salt, u, k), edge, side);
      PushHas(c, m, M(), t, r);
      if Asked(geo, c, m, t, r) { PushAsked(geo, c, m, M(), t, r); }
    }

    /** `baseOffMeshLinks`: each off-mesh connection is tied to the polygon its start point lands on, both ways. */
    method BaseOffMeshLinks(t: nat)
      requires Valid() && Live(t)
      modifies tiles, this`lists
      ensures Valid() && Extended(geo, c, old(M()), M())
      ensures AllBased(geo, c, M(), t)
    {
      hide MeshOk, Grown, OnlyAsked, Asked, Attached, Frame, Based, Encode, EndsMoved;
      ghost var m := M();
      ExtendedRefl(geo, c, m);
      var cons := tiles[t].body.value.cons;
      for i := 0 to |cons|
        invariant Valid() && Extended(geo, c, m, M())
        invariant forall k: nat | k < i :: Based(geo, c, M(), t, k)
      {
        ghost var m1 := M();
        GrownAdjacent(m, m1, t, t);
        MeshCons(c, m1, t, i);
        NearestOk(geo, tiles[t].body.value);
        var near := geo.nearest(Frame(tiles[t].body.value), cons[i], false);
        if near.Some? {
          BaseAsked(geo, c, m1, t, i);
          Attach(t, cons[i].poly, t, near.value.0, 2 * i, near.value.1, 0, NO_SIDE, true, NO_SIDE);
          GrownAdjacent(m1, M(), t, t);
          TileSame(m1, M(), t);
          FrameCons(m1.ts[t].body.value);
          StartSnaps(geo, m1, M(), t, i, near.value.1);
          ExtendedTrans(geo, c, m, m1, M());
          forall k: nat | k < i ensures Based(geo, c, M(), t, k) { BasedStays(geo, c, m1, M(), t, k); }
        }
        NowBased(geo, c, M(), t, i);
      }
      GrownAdjacent(m, M(), t, t);
    }

    /**
     `connectExtOffMeshLinks(tile, target, side)`: connections of `u` that leave on the matching side and whose
     start is connected are tied to the polygon of `t` their end lands on, back links for two-way ones.
     */
    method ConnectExtOffMeshLinks(t: nat, u: nat, side: int) returns (ghost ms: seq<Mesh>)
      requires Valid() && Adjacent(tiles[..], u, t) && -1 <= side < 8
      modifies tiles, this`lists
      ensures Valid() && Grows(Beside(old(tiles[..]), t, u, side), geo, c, old(M()), M())
      ensures forall i: nat | HasStart(old(M()), u, i) :: Landed(geo, c, M(), t, u, side, i)
      ensures |ms| == |old(tiles[u].body.value.cons)| + 1 && ms[0] == old(M()) && ms[|ms| - 1] == M()
      ensures Landings(geo, c, ms, t, u, side)
    {
      hide MeshOk, Grown, OnlyAsked, Frame, Landed, HasStart, Beside, Adjacent, LandStep, Landings, EndsMoved;
      LandingsNone(geo, c, M(), t, u, side);
      ghost var m := M();
      ghost var asked := Beside(m.ts, t, u, side);
      ExtendedRefl(geo, c, m);
      BothLive(m.ts, u, t);
      ms := [m];
      var cons := tiles[u].body.value.cons;
      for i := 0 to |cons|
        invariant Valid() && Grows(asked, geo, c, m, M())
        invariant forall k: nat | k < i && HasStart(m, u, k) :: Landed(geo, c, M(), t, u, side, k)
        invariant |ms| == i + 1 && ms[0] == m && ms[i] == M() && Landings(geo, c, ms, t, u, side)
      {
        ghost var m1 := M();
        GrownAdjacent(m, m1, u, t);
        GrownShape(m, m1);
        GrownLists(m, m1, u);
        BesideFrame(m.ts, m1.ts, t, u, side);
        LandOne(t, u, side, i);
        LandingsNext(geo, c, ms, M(), t, u, side);
        ms := ms + [M()];
        GrowsTrans(asked, geo, c, m, m1, M());
        forall k: nat | k < i && HasStart(m, u, k) ensures Landed(geo, c, M(), t, u, side, k) {
          LandedStays(geo, c, m1, M(), t, u, side, k);
        }
        if HasStart(m, u, i) { StartStays(c, m, m1, u, i); }
      }
      StartBound(m, u);
    }

    /** The loop body for one connection. */
    method LandOne(t: nat, u: nat, side: int, i: nat)
      requires Valid() && Adjacent(tiles[..], u, t) && -1 <= side < 8 && i < |tiles[u].body.value.cons|
      modifies tiles, this`lists
      ensures Valid() && Grows(Beside(old(tiles[..]), t, u, side), geo, c, old(M()), M())
      ensures HasStart(old(M()), u, i) ==> Landed(geo, c, M(), t, u, side, i)
      ensures LandStep(geo, c, old(M()), M(), t, u, side, i)
    {
      hide MeshOk, Grown, OnlyAsked, Asked, Attached, Frame, Landed, HasStart, Encode, EndsMoved;
      ghost var m := M();
      ExtendedRefl(geo, c, m);
      MeshCons(c, m, u, i);
      NearestOk(geo, tiles[t].body.value);
      StartIs(m, u, i);
      var opposite := if side == -1 then NO_SIDE else OppositeTile(side);
      var con := tiles[u].body.value.cons[i];
      var near := geo.nearest(Frame(tiles[t].body.value), con, true);
      if con.side == opposite && tiles[u].body.value.polys[con.poly].firstLink != NULL && near.Some? {
        if Beside(m.ts, t, u, side) { LandAsked(geo, c, m, t, u, side, i); }
        var sideCode := if side == -1 then NO_SIDE else side;
        Attach(u, con.poly, t, near.value.0, 2 * i + 1, near.value.1, 1, opposite, con.bidir, sideCode);
        GrownAdjacent(m, M(), u, t);
        TileSame(m, M(), t);
        TileSame(m, M(), u);
        FrameCons(m.ts[u].body.value);
        EndSnaps(geo, m, M(), t, u, side, i, near.value.1);
      }
      if HasStart(m, u, i) { NowLanded(geo, c, M(), t, u, side, i); }
    }

    // ---- Lookup ----

    /** `getTileAt` agrees with the table: it finds the tile at a place if and only if there is one. */
    method GetTileAt(x: int, y: int, layer: int) returns (r: Option<nat>)
      requires Valid()
      ensures r.Some? ==> Live(r.value) && Placed(tiles[r.value], x, y, layer)
      ensures r.None? ==> forall i: nat | Live(i) :: !Placed(tiles[i], x, y, layer)
    {
      hide MeshOk;
      ghost var m, chain := M(), 1 + c.hash(x, y);
      MeshSizes(c, m);
      var t := posLookup[c.hash(x, y)];
      ghost var p := 0;
      ChainStep(c, m, chain, p);
      while t != NULL
        invariant p <= |slots[chain]| && t == At(slots[chain], p)
        invariant forall k | 0 <= k < p :: slots[chain][k] < |m.ts| && !Placed(m.ts[slots[chain][k]], x, y, layer)
        decreases |slots[chain]| - p
      {
        ChainStep(c, m, chain, p);
        if tiles[t].body.Some? && tiles[t].body.value.x == x && tiles[t].body.value.y == y
            && tiles[t].body.value.layer == layer {
          return Some(t);
        }
        t := tiles[t].next;
        p := p + 1;
      }
      forall i: nat | Live(i) ensures !Placed(tiles[i], x, y, layer) {
        PlacedOnChain(c, m, i, chain, x, y, layer);
      }
      return None;
    }

    /** `getTilesAt`: the tiles at (x, y) in chain order, at most `MAX_NEIS` of them. */
    method GetTilesAt(x: int, y: int) returns (r: seq<nat>)
      requires Valid()
      ensures 1 + c.hash(x, y) < |slots| && r == Take(TilesAt(c, M(), x, y), MAX_NEIS)
    {
      hide MeshOk, PlaceFilter;
      ghost var m, chain := M(), 1 + c.hash(x, y);
      MeshSizes(c, m);
      r := [];
      var t := posLookup[c.hash(x, y)];
      ghost var p := 0;
      ChainStep(c, m, chain, p);
      while t != NULL
        invariant p <= |slots[chain]| && t == At(slots[chain], p) && |r| <= MAX_NEIS
        invariant Take(r + PlaceFilter(m.ts, slots[chain][p..], x, y), MAX_NEIS) == Take(TilesAt(c, m, x, y), MAX_NEIS)
        decreases |slots[chain]| - p
      {
        ChainStep(c, m, chain, p);
        ghost var r0 := r;
        if tiles[t].body.Some? && tiles[t].body.value.x == x && tiles[t].body.value.y == y && |r| < MAX_NEIS {
          r := r + [t];
        }
        FilterStep(m.ts, slots[chain], p, x, y);
        TakeStep(r0, t, PlaceFilter(m.ts, slots[chain][p + 1..], x, y), MAX_NEIS);
        t := tiles[t].next;
        p := p + 1;
      }
      FilterNone(m.ts, slots[chain][p..], x, y);
    }

    // ---- Removing a tile ----

    /** Disconnect every tile at (x, y) except `tile` itself from `tile`. */
    method ClearPlace(tile: nat, x: int, y: int)
      requires Valid() && Live(tile) && Uncrowded(c, M())
      modifies tiles, this`lists
      ensures Valid() && SameShape(old(tiles[..]), tiles[..])
      ensures M() == Mesh(tiles[..], old(M().heads), old(slots), lists)
      ensures Clear(c, M(), tile, x, y) && KeepsAvoiding(c, old(M()), M(), tile)
      ensures Stripping(c.layout, old(M()), M(), tile)
    {
      hide MeshOk, SameShape, Avoids, PlaceFilter, Stripping, TileStripped;
      ghost var m := M();
      MeshSizes(c, m);
      var neis := GetTilesAt(x, y);
      SameShapeRefl(m.ts);
      StrippingNone(c.layout, m, tile);
      for j := 0 to |neis|
        invariant Valid() && SameShape(m.ts, tiles[..]) && M() == Mesh(tiles[..], m.heads, m.slots, lists)
        invariant Stripping(c.layout, m, M(), tile)
        invariant KeepsAvoiding(c, m, M(), tile)
        invariant forall k | 0 <= k < j && neis[k] != tile :: Avoids(c.layout, M(), neis[k], tile)
      {
        if neis[j] != tile {
          ghost var m1 := M();
          NeighbourLive(c, m, m1, x, y, neis[j]);
          Unconnect(neis[j], tile);
          KeepsAvoidingStep(c, m, m1, M(), neis[j], tile);
          StrippingStep(c.layout, m, m1, M(), tile, neis[j]);
          forall k | 0 <= k < j && neis[k] != tile ensures Avoids(c.layout, M(), neis[k], tile) {
            if neis[k] != neis[j] {
              NeighbourLive(c, m, m1, x, y, neis[k]);
              AvoidsFrame(c.layout, m1, M(), neis[k], tile);
            }
          }
          SameShapeTrans(m.ts, m1.ts, tiles[..]);
        }
      }
      ClearDone(c, m, M(), tile, x, y, neis);
    }

    /** Disconnect the other layers at the tile's position, then the eight neighbouring positions. */
    method DisconnectNeighbours(tile: nat)
      requires Valid() && Live(tile) && Uncrowded(c, M())
      modifies tiles, this`lists
      ensures Valid() && SameShape(old(tiles[..]), tiles[..])
      ensures M() == Mesh(tiles[..], old(M().heads), old(slots), lists)
      ensures forall i: nat | i < tiles.Length && i != tile :: Avoids(c.layout, M(), i, tile)
      ensures |old(lists)| == |lists| == tiles.Length
      ensures forall i: nat | i < tiles.Length && i != tile :: TileStripped(c.layout, old(M()), M(), tile, i)
    {
      hide MeshOk, SameShape, Avoids, Uncrowded, KeepsAvoiding, Clear, Stripping, TileStripped;
      ghost var m := M();
      MeshSizes(c, m);
      var x, y := tiles[tile].body.value.x, tiles[tile].body.value.y;
      ClearPlace(tile, x, y);
      for side := 0 to 8
        invariant Valid() && SameShape(m.ts, tiles[..]) && M() == Mesh(tiles[..], m.heads, m.slots, lists)
        invariant Stripping(c.layout, m, M(), tile)
        invariant Clear(c, M(), tile, x, y)
        invariant forall k: nat | k < side :: Clear(c, M(), tile, x + StepX(k), y + StepY(k))
      {
        ghost var m1 := M();
        UncrowdedFrame(c, m, m1);
        LiveFrame(m.ts, m1.ts, tile);
        ClearPlace(tile, x + StepX(side), y + StepY(side));
        StrippingTrans(c.layout, m, m1, M(), tile);
        ClearFrame(c, m1, M(), tile, x, y);
        forall k: nat | k < side ensures Clear(c, M(), tile, x + StepX(k), y + StepY(k)) {
          ClearFrame(c, m1, M(), tile, x + StepX(k), y + StepY(k));
        }
        SameShapeTrans(m.ts, m1.ts, tiles[..]);
      }
      AllClear(c, m, M(), tile, x, y);
      StrippingSizes(c.layout, m, M(), tile);
      forall i: nat | i < tiles.Length && i != tile ensures TileStripped(c.layout, m, M(), tile, i) {
        StrippingDone(c, m, M(), tile, i);
      }
    }

    /** Unlink a tile nothing refers to from its chain, bump its salt and push it onto the free list. */
    method Evict(tile: nat, salt: nat)
      requires Valid() && Live(tile) && 1 <= salt < c.layout.salts
      requires forall i: nat | i < tiles.Length && i != tile :: Avoids(c.layout, M(), i, tile)
      modifies this`nextFree, this`slots, this`lists, tiles, posLookup
      ensures Valid() && OthersSame(old(tiles[..]), tiles[..], tile)
      ensures tiles[tile].body.None? && tiles[tile].salt == salt
      ensures tile < |old(lists)| && lists == old(lists)[tile := []]
      ensures Uncrowded(c, old(M())) ==> Uncrowded(c, M())
    {
      hide MeshOk, SlotsOk, Moved, Relocate, MoveHeads, MoveLists, Avoids, OthersSame, Uncrowded;
      ghost var m := M();
      MeshSizes(c, m);
      var h := c.hash(tiles[tile].body.value.x, tiles[tile].body.value.y);
      ghost var chain := 1 + h;
      var prev, p := FindOnChain(tile, h);
      EvictOk(c, m, chain, p, salt);
      ghost var t := Tile(salt, m.heads[0], None);
      ShiftToFree(h, prev, tile, salt);
      slots, lists := MoveLists(slots, chain, p, 0), lists[tile := []];
      MovedIs(c, m, M(), chain, p, prev, t, []);
      if Uncrowded(c, m) { UncrowdedEmptied(c, m, M(), chain, p, tile); }
    }

    /** Pointer updates that take a slot from bucket `h` to the front of the free list. */
    method ShiftToFree(h: nat, prev: int, x: nat, salt: nat)
      requires x < tiles.Length && -1 <= prev < tiles.Length && prev != x && h < posLookup.Length
      modifies tiles, posLookup, this`nextFree
      ensures tiles[..] == Relocate(old(tiles[..]), prev, x, Tile(salt, old(nextFree), None))
      ensures [nextFree] + posLookup[..] ==
              MoveHeads(SlotNexts(old(tiles[..])), [old(nextFree)] + old(posLookup[..]), 1 + h, prev, x, 0)
    {
      var next := tiles[x].next;
      if prev != NULL {
        tiles[prev] := tiles[prev].(next := next);
      } else {
        posLookup[h] := next;
      }
      tiles[x] := Tile(salt, nextFree, None);
      nextFree := x;
      assert posLookup[..] == if prev < 0 then old(posLookup[..])[h := next] else old(posLookup[..]);
    }

    /** Pointer updates that take a slot from the free list to the front of bucket `h`. */
    method ShiftToChain(h: nat, prev: int, x: nat, salt: nat, b: Body)
      requires x < tiles.Length && -1 <= prev < tiles.Length && prev != x && h < posLookup.Length
      modifies tiles, posLookup, this`nextFree
      ensures tiles[..] == Relocate(old(tiles[..]), prev, x, Tile(salt, old(posLookup[h]), Some(b)))
      ensures [nextFree] + posLookup[..] ==
              MoveHeads(SlotNexts(old(tiles[..])), [old(nextFree)] + old(posLookup[..]), 0, prev, x, 1 + h)
    {
      var next := tiles[x].next;
      if prev == NULL {
        nextFree := next;
      } else {
        tiles[prev] := tiles[prev].(next := next);
      }
      tiles[x] := Tile(salt, posLookup[h], Some(b));
      posLookup[h] := x;
      assert posLookup[..] == old(posLookup[..])[h := x];
    }

    /** The chain walk in `removeTile`: the entry before `tile` in its bucket, `NULL` if it comes first. */
    method FindOnChain(tile: nat, h: nat) returns (prev: int, ghost p: nat)
      requires Valid() && Live(tile) && h == c.hash(tiles[tile].body.value.x, tiles[tile].body.value.y)
      ensures 1 + h < |slots| && p < |slots[1 + h]| && slots[1 + h][p] == tile
      ensures prev == (if p == 0 then NULL else slots[1 + h][p - 1]) && prev < tiles.Length && prev != tile
    {
      hide MeshOk;
      ghost var m, chain := M(), 1 + h;
      MeshSizes(c, m);
      MeshHome(c, m, tile);
      prev, p := NULL, 0;
      var cur := posLookup[h];
      ChainStep(c, m, chain, 0);
      while cur != tile
        invariant p <= |slots[chain]| && cur == At(slots[chain], p)
        invariant prev == (if p == 0 then NULL else slots[chain][p - 1])
        invariant tile !in slots[chain][..p] && prev < tiles.Length
        decreases |slots[chain]| - p
      {
        assert slots[chain][..|slots[chain]|] == slots[chain];
        ChainStep(c, m, chain, p);
        prev, cur := cur, tiles[cur].next;
        p := p + 1;
      }
      assert p > 0 ==> slots[chain][..p][p - 1] == prev;
    }

    /**
     `removeTile`.  A failed call changes nothing.  Otherwise the slot becomes free with the next salt, so none
     of the tile's references is valid any more, and no link anywhere refers to it.
     */
    method RemoveTile(ref: nat) returns (ok: bool)
      requires Valid() && SaltsTracked() && Uncrowded(c, M())
      // The source dereferences the header of the named slot: its current reference must belong to a live tile.
      requires Named(c.layout, tiles[..], ref) ==> Live(DecodeTile(c.layout, ref))
      modifies this, tiles, posLookup
      ensures Valid() && SaltsTracked() && c.layout.Ok()
      ensures ok <==>
                && ref != 0 && DecodeTile(c.layout, ref) < tiles.Length
                && old(tiles[..])[DecodeTile(c.layout, ref)].salt == DecodeSalt(c.layout, ref)
      ensures !ok ==> M() == old(M()) && born == old(born) && removals == old(removals)
      ensures Uncrowded(c, M()) && |lists| == |old(lists)| == tiles.Length
      ensures ok ==>
                var x := DecodeTile(c.layout, ref);
                && (forall i: nat | i < tiles.Length && i != x :: TileStripped(c.layout, old(M()), M(), x, i))
                && tiles[x].body.None? && tiles[x].salt == NextSalt(c.layout, old(tiles[..])[x].salt)
                && born == old(born) && removals == old(removals)[x := old(removals)[x] + 1]
                && forall old_ref: nat | DecodeTile(c.layout, old_ref) == x :: !ValidRef(c.layout, tiles[..], old_ref)
    {
      hide MeshOk, SameShape, Uncrowded, Avoids, DecodeTile, DecodeSalt, OthersSame, OthersKept, TileStripped;
      ghost var m := M();
      MeshSizes(c, m);
      if !Named(c.layout, tiles[..], ref) {
        return false;
      }
      var x := DecodeTile(c.layout, ref);
      ghost var ts := tiles[..];
      var salt := NextSalt(c.layout, tiles[x].salt);
      DisconnectNeighbours(x);
      ghost var ts1, m1 := tiles[..], M();
      LiveFrame(ts, ts1, x);
      UncrowdedFrame(c, m, m1);
      Evict(x, salt);
      forall i: nat | i < tiles.Length && i != x ensures TileStripped(c.layout, m, M(), x, i) {
        StrippedBefore(c.layout, m, m1, M(), x, i);
      }
      ShapeThenSame(ts, ts1, tiles[..], x);
      removals := removals[x := removals[x] + 1];
      TrackRemoval(c.layout, ts, tiles[..], born, old(removals), x);
      ok := true;
    }

    // ---- Adding a tile ----

    /** Walk the free list for slot `x`. */
    method FindFree(x: nat) returns (found: bool, prev: int, ghost p: nat)
      requires Valid() && x < tiles.Length
      ensures found <==> !Live(x)
      ensures found ==> |slots| > 0 && p < |slots[0]| && slots[0][p] == x
      ensures found ==> prev == (if p == 0 then NULL else slots[0][p - 1]) && prev < tiles.Length && prev != x
    {
      hide MeshOk;
      ghost var m := M();
      MeshSizes(c, m);
      MeshHome(c, m, x);
      prev, p := NULL, 0;
      var t := nextFree;
      ChainStep(c, m, 0, 0);
      while t != NULL && t != x
        invariant p <= |slots[0]| && t == At(slots[0], p) && prev == (if p == 0 then NULL else slots[0][p - 1])
        invariant x !in slots[0][..p] && prev < tiles.Length
        decreases |slots[0]| - p
      {
        ChainStep(c, m, 0, p);
        prev, t := t, tiles[t].next;
        p := p + 1;
      }
      found := t == x;
      assert slots[0][..|slots[0]|] == slots[0];
      assert p > 0 ==> slots[0][..p][p - 1] == prev;
      if found { FreeIsFree(c, m, p); }
    }

    /** The tile's own links: free list, then inner links, whose references name the slot it goes to. */
    method LoadBody(x: nat, salt: nat, data: Body) returns (b: Body, ghost ls: seq<seq<nat>>)
      requires DataOk(c.layout, data)
      ensures LinksOk(b, ls) && |ls| == |b.polys| + 1 && Frame(b) == Frame(data) && b.ends == data.ends
      ensures OwnLinks(c.layout, salt, x, b, ls)
      ensures LinkedInside(data, Encode(c.layout, salt, x, 0), b, ls)
    {
      hide Frame, DataOk, LinksOk, LinksUpto, Encode, Along, WantedLinks;
      var base := Encode(c.layout, salt, x, 0);
      ghost var ok := (r: nat) => base <= r < base + |data.polys|;
      DataRefs(c.layout, data, base);
      b, ls := ConnectIntLinks(data, base, ok);
      FrameSize(b, data);
      OwnFromBase(c.layout, salt, x, b, ls, ok);
    }

    /** Take slot `x` off the free list and load `data` into it, with its inner links built. */
    method Install(x: nat, prev: int, ghost p: nat, salt: nat, data: Body)
      requires Valid() && |slots| > 0 && p < |slots[0]| && slots[0][p] == x < tiles.Length && !Live(x)
      requires prev == (if p == 0 then NULL else slots[0][p - 1]) && prev < tiles.Length && prev != x
      requires 1 <= salt < c.layout.salts && DataOk(c.layout, data) && PlaceFree(tiles[..], data)
      modifies this`nextFree, this`slots, this`lists, tiles, posLookup
      ensures Valid() && OthersSame(old(tiles[..]), tiles[..], x)
      ensures Live(x) && tiles[x].salt == salt && Frame(tiles[x].body.value) == Frame(data)
      ensures InnerJoined(c, M(), x, data) && tiles[x].body.value.ends == data.ends
      ensures |old(lists)| == |lists| == tiles.Length && lists == old(lists)[x := lists[x]]
      ensures LinkedInside(data, Encode(c.layout, salt, x, 0), tiles[x].body.value, lists[x])
      ensures HasRoom(c, old(M()), data.x, data.y) ==> Uncrowded(c, M())
    {
      hide MeshOk, SlotsOk, Moved, Relocate, MoveHeads, MoveLists, OthersSame, Frame, DataOk, LinksOk, LinksUpto;
      hide OwnLinks;
      hide Encode, InnerJoined, LinkedInside, HasRoom, Uncrowded, PlaceFree;
      ghost var m := M();
      MeshSizes(c, m);
      var b, ls := LoadBody(x, salt, data);
      var h := c.hash(b.x, b.y);
      ghost var t := Tile(salt, m.heads[1 + h], Some(b));
      InstallOk(c, m, p, t, data, ls);
      ShiftToChain(h, prev, x, salt, b);
      slots, lists := MoveLists(slots, 0, p, 1 + h), lists[x := ls];
      MovedIs(c, m, M(), 0, p, prev, t, ls);
      InnerInstalled(c, M(), x, data, b, ls);
      FrameSize(b, data);
      if HasRoom(c, m, data.x, data.y) { UncrowdedFilled(c, m, M(), p, b); }
    }

    /** Connect two tiles in both directions. */
    method ConnectPair(t: nat, u: nat, side: int, back: int)
      requires Valid() && Adjacent(tiles[..], t, u) && -1 <= side < 8 && -1 <= back < 8
      modifies tiles, this`lists
      ensures Valid() && Joined(geo, c, M(), t, u, side) && Joined(geo, c, M(), u, t, back)
      ensures var ts := old(tiles[..]);
              Grows(t != u && Beside(ts, t, u, side) && Beside(ts, u, t, back), geo, c, old(M()), M())
      ensures PairLanded(geo, c, old(M()), M(), t, u, side, back)
    {
      hide MeshOk, Grown, OnlyAsked, ExtLinked, Joined, Frame, Landed, HasStart, Beside, EndsMoved;
      ghost var m0 := M();
      ghost var asked := t != u && Beside(m0.ts, t, u, side) && Beside(m0.ts, u, t, back);
      ConnectExtLinks(t, u, side);
      ghost var m1 := M();
      ExtJoins(geo, c, m0, m1, t, u, side);
      PairFrame(m0, m1, t, u, side, back);
      ConnectExtLinks(u, t, back);
      ghost var m2 := M();
      ExtJoins(geo, c, m1, m2, u, t, back);
      PairFrame(m1, m2, t, u, side, back);
      ghost var _ := ConnectExtOffMeshLinks(t, u, side);
      ghost var m3 := M();
      PairFrame(m2, m3, t, u, side, back);
      ghost var _ := ConnectExtOffMeshLinks(u, t, back);
      GrowsTrans(asked, geo, c, m2, m3, M());
      GrowsTrans(asked, geo, c, m1, m2, M());
      GrowsTrans(asked, geo, c, m0, m1, M());
      JoinedStays(geo, c, m1, M(), t, u, side);
      JoinedStays(geo, c, m2, M(), u, t, back);
      GrowsTrans(asked, geo, c, m0, m1, m2);
      GrowsTrans(asked, geo, c, m0, m2, m3);
      forall i: nat | HasStart(m0, u, i) ensures Landed(geo, c, M(), t, u, side, i) {
        StartStays(c, m0, m2, u, i);
        LandedStays(geo, c, m3, M(), t, u, side, i);
      }
      forall i: nat | HasStart(m0, t, i) ensures Landed(geo, c, M(), u, t, back, i) {
        StartStays(c, m0, m3, t, i);
      }
    }

    /** Connect tile `t` with the tiles at one position. */
    method ConnectPlace(t: nat, x: int, y: int, side: int, back: int)
      requires Valid() && Live(t) && Near(x, y, tiles[t].body.value) && -1 <= side < 8 && -1 <= back < 8
      modifies tiles, this`lists
      ensures Valid() && 1 + c.hash(x, y) < |slots|
      ensures Grows(Facing(old(tiles[t].body.value), x, y, side, back), geo, c, old(M()), M())
      ensures PlaceJoined(geo, c, old(M()), M(), t, x, y, side, back)
      ensures PlaceLanded(geo, c, old(M()), M(), t, x, y, side, back)
    {
      hide MeshOk, Grown, OnlyAsked, PlaceFilter, Joined, PairLanded, EndsMoved;
      ghost var m := M();
      ghost var asked := Facing(tiles[t].body.value, x, y, side, back);
      ExtendedRefl(geo, c, m);
      MeshSizes(c, m);
      var neis := GetTilesAt(x, y);
      for j := 0 to |neis|
        invariant Valid() && Grows(asked, geo, c, m, M())
        invariant forall k | 0 <= k < j && neis[k] != t :: PairDone(geo, c, m, M(), t, neis[k], side, back)
      {
        if neis[j] != t {
          ghost var m1 := M();
          GrownShape(m, m1);
          NeighbourLive(c, m, m1, x, y, neis[j]);
          LiveFrame(m.ts, m1.ts, t);
          ConnectPair(t, neis[j], side, back);
          GrowsTrans(asked, geo, c, m, m1, M());
          MeshGrown(c, m);
          MeshGrown(c, M());
          EndsRefl(geo, M());
          forall k | 0 <= k < j && neis[k] != t ensures PairDone(geo, c, m, M(), t, neis[k], side, back) {
            PairDoneStays(geo, c, m, m, m1, M(), t, neis[k], side, back);
          }
          PairDoneStays(geo, c, m, m1, M(), M(), t, neis[j], side, back);
        }
      }
    }

    /** Connect tile `t` with the other layers at its position, then with the eight neighbouring positions. */
    method ConnectAround(t: nat)
      requires Valid() && Live(t)
      modifies tiles, this`lists
      ensures Valid() && Extended(geo, c, old(M()), M()) && |slots| == c.lutSize + 1 && ConfigOk(c)
      ensures var x, y := old(tiles[t].body.value.x), old(tiles[t].body.value.y);
              SidesJoined(geo, c, old(M()), M(), t, x, y, 8) && SidesLanded(geo, c, old(M()), M(), t, x, y, 8)
    {
      hide MeshOk, Grown, OnlyAsked, PlaceJoined, PlaceLanded, EndsMoved;
      ghost var m := M();
      MeshSizes(c, m);
      MeshGrown(c, m);
      var x, y := tiles[t].body.value.x, tiles[t].body.value.y;
      ConnectPlace(t, x, y, -1, -1);
      assert Facing(m.ts[t].body.value, x, y, -1, -1);
      for i := 0 to 8
        invariant Valid() && Extended(geo, c, m, M())
        invariant SidesJoined(geo, c, m, M(), t, x, y, i) && SidesLanded(geo, c, m, M(), t, x, y, i)
      {
        ghost var m1 := M();
        GrownLive(m, m1, t);
        OppositeSide(i);
        ConnectPlace(t, x + StepX(i), y + StepY(i), i, OppositeTile(i));
        ghost var m2 := M();
        MeshGrown(c, m2);
        EndsRefl(geo, m2);
        GrownShape(m, m1);
        ExtendedTrans(geo, c, m, m1, m2);
        PlaceJoinedStays(geo, c, m, m1, m2, m2, t, x + StepX(i), y + StepY(i), i, OppositeTile(i));
        PlaceLandedStays(geo, c, m, m1, m2, m2, t, x + StepX(i), y + StepY(i), i, OppositeTile(i));
        SidesJoinedStays(geo, c, m, m1, m2, t, x, y, i);
        SidesLandedStays(geo, c, m, m1, m2, t, x, y, i);
      }
    }

    /** Off-mesh connections of the tile itself, then everything around it. */
    method ConnectNeighbours(t: nat)
      requires Valid() && Live(t)
      modifies tiles, this`lists
      ensures Valid() && Extended(geo, c, old(M()), M()) && Woven(geo, c, M(), t) && AllBased(geo, c, M(), t)
      ensures Crossed(geo, c, old(M()), M(), t)
    {
      hide MeshOk, Grown, OnlyAsked, SidesJoined, SidesLanded, Woven, AllBased, Landed, HasStart, Crossed, EndsMoved;
      ghost var m := M();
      MeshSizes(c, m);
      BaseOffMeshLinks(t);
      ghost var m1 := M();
      GrownLive(m, m1, t);
      ghost var _ := ConnectExtOffMeshLinks(t, t, -1);
      ghost var m2 := M();
      ExtendedTrans(geo, c, m, m1, m2);
      GrownLive(m1, m2, t);
      MeshSizes(c, m2);
      ConnectAround(t);
      ExtendedTrans(geo, c, m, m2, M());
      ExtendedTrans(geo, c, m1, m2, M());
      GrownLive(m2, M(), t);
      AllBasedStays(geo, c, m1, M(), t);
      WovenNow(geo, c, m2, M(), t);
      CrossedNow(geo, c, m, m1, m2, M(), t);
    }

    /**
     `addTile`.  A refused tile leaves the mesh as it was.  An accepted one occupies a formerly free slot, under
     the slot's salt or, with `lastRef`, under the very slot and salt it had before.
     */
    method AddTile(data: Body, magicOk: bool, versionOk: bool, lastRef: nat) returns (r: AddResult)
      requires Valid() && SaltsTracked() && FormatOk(data)
      requires lastRef != 0 ==> DecodeSalt(c.layout, lastRef) != 0
      modifies this, tiles, posLookup
      ensures Valid() && SaltsTracked()
      ensures r == WrongMagic <==> !magicOk
      ensures r == WrongVersion <==> magicOk && !versionOk
      ensures r == InvalidParam <==> magicOk && versionOk && |data.polys| > c.layout.polys
      ensures r == AlreadyOccupied <==>
                magicOk && versionOk && |data.polys| <= c.layout.polys && !PlaceFree(old(tiles[..]), data)
      ensures r == OutOfMemory <==>
                && magicOk && versionOk && |data.polys| <= c.layout.polys && PlaceFree(old(tiles[..]), data)
                && !SlotAvailable(c.layout, old(tiles[..]), lastRef)
      ensures !r.Added? ==> M() == old(M()) && born == old(born) && removals == old(removals)
      ensures r.Added? ==> AddedOk(c.layout, old(tiles[..]), tiles[..], data, lastRef, r.ref)
      ensures r.Added? ==> Connected(geo, c, old(M()), M(), DecodeTile(c.layout, r.ref), data)
      ensures r.Added? ==> CountsKept(old(born), old(removals), born, removals, DecodeTile(c.layout, r.ref), lastRef)
      ensures HasRoom(c, old(M()), data.x, data.y) ==> Uncrowded(c, M())
    {
      hide MeshOk, DecodeTile, DecodeSalt, DataOk, Tracked, AddedOk, Connected, Uncrowded;
      MeshSizes(c, M());
      if !magicOk { return WrongMagic; }
      if !versionOk { return WrongVersion; }
      if |data.polys| > c.layout.polys { return InvalidParam; }
      assert DataOk(c.layout, data) by { FormatThenData(c.layout, data); }
      var occupant := GetTileAt(data.x, data.y, data.layer);
      if occupant.Some? {
        assert !PlaceFree(tiles[..], data) by { assert SamePlace(tiles[..][occupant.value].body.value, data); }
        return AlreadyOccupied;
      }
      assert PlaceFree(tiles[..], data) by { NonePlaced(tiles[..], data); }
      var found, x, prev, p := ChooseSlot(lastRef);
      if !found { return OutOfMemory; }
      var ref := Occupy(x, prev, p, data, lastRef);
      r := Added(ref);
    }

    method LoadAndConnect(x: nat, prev: int, ghost p: nat, salt: nat, data: Body)
      requires Valid() && |slots| > 0 && p < |slots[0]| && slots[0][p] == x < tiles.Length && !Live(x)
      requires prev == (if p == 0 then NULL else slots[0][p - 1]) && prev < tiles.Length && prev != x
      requires 1 <= salt < c.layout.salts && DataOk(c.layout, data) && PlaceFree(tiles[..], data)
      modifies this`nextFree, this`slots, this`lists, tiles, posLookup
      ensures Valid() && OthersKept(old(tiles[..]), tiles[..], x) && Connected(geo, c, old(M()), M(), x, data)
      ensures Live(x) && tiles[x].salt == salt && Frame(tiles[x].body.value) == Frame(data)
      ensures HasRoom(c, old(M()), data.x, data.y) ==> Uncrowded(c, M())
    {
      hide MeshOk, Grown, OnlyAsked, OthersSame, OthersKept, DataOk, Frame, PlaceFree, Woven, AllBased, InnerJoined;
      hide Crossed;
      hide OthersExtended, OwnAsked, LinkedInside, HasRoom, Uncrowded, Encode, AllMove;
      ghost var m := M();
      Install(x, prev, p, salt, data);
      ghost var m1 := M();
      ConnectNeighbours(x);
      GrownShape(m1, M());
      InnerStays(c, m1, M(), x, data);
      SameThenShape(m.ts, m1.ts, tiles[..], x, data);
      OthersExtend(geo, c, m, m1, M(), x);
      OwnExtends(geo, c, m1, M(), x, data, m1.lists[x]);
      CrossedBefore(geo, c, m, m1, M(), x);
      if Uncrowded(c, m1) { UncrowdedFrame(c, m1, M()); }
    }

    /** Load, connect and number a tile in a chosen free slot. */
    method Occupy(x: nat, prev: int, ghost p: nat, data: Body, lastRef: nat) returns (ref: nat)
      requires Valid() && SaltsTracked() && DataOk(c.layout, data) && PlaceFree(tiles[..], data)
      requires |slots| > 0 && p < |slots[0]| && slots[0][p] == x < tiles.Length && !Live(x)
      requires prev == (if p == 0 then NULL else slots[0][p - 1]) && prev < tiles.Length && prev != x
      requires lastRef != 0 ==> x == DecodeTile(c.layout, lastRef) && DecodeSalt(c.layout, lastRef) != 0
      modifies this, tiles, posLookup
      ensures Valid() && SaltsTracked() && AddedOk(c.layout, old(tiles[..]), tiles[..], data, lastRef, ref)
      ensures Connected(geo, c, old(M()), M(), DecodeTile(c.layout, ref), data)
      ensures HasRoom(c, old(M()), data.x, data.y) ==> Uncrowded(c, M())
      ensures CountsKept(old(born), old(removals), born, removals, DecodeTile(c.layout, ref), lastRef)
    {
      hide MeshOk, DecodeTile, DecodeSalt, OthersKept, DataOk, Frame, Encode, Tracked, PlaceFree, Connected, HasRoom;
      hide Uncrowded, AddedOk, GeometryOk;
      ghost var ts, restored := tiles[..], lastRef != 0;
      SaltInRange(c, M(), x, lastRef);
      TrackedSizes(c.layout, ts, born, removals);
      var salt := if lastRef == 0 then tiles[x].salt else DecodeSalt(c.layout, lastRef);
      LoadAndConnect(x, prev, p, salt, data);
      if restored {
        born, removals := born[x := salt], removals[x := 0];
      }
      TrackAddition(c.layout, ts, tiles[..], old(born), old(removals), x, restored);
      EncodedTile(c, M(), x);
      ref := Encode(c.layout, tiles[x].salt, x, 0);
      AddedNow(c.layout, ts, tiles[..], data, lastRef, x, ref);
    }

    /** The slot to use: the head of the free list, or the one named by `lastRef` if it is free. */
    method ChooseSlot(lastRef: nat) returns (found: bool, x: nat, prev: int, ghost p: nat)
      requires Valid()
      ensures c.layout.Ok() && (found <==> SlotAvailable(c.layout, tiles[..], lastRef))
      ensures found ==>
                && |slots| > 0 && p < |slots[0]| && slots[0][p] == x < tiles.Length && !Live(x)
                && prev == (if p == 0 then NULL else slots[0][p - 1]) && prev < tiles.Length && prev != x
                && (lastRef != 0 ==> x == DecodeTile(c.layout, lastRef))
    {
      hide MeshOk, DecodeTile;
      MeshSizes(c, M());
      x, prev, p := 0, NULL, 0;
      if lastRef == 0 {
        ChainStep(c, M(), 0, 0);
        if nextFree == NULL {
          forall i | 0 <= i < tiles.Length ensures tiles[..][i].body.Some? { MeshHome(c, M(), i); }
          return false, x, prev, p;
        }
        x := nextFree;
        FreeIsFree(c, M(), 0);
        assert tiles[..][x].body.None?;
        return true, x, prev, p;
      }
      x := DecodeTile(c.layout, lastRef);
      if x >= tiles.Length {
        return false, x, prev, p;
      }
      found, prev, p := FindFree(x);
    }

    /**
     A run of operations.  Each is carried out as `Stepped` says; a reference valid at one point of the run is valid at
     a later one exactly when its slot is in use again and was emptied a multiple of 2^saltBits - 1 times.
     */
    method Run(ops: seq<Operation>) returns (os: seq<Outcome>, ghost ms: seq<Mesh>)
      requires Valid() && SaltsTracked() && Uncrowded(c, M())
      requires forall op | op in ops && op.Add? :: FormatOk(op.data)
      modifies this, tiles, posLookup
      ensures Valid() && SaltsTracked() && Uncrowded(c, M()) && c.layout.Ok()
      ensures IsRun(geo, c, ops, os, ms) && ms[0] == old(M()) && ms[|ops|] == M()
      ensures RefsFollow(c.layout, os, ms)
      ensures born == old(born) && Counted(old(removals), removals, os)
    {
      hide MeshOk, Uncrowded, Tracked, FormatOk, Stepped, CountStep;
      MeshSizes(c, M());
      os, ms := [], [M()];
      ghost var rs := [removals];
      for i := 0 to |ops|
        invariant Valid() && SaltsTracked() && Uncrowded(c, M())
        invariant IsRun(geo, c, ops[..i], os, ms) && ms[0] == old(M()) && ms[i] == M()
        invariant born == old(born) && Counts(c.layout, born, os, ms, rs) && rs[0] == old(removals) && rs[i] == removals
      {
        ghost var m, before, os0, ms0, rs0 := M(), removals, os, ms, rs;
        var o := Perform(ops[i]);
        os, ms, rs := os + [o], ms + [M()], rs + [removals];
        assert ops[..i + 1] == ops[..i] + [ops[i]];
        RunNext(geo, c, ops[..i], os0, ms0, ops[i], o, M());
        CountsNext(c.layout, born, os0, ms0, rs0, o, M(), removals);
      }
      assert ops[..|ops|] == ops;
      RunFollows(c.layout, born, os, ms, rs);
      CountedBetween(c.layout, born, os, ms, rs, 0, |os|);
      assert os[0..|os|] == os;
    }

    /** One operation, with its outcome. */
    method Perform(op: Operation) returns (o: Outcome)
      requires Valid() && SaltsTracked() && Uncrowded(c, M()) && (op.Add? ==> FormatOk(op.data))
      modifies this, tiles, posLookup
      ensures Valid() && SaltsTracked() && Uncrowded(c, M()) && c.layout.Ok()
      ensures Stepped(geo, c, old(M()), M(), op, o)
      ensures born == old(born) && CountStep(old(removals), removals, o)
    {
      hide MeshOk, Tracked, FormatOk, Connected, AddedOk, TileStripped, DecodeTile, DecodeSalt, DecodePoly, Uncrowded;
      hide ValidRef, NextSalt, TilesAt, PlaceFree, SlotAvailable;
      MeshSizes(c, M());
      ghost var m := M();
      TrackedSizes(c.layout, tiles[..], born, removals);
      match op
      case Add(data, magicOk, versionOk) =>
        var here := GetTilesAt(data.x, data.y);
        RoomAt(c, m, data.x, data.y);
        if |here| >= MAX_NEIS {
          o := PassedOver;
        } else {
          var r := AddTile(data, magicOk, versionOk, 0);
          o := Answered(r);
        }
      case Remove(ref) =>
        if Named(c.layout, tiles[..], ref) && Live(DecodeTile(c.layout, ref)) {
          var ok := RemoveTile(ref);
          o := Emptied(DecodeTile(c.layout, ref));
        } else {
          o := Unknown;
        }
    }
  }

  /** A run from an empty mesh. */
  method RunFromStart(c: Config, geo: Geometry, maxTiles: nat, ops: seq<Operation>)
    returns (mesh: NavMesh, os: seq<Outcome>, ghost ms: seq<Mesh>)
    requires ConfigOk(c) && GeometryOk(geo) && maxTiles <= c.layout.tiles
    requires forall op | op in ops && op.Add? :: FormatOk(op.data)
    ensures mesh.Valid() && mesh.c == c && mesh.geo == geo && c.layout.Ok()
    ensures IsRun(geo, c, ops, os, ms) && ms[|ops|] == mesh.M() && RefsFollow(c.layout, os, ms)
    ensures |ms[0].ts| == maxTiles && forall i | 0 <= i < maxTiles :: ms[0].ts[i].salt == 1 && ms[0].ts[i].body.None?
  {
    hide MeshOk, Uncrowded, Tracked, FormatOk, Stepped, RefsFollow;
    mesh := new NavMesh(c, geo, maxTiles);
    os, ms := mesh.Run(ops);
  }
}

/**
 One tile of the navigation mesh: polygon references, and the links that a tile keeps in a free list plus
 one list per polygon.
 */
module NavTile {
  import opened Basics
  import opened IndexLists

  // ---- References: salt, tile index and polygon index in one word ----

  /** Numbers of representable polygons, tiles and salts (powers of two in the source). */
  datatype Layout = Layout(polys: nat, tiles: nat, salts: nat) {
    predicate Ok() { polys >= 1 && tiles >= 1 && salts >= 1024 }
  }

  /** With every part in range the source's shifts and ORs are this sum. */
  function Encode(c: Layout, salt: nat, it: nat, ip: nat): nat {
    (salt * c.tiles + it) * c.polys + ip
  }

  function DecodePoly(c: Layout, ref: nat): nat
    requires c.Ok()
  {
    ref % c.polys
  }

  function DecodeTile(c: Layout, ref: nat): nat
    requires c.Ok()
  {
    ref / c.polys % c.tiles
  }

  function DecodeSalt(c: Layout, ref: nat): nat
    requires c.Ok()
  {
    ref / c.polys / c.tiles % c.salts
  }

  lemma Multiple(k: int, d: nat)
    requires k >= 1
    ensures k * d >= d
  {
  }

  lemma DivModOf(q: nat, r: nat, d: nat)
    requires r < d
    ensures (q * d + r) / d == q && (q * d + r) % d == r
  {
    var n := q * d + r;
    var q', r' := n / d, n % d;
    assert n == d * q' + r' && 0 <= r' < d;
    assert (q - q') * d == q * d - d * q' && (q' - q) * d == d * q' - q * d;
    if q > q' {
      Multiple(q - q', d);
    } else if q < q' {
      Multiple(q' - q, d);
    }
  }

  /** References decode to what was encoded. */
  lemma DecodeEncode(c: Layout, salt: nat, it: nat, ip: nat)
    requires c.Ok() && salt < c.salts && it < c.tiles && ip < c.polys
    ensures var ref := Encode(c, salt, it, ip);
            DecodeSalt(c, ref) == salt && DecodeTile(c, ref) == it && DecodePoly(c, ref) == ip
    ensures salt > 0 ==> Encode(c, salt, it, ip) > 0
  {
    DivModOf(salt * c.tiles + it, ip, c.polys);
    DivModOf(salt, it, c.tiles);
    assert salt > 0 ==> salt * c.tiles >= 1;
    assert salt > 0 ==> (salt * c.tiles + it) * c.polys >= 1;
  }

  // ---- Salts ----

  /** The salt of a slot after its tile is removed; never zero. */
  function NextSalt(c: Layout, salt: nat): (r: nat)
    requires c.Ok()
    ensures 1 <= r < c.salts
  {
    var n := (salt + 1) % c.salts;
    if n == 0 then 1 else n
  }

  /** The salt after `k` removals. */
  function SaltAfter(c: Layout, salt: nat, k: nat): nat
    requires c.Ok()
  {
    if k == 0 then salt else NextSalt(c, SaltAfter(c, salt, k - 1))
  }

  lemma ModSucc(n: nat, d: nat)
    requires d >= 1
    ensures (n + 1) % d == if n % d + 1 < d then n % d + 1 else 0
  {
    var q, r := n / d, n % d;
    assert n == d * q + r && q * d == d * q;
    if r + 1 < d {
      DivModOf(q, r + 1, d);
    } else {
      assert (q + 1) * d == q * d + d;
      DivModOf(q + 1, 0, d);
    }
  }

  /** Salts run through 1 .. salts - 1 cyclically. */
  lemma {:induction false} SaltCycle(c: Layout, salt: nat, k: nat)
    requires c.Ok() && 1 <= salt < c.salts
    ensures SaltAfter(c, salt, k) == 1 + (salt - 1 + k) % (c.salts - 1)
  {
    var d := c.salts - 1;
    if k == 0 {
      DivModOf(0, salt - 1, d);
    } else {
      SaltCycle(c, salt, k - 1);
      ModSucc(salt - 1 + (k - 1), d);
      var s := SaltAfter(c, salt, k - 1);
      assert 1 <= s <= d;
      if s < d { DivModOf(0, s + 1, c.salts); } else { DivModOf(1, 0, c.salts); }
    }
  }

  /** A reference handed out after `k1` removals of a slot goes stale and stays stale for `salts - 2` removals. */
  lemma StaleReference(c: Layout, salt: nat, k1: nat, k2: nat)
    requires c.Ok() && 1 <= salt < c.salts && k1 < k2
    ensures SaltAfter(c, salt, k2) == SaltAfter(c, salt, k1) <==> (k2 - k1) % (c.salts - 1) == 0
  {
    hide SaltAfter;
    SaltCycle(c, salt, k1);
    SaltCycle(c, salt, k2);
    assert salt - 1 + k2 == (salt - 1 + k1) + (k2 - k1);
    ModShift(salt - 1 + k1, k2 - k1, c.salts - 1);
  }

  lemma SumMod(q: nat, e: nat, t: nat, r: nat, d: nat)
    requires e < d && r < d
    ensures ((q * d + e) + (t * d + r)) % d == if e + r < d then e + r else e + r - d
  {
    assert (q + t) * d == q * d + t * d && (q + t + 1) * d == q * d + t * d + d;
    if e + r < d {
      DivModOf(q + t, e + r, d);
    } else {
      DivModOf(q + t + 1, e + r - d, d);
    }
  }

  lemma ModShift(n: nat, k: nat, d: nat)
    requires d >= 1
    ensures (n + k) % d == n % d <==> k % d == 0
  {
    var q, e, t, r := n / d, n % d, k / d, k % d;
    SumMod(q, e, t, r, d);
    assert q * d + e == n;
    assert t * d + r == k;
  }

  // ---- Tiles ----

  datatype Link = Link(ref: nat, edge: nat, side: nat, next: int)

  /** A polygon edge: a wall, an inner neighbour, or a portal on a side of the tile. */
  datatype Nei = Wall | Inner(poly: nat) | Portal(dir: nat)

  datatype Poly = Poly(firstLink: int, neis: seq<Nei>, offMesh: bool)

  datatype OffMesh = OffMesh(poly: nat, side: nat, bidir: bool)

  type Vertex = (real, real, real)

  /**
   The loaded data of a tile.  `ground` are the vertices of its ground polygons; `ends` are the start and end point of
   each off-mesh connection, the only vertices that connecting tiles ever moves.
   */
  datatype Body = Body(x: int, y: int, layer: int, polys: seq<Poly>, links: seq<Link>, freeLink: int,
                       cons: seq<OffMesh>, ground: seq<Vertex>, ends: seq<Vertex>)

  ghost function Nexts(links: seq<Link>): seq<int> { seq(|links|, i requires 0 <= i < |links| => links[i].next) }

  ghost function Firsts(polys: seq<Poly>): seq<int> { seq(|polys|, i requires 0 <= i < |polys| => polys[i].firstLink) }

  /** List heads of a tile: the free list, then one per polygon, for the first `k` polygons. */
  ghost function Heads(b: Body, k: nat): seq<int>
    requires k <= |b.polys|
  {
    [b.freeLink] + Firsts(b.polys)[..k]
  }

  /** What the file format promises: indices inside the tile are in range. */
  ghost predicate DataOk(c: Layout, b: Body) {
    && |b.polys| <= c.polys && |b.links| >= 1
    && (forall i | 0 <= i < |b.cons| :: b.cons[i].poly < |b.polys|)
    && (forall i, j | 0 <= i < |b.polys| && 0 <= j < |b.polys[i].neis| ::
          b.polys[i].neis[j].Inner? ==> b.polys[i].neis[j].poly < |b.polys|)
  }

  /** Free links and the link lists of the first `k` polygons exactly partition the tile's links. */
  ghost predicate LinksUpto(b: Body, ls: seq<seq<nat>>, k: nat) {
    k <= |b.polys| && Threaded(Nexts(b.links), Heads(b, k), ls)
  }

  ghost predicate LinksOk(b: Body, ls: seq<seq<nat>>) { LinksUpto(b, ls, |b.polys|) }

  /** Everything about a tile except its links and the end points of its off-mesh connections. */
  function Frame(b: Body): Body {
    b.(polys := seq(|b.polys|, i requires 0 <= i < |b.polys| => b.polys[i].(firstLink := NULL)),
       links := seq(|b.links|, _ => Link(0, 0, 0, NULL)), freeLink := NULL, ends := [])
  }

  /** One end point replaced. */
  function Snapped(ends: seq<Vertex>, at: nat, point: Vertex): seq<Vertex> {
    if at < |ends| then ends[at := point] else ends
  }

  // ---- Allocating a link and pushing it onto a polygon's list ----

  predicate Fillable(b: Body) { b.freeLink == NULL || 0 <= b.freeLink < |b.links| }

  /** `allocLink` followed by filling the link in and linking it; with no free link nothing happens. */
  function PushLink(b: Body, p: nat, ref: nat, edge: nat, side: nat): Body
    requires p < |b.polys| && Fillable(b)
  {
    if b.freeLink == NULL then b
    else
      var idx := b.freeLink;
      b.(freeLink := b.links[idx].next,
         links := b.links[idx := Link(ref, edge, side, b.polys[p].firstLink)],
         polys := b.polys[p := b.polys[p].(firstLink := idx)])
  }

  ghost function PushLists(ls: seq<seq<nat>>, p: nat): seq<seq<nat>>
    requires p + 1 < |ls|
  {
    if ls[0] == [] then ls else MoveLists(ls, 0, 0, p + 1)
  }

  lemma FreeHead(b: Body, ls: seq<seq<nat>>, k: nat)
    requires LinksUpto(b, ls, k)
    ensures |ls| == k + 1 && Fillable(b)
    ensures b.freeLink == NULL <==> ls[0] == []
    ensures ls[0] != [] ==> ls[0][0] == b.freeLink
  {
    assert Linked(Nexts(b.links), Heads(b, k)[0], ls[0]);
    if ls[0] != [] { assert ls[0][0] < |b.links|; }
  }

  lemma PushLinkOk(b: Body, ls: seq<seq<nat>>, k: nat, p: nat, ref: nat, edge: nat, side: nat)
    requires LinksUpto(b, ls, k) && p < k
    ensures Fillable(b) && |ls| == k + 1 && LinksUpto(PushLink(b, p, ref, edge, side), PushLists(ls, p), k)
  {
    FreeHead(b, ls, k);
    if ls[0] != [] {
      var idx := b.freeLink;
      var b' := PushLink(b, p, ref, edge, side);
      MoveThreads(Nexts(b.links), Heads(b, k), ls, 0, 0, p + 1);
      assert Nexts(b'.links) == MoveNext(Nexts(b.links), NULL, idx, Heads(b, k)[p + 1]);
      assert Heads(b', k) == MoveHeads(Nexts(b.links), Heads(b, k), 0, NULL, idx, p + 1);
    }
  }

  lemma PushLinkFrame(b: Body, p: nat, ref: nat, edge: nat, side: nat)
    requires p < |b.polys| && Fillable(b)
    ensures Frame(PushLink(b, p, ref, edge, side)) == Frame(b)
  {
  }

  /** The references on the used links of a tile all satisfy `ok`. */
  ghost predicate UsedRefs(b: Body, ls: seq<seq<nat>>, ok: nat -> bool)
    requires ls != []
  {
    forall j: nat | j < |b.links| && j !in ls[0] :: ok(b.links[j].ref)
  }

  lemma PushLinkRefs(b: Body, ls: seq<seq<nat>>, k: nat, p: nat, ref: nat, edge: nat, side: nat, ok: nat -> bool)
    requires LinksUpto(b, ls, k) && p < k && ls != [] && UsedRefs(b, ls, ok) && ok(ref)
    ensures Fillable(b) && |ls| == k + 1 && UsedRefs(PushLink(b, p, ref, edge, side), PushLists(ls, p), ok)
  {
    FreeHead(b, ls, k);
    var b', ls' := PushLink(b, p, ref, edge, side), PushLists(ls, p);
    forall j: nat | j < |b'.links| && j !in ls'[0] ensures ok(b'.links[j].ref) {
      assert ls[0] != [] ==> ls[0] == [b.freeLink] + ls'[0];
    }
  }

  // ---- Loading a tile: free list and inner links ----

  /** All links free, chained in index order. */
  method BuildFreeList(b0: Body) returns (b: Body)
    requires |b0.links| >= 1
    ensures LinksUpto(b, [Upto(|b.links|)], 0) && Frame(b) == Frame(b0) && b.ends == b0.ends
  {
    var n := |b0.links|;
    var links := b0.links[n - 1 := b0.links[n - 1].(next := NULL)];
    for i := 0 to n - 1
      invariant |links| == n && links[n - 1].next == NULL
      invariant forall j | 0 <= j < i :: links[j].next == j + 1
    {
      links := links[i := links[i].(next := i + 1)];
    }
    b := b0.(freeLink := 0, links := links);
    assert Linked(Nexts(links), 0, Upto(n));
    forall x: nat ensures Count([Upto(n)], x) == if x < n then 1 else 0 {
      UptoCount(n, x);
    }
  }

  /** The links an ordinary polygon should get to its neighbours inside the tile, from edge `j` on. */
  function InnerLinks(p: Poly, base: nat, j: nat): seq<(nat, nat, nat)>
    requires j <= |p.neis|
    decreases |p.neis| - j
  {
    if j == |p.neis| then []
    else if p.neis[j].Inner? then [(base + p.neis[j].poly, j, 0xff)] + InnerLinks(p, base, j + 1)
    else InnerLinks(p, base, j + 1)
  }

  function WantedLinks(p: Poly, base: nat): seq<(nat, nat, nat)> {
    if p.offMesh then [] else InnerLinks(p, base, 0)
  }

  function WantedFrom(polys: seq<Poly>, base: nat, i: nat): nat
    requires i <= |polys|
    decreases |polys| - i
  {
    if i == |polys| then 0 else |WantedLinks(polys[i], base)| + WantedFrom(polys, base, i + 1)
  }

  function Info(l: Link): (nat, nat, nat) { (l.ref, l.edge, l.side) }

  /** What a walk along a link list sees. */
  ghost function Along(links: seq<Link>, s: seq<nat>): seq<(nat, nat, nat)> {
    seq(|s|, i requires 0 <= i < |s| => if s[i] < |links| then Info(links[s[i]]) else (0, 0, 0))
  }

  lemma AlongFrame(links: seq<Link>, s: seq<nat>, x: nat, l: Link)
    requires x < |links| && x !in s
    ensures Along(links[x := l], s) == Along(links, s)
  {
  }

  lemma NotOnTwo(next: seq<int>, heads: seq<int>, lists: seq<seq<nat>>, a: nat, b: nat, x: nat)
    requires Threaded(next, heads, lists) && a < |lists| && b < |lists| && a != b && x in lists[a]
    ensures x !in lists[b]
  {
    if x in lists[b] {
      var i :| 0 <= i < |lists[a]| && lists[a][i] == x;
      var j :| 0 <= j < |lists[b]| && lists[b][j] == x;
      Exclusive(next, heads, lists, a, i, b, j);
    }
  }

  /** Pushing a link puts it in front of its polygon's list and is invisible on every other list. */
  lemma PushLinkAlong(b: Body, ls: seq<seq<nat>>, k: nat, p: nat, ref: nat, edge: nat, side: nat, m: nat)
    requires LinksUpto(b, ls, k) && p < k <= |b.polys| && 1 <= m <= k && |ls| == k + 1 && ls[0] != [] && Fillable(b)
    ensures var b', ls' := PushLink(b, p, ref, edge, side), PushLists(ls, p);
            && Along(b'.links, ls'[m]) == (if m == p + 1 then [(ref, edge, side)] else []) + Along(b.links, ls[m])
            && |ls'[0]| == |ls[0]| - 1
  {
    hide LinksUpto, Along;
    FreshLink(b, ls, k, m);
    var x, l := b.freeLink, Link(ref, edge, side, b.polys[p].firstLink);
    AlongFrame(b.links, ls[m], x, l);
    AlongPush(b.links[x := l], x, ls[m]);
  }

  lemma FreshLink(b: Body, ls: seq<seq<nat>>, k: nat, m: nat)
    requires LinksUpto(b, ls, k) && 1 <= m <= k && |ls| == k + 1 && ls[0] != []
    ensures 0 <= b.freeLink < |b.links| && ls[0][0] == b.freeLink && b.freeLink !in ls[m]
  {
    FreeHead(b, ls, k);
    NotOnTwo(Nexts(b.links), Heads(b, k), ls, 0, m, b.freeLink);
  }

  lemma AlongPush(links: seq<Link>, x: nat, s: seq<nat>)
    requires x < |links|
    ensures Along(links, [x] + s) == [Info(links[x])] + Along(links, s)
  {
  }

  /** A polygon entering the tile's bookkeeping starts with an empty list. */
  lemma NewList(b: Body, ls: seq<seq<nat>>, i: nat)
    requires LinksUpto(b, ls, i) && i < |b.polys|
    ensures LinksUpto(b.(polys := b.polys[i := b.polys[i].(firstLink := NULL)]), ls + [[]], i + 1)
  {
    var b' := b.(polys := b.polys[i := b.polys[i].(firstLink := NULL)]);
    assert Heads(b', i + 1) == Heads(b, i) + [NULL];
    forall x: nat ensures Count(ls + [[]], x) == Count(ls, x) { CountAppendEmpty(ls, x); }
    forall q | 0 <= q < i + 2 ensures Linked(Nexts(b'.links), Heads(b', i + 1)[q], (ls + [[]])[q]) {
      if q <= i { assert Linked(Nexts(b.links), Heads(b, i)[q], ls[q]); }
    }
  }

  lemma {:induction false} CountAppendEmpty(ls: seq<seq<nat>>, x: nat)
    ensures Count(ls + [[]], x) == Count(ls, x)
  {
    if ls != [] {
      assert (ls + [[]])[1..] == ls[1..] + [[]];
      CountAppendEmpty(ls[1..], x);
    }
  }

  /** The first `i` polygons see the links they saw. */
  ghost predicate SameLists(b: Body, ls: seq<seq<nat>>, b': Body, ls': seq<seq<nat>>, i: nat) {
    i < |ls| && i < |ls'| && forall m | 1 <= m <= i :: Along(b'.links, ls'[m]) == Along(b.links, ls[m])
  }

  lemma PushKeepsLists(b0: Body, ls0: seq<seq<nat>>, b: Body, ls: seq<seq<nat>>, k: nat, p: nat, ref: nat, edge: nat,
                       side: nat)
    requires LinksUpto(b, ls, k) && p < k && |ls| == k + 1 && Fillable(b) && SameLists(b0, ls0, b, ls, p)
    ensures SameLists(b0, ls0, PushLink(b, p, ref, edge, side), PushLists(ls, p), p)
  {
    FreeHead(b, ls, k);
    if ls[0] != [] {
      var b', ls' := PushLink(b, p, ref, edge, side), PushLists(ls, p);
      forall m | 1 <= m <= p ensures Along(b'.links, ls'[m]) == Along(b0.links, ls0[m]) {
        PushLinkAlong(b, ls, k, p, ref, edge, side, m);
      }
    }
  }

  ghost predicate RefsInside(p: Poly, base: nat, ok: nat -> bool) {
    forall j | 0 <= j < |p.neis| && p.neis[j].Inner? :: ok(base + p.neis[j].poly)
  }

  /**
   The inner loop of `connectIntLinks`: polygon `i` gets one link per inner edge, in edge order, as long
   as links are left.
   */
  method ConnectPoly(b0: Body, ghost ls0: seq<seq<nat>>, i: nat, base: nat, ghost ok: nat -> bool)
    returns (b: Body, ghost ls: seq<seq<nat>>)
    requires LinksUpto(b0, ls0, i) && i < |b0.polys| && |ls0| == i + 1
    requires UsedRefs(b0, ls0, ok) && RefsInside(b0.polys[i], base, ok)
    ensures LinksUpto(b, ls, i + 1) && Frame(b) == Frame(b0) && |ls| == i + 2 && b.ends == b0.ends
    ensures UsedRefs(b, ls, ok)
    ensures SameLists(b0, ls0, b, ls, i)
    ensures |ls0[0]| >= |WantedLinks(b0.polys[i], base)| ==>
              && |ls[0]| == |ls0[0]| - |WantedLinks(b0.polys[i], base)|
              && Along(b.links, ls[i + 1]) == WantedLinks(b0.polys[i], base)
    ensures forall w | w in Along(b.links, ls[i + 1]) :: w in WantedLinks(b0.polys[i], base)
  {
    hide LinksUpto, SameLists, UsedRefs, Along;
    var p := b0.polys[i];
    b, ls := StartPoly(b0, ls0, i, ok);
    if p.offMesh { return; }
    var j := |p.neis|;
    ghost var wanted := InnerLinks(p, base, 0);
    InnerLinksBound(p, base, 0, j);
    while j > 0
      invariant 0 <= j <= |p.neis| && |ls| == i + 2 && i < |b.polys|
      invariant LinksUpto(b, ls, i + 1) && UsedRefs(b, ls, ok) && SameLists(b0, ls0, b, ls, i)
      invariant Frame(b) == Frame(b0) && b.ends == b0.ends
      invariant |InnerLinks(p, base, j)| <= |wanted|
      invariant |ls0[0]| >= |wanted| ==>
                  && |ls[0]| == |ls0[0]| - |InnerLinks(p, base, j)|
                  && Along(b.links, ls[i + 1]) == InnerLinks(p, base, j)
      invariant forall w | w in Along(b.links, ls[i + 1]) :: w in InnerLinks(p, base, j)
    {
      j := j - 1;
      InnerLinksBound(p, base, 0, j);
      if p.neis[j].Inner? {
        b, ls := AddInner(b0, ls0, b, ls, i, base + p.neis[j].poly, j, ok);
      }
    }
  }

  lemma {:induction false} InnerLinksBound(p: Poly, base: nat, i: nat, j: nat)
    requires i <= j <= |p.neis|
    ensures |InnerLinks(p, base, j)| <= |InnerLinks(p, base, i)|
    decreases j - i
  {
    if i < j { InnerLinksBound(p, base, i + 1, j); }
  }

  method StartPoly(b0: Body, ghost ls0: seq<seq<nat>>, i: nat, ghost ok: nat -> bool)
    returns (b: Body, ghost ls: seq<seq<nat>>)
    requires LinksUpto(b0, ls0, i) && i < |b0.polys| && |ls0| == i + 1 && UsedRefs(b0, ls0, ok)
    ensures b == b0.(polys := b0.polys[i := b0.polys[i].(firstLink := NULL)]) && Frame(b) == Frame(b0)
    ensures LinksUpto(b, ls, i + 1) && UsedRefs(b, ls, ok) && SameLists(b0, ls0, b, ls, i)
    ensures |ls| == i + 2 && ls[0] == ls0[0] && Along(b.links, ls[i + 1]) == []
  {
    NewList(b0, ls0, i);
    b := b0.(polys := b0.polys[i := b0.polys[i].(firstLink := NULL)]);
    ls := ls0 + [[]];
  }

  /** One more link on the polygon being connected. */
  method AddInner(ghost b0: Body, ghost ls0: seq<seq<nat>>, b: Body, ghost ls: seq<seq<nat>>, i: nat, ref: nat,
                  edge: nat, ghost ok: nat -> bool)
    returns (b': Body, ghost ls': seq<seq<nat>>)
    requires LinksUpto(b, ls, i + 1) && i < |b.polys| && |ls| == i + 2 && UsedRefs(b, ls, ok) && ok(ref)
    requires SameLists(b0, ls0, b, ls, i)
    ensures LinksUpto(b', ls', i + 1) && UsedRefs(b', ls', ok) && SameLists(b0, ls0, b', ls', i)
    ensures |ls'| == i + 2 && Frame(b') == Frame(b) && b'.ends == b.ends && |b'.polys| == |b.polys|
    ensures ls[0] != [] ==>
              && |ls'[0]| == |ls[0]| - 1
              && Along(b'.links, ls'[i + 1]) == [(ref, edge, 0xff)] + Along(b.links, ls[i + 1])
    ensures ls[0] == [] ==> b' == b && ls' == ls
  {
    hide LinksUpto, SameLists, UsedRefs, Along;
    PushLinkOk(b, ls, i + 1, i, ref, edge, 0xff);
    PushLinkRefs(b, ls, i + 1, i, ref, edge, 0xff, ok);
    PushKeepsLists(b0, ls0, b, ls, i + 1, i, ref, edge, 0xff);
    PushLinkFrame(b, i, ref, edge, 0xff);
    FreeHead(b, ls, i + 1);
    if ls[0] != [] { PushLinkAlong(b, ls, i + 1, i, ref, edge, 0xff, i + 1); }
    b', ls' := PushLink(b, i, ref, edge, 0xff), PushLists(ls, i);
  }

  /**
   `connectIntLinks`: after the free list is built, every ordinary polygon is linked to its neighbours inside
   the tile, lowest edge first, provided the tile has enough links.
   */
  method ConnectIntLinks(b0: Body, base: nat, ghost ok: nat -> bool) returns (b: Body, ghost ls: seq<seq<nat>>)
    requires |b0.links| >= 1 && forall i | 0 <= i < |b0.polys| :: RefsInside(b0.polys[i], base, ok)
    ensures LinksOk(b, ls) && |ls| == |b0.polys| + 1 && Frame(b) == Frame(b0) && UsedRefs(b, ls, ok)
    ensures b.ends == b0.ends
    ensures WantedFrom(b0.polys, base, 0) <= |b0.links| ==>
              forall i | 0 <= i < |b0.polys| :: Along(b.links, ls[i + 1]) == WantedLinks(b0.polys[i], base)
    ensures forall i, w | 0 <= i < |b0.polys| && w in Along(b.links, ls[i + 1]) :: w in WantedLinks(b0.polys[i], base)
  {
    hide LinksUpto, Along, SameLists;
    b := BuildFreeList(b0);
    ls := [Upto(|b.links|)];
    FrameSize(b, b0);
    forall j: nat | j < |b.links| ensures j in ls[0] { assert Upto(|b.links|)[j] == j; }
    ghost var enough := WantedFrom(b0.polys, base, 0) <= |b0.links|;
    for i := 0 to |b0.polys|
      invariant LinksUpto(b, ls, i) && |ls| == i + 1 && UsedRefs(b, ls, ok)
      invariant Frame(b) == Frame(b0) && |b.polys| == |b0.polys| && b.ends == b0.ends
      invariant enough ==> WantedFrom(b0.polys, base, i) <= |ls[0]|
      invariant enough ==> forall m | 1 <= m <= i :: Along(b.links, ls[m]) == WantedLinks(b0.polys[m - 1], base)
      invariant forall m, w | 1 <= m <= i && w in Along(b.links, ls[m]) :: w in WantedLinks(b0.polys[m - 1], base)
    {
      FrameOfPoly(b, b0, i, base);
      ghost var before, lsBefore := b, ls;
      b, ls := ConnectPoly(b, ls, i, base, ok);
      FrameSize(b, b0);
      SameListsAt(before, lsBefore, b, ls, i);
    }
  }

  lemma FrameSize(b: Body, b0: Body)
    requires Frame(b) == Frame(b0)
    ensures |b.polys| == |b0.polys| && |b.links| == |b0.links| && b.x == b0.x && b.y == b0.y && b.cons == b0.cons
    ensures b.layer == b0.layer
  {
    assert |Frame(b).polys| == |Frame(b0).polys| && |Frame(b).links| == |Frame(b0).links|;
  }

  lemma FrameOfPoly(b: Body, b0: Body, i: nat, base: nat)
    requires Frame(b) == Frame(b0) && i < |b.polys|
    ensures i < |b0.polys| && b.polys[i].neis == b0.polys[i].neis && b.polys[i].offMesh == b0.polys[i].offMesh
    ensures WantedLinks(b.polys[i], base) == WantedLinks(b0.polys[i], base)
  {
    FrameSize(b, b0);
    assert Frame(b).polys[i] == Frame(b0).polys[i];
    InnerLinksFrame(b.polys[i], b0.polys[i], base, 0);
  }

  lemma {:induction false} InnerLinksFrame(p: Poly, p': Poly, base: nat, j: nat)
    requires p.neis == p'.neis && j <= |p.neis|
    ensures InnerLinks(p, base, j) == InnerLinks(p', base, j)
    decreases |p.neis| - j
  {
    if j < |p.neis| { InnerLinksFrame(p, p', base, j + 1); }
  }

  lemma SameListsAt(b: Body, ls: seq<seq<nat>>, b': Body, ls': seq<seq<nat>>, i: nat)
    requires SameLists(b, ls, b', ls', i)
    ensures i < |ls| && i < |ls'| && forall m | 1 <= m <= i :: Along(b'.links, ls'[m]) == Along(b.links, ls[m])
  {
  }

  // ---- Removing a polygon's links into one tile ----

  /** The links of `s` that do not point into tile `target`. */
  ghost function Kept(c: Layout, links: seq<Link>, target: nat, s: seq<nat>): seq<nat>
    requires c.Ok()
  {
    if s == [] then []
    else
      Kept(c, links, target, s[..|s| - 1]) +
      (if s[|s| - 1] < |links| && DecodeTile(c, links[s[|s| - 1]].ref) == target then [] else [s[|s| - 1]])
  }

  /** Unlink link `j` (after `pj`, or first) from polygon `i` and give it back to the free list. */
  function PopLink(b: Body, i: nat, pj: int, j: nat): Body
    requires i < |b.polys| && j < |b.links| && pj < |b.links|
  {
    var nj := b.links[j].next;
    var b1 := if pj < 0 then b.(polys := b.polys[i := b.polys[i].(firstLink := nj)])
              else b.(links := b.links[pj := b.links[pj].(next := nj)]);
    b1.(links := b1.links[j := b1.links[j].(next := b1.freeLink)], freeLink := j)
  }

  lemma PopLinkOk(b: Body, ls: seq<seq<nat>>, i: nat, q: nat)
    requires LinksOk(b, ls) && i < |b.polys| && |ls| == |b.polys| + 1 && q < |ls[i + 1]|
    ensures var j, pj := ls[i + 1][q], if q == 0 then NULL else ls[i + 1][q - 1];
            && j < |b.links| && pj < |b.links| && pj != j
            && LinksOk(PopLink(b, i, pj, j), MoveLists(ls, i + 1, q, 0))
  {
    var k := |b.polys|;
    var next, heads := Nexts(b.links), Heads(b, k);
    assert Linked(next, heads[i + 1], ls[i + 1]);
    var j, pj := ls[i + 1][q], if q == 0 then NULL else ls[i + 1][q - 1];
    MoveThreads(next, heads, ls, i + 1, q, 0);
    if q > 0 && pj == j { Exclusive(next, heads, ls, i + 1, q - 1, i + 1, q); }
    hide Threaded, Linked;
    PopLinkNexts(b, i, pj, j);
  }

  lemma PopLinkNexts(b: Body, i: nat, pj: int, j: nat)
    requires i < |b.polys| && j < |b.links| && -1 <= pj < |b.links| && pj != j
    ensures Nexts(PopLink(b, i, pj, j).links) == MoveNext(Nexts(b.links), pj, j, b.freeLink)
    ensures |PopLink(b, i, pj, j).polys| == |b.polys|
    ensures Heads(PopLink(b, i, pj, j), |b.polys|) == MoveHeads(Nexts(b.links), Heads(b, |b.polys|), i + 1, pj, j, 0)
  {
  }

  lemma PopLinkFrame(b: Body, i: nat, pj: int, j: nat)
    requires i < |b.polys| && j < |b.links| && -1 <= pj < |b.links| && pj != j
    ensures Frame(PopLink(b, i, pj, j)) == Frame(b) && PopLink(b, i, pj, j).ends == b.ends
    ensures |PopLink(b, i, pj, j).polys| == |b.polys| && SameInfo(PopLink(b, i, pj, j), b)
  {
  }

  lemma KeptSnoc(c: Layout, links: seq<Link>, target: nat, s: seq<nat>, r: nat)
    requires c.Ok() && r < |s| && s[r] < |links|
    ensures Kept(c, links, target, s[..r + 1]) ==
            Kept(c, links, target, s[..r]) + if DecodeTile(c, links[s[r]].ref) == target then [] else [s[r]]
  {
    assert s[..r + 1][..r] == s[..r] && s[..r + 1][r] == s[r];
  }

  lemma ListStep(b: Body, ls: seq<seq<nat>>, i: nat, q: nat)
    requires LinksOk(b, ls) && i < |b.polys| && |ls| == |b.polys| + 1
    ensures b.polys[i].firstLink == At(ls[i + 1], 0)
    ensures q < |ls[i + 1]| ==> ls[i + 1][q] < |b.links| && b.links[ls[i + 1][q]].next == At(ls[i + 1], q + 1)
  {
    assert Linked(Nexts(b.links), Heads(b, |b.polys|)[i + 1], ls[i + 1]);
  }

  /** The walk over polygon `i`'s list is at entry `r` of its old list; `kept` of the entries before stay. */
  ghost predicate Unlinking(c: Layout, b0: Body, ls0: seq<seq<nat>>, i: nat, target: nat, b: Body, ls: seq<seq<nat>>,
                            r: nat, kept: seq<nat>)
    requires c.Ok()
  {
    && LinksOk(b, ls) && |ls| == |ls0| && Frame(b) == Frame(b0) && |b.polys| == |b0.polys| && SameInfo(b, b0)
    && b.ends == b0.ends
    && i < |b.polys| && |ls0| == |b0.polys| + 1 && r <= |ls0[i + 1]|
    && kept == Kept(c, b0.links, target, ls0[i + 1][..r]) && ls[i + 1] == kept + ls0[i + 1][r..]
    && forall m | 1 <= m < |ls| && m != i + 1 :: ls[m] == ls0[m]
  }

  /** The entry the walk is at, and its successor. */
  lemma UnlinkAt(c: Layout, b0: Body, ls0: seq<seq<nat>>, i: nat, target: nat, b: Body, ls: seq<seq<nat>>, r: nat,
                 kept: seq<nat>)
    requires c.Ok() && Unlinking(c, b0, ls0, i, target, b, ls, r, kept) && r < |ls0[i + 1]|
    ensures var j := ls0[i + 1][r];
            && i < |b.polys| && j < |b.links| && b.links[j].next == At(ls0[i + 1], r + 1)
            && b.links[j].ref == b0.links[j].ref
            && -1 <= Last(kept) < |b.links| && Last(kept) != j
  {
    hide LinksUpto, LinksOk, Kept, DecodeTile, Frame;
    var all := ls0[i + 1];
    var j := all[r];
    ListStep(b, ls, i, |kept|);
    assert ls[i + 1][|kept|] == j;
    assert At(ls[i + 1], |kept| + 1) == At(all, r + 1);
    SameRef(b, b0, j);
    PopLinkOk(b, ls, i, |kept|);
    if kept != [] { ListStep(b, ls, i, |kept| - 1); }
  }

  lemma UnlinkPops(c: Layout, b0: Body, ls0: seq<seq<nat>>, i: nat, target: nat, b: Body, ls: seq<seq<nat>>, r: nat,
                   kept: seq<nat>)
    requires c.Ok() && Unlinking(c, b0, ls0, i, target, b, ls, r, kept) && r < |ls0[i + 1]|
    requires ls0[i + 1][r] < |b0.links| && DecodeTile(c, b0.links[ls0[i + 1][r]].ref) == target
    ensures i < |b.polys| && ls0[i + 1][r] < |b.links| && Last(kept) < |b.links| && i + 1 < |ls| && |kept| < |ls[i + 1]|
    ensures Unlinking(c, b0, ls0, i, target, PopLink(b, i, Last(kept), ls0[i + 1][r]), MoveLists(ls, i + 1, |kept|, 0),
                      r + 1, kept)
  {
    hide LinksUpto, LinksOk, Kept, DecodeTile, Frame, MoveLists, PopLink;
    UnlinkAt(c, b0, ls0, i, target, b, ls, r, kept);
    var all := ls0[i + 1];
    PopLists(ls, i, kept, all, r);
    assert ls[i + 1][|kept|] == all[r];
    PopLinkOk(b, ls, i, |kept|);
    PopLinkFrame(b, i, Last(kept), all[r]);
    KeptSnoc(c, b0.links, target, all, r);
    SameInfoTrans(b0, b, PopLink(b, i, Last(kept), all[r]));
  }

  lemma SameInfoTrans(b0: Body, b: Body, b': Body)
    requires SameInfo(b, b0) && SameInfo(b', b)
    ensures SameInfo(b', b0)
  {
    forall x | 0 <= x < |b0.links| ensures Info(b'.links[x]) == Info(b0.links[x]) {
      assert Info(b'.links[x]) == Info(b.links[x]);
    }
  }

  lemma UnlinkKeeps(c: Layout, b0: Body, ls0: seq<seq<nat>>, i: nat, target: nat, b: Body, ls: seq<seq<nat>>, r: nat,
                    kept: seq<nat>)
    requires c.Ok() && Unlinking(c, b0, ls0, i, target, b, ls, r, kept) && r < |ls0[i + 1]|
    requires ls0[i + 1][r] < |b0.links| && DecodeTile(c, b0.links[ls0[i + 1][r]].ref) != target
    ensures Unlinking(c, b0, ls0, i, target, b, ls, r + 1, kept + [ls0[i + 1][r]])
  {
    hide LinksUpto, LinksOk, DecodeTile, Frame, Kept;
    KeptSnoc(c, b0.links, target, ls0[i + 1], r);
  }

  /** The walk over one polygon's list in `unconnectLinks`. */
  method UnlinkPoly(c: Layout, b0: Body, ghost ls0: seq<seq<nat>>, i: nat, target: nat)
    returns (b: Body, ghost ls: seq<seq<nat>>)
    requires c.Ok() && LinksOk(b0, ls0) && i < |b0.polys| && |ls0| == |b0.polys| + 1
    ensures LinksOk(b, ls) && |ls| == |ls0| && Frame(b) == Frame(b0) && b.ends == b0.ends
    ensures SameInfo(b, b0)
    ensures ls[i + 1] == Kept(c, b0.links, target, ls0[i + 1])
    ensures forall m | 1 <= m < |ls| && m != i + 1 :: ls[m] == ls0[m]
  {
    hide Unlinking, LinksUpto, LinksOk, Kept, DecodeTile, Frame, PopLink, MoveLists;
    b, ls := b0, ls0;
    ghost var all := ls0[i + 1];
    ghost var r, kept: seq<nat> := 0, [];
    ListStep(b, ls, i, 0);
    UnlinkStarts(c, b0, ls0, i, target);
    var j, pj := b.polys[i].firstLink, NULL;
    while j != NULL
      invariant r <= |all| && Unlinking(c, b0, ls0, i, target, b, ls, r, kept)
      invariant j == At(all, r) && pj == Last(kept)
      decreases |all| - r
    {
      UnlinkAt(c, b0, ls0, i, target, b, ls, r, kept);
      LinkCount(c, b0, ls0, i, target, b, ls, r, kept);
      if DecodeTile(c, b.links[j].ref) == target {
        UnlinkPops(c, b0, ls0, i, target, b, ls, r, kept);
        var nj := b.links[j].next;
        b, ls := PopLink(b, i, pj, j), MoveLists(ls, i + 1, |kept|, 0);
        j := nj;
      } else {
        UnlinkKeeps(c, b0, ls0, i, target, b, ls, r, kept);
        kept := kept + [all[r]];
        pj := j;
        j := b.links[j].next;
      }
      r := r + 1;
    }
    UnlinkEnds(c, b0, ls0, i, target, b, ls, r, kept);
  }

  lemma UnlinkStarts(c: Layout, b: Body, ls: seq<seq<nat>>, i: nat, target: nat)
    requires c.Ok() && LinksOk(b, ls) && i < |b.polys| && |ls| == |b.polys| + 1
    ensures Unlinking(c, b, ls, i, target, b, ls, 0, [])
  {
    hide LinksUpto, LinksOk, DecodeTile, Frame;
    KeptNone(c, b.links, target, ls[i + 1]);
  }

  lemma LinkCount(c: Layout, b0: Body, ls0: seq<seq<nat>>, i: nat, target: nat, b: Body, ls: seq<seq<nat>>, r: nat,
                  kept: seq<nat>)
    requires c.Ok() && Unlinking(c, b0, ls0, i, target, b, ls, r, kept)
    ensures |b.links| == |b0.links|
  {
    hide LinksUpto, LinksOk, Kept, DecodeTile, Frame;
  }

  lemma UnlinkEnds(c: Layout, b0: Body, ls0: seq<seq<nat>>, i: nat, target: nat, b: Body, ls: seq<seq<nat>>, r: nat,
                   kept: seq<nat>)
    requires c.Ok() && i + 1 < |ls0| && r == |ls0[i + 1]| && Unlinking(c, b0, ls0, i, target, b, ls, r, kept)
    ensures LinksOk(b, ls) && |ls| == |ls0| && Frame(b) == Frame(b0) && b.ends == b0.ends && SameInfo(b, b0)
    ensures ls[i + 1] == Kept(c, b0.links, target, ls0[i + 1])
    ensures forall m | 1 <= m < |ls| && m != i + 1 :: ls[m] == ls0[m]
  {
    hide LinksUpto, LinksOk, Kept, DecodeTile, Frame;
    assert ls0[i + 1][..r] == ls0[i + 1];
  }

  lemma PopLists(ls: seq<seq<nat>>, i: nat, kept: seq<nat>, all: seq<nat>, r: nat)
    requires i + 1 < |ls| && r < |all| && ls[i + 1] == kept + all[r..]
    ensures kept + all[r..] == (kept + [all[r]]) + all[r + 1..] && At(all[r..], 1) == At(all[r + 1..], 0)
    ensures var ls' := MoveLists(ls, i + 1, |kept|, 0);
            && |ls'| == |ls| && ls'[i + 1] == kept + all[r + 1..] && forall m | 1 <= m < |ls| && m != i + 1 ::
                 ls'[m] == ls[m]
  {
    assert Without(ls[i + 1], |kept|) == kept + all[r + 1..];
  }

  /** The last element, `NULL` for none. */
  function Last(s: seq<nat>): int { if s == [] then NULL else s[|s| - 1] }

  /** Same link contents, up to threading. */
  ghost predicate SameInfo(b: Body, b0: Body) {
    |b.links| == |b0.links| && forall x | 0 <= x < |b.links| :: Info(b.links[x]) == Info(b0.links[x])
  }

  lemma SameRef(b: Body, b0: Body, j: int)
    requires SameInfo(b, b0) && 0 <= j < |b.links|
    ensures b.links[j].ref == b0.links[j].ref
  {
    assert Info(b.links[j]) == Info(b0.links[j]);
  }

  lemma KeptNone(c: Layout, links: seq<Link>, target: nat, s: seq<nat>)
    requires c.Ok()
    ensures Kept(c, links, target, s[..0]) == []
  {
  }

  /** `unconnectLinks`: every polygon keeps exactly its links that lead elsewhere; the others become free. */
  method UnconnectLinks(c: Layout, b0: Body, ghost ls0: seq<seq<nat>>, target: nat)
    returns (b: Body, ghost ls: seq<seq<nat>>)
    requires c.Ok() && LinksOk(b0, ls0) && |ls0| == |b0.polys| + 1
    ensures LinksOk(b, ls) && |ls| == |ls0| && Frame(b) == Frame(b0) && b.ends == b0.ends && SameInfo(b, b0)
    ensures forall m | 1 <= m < |ls| :: ls[m] == Kept(c, b0.links, target, ls0[m])
  {
    hide LinksUpto, LinksOk, Frame, Kept;
    b, ls := b0, ls0;
    for i := 0 to |b0.polys|
      invariant LinksOk(b, ls) && |ls| == |ls0| && Frame(b) == Frame(b0) && |b.polys| == |b0.polys| && SameInfo(b, b0)
      invariant b.ends == b0.ends
      invariant forall m | 1 <= m <= i :: ls[m] == Kept(c, b0.links, target, ls0[m])
      invariant forall m | i < m < |ls| :: ls[m] == ls0[m]
    {
      KeptFrame(c, b, b0, target, ls0[i + 1]);
      ghost var before := b;
      b, ls := UnlinkPoly(c, b, ls, i, target);
      SameInfoTrans(b0, before, b);
      FrameSize(b, b0);
    }
  }

  lemma {:induction false} KeptFrame(c: Layout, b: Body, b0: Body, target: nat, s: seq<nat>)
    requires c.Ok() && SameInfo(b, b0)
    ensures Kept(c, b.links, target, s) == Kept(c, b0.links, target, s)
  {
    if s != [] {
      KeptFrame(c, b, b0, target, s[..|s| - 1]);
      if s[|s| - 1] < |b.links| { SameRef(b, b0, s[|s| - 1]); }
    }
  }

  /** Keeping what leads elsewhere changes nothing if everything does. */
  lemma {:induction false} KeptIdle(c: Layout, links: seq<Link>, target: nat, s: seq<nat>)
    requires c.Ok() && forall x | x in s && x < |links| :: DecodeTile(c, links[x].ref) != target
    ensures Kept(c, links, target, s) == s
  {
    hide DecodeTile, Kept;
    if s == [] {
      KeptOfNone(c, links, target);
    } else {
      var front := s[..|s| - 1];
      assert s[|s| - 1] in s && forall x | x in front :: x in s;
      KeptIdle(c, links, target, front);
      KeptLast(c, links, target, s);
      assert front + [s[|s| - 1]] == s;
    }
  }

  lemma KeptOfNone(c: Layout, links: seq<Link>, target: nat)
    requires c.Ok()
    ensures Kept(c, links, target, []) == []
  {
  }

  lemma {:induction false} KeptLast(c: Layout, links: seq<Link>, target: nat, s: seq<nat>)
    requires c.Ok() && s != [] && (s[|s| - 1] < |links| ==> DecodeTile(c, links[s[|s| - 1]].ref) != target)
    ensures Kept(c, links, target, s) == Kept(c, links, target, s[..|s| - 1]) + [s[|s| - 1]]
  {
  }

  lemma KeptTwice(c: Layout, links: seq<Link>, target: nat, s: seq<nat>)
    requires c.Ok()
    ensures Kept(c, links, target, Kept(c, links, target, s)) == Kept(c, links, target, s)
  {
    hide DecodeTile, Kept;
    var k := Kept(c, links, target, s);
    forall x | x in k && x < |links| ensures DecodeTile(c, links[x].ref) != target {
      KeptMember(c, links, target, s, x);
    }
    KeptIdle(c, links, target, k);
  }

  /** Every polygon's list lost exactly its links into `target`; everything else about the tile is the same. */
  ghost predicate BodyStripped(c: Layout, b: Body, ls: seq<seq<nat>>, b': Body, ls': seq<seq<nat>>, target: nat)
    requires c.Ok()
  {
    && Frame(b') == Frame(b) && b'.ends == b.ends && SameInfo(b', b) && |ls'| == |ls|
    && forall q | 1 <= q < |ls| :: ls'[q] == Kept(c, b.links, target, ls[q])
  }

  lemma StrippedTwice(c: Layout, b: Body, ls: seq<seq<nat>>, b1: Body, ls1: seq<seq<nat>>, b2: Body, ls2: seq<seq<nat>>,
                      target: nat)
    requires c.Ok() && BodyStripped(c, b, ls, b1, ls1, target) && BodyStripped(c, b1, ls1, b2, ls2, target)
    ensures BodyStripped(c, b, ls, b2, ls2, target)
  {
    hide Kept, Frame;
    SameInfoTrans(b, b1, b2);
    forall q | 1 <= q < |ls| ensures ls2[q] == Kept(c, b.links, target, ls[q]) {
      KeptFrame(c, b1, b, target, ls1[q]);
      KeptTwice(c, b.links, target, ls[q]);
    }
  }

  /** A tile without links into `target` counts as stripped of them. */
  lemma StrippedIdle(c: Layout, b: Body, ls: seq<seq<nat>>, target: nat)
    requires c.Ok() && LinksOk(b, ls) && ls != []
    requires forall j: nat | j < |b.links| && j !in ls[0] :: DecodeTile(c, b.links[j].ref) != target
    ensures BodyStripped(c, b, ls, b, ls, target)
  {
    hide Kept, Frame, DecodeTile;
    forall q | 1 <= q < |ls| ensures ls[q] == Kept(c, b.links, target, ls[q]) {
      forall x | x in ls[q] && x < |b.links| ensures DecodeTile(c, b.links[x].ref) != target {
        NotOnTwo(Nexts(b.links), Heads(b, |b.polys|), ls, q, 0, x);
      }
      KeptIdle(c, b.links, target, ls[q]);
    }
  }

  lemma {:induction false} KeptMember(c: Layout, links: seq<Link>, target: nat, s: seq<nat>, x: nat)
    requires c.Ok() && x in Kept(c, links, target, s) && x < |links|
    ensures x in s && DecodeTile(c, links[x].ref) != target
  {
    hide DecodeTile;
    if s != [] && x != s[|s| - 1] {
      KeptMember(c, links, target, s[..|s| - 1], x);
    } else if s != [] && x in Kept(c, links, target, s[..|s| - 1]) {
      KeptMember(c, links, target, s[..|s| - 1], x);
    }
  }

  /** A link still in use after `unconnectLinks` was in use before and leads elsewhere. */
  lemma StillUsed(c: Layout, b0: Body, ls0: seq<seq<nat>>, b: Body, ls: seq<seq<nat>>, target: nat, x: nat)
    requires c.Ok() && LinksOk(b0, ls0) && LinksOk(b, ls) && |ls| == |ls0| && SameInfo(b, b0) && ls0 != []
    requires forall m | 1 <= m < |ls| :: ls[m] == Kept(c, b0.links, target, ls0[m])
    requires x < |b.links| && x !in ls[0]
    ensures x !in ls0[0] && b.links[x].ref == b0.links[x].ref && DecodeTile(c, b.links[x].ref) != target
  {
    hide DecodeTile, Kept;
    SameRef(b, b0, x);
    assert Count(ls, x) == 1;
    var m, i := OnSomeList(ls, x);
    assert m >= 1 && x in ls[m];
    KeptMember(c, b0.links, target, ls0[m], x);
    NotOnTwo(Nexts(b0.links), Heads(b0, |b0.polys|), ls0, m, 0, x);
  }

  /** A link in use after a push was in use before, or is the new one. */
  lemma PushLinkUsed(b: Body, ls: seq<seq<nat>>, p: nat, ref: nat, edge: nat, side: nat, x: nat)
    requires LinksOk(b, ls) && p < |b.polys| && |ls| == |b.polys| + 1 && Fillable(b)
    requires x < |b.links| && x !in PushLists(ls, p)[0]
    ensures var l := PushLink(b, p, ref, edge, side).links[x];
            l.ref == ref || (x !in ls[0] && l.ref == b.links[x].ref)
  {
    hide LinksUpto;
    FreeHead(b, ls, |b.polys|);
    assert ls[0] != [] ==> ls[0] == [b.freeLink] + PushLists(ls, p)[0];
  }

  // ---- Serving requests for links ----

  /** A link asked for: from polygon `poly`, through its edge, to `ref`. */
  datatype Request = Request(poly: nat, ref: nat, edge: nat, side: nat)

  /** A polygon's list after the requests that concern it were pushed, one after the other. */
  ghost function Pushed(s: seq<(nat, nat, nat)>, rs: seq<Request>, p: nat): seq<(nat, nat, nat)> {
    if rs == [] then s
    else
      var r := rs[|rs| - 1];
      (if r.poly == p then [(r.ref, r.edge, r.side)] else []) + Pushed(s, rs[..|rs| - 1], p)
  }

  /** Requests are served in order until no link is left. */
  ghost predicate Served(b0: Body, ls0: seq<seq<nat>>, b: Body, ls: seq<seq<nat>>, rs: seq<Request>) {
    && ls0 != [] && |ls| == |ls0|
    && (if |rs| <= |ls0[0]| then |ls[0]| == |ls0[0]| - |rs| else ls[0] == [])
    && forall m | 1 <= m < |ls| ::
         Along(b.links, ls[m]) == Pushed(Along(b0.links, ls0[m]), if |rs| <= |ls0[0]| then rs
                                         else rs[..|ls0[0]|], m - 1)
  }

  lemma ServedNone(b: Body, ls: seq<seq<nat>>)
    requires ls != []
    ensures Served(b, ls, b, ls, [])
  {
  }

  lemma ServeOne(b0: Body, ls0: seq<seq<nat>>, b: Body, ls: seq<seq<nat>>, rs: seq<Request>, r: Request)
    requires LinksOk(b, ls) && |ls| == |b.polys| + 1 && r.poly < |b.polys| && Served(b0, ls0, b, ls, rs)
    ensures Fillable(b) && Served(b0, ls0, PushLink(b, r.poly, r.ref, r.edge, r.side), PushLists(ls, r.poly), rs + [r])
  {
    hide LinksUpto, Along;
    FreeHead(b, ls, |b.polys|);
    var rs' := rs + [r];
    var b', ls' := PushLink(b, r.poly, r.ref, r.edge, r.side), PushLists(ls, r.poly);
    if ls[0] != [] {
      assert rs'[..|rs|] == rs;
      forall m | 1 <= m < |ls| ensures Along(b'.links, ls'[m]) == Pushed(Along(b0.links, ls0[m]), rs', m - 1) {
        PushLinkAlong(b, ls, |b.polys|, r.poly, r.ref, r.edge, r.side, m);
      }
      PushLinkAlong(b, ls, |b.polys|, r.poly, r.ref, r.edge, r.side, r.poly + 1);
    } else {
      assert rs'[..|ls0[0]|] == rs[..|ls0[0]|];
      if |rs| == |ls0[0]| { assert rs[..|ls0[0]|] == rs; }
    }
  }

  /** Nothing but the requests is added, and nothing is lost. */
  lemma {:induction false} PushedOnly(s: seq<(nat, nat, nat)>, rs: seq<Request>, p: nat, x: (nat, nat, nat))
    ensures x in Pushed(s, rs, p) <==> x in s || exists i ::
              0 <= i < |rs| && rs[i].poly == p && x == (rs[i].ref, rs[i].edge, rs[i].side)
  {
    if rs != [] {
      var front := rs[..|rs| - 1];
      PushedOnly(s, front, p, x);
      if i :| 0 <= i < |front| && front[i].poly == p && x == (front[i].ref, front[i].edge, front[i].side) {
        assert rs[i] == front[i];
      }
      if x in Pushed(s, rs, p) && x !in Pushed(s, front, p) {
        assert rs[|rs| - 1].poly == p;
      }
      if i :| 0 <= i < |rs| && rs[i].poly == p && x == (rs[i].ref, rs[i].edge, rs[i].side) {
        if i < |front| { assert front[i] == rs[i]; }
      }
    }
  }

  type Shown = (nat, nat, nat)

  function Shows(r: Request): Shown { (r.ref, r.edge, r.side) }

  /** `now` is `was` with something in front. */
  ghost predicate EndsWith(now: seq<Shown>, was: seq<Shown>) { |was| <= |now| && now[|now| - |was|..] == was }

  lemma EndsWithTrans(a: seq<Shown>, b: seq<Shown>, c: seq<Shown>)
    requires EndsWith(b, a) && EndsWith(c, b)
    ensures EndsWith(c, a)
  {
    assert c[|c| - |a|..] == c[|c| - |b|..][|b| - |a|..];
  }

  lemma EndsWithIn(now: seq<Shown>, was: seq<Shown>, w: Shown)
    requires EndsWith(now, was) && w in was
    ensures w in now
  {
    var k :| 0 <= k < |was| && was[k] == w;
    assert now[|now| - |was| + k] == w;
  }

  /** Served requests stand in front of the old links, each of them a request of this polygon. */
  lemma {:induction false} PushedFront(s: seq<Shown>, rs: seq<Request>, p: nat, k: nat)
    ensures EndsWith(Pushed(s, rs, p), s)
    ensures k < |Pushed(s, rs, p)| - |s| ==>
              exists i :: 0 <= i < |rs| && rs[i].poly == p && Pushed(s, rs, p)[k] == Shows(rs[i])
  {
    if rs != [] {
      var front, r := rs[..|rs| - 1], rs[|rs| - 1];
      var j: nat := if r.poly == p && k > 0 then k - 1 else k;
      PushedFront(s, front, p, j);
      if k < |Pushed(s, rs, p)| - |s| {
        if r.poly == p && k == 0 {
          assert Pushed(s, rs, p)[k] == Shows(rs[|rs| - 1]);
        } else {
          var i :| 0 <= i < |front| && front[i].poly == p && Pushed(s, front, p)[j] == Shows(front[i]);
          assert rs[i] == front[i];
        }
      }
    }
  }

  /** Links only get added, in front of a polygon's list, and no link is given back. */
  ghost predicate BodyGrows(b: Body, ls: seq<seq<nat>>, b': Body, ls': seq<seq<nat>>) {
    && ls != [] && |ls'| == |ls| && (ls[0] == [] ==> ls'[0] == [])
    && forall m | 1 <= m < |ls| :: EndsWith(Along(b'.links, ls'[m]), Along(b.links, ls[m]))
  }

  lemma PushGrows(b: Body, ls: seq<seq<nat>>, p: nat, ref: nat, edge: nat, side: nat)
    requires LinksOk(b, ls) && |ls| == |b.polys| + 1 && p < |b.polys|
    ensures Fillable(b) && BodyGrows(b, ls, PushLink(b, p, ref, edge, side), PushLists(ls, p))
  {
    hide LinksUpto, Along;
    FreeHead(b, ls, |b.polys|);
    if ls[0] != [] {
      var b', ls' := PushLink(b, p, ref, edge, side), PushLists(ls, p);
      forall m | 1 <= m < |ls| ensures EndsWith(Along(b'.links, ls'[m]), Along(b.links, ls[m])) {
        PushLinkAlong(b, ls, |b.polys|, p, ref, edge, side, m);
      }
    }
  }

  // ---- How many links a tile is built with ----

  function Portals(neis: seq<Nei>): nat {
    if neis == [] then 0 else Portals(neis[..|neis| - 1]) + if neis[|neis| - 1].Portal? then 1 else 0
  }

  function AllEdges(polys: seq<Poly>): nat {
    if polys == [] then 0 else AllEdges(polys[..|polys| - 1]) + |polys[|polys| - 1].neis|
  }

  function AllPortals(polys: seq<Poly>): nat {
    if polys == [] then 0 else AllPortals(polys[..|polys| - 1]) + Portals(polys[|polys| - 1].neis)
  }

  /** Counting edges and portals of the ground polygons, and doubling portals and off-mesh end points. */
  method CountLinks(polys: seq<Poly>, offMeshLinks: nat) returns (maxLinkCount: nat)
    ensures maxLinkCount == AllEdges(polys) + 2 * AllPortals(polys) + 2 * offMeshLinks
  {
    var edgeCount, portalCount := 0, 0;
    for i := 0 to |polys|
      invariant edgeCount == AllEdges(polys[..i]) && portalCount == AllPortals(polys[..i])
    {
      var neis := polys[i].neis;
      for j := 0 to |neis|
        invariant edgeCount == AllEdges(polys[..i]) + j && portalCount == AllPortals(polys[..i]) + Portals(neis[..j])
      {
        edgeCount := edgeCount + 1;
        assert neis[..j + 1][..j] == neis[..j];
        if neis[j].Portal? { portalCount := portalCount + 1; }
      }
      assert neis[..|neis|] == neis && polys[..i + 1][..i] == polys[..i];
    }
    assert polys[..|polys|] == polys;
    maxLinkCount := edgeCount + portalCount * 2 + offMeshLinks * 2;
  }

  /** Inner links of a polygon and its portals are edges of it. */
  lemma {:induction false} InnerAndPortals(p: Poly, base: nat, j: nat)
    requires j <= |p.neis|
    ensures |InnerLinks(p, base, j)| + Portals(p.neis) - Portals(p.neis[..j]) <= |p.neis| - j
    decreases |p.neis| - j
  {
    if j == |p.neis| {
      assert p.neis[..j] == p.neis;
    } else {
      assert p.neis[..j + 1][..j] == p.neis[..j];
      InnerAndPortals(p, base, j + 1);
    }
  }

  /**
   The links the tile is built with cover every inner link, two for each off-mesh end point, three for each portal.
   */
  lemma {:induction false} LinksSuffice(ground: seq<Poly>, off: seq<Poly>, base: nat, i: nat)
    requires i <= |ground| && forall k | 0 <= k < |off| :: off[k].offMesh
    ensures WantedFrom(ground + off, base, i) + AllPortals(ground) - AllPortals(ground[..i])
              <= AllEdges(ground) - AllEdges(ground[..i])
    decreases |ground| - i
  {
    if i == |ground| {
      assert ground[..i] == ground;
      OffMeshWantsNone(ground + off, base, i);
    } else {
      assert ground[..i + 1][..i] == ground[..i] && (ground + off)[i] == ground[i];
      LinksSuffice(ground, off, base, i + 1);
      InnerAndPortals(ground[i], base, 0);
    }
  }

  lemma {:induction false} OffMeshWantsNone(polys: seq<Poly>, base: nat, i: nat)
    requires i <= |polys| && forall k | i <= k < |polys| :: polys[k].offMesh
    ensures WantedFrom(polys, base, i) == 0
    decreases |polys| - i
  {
    if i < |polys| { OffMeshWantsNone(polys, base, i + 1); }
  }

  /** A tile built with that many links has every inner link it wants. */
  lemma BuiltWithEnough(ground: seq<Poly>, off: seq<Poly>, base: nat, offMeshLinks: nat)
    requires forall k | 0 <= k < |off| :: off[k].offMesh
    ensures WantedFrom(ground + off, base, 0) + 3 * AllPortals(ground) + 2 * offMeshLinks
              <= AllEdges(ground) + 2 * AllPortals(ground) + 2 * offMeshLinks
  {
    LinksSuffice(ground, off, base, 0);
  }
}

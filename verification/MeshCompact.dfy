/**
 Dropping unused vertices from a triangle mesh: `clean_vertices` of the movement map generator and the collision
 part of `WmoGroup::write_group`.
 */
module MeshCompact {
  import opened Basics

  /** The three coordinates that index `t` names in a flat vertex list. */
  function Corner<T>(verts: seq<T>, t: int): (c: Option<seq<T>>)
    ensures c.Some? ==> |c.value| == 3
  {
    if 0 <= t && t * 3 + 2 < |verts| then Some(verts[t * 3..t * 3 + 3]) else None
  }

  ghost predicate Ascending(ks: seq<int>) { forall i, j | 0 <= i < j < |ks| :: ks[i] < ks[j] }

  /** The coordinates named by a list of indices; indices that name none add nothing. */
  function Gather<T>(verts: seq<T>, ks: seq<int>): seq<T> {
    if ks == [] then []
    else
      var c := Corner(verts, ks[|ks| - 1]);
      Gather(verts, ks[..|ks| - 1]) + (if c.Some? then c.value else [])
  }

  /** How many of the indices are negative. */
  ghost function Negatives(ks: seq<int>): nat {
    if ks == [] then 0 else Negatives(ks[..|ks| - 1]) + if ks[|ks| - 1] < 0 then 1 else 0
  }

  /** How many name a vertex. */
  ghost function Kept<T>(verts: seq<T>, ks: seq<int>): nat {
    if ks == [] then 0 else Kept(verts, ks[..|ks| - 1]) + if Corner(verts, ks[|ks| - 1]).Some? then 1 else 0
  }

  lemma {:induction false} GatherLength<T>(verts: seq<T>, ks: seq<int>)
    ensures |Gather(verts, ks)| == 3 * Kept(verts, ks)
  {
    if ks != [] { GatherLength(verts, ks[..|ks| - 1]); }
  }

  /** In an ascending list negative indices come first, those that name vertices next, and the others last. */
  lemma {:induction false} Arranged<T>(verts: seq<T>, ks: seq<int>, p: nat)
    requires Ascending(ks) && p < |ks|
    ensures Negatives(ks) + Kept(verts, ks) <= |ks|
    ensures ks[p] < 0 <==> p < Negatives(ks)
    ensures Corner(verts, ks[p]).Some? <==> Negatives(ks) <= p < Negatives(ks) + Kept(verts, ks)
    decreases |ks|
  {
    var front, last := ks[..|ks| - 1], ks[|ks| - 1];
    if front != [] {
      Arranged(verts, front, if p < |front| then p else |front| - 1);
      Arranged(verts, front, |front| - 1);
      assert front[|front| - 1] < last;
    }
  }

  lemma CornerJoin<T>(g: seq<T>, more: seq<T>, q: nat)
    ensures Corner(g, q).Some? ==> Corner(g + more, q) == Corner(g, q)
    ensures |g| == q * 3 && |more| == 3 ==> Corner(g + more, q) == Some(more)
  {
    if Corner(g, q).Some? { assert (g + more)[q * 3..q * 3 + 3] == g[q * 3..q * 3 + 3]; }
    if |g| == q * 3 && |more| == 3 { assert (g + more)[q * 3..q * 3 + 3] == more; }
  }

  /** Past the negative indices, positions count gathered vertices. */
  lemma {:induction false} GatherAt<T>(verts: seq<T>, ks: seq<int>, p: nat)
    requires Ascending(ks) && p < |ks| && Corner(verts, ks[p]).Some?
    ensures Negatives(ks) <= p && Corner(Gather(verts, ks), p - Negatives(ks)) == Corner(verts, ks[p])
    decreases |ks|
  {
    hide Corner;
    var front, last := ks[..|ks| - 1], ks[|ks| - 1];
    Arranged(verts, ks, p);
    GatherLength(verts, ks);
    GatherLength(verts, front);
    var q := p - Negatives(ks);
    if p < |front| {
      Arranged(verts, ks, |ks| - 1);
      GatherAt(verts, front, p);
      CornerJoin(Gather(verts, front), if Corner(verts, last).Some? then Corner(verts, last).value else [], q);
    } else {
      CornerJoin(Gather(verts, front), Corner(verts, last).value, q);
    }
  }

  /** `ks` lists exactly the indices in use, in order. */
  ghost predicate Lists(ks: seq<int>, tris: seq<int>) {
    Ascending(ks) && forall t :: t in ks <==> t in tris
  }

  /** Each index was replaced by its position among the indices in use. */
  ghost predicate Renumbered(ks: seq<int>, tris: seq<int>, tris': seq<int>) {
    |tris'| == |tris| && forall i | 0 <= i < |tris| :: 0 <= tris'[i] < |ks| && ks[tris'[i]] == tris[i]
  }

  /** Every corner names the same coordinates as before, or none if it named none before. */
  ghost predicate SameMesh<T>(verts: seq<T>, tris: seq<int>, verts': seq<T>, tris': seq<int>) {
    |tris'| == |tris| && forall i | 0 <= i < |tris| :: Corner(verts', tris'[i]) == Corner(verts, tris[i])
  }

  /**
   Compaction keeps the mesh exactly when no index is negative, or when no index names a vertex at all: an index
   beyond the vertices is harmless because it sorts last, a negative one shifts every vertex.
   */
  lemma CompactionKeeps<T>(verts: seq<T>, tris: seq<int>, ks: seq<int>, tris': seq<int>)
    requires Lists(ks, tris) && Renumbered(ks, tris, tris')
    ensures SameMesh(verts, tris, Gather(verts, ks), tris') <==>
              (forall i | 0 <= i < |tris| :: tris[i] >= 0)
                  || (forall i | 0 <= i < |tris| :: Corner(verts, tris[i]).None?)
  {
    var g, neg := Gather(verts, ks), Negatives(ks);
    GatherLength(verts, ks);
    if neg == 0 {
      forall i | 0 <= i < |tris| ensures tris[i] >= 0 && Corner(g, tris'[i]) == Corner(verts, tris[i]) {
        Arranged(verts, ks, tris'[i]);
        if Corner(verts, tris[i]).Some? { GatherAt(verts, ks, tris'[i]); }
      }
    } else {
      Arranged(verts, ks, 0);
      var i := IndexOf(ks[0], tris);
      NegativeShifts(verts, tris, ks, tris');
    }
  }

  lemma IndexOf(t: int, tris: seq<int>) returns (i: nat)
    requires t in tris
    ensures i < |tris| && tris[i] == t
  {
    i :| i < |tris| && tris[i] == t;
  }

  lemma NegativeShifts<T>(verts: seq<T>, tris: seq<int>, ks: seq<int>, tris': seq<int>)
    requires Lists(ks, tris) && Renumbered(ks, tris, tris') && Negatives(ks) > 0
    ensures SameMesh(verts, tris, Gather(verts, ks), tris') <==> forall i | 0 <= i < |tris| ::
              Corner(verts, tris[i]).None?
  {
    var g, neg, kept := Gather(verts, ks), Negatives(ks), Kept(verts, ks);
    GatherLength(verts, ks);
    if kept == 0 {
      forall i | 0 <= i < |tris| ensures Corner(g, tris'[i]).None? && Corner(verts, tris[i]).None? {
        Arranged(verts, ks, tris'[i]);
      }
    } else {
      // the last vertex kept moves past the end
      Arranged(verts, ks, 0);
      var p := neg + kept - 1;
      Arranged(verts, ks, p);
      var i := IndexOf(ks[p], tris);
      AscendingOnce(ks, p, tris'[i]);
      assert Corner(g, tris'[i]).None? && Corner(verts, tris[i]).Some?;
    }
  }

  lemma AscendingOnce(ks: seq<int>, i: nat, j: nat)
    requires Ascending(ks) && i < |ks| && j < |ks| && ks[i] == ks[j]
    ensures i == j
  {
  }

  // ---- clean_vertices ----

  /** Entering a key in an ordered map: the keys stay sorted, each once. */
  function Enter(ks: seq<int>, t: int): (r: seq<int>)
    requires Ascending(ks)
    ensures Ascending(r) && (forall x :: x in r <==> x in ks || x == t)
  {
    if ks == [] || ks[|ks| - 1] < t then ks + [t]
    else if ks[|ks| - 1] == t then ks
    else
      var front := Enter(ks[..|ks| - 1], t);
      assert forall i | 0 <= i < |front| :: front[i] < ks[|ks| - 1] by {
        assert forall i | 0 <= i < |front| :: front[i] in front;
      }
      front + [ks[|ks| - 1]]
  }

  /** `clean_vertices`; the ordered map of the source is its sorted keys and a map. */
  method CleanVertices<T>(verts: seq<T>, tris: array<int>) returns (clean: seq<T>, ks: seq<int>)
    modifies tris
    ensures old(tris[..]) == [] ==> clean == verts
    ensures Lists(ks, old(tris[..])) && Renumbered(ks, old(tris[..]), tris[..])
    ensures old(tris[..]) != [] ==> clean == Gather(verts, ks)
    ensures SameMesh(verts, old(tris[..]), clean, tris[..]) <==>
              || (forall i | 0 <= i < |old(tris[..])| :: old(tris[..])[i] >= 0)
              || (forall i | 0 <= i < |old(tris[..])| :: Corner(verts, old(tris[..])[i]).None?)
  {
    hide Corner, SameMesh, Gather;
    ks := [];
    ghost var was := tris[..];
    if tris.Length == 0 {
      SameEmpty(verts);
      return verts, [];
    }
    for i := 0 to tris.Length
      invariant tris[..] == was && Lists(ks, was[..i])
    {
      assert was[..i + 1] == was[..i] + [was[i]];
      ks := Enter(ks, tris[i]);
    }
    assert was[..|was|] == was;
    var vertMap;
    clean, vertMap := Collect(verts, ks);
    for i := 0 to tris.Length
      invariant |tris[..]| == |was| && forall j | i <= j < |was| :: tris[j] == was[j]
      invariant forall j | 0 <= j < i :: 0 <= tris[j] < |ks| && ks[tris[j]] == was[j]
    {
      if tris[i] in vertMap { tris[i] := vertMap[tris[i]]; }
    }
    CompactionKeeps(verts, was, ks, tris[..]);
  }

  lemma SameEmpty<T>(verts: seq<T>)
    ensures SameMesh(verts, [], verts, [])
  {
  }

  method Collect<T>(verts: seq<T>, ks: seq<int>) returns (clean: seq<T>, vertMap: map<int, int>)
    requires Ascending(ks)
    ensures clean == Gather(verts, ks)
    ensures forall t | t in ks :: t in vertMap && 0 <= vertMap[t] < |ks| && ks[vertMap[t]] == t
  {
    clean, vertMap := [], map[];
    for count := 0 to |ks|
      invariant clean == Gather(verts, ks[..count])
      invariant forall t | t in ks[..count] :: t in vertMap && 0 <= vertMap[t] < count && ks[vertMap[t]] == t
    {
      var index := ks[count];
      vertMap := vertMap[index := count];
      if 0 <= index && index * 3 + 2 < |verts| {
        clean := clean + [verts[index * 3]] + [verts[index * 3 + 1]] + [verts[index * 3 + 2]];
      }
      assert ks[..count + 1] == ks[..count] + [index] && ks[..count + 1][..count] == ks[..count];
    }
    assert ks[..|ks|] == ks;
  }

  // ---- write_group ----

  const COLLISION: bv8 := 0x08
  const DETAIL: bv8 := 0x04
  const RENDER: bv8 := 0x20

  /** Bit 3 marks a collision triangle; so does bit 5 (rendered) without bit 2 (detail). */
  ghost predicate Collides(flag: bv8) {
    (flag >> 3) & 1 == 1 || ((flag >> 5) & 1 == 1 && (flag >> 2) & 1 == 0)
  }

  lemma CollidesByMask(flag: bv8)
    ensures Collides(flag) <==> flag & COLLISION != 0 || (flag & RENDER != 0 && flag & DETAIL == 0)
  {
  }

  /** The corners of the collision triangles among the first `n`. */
  ghost function Solid(mopy: seq<bv8>, movi: seq<nat>, n: nat): (r: seq<nat>)
    requires 2 * n <= |mopy| && 3 * n <= |movi|
    ensures |r| <= 3 * n && |r| % 3 == 0
  {
    if n == 0 then []
    else Solid(mopy, movi, n - 1) + if Collides(mopy[2 * (n - 1)]) then movi[3 * (n - 1)..3 * n] else []
  }

  /** The vertices below `n` that are corners, in order. */
  ghost function Marked(corners: seq<nat>, n: nat): (ks: seq<int>)
    ensures Ascending(ks) && |ks| <= n && forall t :: t in ks <==> 0 <= t < n && t in corners
  {
    if n == 0 then []
    else
      var front := Marked(corners, n - 1);
      assert forall i | 0 <= i < |front| :: front[i] in front;
      if n - 1 in corners then front + [n - 1] else front
  }

  /** A marked vertex stands in the list at the number of marked vertices before it. */
  lemma {:induction false} MarkedAt(corners: seq<nat>, n: nat, v: nat)
    requires v < n && v in corners
    ensures |Marked(corners, v)| < |Marked(corners, n)| && Marked(corners, n)[|Marked(corners, v)|] == v
    decreases n
  {
    if v < n - 1 { MarkedAt(corners, n - 1, v); }
  }

  lemma {:induction false} AllKept<T>(verts: seq<T>, ks: seq<int>)
    requires forall i | 0 <= i < |ks| :: Corner(verts, ks[i]).Some?
    ensures Kept(verts, ks) == |ks|
  {
    if ks != [] { AllKept(verts, ks[..|ks| - 1]); }
  }

  /** Corners of collision triangles name vertices; others need not. */
  ghost predicate InRange(mopy: seq<bv8>, movi: seq<nat>, vertices: nat) {
    && 3 * (|mopy| / 2) <= |movi| && (forall i | 0 <= i < |movi| :: movi[i] < 65536)
    && (forall tri, j | 0 <= tri < |mopy| / 2 && Collides(mopy[2 * tri]) && 3 * tri <= j < 3 * tri + 3 ::
        movi[j] < vertices)
  }

  lemma {:induction false} SolidInRange(mopy: seq<bv8>, movi: seq<nat>, vertices: nat, n: nat)
    requires InRange(mopy, movi, vertices) && n <= |mopy| / 2
    ensures forall i | 0 <= i < |Solid(mopy, movi, n)| ::
              Solid(mopy, movi, n)[i] < vertices && Solid(mopy, movi, n)[i] < 65536
  {
    if n > 0 { SolidInRange(mopy, movi, vertices, n - 1); }
  }

  /** Which vertices the corners mark, as the source records it before numbering them. */
  ghost predicate MarksOf(renum: seq<int>, corners: seq<nat>) {
    forall v | 0 <= v < |renum| :: renum[v] == if v in corners then 1 else -1
  }

  method MarkUsed(mopy: seq<bv8>, movi: seq<nat>, moviEx: array<nat>, renum: array<int>) returns (count: nat)
    requires InRange(mopy, movi, renum.Length) && moviEx.Length == 3 * (|mopy| / 2) && MarksOf(renum[..], [])
    modifies moviEx, renum
    ensures 3 * count <= moviEx.Length && moviEx[..3 * count] == Solid(mopy, movi, |mopy| / 2)
    ensures MarksOf(renum[..], Solid(mopy, movi, |mopy| / 2))
  {
    hide Collides;
    count := 0;
    for tri := 0 to |mopy| / 2
      invariant count <= tri && moviEx[..3 * count] == Solid(mopy, movi, tri)
      invariant MarksOf(renum[..], Solid(mopy, movi, tri))
    {
      var flag := mopy[2 * tri];
      CollidesByMask(flag);
      if flag & COLLISION != 0 || (flag & RENDER != 0 && flag & DETAIL == 0) {
        ghost var corners := Solid(mopy, movi, tri);
        MarkTriangle(movi, moviEx, renum, tri, count, corners);
        count := count + 1;
      }
    }
  }

  method MarkTriangle(movi: seq<nat>, moviEx: array<nat>, renum: array<int>, tri: nat, count: nat,
                      ghost corners: seq<nat>)
    requires 3 * tri + 3 <= |movi| && 3 * count + 3 <= moviEx.Length && moviEx[..3 * count] == corners
    requires MarksOf(renum[..], corners)
    requires forall j | 3 * tri <= j < 3 * tri + 3 :: movi[j] < renum.Length
    modifies moviEx, renum
    ensures moviEx[..3 * count + 3] == corners + movi[3 * tri..3 * tri + 3]
    ensures MarksOf(renum[..], corners + movi[3 * tri..3 * tri + 3])
  {
    hide MarksOf;
    assert corners + movi[3 * tri..3 * tri] == corners;
    for j := 0 to 3
      invariant moviEx[..3 * count + j] == corners + movi[3 * tri..3 * tri + j]
      invariant MarksOf(renum[..], corners + movi[3 * tri..3 * tri + j])
    {
      var v := movi[3 * tri + j];
      MarkOne(renum[..], corners + movi[3 * tri..3 * tri + j], v);
      renum[v] := 1;
      moviEx[3 * count + j] := v;
      assert corners + movi[3 * tri..3 * tri + j + 1] == (corners + movi[3 * tri..3 * tri + j]) + [v];
      assert moviEx[..3 * count + j + 1] == moviEx[..3 * count + j] + [v];
    }
  }

  lemma MarkOne(renum: seq<int>, corners: seq<nat>, v: nat)
    requires MarksOf(renum, corners) && v < |renum|
    ensures MarksOf(renum[v := 1], corners + [v])
  {
  }

  /** Numbers the marked vertices in order, in place. */
  method NumberUsed(renum: array<int>, ghost corners: seq<nat>) returns (count: nat)
    requires MarksOf(renum[..], corners)
    modifies renum
    ensures forall v | 0 <= v < renum.Length :: renum[v] == if v in corners then |Marked(corners, v)| else -1
    ensures count == |Marked(corners, renum.Length)|
  {
    count := 0;
    for i := 0 to renum.Length
      invariant count == |Marked(corners, i)|
      invariant forall v | 0 <= v < i :: renum[v] == if v in corners then |Marked(corners, v)| else -1
      invariant forall v | i <= v < renum.Length :: renum[v] == if v in corners then 1 else -1
    {
      if renum[i] == 1 {
        renum[i] := count;
        count := count + 1;
      }
    }
  }

  /** Replaces each corner by its vertex's number, cut to 16 bits. */
  method Renumber(moviEx: array<nat>, n: nat, renum: array<int>, ghost corners: seq<nat>)
    requires n <= moviEx.Length && moviEx[..n] == corners
    requires forall i | 0 <= i < n :: corners[i] < renum.Length && corners[i] < 65536
    requires forall v | 0 <= v < renum.Length :: renum[v] == if v in corners then |Marked(corners, v)| else -1
    modifies moviEx
    ensures |moviEx[..n]| == |corners| && forall j | 0 <= j < n ::
              moviEx[j] == |Marked(corners, corners[j])| <= corners[j]
  {
    hide Marked;
    forall j | 0 <= j < n ensures moviEx[j] == corners[j] {
      assert moviEx[..n][j] == corners[j];
    }
    for i := 0 to n
      invariant forall j | i <= j < n :: moviEx[j] == corners[j]
      invariant forall j | 0 <= j < i :: moviEx[j] == |Marked(corners, corners[j])| <= corners[j]
    {
      assert corners[i] in corners && |Marked(corners, corners[i])| <= corners[i] < 65536;
      moviEx[i] := renum[moviEx[i]] % 65536;
    }
  }

  /**
   The collision part of `write_group`: the index block and the vertex block written.  Indices are 16-bit; the
   new ones fit because they never exceed the old.
   */
  method WriteGroup<T>(mopy: seq<bv8>, movi: seq<nat>, movt: seq<T>) returns (indx: seq<nat>, vert: seq<T>)
    requires InRange(mopy, movi, |movt| / 3)
    ensures var corners := Solid(mopy, movi, |mopy| / 2);
            var used := Marked(corners, |movt| / 3);
            && Renumbered(used, corners, indx) && vert == Gather(movt, used) && |vert| == 3 * |used|
            && SameMesh(movt, corners, vert, indx)
            && (forall i | 0 <= i < |indx| :: Corner(vert, indx[i]).Some? && indx[i] <= corners[i])
  {
    hide SameMesh, Gather, Corner, Solid, Marked;
    var vertices := |movt| / 3;
    var moviEx := new nat[3 * (|mopy| / 2)](_ => 0);
    var renum := new int[vertices](_ => -1);
    var triangles := MarkUsed(mopy, movi, moviEx, renum);
    ghost var corners := Solid(mopy, movi, |mopy| / 2);
    SolidInRange(mopy, movi, vertices, |mopy| / 2);
    var count := NumberUsed(renum, corners);
    Renumber(moviEx, 3 * triangles, renum, corners);
    indx := moviEx[..3 * triangles];
    vert := EmitVertices(movt, renum, corners);
    forall i | 0 <= i < |corners|
      ensures corners[i] in corners && 0 <= indx[i] < |Marked(corners, vertices)|
      ensures Marked(corners, vertices)[indx[i]] == corners[i]
    {
      MarkedAt(corners, vertices, corners[i]);
    }
    GroupKeeps(movt, corners, indx);
  }

  method EmitVertices<T>(movt: seq<T>, renum: array<int>, ghost corners: seq<nat>) returns (vert: seq<T>)
    requires renum.Length == |movt| / 3 && forall v | 0 <= v < renum.Length :: renum[v] >= 0 <==> v in corners
    ensures vert == Gather(movt, Marked(corners, |movt| / 3))
  {
    hide Gather, Marked;
    vert := [];
    EmitsNone(movt, corners);
    for i := 0 to renum.Length
      invariant vert == Gather(movt, Marked(corners, i))
    {
      EmitsNext(movt, corners, i);
      if renum[i] >= 0 {
        var base := i * 3;
        vert := vert + [movt[base]] + [movt[base + 1]] + [movt[base + 2]];
      }
    }
  }

  lemma EmitsNone<T>(movt: seq<T>, corners: seq<nat>)
    ensures Gather(movt, Marked(corners, 0)) == []
  {
  }

  lemma GatherAppend<T>(verts: seq<T>, ks: seq<int>, k: int)
    ensures Gather(verts, ks + [k]) == Gather(verts, ks) + if Corner(verts, k).Some? then Corner(verts, k).value else []
  {
    assert (ks + [k])[..|ks|] == ks;
  }

  lemma EmitsNext<T>(movt: seq<T>, corners: seq<nat>, i: nat)
    requires i < |movt| / 3
    ensures Gather(movt, Marked(corners, i + 1)) == Gather(movt, Marked(corners, i))
              + if i in corners then [movt[i * 3]] + [movt[i * 3 + 1]] + [movt[i * 3 + 2]] else []
  {
    hide Gather;
    if i in corners {
      GatherAppend(movt, Marked(corners, i), i);
      assert movt[i * 3..i * 3 + 3] == [movt[i * 3]] + [movt[i * 3 + 1]] + [movt[i * 3 + 2]];
    }
  }

  lemma GroupKeeps<T>(movt: seq<T>, corners: seq<nat>, indx: seq<nat>)
    requires forall i | 0 <= i < |corners| :: corners[i] < |movt| / 3
    requires Renumbered(Marked(corners, |movt| / 3), corners, indx)
    ensures var used := Marked(corners, |movt| / 3);
            && |Gather(movt, used)| == 3 * |used| && SameMesh(movt, corners, Gather(movt, used), indx)
            && forall i | 0 <= i < |indx| :: Corner(Gather(movt, used), indx[i]).Some?
  {
    hide Marked, Gather, Kept;
    var used := Marked(corners, |movt| / 3);
    forall i | 0 <= i < |used| ensures Corner(movt, used[i]).Some? {
      assert used[i] in used;
    }
    AllKept(movt, used);
    GatherLength(movt, used);
    var tris: seq<int> := corners;
    forall t: int ensures t in used <==> t in tris {
      if t in tris { var i := IndexOf(t, tris); }
    }
    CompactionKeeps(movt, tris, used, indx);
    forall i | 0 <= i < |corners|
      ensures corners[i] >= 0 && Corner(Gather(movt, used), indx[i]) == Corner(movt, corners[i])
    {
    }
  }
}

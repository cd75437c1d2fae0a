/** What one addition or removal does to a mesh, and what a run of them does to references. */
module NavRun {
  import opened Basics
  import opened NavTile
  import opened NavState
  import opened NavLinks
  import opened NavAsked

  /** What a caller may do to a mesh, without restoring references. */
  datatype Operation = Add(data: Body, magicOk: bool, versionOk: bool) | Remove(ref: nat)

  /** A full position is not added to, and a reference that names no tile in use removes nothing. */
  datatype Outcome = PassedOver | Answered(r: AddResult) | Unknown | Emptied(slot: nat)

  /** The answer `addTile` gives without `lastRef`, every failure in its own case. */
  ghost predicate AnswerOk(c: Layout, ts: seq<Tile>, op: Operation, r: AddResult)
    requires op.Add? && c.Ok()
  {
    && (r == WrongMagic <==> !op.magicOk)
    && (r == WrongVersion <==> op.magicOk && !op.versionOk)
    && (r == InvalidParam <==> op.magicOk && op.versionOk && |op.data.polys| > c.polys)
    && (r == AlreadyOccupied <==>
          op.magicOk && op.versionOk && |op.data.polys| <= c.polys && !PlaceFree(ts, op.data))
    && (r == OutOfMemory <==>
          && op.magicOk && op.versionOk && |op.data.polys| <= c.polys && PlaceFree(ts, op.data)
          && !SlotAvailable(c, ts, 0))
  }

  /** A refused tile changes nothing; an accepted one is in a formerly free slot, connected as it should be. */
  ghost predicate AddStep(g: Geometry, c: Config, m: Mesh, m': Mesh, op: Operation, r: AddResult)
    requires op.Add? && c.layout.Ok()
  {
    && AnswerOk(c.layout, m.ts, op, r)
    && (!r.Added? ==> m' == m)
    && (r.Added? ==>
          && AddedOk(c.layout, m.ts, m'.ts, op.data, 0, r.ref)
          && Connected(g, c, m, m', DecodeTile(c.layout, r.ref), op.data))
  }

  /** Slot `x` is free under its next salt, and every other tile lost exactly its links into it. */
  ghost predicate RemoveStep(c: Layout, m: Mesh, m': Mesh, x: nat)
    requires c.Ok()
  {
    && x < |m.ts| == |m'.ts| == |m.lists| == |m'.lists|
    && m'.ts[x].body.None? && m'.ts[x].salt == NextSalt(c, m.ts[x].salt)
    && (forall i: nat | i < |m.ts| && i != x :: TileStripped(c, m, m', x, i))
    && (forall ref: nat | DecodeTile(c, ref) == x :: !ValidRef(c, m'.ts, ref))
  }

  ghost predicate InUse(c: Layout, ts: seq<Tile>, ref: nat) {
    && c.Ok() && ref != 0 && DecodeTile(c, ref) < |ts| && ts[DecodeTile(c, ref)].salt == DecodeSalt(c, ref)
    && ts[DecodeTile(c, ref)].body.Some?
  }

  /** One operation, with its outcome. */
  ghost predicate Stepped(g: Geometry, c: Config, m: Mesh, m': Mesh, op: Operation, o: Outcome)
  {
    c.layout.Ok() &&
    match op
    case Add(data, _, _) =>
      1 + c.hash(data.x, data.y) < |m.slots| &&
      if |TilesAt(c, m, data.x, data.y)| >= MAX_NEIS then o == PassedOver && m' == m
      else o.Answered? && AddStep(g, c, m, m', op, o.r)
    case Remove(ref) =>
      if InUse(c.layout, m.ts, ref)
      then o == Emptied(DecodeTile(c.layout, ref)) && RemoveStep(c.layout, m, m', DecodeTile(c.layout, ref))
      else o == Unknown && m' == m
  }

  // ---- Runs ----

  /** A mesh a run may be in. */
  ghost predicate Between(c: Config, m: Mesh) { MeshOk(c, m) && Uncrowded(c, m) && c.layout.Ok() }

  /** `ms` are the meshes a run of `ops` goes through, the first one before it, with its outcomes. */
  ghost predicate IsRun(g: Geometry, c: Config, ops: seq<Operation>, os: seq<Outcome>, ms: seq<Mesh>) {
    && |os| == |ops| && |ms| == |ops| + 1
    && (forall i | 0 <= i < |ms| :: Between(c, ms[i]))
    && (forall i | 0 <= i < |ops| :: Stepped(g, c, ms[i], ms[i + 1], ops[i], os[i]))
  }

  lemma RunNext(g: Geometry, c: Config, ops: seq<Operation>, os: seq<Outcome>, ms: seq<Mesh>, op: Operation, o: Outcome,
                m: Mesh)
    requires IsRun(g, c, ops, os, ms) && Between(c, m)
    requires Stepped(g, c, ms[|ops|], m, op, o)
    ensures IsRun(g, c, ops + [op], os + [o], ms + [m])
  {
    hide Between, Stepped;
    var ms', ops', os' := ms + [m], ops + [op], os + [o];
    forall i | 0 <= i < |ms'| ensures Between(c, ms'[i]) { assert i < |ms| ==> ms'[i] == ms[i]; }
    forall i | 0 <= i < |ops'| ensures Stepped(g, c, ms'[i], ms'[i + 1], ops'[i], os'[i]) {
      if i < |ops| { assert ms'[i] == ms[i] && ms'[i + 1] == ms[i + 1]; }
    }
  }

  lemma CountsNext(c: Layout, born: seq<nat>, os: seq<Outcome>, ms: seq<Mesh>, rs: seq<seq<nat>>, o: Outcome, m: Mesh,
                   removals: seq<nat>)
    requires c.Ok() && Counts(c, born, os, ms, rs) && Tracked(c, m.ts, born, removals)
    requires CountStep(rs[|os|], removals, o)
    ensures Counts(c, born, os + [o], ms + [m], rs + [removals])
  {
    hide Tracked, CountStep;
  }

  /** How often slot `x` was emptied. */
  ghost function TimesEmptied(os: seq<Outcome>, x: nat): nat {
    if os == [] then 0 else TimesEmptied(os[..|os| - 1], x) + if os[|os| - 1] == Emptied(x) then 1 else 0
  }

  lemma TimesNext(os: seq<Outcome>, o: Outcome, x: nat)
    ensures TimesEmptied(os + [o], x) == TimesEmptied(os, x) + if o == Emptied(x) then 1 else 0
  {
    assert (os + [o])[..|os|] == os;
  }

  /** Counters of removals move on by what happened. */
  ghost predicate CountStep(removals: seq<nat>, removals': seq<nat>, o: Outcome) {
    if o.Emptied? then o.slot < |removals| && removals' == removals[o.slot := removals[o.slot] + 1]
    else removals' == removals
  }

  ghost predicate Counted(removals: seq<nat>, removals': seq<nat>, os: seq<Outcome>) {
    |removals'| == |removals| && forall x: nat | x < |removals| :: removals'[x] == removals[x] + TimesEmptied(os, x)
  }

  /** Counters along a run: they follow the salts and the outcomes. */
  ghost predicate Counts(c: Layout, born: seq<nat>, os: seq<Outcome>, ms: seq<Mesh>, rs: seq<seq<nat>>)
    requires c.Ok()
  {
    && |ms| == |rs| == |os| + 1
    && (forall i | 0 <= i < |ms| :: Tracked(c, ms[i].ts, born, rs[i]))
    && (forall i | 0 <= i < |os| :: CountStep(rs[i], rs[i + 1], os[i]))
  }

  lemma {:induction false} CountedBetween(c: Layout, born: seq<nat>, os: seq<Outcome>, ms: seq<Mesh>, rs: seq<seq<nat>>,
                                          i: nat, j: nat)
    requires c.Ok() && Counts(c, born, os, ms, rs) && i <= j <= |os|
    ensures Counted(rs[i], rs[j], os[i..j])
    decreases j - i
  {
    hide Tracked;
    if i < j {
      CountedBetween(c, born, os, ms, rs, i, j - 1);
      assert os[i..j] == os[i..j - 1] + [os[j - 1]];
      assert CountStep(rs[j - 1], rs[j - 1 + 1], os[j - 1]);
      forall x: nat | x < |rs[i]| ensures rs[j][x] == rs[i][x] + TimesEmptied(os[i..j], x) {
        TimesNext(os[i..j - 1], os[j - 1], x);
      }
    }
  }

  /**
   A reference valid at one point of a run is valid at a later one exactly if its slot is in use with the polygon in
   range, and in between the slot was emptied a multiple of 2^saltBits - 1 times.
   */
  ghost predicate RefsFollow(c: Layout, os: seq<Outcome>, ms: seq<Mesh>)
    requires c.Ok() && |ms| == |os| + 1
  {
    forall i: nat, j: nat, ref: nat | i <= j <= |os| && ValidRef(c, ms[i].ts, ref) ::
      ValidRef(c, ms[j].ts, ref) <==> Returned(c, ms[j].ts, TimesEmptied(os[i..j], DecodeTile(c, ref)), ref)
  }

  lemma RunFollows(c: Layout, born: seq<nat>, os: seq<Outcome>, ms: seq<Mesh>, rs: seq<seq<nat>>)
    requires c.Ok() && Counts(c, born, os, ms, rs)
    ensures RefsFollow(c, os, ms)
  {
    hide Counts, ValidRef, Returned;
    CountsSizes(c, born, os, ms, rs);
    forall i: nat, j: nat, ref: nat | i <= j <= |os| && ValidRef(c, ms[i].ts, ref)
      ensures ValidRef(c, ms[j].ts, ref) <==> Returned(c, ms[j].ts, TimesEmptied(os[i..j], DecodeTile(c, ref)), ref)
    {
      RefFollows(c, born, os, ms, rs, i, j, ref);
    }
  }

  lemma CountsSizes(c: Layout, born: seq<nat>, os: seq<Outcome>, ms: seq<Mesh>, rs: seq<seq<nat>>)
    requires c.Ok() && Counts(c, born, os, ms, rs)
    ensures |ms| == |rs| == |os| + 1
  {
  }

  lemma RefFollows(c: Layout, born: seq<nat>, os: seq<Outcome>, ms: seq<Mesh>, rs: seq<seq<nat>>, i: nat, j: nat,
                   ref: nat)
    requires c.Ok() && Counts(c, born, os, ms, rs) && i <= j <= |os| && ValidRef(c, ms[i].ts, ref)
    ensures ValidRef(c, ms[j].ts, ref) <==> Returned(c, ms[j].ts, TimesEmptied(os[i..j], DecodeTile(c, ref)), ref)
  {
    hide DecodeTile, DecodePoly, DecodeSalt, SaltAfter, Returned;
    CountedBetween(c, born, os, ms, rs, i, j);
    assert Tracked(c, ms[i].ts, born, rs[i]) && Tracked(c, ms[j].ts, born, rs[j]);
    RefReturns(c, ms[i].ts, ms[j].ts, born, rs[i], rs[j], ref);
  }

  /** A removal by a valid reference is carried out, and the reference is stale from then on. */
  lemma RemovedIsStale(g: Geometry, c: Config, m: Mesh, m': Mesh, ref: nat, o: Outcome)
    requires Stepped(g, c, m, m', Remove(ref), o) && ValidRef(c.layout, m.ts, ref)
    ensures o == Emptied(DecodeTile(c.layout, ref)) && !ValidRef(c.layout, m'.ts, ref)
  {
    hide DecodeTile, DecodePoly, DecodeSalt, TileStripped;
  }
}

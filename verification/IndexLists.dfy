/**
 Singly linked lists threaded through an index array, several of them sharing the same cells.  The tile
 manager uses the pattern twice: tile slots (free list and hash chains) and links (free list and one list
 per polygon).  Every mutation it makes is one `Move`.
 */
module IndexLists {

  const NULL := -1

  function At(s: seq<nat>, i: nat): int { if i < |s| then s[i] else NULL }

  /** Starting at `head` and following `next` visits exactly `s`. */
  ghost predicate Linked(next: seq<int>, head: int, s: seq<nat>) {
    head == At(s, 0) && forall i: nat | i < |s| :: s[i] < |next| && next[s[i]] == At(s, i + 1)
  }

  /** How often cell `x` occurs on the lists. */
  ghost function Count(lists: seq<seq<nat>>, x: nat): nat {
    if lists == [] then 0 else multiset(lists[0])[x] + Count(lists[1..], x)
  }

  /** The lists are threaded through `next` and every cell is on exactly one of them, once. */
  ghost predicate Threaded(next: seq<int>, heads: seq<int>, lists: seq<seq<nat>>) {
    && |heads| == |lists|
    && (forall k | 0 <= k < |lists| :: Linked(next, heads[k], lists[k]))
    && (forall x: nat :: Count(lists, x) == if x < |next| then 1 else 0)
  }

  // ---- Counting ----

  lemma {:induction false} CountUpdate(lists: seq<seq<nat>>, k: nat, l: seq<nat>, x: nat)
    requires k < |lists|
    ensures Count(lists[k := l], x) == Count(lists, x) - multiset(lists[k])[x] + multiset(l)[x]
    ensures multiset(lists[k])[x] <= Count(lists, x)
  {
    if k == 0 {
      assert lists[k := l][1..] == lists[1..];
    } else {
      assert lists[k := l][1..] == lists[1..][k - 1 := l];
      CountUpdate(lists[1..], k - 1, l, x);
    }
  }

  lemma InSeq(s: seq<nat>, i: nat)
    requires i < |s|
    ensures multiset(s)[s[i]] >= 1
  {
    assert s[i] in multiset(s);
  }

  lemma Twice(s: seq<nat>, i: nat, j: nat)
    requires i < j < |s| && s[i] == s[j]
    ensures multiset(s)[s[i]] >= 2
  {
    assert s == s[..j] + [s[j]] + s[j + 1..];
    assert s[..j][i] == s[i];
    InSeq(s[..j], i);
  }

  /** No cell is on two lists or twice on one. */
  lemma Exclusive(next: seq<int>, heads: seq<int>, lists: seq<seq<nat>>, a: nat, i: nat, b: nat, j: nat)
    requires Threaded(next, heads, lists) && a < |lists| && b < |lists| && i < |lists[a]| && j < |lists[b]|
    requires lists[a][i] == lists[b][j]
    ensures a == b && i == j
  {
    var x := lists[a][i];
    InSeq(lists[a], i);
    InSeq(lists[b], j);
    CountUpdate(lists, a, [], x);
    if a != b {
      CountUpdate(lists[a := []], b, [], x);
    } else if i < j {
      Twice(lists[a], i, j);
    } else if j < i {
      Twice(lists[a], j, i);
    }
  }

  lemma {:induction false} OnSomeList(lists: seq<seq<nat>>, x: nat) returns (k: nat, i: nat)
    requires Count(lists, x) > 0
    ensures k < |lists| && i < |lists[k]| && lists[k][i] == x
  {
    if multiset(lists[0])[x] > 0 {
      assert x in multiset(lists[0]) && x in lists[0];
      i :| 0 <= i < |lists[0]| && lists[0][i] == x;
      k := 0;
    } else {
      k, i := OnSomeList(lists[1..], x);
      k := k + 1;
    }
  }

  // ---- Moving a cell to the front of another list ----

  ghost function Without(s: seq<nat>, p: nat): seq<nat>
    requires p < |s|
  {
    s[..p] + s[p + 1..]
  }

  ghost function MoveLists(lists: seq<seq<nat>>, a: nat, p: nat, b: nat): seq<seq<nat>>
    requires a < |lists| && b < |lists| && p < |lists[a]|
  {
    lists[a := Without(lists[a], p)][b := [lists[a][p]] + lists[b]]
  }

  /** `next` after unlinking `x` (predecessor `prev`, `NULL` if it was first) and linking it before `front`. */
  function MoveNext(next: seq<int>, prev: int, x: nat, front: int): (r: seq<int>)
    requires x < |next| && prev < |next|
    ensures |r| == |next|
  {
    if prev < 0 then next[x := front] else next[prev := next[x]][x := front]
  }

  function MoveHeads(next: seq<int>, heads: seq<int>, a: nat, prev: int, x: nat, b: nat): seq<int>
    requires x < |next| && a < |heads| && b < |heads|
  {
    if prev < 0 then heads[a := next[x]][b := x] else heads[b := x]
  }

  lemma MoveCounts(lists: seq<seq<nat>>, a: nat, p: nat, b: nat, y: nat)
    requires a < |lists| && b < |lists| && a != b && p < |lists[a]|
    ensures Count(MoveLists(lists, a, p, b), y) == Count(lists, y)
  {
    hide Count;
    var la, x := lists[a], lists[a][p];
    CountUpdate(lists, a, Without(la, p), y);
    CountUpdate(lists[a := Without(la, p)], b, [x] + lists[b], y);
    assert la == la[..p] + [x] + la[p + 1..];
    assert multiset(la)[y] == multiset(Without(la, p))[y] + multiset([x])[y];
  }

  lemma ThreadedAt(next: seq<int>, heads: seq<int>, lists: seq<seq<nat>>, k: nat)
    requires Threaded(next, heads, lists) && k < |lists|
    ensures |heads| == |lists| && Linked(next, heads[k], lists[k])
  {
  }

  /** Every list other than the two involved is untouched. */
  lemma MoveOthers(next: seq<int>, heads: seq<int>, lists: seq<seq<nat>>, a: nat, p: nat, b: nat, k: nat)
    requires Threaded(next, heads, lists) && a < |lists| && b < |lists| && a != b && p < |lists[a]|
    requires k < |lists| && k != a && k != b
    ensures Linked(MoveNext(next, if p == 0 then NULL else lists[a][p - 1], lists[a][p], heads[b]), heads[k], lists[k])
  {
    hide Threaded, MoveNext;
    ThreadedAt(next, heads, lists, k);
    var prev := if p == 0 then NULL else lists[a][p - 1];
    MoveKeeps(next, heads, lists, a, p, a, p, heads[b]);
    forall i: nat | i < |lists[k]|
      ensures MoveNext(next, prev, lists[a][p], heads[b])[lists[k][i]] == At(lists[k], i + 1)
    {
      MoveKeeps(next, heads, lists, a, p, k, i, heads[b]);
    }
  }

  lemma WithoutAt(s: seq<nat>, p: nat, i: nat)
    requires p < |s| && i < |s|
    ensures |Without(s, p)| == |s| - 1 && At(Without(s, p), i) == At(s, if i < p then i else i + 1)
  {
  }

  /** A cell of the list other than `p` and the one before it keeps its successor. */
  lemma MoveKeeps(next: seq<int>, heads: seq<int>, lists: seq<seq<nat>>, a: nat, p: nat, k: nat, j: nat, front: int)
    requires Threaded(next, heads, lists) && a < |lists| && p < |lists[a]| && k < |lists| && j < |lists[k]|
    ensures var prev := if p == 0 then NULL else lists[a][p - 1];
            && lists[a][p] < |next| && prev < |next| && lists[k][j] < |next|
            && (k != a || (j != p && j + 1 != p) ==>
                MoveNext(next, prev, lists[a][p], front)[lists[k][j]] == At(lists[k], j + 1))
            && (k == a && j + 1 == p ==> MoveNext(next, prev, lists[a][p], front)[lists[k][j]] == At(lists[a], p + 1))
            && (k == a && j == p ==> MoveNext(next, prev, lists[a][p], front)[lists[k][j]] == front)
  {
    hide Threaded;
    ThreadedAt(next, heads, lists, a);
    ThreadedAt(next, heads, lists, k);
    if lists[k][j] == lists[a][p] { Exclusive(next, heads, lists, k, j, a, p); }
    if p > 0 && lists[k][j] == lists[a][p - 1] { Exclusive(next, heads, lists, k, j, a, p - 1); }
  }

  lemma MoveSource(next: seq<int>, heads: seq<int>, lists: seq<seq<nat>>, a: nat, p: nat, front: int)
    requires Threaded(next, heads, lists) && a < |lists| && p < |lists[a]|
    ensures var prev := if p == 0 then NULL else lists[a][p - 1];
            lists[a][p] < |next| && prev < |next| &&
            var head := if p == 0 then next[lists[a][p]] else heads[a];
            Linked(MoveNext(next, prev, lists[a][p], front), head, Without(lists[a], p))
  {
    hide Threaded, MoveNext, Without;
    ThreadedAt(next, heads, lists, a);
    MoveKeeps(next, heads, lists, a, p, a, p, front);
    WithoutAt(lists[a], p, 0);
    forall i: nat | i < |Without(lists[a], p)|
      ensures
        var prev, s := if p == 0 then NULL else lists[a][p - 1], Without(lists[a], p);
        s[i] < |next| && MoveNext(next, prev, lists[a][p], front)[s[i]] == At(s, i + 1)
    {
      MoveSourceAt(next, heads, lists, a, p, front, i);
    }
  }

  lemma MoveSourceAt(next: seq<int>, heads: seq<int>, lists: seq<seq<nat>>, a: nat, p: nat, front: int, i: nat)
    requires Threaded(next, heads, lists) && a < |lists| && p < |lists[a]| && i + 1 < |lists[a]|
    ensures var prev, s := if p == 0 then NULL else lists[a][p - 1], Without(lists[a], p);
            && lists[a][p] < |next| && prev < |next| && i < |s| && s[i] < |next|
            && MoveNext(next, prev, lists[a][p], front)[s[i]] == At(s, i + 1)
  {
    hide Threaded, MoveNext, Without;
    WithoutAt(lists[a], p, i);
    WithoutAt(lists[a], p, i + 1);
    MoveKeeps(next, heads, lists, a, p, a, if i < p then i else i + 1, front);
  }

  lemma MoveTarget(next: seq<int>, heads: seq<int>, lists: seq<seq<nat>>, a: nat, p: nat, b: nat)
    requires Threaded(next, heads, lists) && a < |lists| && b < |lists| && a != b && p < |lists[a]|
    ensures var prev := if p == 0 then NULL else lists[a][p - 1];
            lists[a][p] < |next| && prev < |next| &&
            Linked(MoveNext(next, prev, lists[a][p], heads[b]), lists[a][p], [lists[a][p]] + lists[b])
  {
    hide Threaded, MoveNext;
    ThreadedAt(next, heads, lists, b);
    MoveKeeps(next, heads, lists, a, p, a, p, heads[b]);
    var x := lists[a][p];
    var prev := if p == 0 then NULL else lists[a][p - 1];
    var next' := MoveNext(next, prev, x, heads[b]);
    var s := [x] + lists[b];
    forall i: nat | i < |s| ensures s[i] < |next'| && next'[s[i]] == At(s, i + 1) {
      if i > 0 { MoveKeeps(next, heads, lists, a, p, b, i - 1, heads[b]); }
    }
  }

  /** Unlinking a cell from anywhere in one list and pushing it onto another keeps the threading. */
  lemma MoveThreads(next: seq<int>, heads: seq<int>, lists: seq<seq<nat>>, a: nat, p: nat, b: nat)
    requires Threaded(next, heads, lists) && a < |lists| && b < |lists| && a != b && p < |lists[a]|
    ensures var prev := if p == 0 then NULL else lists[a][p - 1];
            && lists[a][p] < |next| && prev < |next|
            && Threaded(MoveNext(next, prev, lists[a][p], heads[b]), MoveHeads(next, heads, a, prev, lists[a][p], b),
                        MoveLists(lists, a, p, b))
  {
    hide Linked, Count;
    var x := lists[a][p];
    var prev := if p == 0 then NULL else lists[a][p - 1];
    MoveSource(next, heads, lists, a, p, heads[b]);
    MoveTarget(next, heads, lists, a, p, b);
    var next', heads', lists' :=
      MoveNext(next, prev, x, heads[b]), MoveHeads(next, heads, a, prev, x, b), MoveLists(lists, a, p, b);
    forall k | 0 <= k < |lists'| ensures Linked(next', heads'[k], lists'[k]) {
      if k != a && k != b { MoveOthers(next, heads, lists, a, p, b, k); }
    }
    forall y: nat ensures Count(lists', y) == if y < |next'| then 1 else 0 {
      MoveCounts(lists, a, p, b, y);
    }
  }
}

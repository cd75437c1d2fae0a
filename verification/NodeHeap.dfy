/**
 The open list's binary heap (`dtNodeQueue`) as functions on its contents.  Heap entries are node
 indices; `key[n]` is the total cost of node `n`.  Both sift operations move a hole instead of swapping.
 */
module NodeHeap {

  ghost predicate InBounds(key: seq<int>, h: seq<nat>) {
    forall i | 0 <= i < |h| :: h[i] < |key|
  }

  function Parent(j: int): int { (j - 1) / 2 }

  /** The edge above position `j` is in order. */
  ghost predicate Edge(key: seq<int>, h: seq<nat>, j: int)
    requires InBounds(key, h) && 0 < j < |h|
  {
    key[h[Parent(j)]] <= key[h[j]]
  }

  ghost predicate Ordered(key: seq<int>, h: seq<nat>) {
    InBounds(key, h) && forall j | 0 < j < |h| :: Edge(key, h, j)
  }

  /** The heap with a hole at `i`: ordered everywhere except across the hole. */
  ghost predicate OrderedBut(key: seq<int>, h: seq<nat>, i: nat) {
    && InBounds(key, h) && i < |h|
    && (forall j | 0 < j < |h| && j != i && Parent(j) != i :: Edge(key, h, j))
    && (i > 0 ==> forall j | 0 < j < |h| && Parent(j) == i :: key[h[Parent(i)]] <= key[h[j]])
  }

  /** Filling the hole at `i` with `x` leaves at most the edge above `i` out of order. */
  ghost predicate OrderedAround(key: seq<int>, h: seq<nat>, i: nat, x: nat) {
    && OrderedBut(key, h, i) && x < |key|
    && forall j | 0 < j < |h| && Parent(j) == i :: key[x] <= key[h[j]]
  }

  /** `bubbleUp`: move parents down into the hole until `x` fits. */
  function Rise(key: seq<int>, h: seq<nat>, i: nat, x: nat): (r: seq<nat>)
    requires InBounds(key, h) && i < |h| && x < |key|
    ensures |r| == |h| && InBounds(key, r)
    decreases i
  {
    if i > 0 && key[h[Parent(i)]] > key[x] then Rise(key, h[i := h[Parent(i)]], Parent(i), x)
    else h[i := x]
  }

  function SmallerChild(key: seq<int>, h: seq<nat>, i: nat): (c: nat)
    requires InBounds(key, h) && 2 * i + 1 < |h|
    ensures c < |h| && Parent(c) == i && c > 0
    ensures forall j | 0 < j < |h| && Parent(j) == i :: key[h[c]] <= key[h[j]]
  {
    if 2 * i + 2 < |h| && key[h[2 * i + 1]] > key[h[2 * i + 2]] then 2 * i + 2 else 2 * i + 1
  }

  /** First half of `trickleDown`: move the hole down to a leaf along smaller children. */
  function Sink(key: seq<int>, h: seq<nat>, i: nat): (r: (seq<nat>, nat))
    requires InBounds(key, h) && i < |h|
    ensures |r.0| == |h| && InBounds(key, r.0) && r.1 < |h| <= 2 * r.1 + 1
    decreases |h| - i
  {
    if 2 * i + 1 < |h| then
      var c := SmallerChild(key, h, i);
      Sink(key, h[i := h[c]], c)
    else (h, i)
  }

  lemma SinkStep(key: seq<int>, h: seq<nat>, i: nat)
    requires InBounds(key, h) && i < |h|
    ensures 2 * i + 1 < |h| ==>
              var c := SmallerChild(key, h, i);
              InBounds(key, h[i := h[c]]) && Sink(key, h, i) == Sink(key, h[i := h[c]], c)
    ensures 2 * i + 1 >= |h| ==> Sink(key, h, i) == (h, i)
  {
  }

  function Push(key: seq<int>, h: seq<nat>, x: nat): (r: seq<nat>)
    requires InBounds(key, h) && x < |key|
  {
    Rise(key, h + [x], |h|, x)
  }

  function Pop(key: seq<int>, h: seq<nat>): (r: seq<nat>)
    requires InBounds(key, h) && h != []
  {
    if |h| == 1 then []
    else
      var (g, i) := Sink(key, h[..|h| - 1], 0);
      Rise(key, g, i, h[|h| - 1])
  }

  // ---- Nothing is lost ----

  lemma HoleMoves(h: seq<nat>, i: nat, p: nat, x: nat)
    requires i < |h| && p < |h| && i != p
    ensures multiset(h[i := h[p]][p := x]) == multiset(h[i := x])
  {
    var a, b := h[i := h[p]][p := x], h[i := x];
    assert a == b[i := b[p]][p := b[i]];
  }

  lemma {:induction false} RiseKeeps(key: seq<int>, h: seq<nat>, i: nat, x: nat)
    requires InBounds(key, h) && i < |h| && x < |key|
    ensures multiset(Rise(key, h, i, x)) == multiset(h[i := x])
    decreases i
  {
    if i > 0 && key[h[Parent(i)]] > key[x] {
      RiseKeeps(key, h[i := h[Parent(i)]], Parent(i), x);
      HoleMoves(h, i, Parent(i), x);
    }
  }

  lemma {:induction false} SinkKeeps(key: seq<int>, h: seq<nat>, i: nat, x: nat)
    requires InBounds(key, h) && i < |h|
    ensures var (g, k) := Sink(key, h, i); multiset(g[k := x]) == multiset(h[i := x])
    decreases |h| - i
  {
    if 2 * i + 1 < |h| {
      var c := SmallerChild(key, h, i);
      SinkKeeps(key, h[i := h[c]], c, x);
      HoleMoves(h, i, c, x);
    }
  }

  // ---- Order is restored ----

  lemma {:induction false} RiseOrders(key: seq<int>, h: seq<nat>, i: nat, x: nat)
    requires OrderedAround(key, h, i, x)
    ensures Ordered(key, Rise(key, h, i, x))
    decreases i
  {
    var p := Parent(i);
    if i > 0 && key[h[p]] > key[x] {
      var h' := h[i := h[p]];
      forall j | 0 < j < |h| && j != p && Parent(j) != p ensures Edge(key, h', j) {
        assert j != i ==> Parent(j) == i || Edge(key, h, j);
      }
      forall j | 0 < j < |h| && Parent(j) == p
        ensures key[x] <= key[h'[j]] && (p > 0 ==> key[h'[Parent(p)]] <= key[h'[j]])
      {
        assert j != i ==> Edge(key, h, j);
        assert p > 0 ==> Edge(key, h, p);
      }
      RiseOrders(key, h', p, x);
    } else {
      var g := h[i := x];
      forall j | 0 < j < |h| ensures Edge(key, g, j) {
        assert j != i ==> Parent(j) == i || Edge(key, h, j);
      }
    }
  }

  lemma {:induction false} SinkOrders(key: seq<int>, h: seq<nat>, i: nat)
    requires OrderedBut(key, h, i)
    ensures var (g, k) := Sink(key, h, i); OrderedBut(key, g, k)
    decreases |h| - i
  {
    if 2 * i + 1 < |h| {
      var c := SmallerChild(key, h, i);
      var h' := h[i := h[c]];
      forall j | 0 < j < |h| && j != c && Parent(j) != c ensures Edge(key, h', j) {
        assert j != i && Parent(j) != i ==> Edge(key, h, j);
      }
      forall j | 0 < j < |h| && Parent(j) == c ensures key[h'[Parent(c)]] <= key[h'[j]] {
        assert Edge(key, h, j);
      }
      SinkOrders(key, h', c);
    }
  }

  lemma {:induction false} RootIsMinimum(key: seq<int>, h: seq<nat>, i: nat)
    requires Ordered(key, h) && i < |h|
    ensures key[h[0]] <= key[h[i]]
    decreases i
  {
    if i > 0 {
      RootIsMinimum(key, h, Parent(i));
      assert Edge(key, h, i);
    }
  }

  // ---- The operations ----

  lemma PushCorrect(key: seq<int>, h: seq<nat>, x: nat)
    requires Ordered(key, h) && x < |key|
    ensures Ordered(key, Push(key, h, x)) && multiset(Push(key, h, x)) == multiset(h) + multiset{x}
  {
    forall j | 0 < j < |h| ensures Edge(key, h + [x], j) { assert Edge(key, h, j); }
    RiseOrders(key, h + [x], |h|, x);
    RiseKeeps(key, h + [x], |h|, x);
    assert (h + [x])[|h| := x] == h + [x];
  }

  lemma LastReplacesRoot(h: seq<nat>)
    requires |h| > 1
    ensures multiset(h[..|h| - 1][0 := h[|h| - 1]]) == multiset(h) - multiset{h[0]}
  {
    var x := h[|h| - 1];
    assert h == [h[0]] + h[1..|h| - 1] + [x];
    assert h[..|h| - 1][0 := x] == [x] + h[1..|h| - 1];
  }

  lemma PopCorrect(key: seq<int>, h: seq<nat>)
    requires Ordered(key, h) && h != []
    ensures Ordered(key, Pop(key, h)) && multiset(Pop(key, h)) == multiset(h) - multiset{h[0]}
    ensures forall n | n in h :: key[h[0]] <= key[n]
  {
    forall n | n in h ensures key[h[0]] <= key[n] {
      var i :| 0 <= i < |h| && h[i] == n;
      RootIsMinimum(key, h, i);
    }
    if |h| == 1 {
      assert h == [h[0]];
    } else {
      var g0, x := h[..|h| - 1], h[|h| - 1];
      var (g, k) := Sink(key, g0, 0);
      forall j | 0 < j < |g0| ensures Edge(key, g0, j) { assert Edge(key, h, j); }
      SinkOrders(key, g0, 0);
      SinkKeeps(key, g0, 0, x);
      RiseOrders(key, g, k, x);
      RiseKeeps(key, g, k, x);
      LastReplacesRoot(h);
    }
  }

  /** Decrease-key: after lowering the key of the entry at `i`, bubbling it up restores the heap. */
  lemma ModifyCorrect(key: seq<int>, h: seq<nat>, i: nat, k: int)
    requires Ordered(key, h) && i < |h| && k <= key[h[i]]
    requires h[i] !in h[..i] && h[i] !in h[i + 1..]
    ensures var key' := key[h[i] := k];
            Ordered(key', Rise(key', h, i, h[i])) && multiset(Rise(key', h, i, h[i])) == multiset(h)
  {
    var key', x := key[h[i] := k], h[i];
    forall j | 0 <= j < |h| && j != i ensures key'[h[j]] == key[h[j]] {
      assert j < i ==> h[..i][j] == h[j];
      assert j > i ==> h[i + 1..][j - i - 1] == h[j];
    }
    forall j | 0 < j < |h| && j != i && Parent(j) != i ensures Edge(key', h, j) {
      assert Edge(key, h, j);
    }
    forall j | 0 < j < |h| && Parent(j) == i
      ensures key'[x] <= key'[h[j]] && (i > 0 ==> key'[h[Parent(i)]] <= key'[h[j]])
    {
      assert Edge(key, h, j) && (i > 0 ==> Edge(key, h, i));
    }
    RiseOrders(key', h, i, x);
    RiseKeeps(key', h, i, x);
    assert h[i := x] == h;
  }
}

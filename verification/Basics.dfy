/** What several models need: optional values, bytes, and a few facts about sequences. */
module Basics {
  datatype Option<T> = None | Some(value: T)

  type byte = b: nat | b < 256

  function Take(s: seq<nat>, n: nat): seq<nat> { if |s| <= n then s else s[..n] }

  lemma TakeStep(r: seq<nat>, x: nat, rest: seq<nat>, n: nat)
    requires |r| <= n
    ensures |r| < n ==> r + ([x] + rest) == (r + [x]) + rest
    ensures |r| == n ==> Take(r + ([x] + rest), n) == Take(r + rest, n) == r
  {
  }

  function Upto(n: nat): (s: seq<nat>)
    ensures |s| == n && forall i | 0 <= i < n :: s[i] == i
  {
    seq(n, i => i)
  }

  lemma {:induction false} UptoCount(n: nat, x: nat)
    ensures multiset(Upto(n))[x] == if x < n then 1 else 0
  {
    if n > 0 {
      UptoCount(n - 1, x);
      assert Upto(n) == Upto(n - 1) + [n - 1];
    }
  }
}

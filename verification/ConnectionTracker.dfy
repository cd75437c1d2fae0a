/** `ConnectionTracker` and its guards: counts over every interleaving of accepted connections and guard drops. */
module ConnectionTracker {
  function SaturatingSub(a: nat, b: nat): nat { if a < b then 0 else a - b }

  class ConnectionTracker {
    var perIp: map<nat, nat>
    var total: nat
    const maxPerIp: nat
    const maxTotal: nat
    /** The live guards, one entry per connection. */
    ghost var live: multiset<nat>

    constructor (maxPerIp: nat, maxTotal: nat)
      ensures Valid() && live == multiset{} && this.maxPerIp == maxPerIp && this.maxTotal == maxTotal
    {
      this.maxPerIp, this.maxTotal := maxPerIp, maxTotal;
      perIp, total, live := map[], 0, multiset{};
    }

    /** Counts agree with the live connections, no entry is zero, and both limits hold. */
    ghost predicate Valid()
      reads this
    {
      && total == |live| && (maxTotal > 0 ==> total <= maxTotal)
      && (maxPerIp == 0 ==> perIp == map[])
      && (maxPerIp > 0 ==> forall ip ::
          (ip in perIp <==> ip in live) && (ip in perIp ==> perIp[ip] == live[ip]) && live[ip] <= maxPerIp)
    }

    /** Accepted exactly when neither limit is reached; a refusal leaves no trace. */
    method TryAdd(ip: nat) returns (ok: bool)
      requires Valid()
      modifies this
      ensures Valid() && live == if ok then old(live) + multiset{ip} else old(live)
      ensures ok <==> (maxTotal == 0 || |old(live)| < maxTotal) && (maxPerIp == 0 || old(live)[ip] < maxPerIp)
      ensures !ok ==> perIp == old(perIp) && total == old(total)
    {
      if maxTotal > 0 && total >= maxTotal { return false; }
      if maxPerIp > 0 {
        var count := if ip in perIp then perIp[ip] else 0;
        if count >= maxPerIp { return false; }
        perIp := perIp[ip := count + 1];
      }
      total := total + 1;
      live := live + multiset{ip};
      return true;
    }

    /** A guard is dropped: the subtraction never saturates. */
    method Remove(ip: nat)
      requires Valid() && ip in live
      modifies this
      ensures Valid() && live == old(live) - multiset{ip} && total == old(total) - 1
    {
      if ip in perIp {
        if perIp[ip] <= 1 {
          perIp := perIp - {ip};
        } else {
          perIp := perIp[ip := perIp[ip] - 1];
        }
      }
      total := SaturatingSub(total, 1);
      live := live - multiset{ip};
    }
  }
}

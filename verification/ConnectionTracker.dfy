/** The connection ceilings of internal/server/ratelimit.go. */
module ConnectionTracking {

  /** The sum of all counts. */
  ghost function Total(conns: map<string, int>): int {
    if conns == map[] then 0
    else var ip :| ip in conns; conns[ip] + Total(conns - {ip})
  }

  /** The sum does not depend on the order of addition. */
  lemma {:induction false} TotalSplit(conns: map<string, int>, ip: string)
    requires ip in conns
    ensures Total(conns) == conns[ip] + Total(conns - {ip})
    decreases conns
  {
    var first :| first in conns && Total(conns) == conns[first] + Total(conns - {first});
    if first != ip {
      TotalSplit(conns - {first}, ip);
      TotalSplit(conns - {ip}, first);
      assert conns - {first} - {ip} == conns - {ip} - {first};
    }
  }

  function CountOf(conns: map<string, int>, ip: string): int {
    if ip in conns then conns[ip] else 0
  }

  lemma TotalUpdate(conns: map<string, int>, ip: string, n: int)
    ensures Total(conns[ip := n]) == Total(conns) - CountOf(conns, ip) + n
    ensures Total(conns - {ip}) == Total(conns) - CountOf(conns, ip)
  {
    var updated := conns[ip := n];
    TotalSplit(updated, ip);
    assert updated - {ip} == conns - {ip};
    if ip in conns {
      TotalSplit(conns, ip);
    } else {
      assert conns - {ip} == conns;
    }
  }

  class ConnectionTracker {
    var maxTotal: int
    var maxPerIP: int
    var conns: map<string, int>
    var total: int
    var trusted: set<string>

    /** The total is the sum of the counts, and no address is kept at zero. */
    ghost predicate Valid()
      reads this
    {
      total == Total(conns) && forall ip :: ip in conns ==> conns[ip] > 0
    }

    constructor (maxTotal: int, maxPerIP: int)
      ensures Valid() && conns == map[] && total == 0 && trusted == {}
      ensures this.maxTotal == maxTotal && this.maxPerIP == maxPerIP
    {
      this.maxTotal, this.maxPerIP := maxTotal, maxPerIP;
      conns, total, trusted := map[], 0, {};
    }

    method SetLimits(maxTotal: int, maxPerIP: int)
      requires Valid()
      modifies this`maxTotal, this`maxPerIP
      ensures Valid() && this.maxTotal == maxTotal && this.maxPerIP == maxPerIP
    {
      this.maxTotal, this.maxPerIP := maxTotal, maxPerIP;
    }

    method SetTrustedProxies(nets: set<string>)
      requires Valid()
      modifies this`trusted
      ensures Valid() && trusted == nets
    {
      trusted := nets;
    }

    /** Admits a connection exactly when there is room in all, and for its address unless that is trusted. */
    method Add(ip: string) returns (ok: bool)
      requires Valid()
      modifies this`conns, this`total
      ensures Valid()
      ensures ok <==> old(total) < maxTotal && (CountOf(old(conns), ip) < maxPerIP || ip in trusted)
      ensures total == old(total) + (if ok then 1 else 0)
      ensures conns == if ok then old(conns)[ip := CountOf(old(conns), ip) + 1] else old(conns)
      ensures total > old(total) ==> total <= maxTotal
    {
      if total >= maxTotal {
        return false;
      }
      var count := if ip in conns then conns[ip] else 0;
      if count >= maxPerIP && ip !in trusted {
        return false;
      }
      TotalUpdate(conns, ip, count + 1);
      conns := conns[ip := count + 1];
      total := total + 1;
      return true;
    }

    /** Undoes one Add; an address without connections is left alone. */
    method Remove(ip: string)
      requires Valid()
      modifies this`conns, this`total
      ensures Valid()
      ensures total == old(total) - (if ip in old(conns) then 1 else 0)
      ensures CountOf(conns, ip) == if ip in old(conns) then old(conns)[ip] - 1 else 0
      ensures conns - {ip} == old(conns) - {ip}
    {
      if ip in conns && conns[ip] > 0 {
        var count := conns[ip] - 1;
        TotalUpdate(conns, ip, count);
        total := total - 1;
        if count == 0 {
          conns := conns - {ip};
        } else {
          conns := conns[ip := count];
        }
      }
    }
  }

  /** A connection that is admitted and goes away leaves the tracker as it was, in every count. */
  method AddThenRemove(c: ConnectionTracker, ip: string) returns (ok: bool)
    requires c.Valid()
    modifies c
    ensures c.Valid() && (ok ==> c.conns == old(c.conns) && c.total == old(c.total))
    ensures !ok ==> unchanged(c)
  {
    ok := c.Add(ip);
    if ok {
      ghost var added := c.conns;
      c.Remove(ip);
      SameMap(old(c.conns), c.conns, added, ip);
    }
  }

  lemma SameMap(before: map<string, int>, after: map<string, int>, added: map<string, int>, ip: string)
    requires (forall x :: x in before ==> before[x] > 0) && (forall x :: x in after ==> after[x] > 0)
    requires added == before[ip := CountOf(before, ip) + 1]
    requires after - {ip} == added - {ip} && CountOf(after, ip) == CountOf(before, ip)
    ensures after == before
  {
    assert added - {ip} == before - {ip};
    forall x | x != ip
      ensures (x in after <==> x in before) && (x in after ==> after[x] == before[x])
    {
      assert x in after - {ip} <==> x in after;
      assert x in before - {ip} <==> x in before;
      if x in after {
        assert (after - {ip})[x] == after[x];
        assert (before - {ip})[x] == before[x];
      }
    }
  }
}

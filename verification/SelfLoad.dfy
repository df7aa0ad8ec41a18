/** The load a node reports about itself: how much of its address space is leased. */
module SelfLoad {
  import opened Arithmetic
  import opened Lifecycle
  import Ipam
  import PoolFacts

  type Pools = map<PoolName, Ipam.PoolState>

  function CapacityOf(pools: Pools, p: PoolName): int {
    if p in pools then pools[p].Capacity() else 0
  }

  function InUseOf(pools: Pools, p: PoolName): int {
    if p in pools then pools[p].InUse() else 0
  }

  function Total(pools: Pools): int {
    CapacityOf(pools, WgPool) + CapacityOf(pools, OvpnPool) + CapacityOf(pools, IkePool)
  }

  function Used(pools: Pools): int {
    InUseOf(pools, WgPool) + InUseOf(pools, OvpnPool) + InUseOf(pools, IkePool)
  }

  /** Go's `used * 100 / total`: truncation and flooring agree, since neither is negative here. */
  function LoadOf(pools: Pools): int {
    if Total(pools) <= 0 then 0 else Used(pools) * 100 / Total(pools)
  }

  /** Nobody can be given an address any more. */
  ghost predicate AllExhausted(pools: Pools) {
    forall p :: p in pools ==> Ipam.Exhausted(pools[p])
  }

  lemma PoolOccupancy(pools: Pools, p: PoolName)
    requires forall q :: q in pools ==> pools[q].Valid()
    ensures 0 <= InUseOf(pools, p) <= CapacityOf(pools, p)
    ensures p in pools ==> CapacityOf(pools, p) >= 1
    ensures p in pools ==> (Ipam.Exhausted(pools[p]) <==> InUseOf(pools, p) == CapacityOf(pools, p))
  {
    if p in pools {
      PoolFacts.Occupancy(pools[p]);
    }
  }

  lemma Percentage(used: int, total: int)
    requires 0 <= used <= total && total > 0
    ensures 0 <= used * 100 / total <= 100 && (used * 100 / total == 100 <==> used == total)
  {
    var q := used * 100 / total;
    assert q * total <= used * 100 < (q + 1) * total by {
      assert used * 100 == q * total + used * 100 % total;
      assert (q + 1) * total == q * total + total;
    }
    if q > 100 {
      OrderedProducts(101, q, total);
    }
    if q < 0 {
      OrderedProducts(q + 1, 0, total);
    }
    if q < 100 {
      OrderedProducts(q + 1, 100, total);
    }
  }

  /**
   * The load in plain numbers: the hundredths of all peer addresses that are
   * leased, rounded down, where each pool keeps three addresses to itself.
   */
  lemma LoadIsShare(pools: Pools)
    requires forall p :: p in pools ==> pools[p].Valid()
    ensures var total := (if WgPool in pools then pools[WgPool].config.numHosts - 1 else 0)
                         + (if OvpnPool in pools then pools[OvpnPool].config.numHosts - 1 else 0)
                         + (if IkePool in pools then pools[IkePool].config.numHosts - 1 else 0);
            var used := (if WgPool in pools then |pools[WgPool].leases| - 3 else 0)
                        + (if OvpnPool in pools then |pools[OvpnPool].leases| - 3 else 0)
                        + (if IkePool in pools then |pools[IkePool].leases| - 3 else 0);
            && (total > 0 <==> pools != map[])
            && (total > 0 ==> LoadOf(pools) * total <= used * 100 < (LoadOf(pools) + 1) * total)
            && (total == 0 ==> LoadOf(pools) == 0)
  {
    PoolOccupancy(pools, WgPool);
    PoolOccupancy(pools, OvpnPool);
    PoolOccupancy(pools, IkePool);
    if pools != map[] {
      var p :| p in pools;
      assert p == WgPool || p == OvpnPool || p == IkePool;
      Floor(Used(pools) * 100, Total(pools));
    }
  }

  lemma Floor(x: int, t: int)
    requires t > 0
    ensures x / t * t <= x < (x / t + 1) * t
  {
    assert x == x / t * t + x % t;
    assert (x / t + 1) * t == x / t * t + t;
  }

  /** With every pool in order the load is a percentage, and it is 100 exactly when no pool has a free address. */
  lemma LoadMeansFull(pools: Pools)
    requires forall p :: p in pools ==> pools[p].Valid()
    ensures 0 <= Used(pools) <= Total(pools)
    ensures 0 <= LoadOf(pools) <= 100
    ensures LoadOf(pools) == 100 <==> pools != map[] && AllExhausted(pools)
  {
    PoolOccupancy(pools, WgPool);
    PoolOccupancy(pools, OvpnPool);
    PoolOccupancy(pools, IkePool);
    if pools == map[] {
      assert Total(pools) == 0;
    } else {
      var p :| p in pools;
      PoolOccupancy(pools, p);
      assert p == WgPool || p == OvpnPool || p == IkePool;
      Percentage(Used(pools), Total(pools));
      forall q | q in pools && Used(pools) == Total(pools)
        ensures Ipam.Exhausted(pools[q])
      {
        assert q == WgPool || q == OvpnPool || q == IkePool;
      }
    }
  }
}

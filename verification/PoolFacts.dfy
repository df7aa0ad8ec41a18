/** What a pool promises its callers: which blocks are accepted, what an allocation returns, how full it can get. */
module PoolFacts {
  import opened Arithmetic
  import opened Collections
  import opened Ipam
  import opened Results

  // ---- building a pool ----

  lemma Doubled(x: nat, y: nat)
    ensures 2 * (x * y) == x * (2 * y)
  {
  }

  lemma {:induction false} Pow2Split(m: nat, n: nat)
    requires m <= n
    ensures Pow2(n) == Pow2(m) * Pow2(n - m)
  {
    if m < n {
      Pow2Split(m, n - 1);
      Doubled(Pow2(m), Pow2(n - 1 - m));
      assert Pow2(n) == 2 * Pow2(n - 1) && Pow2(n - m) == 2 * Pow2(n - 1 - m);
    }
  }

  lemma {:induction false} Pow2Monotone(m: nat, n: nat)
    requires m <= n
    ensures Pow2(m) <= Pow2(n)
  {
    if m < n {
      Pow2Monotone(m, n - 1);
    }
  }

  lemma Pow2Values()
    ensures Pow2(0) == 1 && Pow2(2) == 4 && Pow2(31) == WORD / 2 && Pow2(32) == WORD
  {
    assert Pow2(8) == 256;
    Pow2Split(8, 16);
    assert Pow2(16) == 65536;
    Pow2Split(16, 32);
    assert Pow2(32) == 2 * Pow2(31);
  }

  /** A block's network address is aligned, so the block ends inside the word. */
  lemma BlockFits(c: Cidr)
    requires c.Valid() && c.bits == 32
    ensures 0 <= c.Network() && c.Network() + Pow2(c.HostBits()) <= WORD
    ensures forall ip: nat :: c.Contains(ip) <==> c.Network() <= ip < c.Network() + Pow2(c.HostBits())
  {
    var p := Pow2(c.HostBits());
    Pow2Values();
    Pow2Split(c.HostBits(), 32);
    AlignedInside(c.address, p, Pow2(c.ones));
    forall ip: nat
      ensures c.Contains(ip) <==> c.Network() <= ip < c.Network() + p
    {
      SameAlignment(c.address, ip, p);
    }
  }

  /** The network address is the multiple of the block size at or below the address as written. */
  lemma NetworkIsBase(c: Cidr)
    requires c.Valid() && c.bits == 32
    ensures c.Network() % Pow2(c.HostBits()) == 0 && c.Network() <= c.address < c.Network() + Pow2(c.HostBits())
  {
    var p := Pow2(c.HostBits());
    var k := AlignDownIsMultiple(c.address, p);
    DivModUnique(k * p, p, k, 0);
  }

  lemma BuildAccepts(network: uint32, ones: nat, total: uint32, gateway: uint32, size: int)
    requires total == Wrap(size) && 4 <= size <= WORD && network + size <= WORD
    requires network <= gateway < network + size
    ensures Build(network, ones, total, gateway).Success? <==> network < gateway < network + size - 1
    ensures Build(network, ones, total, gateway).Success? ==>
              var c := Build(network, ones, total, gateway).value;
              c.network == network && c.gateway == gateway && c.Total() == total && (size <= WORD / 2 ==> c.Sound())
  {
    WrapBelow(gateway - network);
    if size < WORD {
      WrapBelow(size);
      WrapBelow(size - 1);
      WrapBelow(size - 2);
    } else {
      assert total == 0 && Wrap(-1) == WORD - 1 && Wrap(-2) == WORD - 2;
    }
  }

  lemma BlockSize(c: Cidr)
    requires c.Valid() && c.bits == 32 && c.HostBits() >= 2
    ensures 4 <= Pow2(c.HostBits()) <= WORD
    ensures c.ones >= 1 ==> Pow2(c.HostBits()) <= WORD / 2
  {
    Pow2Values();
    Pow2Monotone(2, c.HostBits());
    Pow2Monotone(c.HostBits(), 32);
    if c.ones >= 1 {
      Pow2Monotone(c.HostBits(), 31);
    }
  }

  /** A pool is built exactly for an IPv4 block of prefix /0 to /30 whose gateway lies strictly inside it. */
  lemma NewConfigAccepts(block: Option<Cidr>, gateway: Option<uint32>)
    requires block.Some? ==> block.value.Valid()
    ensures NewConfig(block, gateway).Success? <==>
              && block.Some? && block.value.bits == 32 && block.value.ones <= 30
              && gateway.Some?
              && block.value.Network() < gateway.value < block.value.Network() + Pow2(block.value.HostBits()) - 1
    // Prefixes from /1 on give a sound configuration with the block's own bounds.
    ensures NewConfig(block, gateway).Success? && block.value.ones >= 1 ==>
              var c := NewConfig(block, gateway).value;
              && c.Sound() && c.network == block.value.Network() && c.gateway == gateway.value
              && c.Total() == Pow2(block.value.HostBits())
  {
    if block.Some? && block.value.bits == 32 && block.value.ones <= 30 && gateway.Some? {
      var c := block.value;
      BlockFits(c);
      BlockSize(c);
      WrapBelow(c.Network());
      if c.Contains(gateway.value) {
        var size := Pow2(c.HostBits());
        if c.ones >= 1 {
          WrapBelow(size);
        }
        BuildAccepts(c.Network(), c.ones, Wrap(size), gateway.value, size);
      }
    }
  }

  /** At /0 the block size wraps to zero, and by `Pool.Allocate` such a pool never hands anything out. */
  lemma SlashZeroHasNoOffsets(block: Option<Cidr>, gateway: Option<uint32>)
    requires block.Some? ==> block.value.Valid()
    requires NewConfig(block, gateway).Success? && block.value.ones == 0
    ensures NewConfig(block, gateway).value.Total() == 0
  {
    var c := block.value;
    BlockFits(c);
    Pow2Values();
    assert c.Network() == 0;
    BuildAccepts(0, 0, 0, gateway.value, WORD);
  }

  lemma NewPoolValid(config: Config)
    requires config.Sound()
    ensures NewPool(config).Valid() && NewPool(config).InUse() == 0
    ensures NewPool(config).leases.Keys == {config.network, config.network + config.numHosts + 1, config.gateway}
  {
    WrapBelow(config.network + config.Total() - 1);
    assert NewPool(config).leases.Keys == {config.network, config.network + config.numHosts + 1, config.gateway};
  }

  /** An IPv4 block of /0 to /30 with its gateway strictly inside. */
  ghost predicate Fitting(block: Option<Cidr>, gateway: Option<uint32>)
    requires block.Some? ==> block.value.Valid()
  {
    && block.Some? && gateway.Some? && block.value.bits == 32 && block.value.ones <= 30
    && block.value.Network() < gateway.value < block.value.Network() + Pow2(block.value.HostBits()) - 1
  }

  lemma FittingIff(block: Option<Cidr>, gateway: Option<uint32>)
    requires block.Some? ==> block.value.Valid()
    ensures NewConfig(block, gateway).Success? <==> Fitting(block, gateway)
  {
    NewConfigAccepts(block, gateway);
  }

  /** Nobody is in the pool, its block and gateway are the given ones, and its cursor is on the first offset. */
  ghost predicate Unused(pool: PoolState, block: Option<Cidr>, gateway: Option<uint32>)
    requires block.Some? ==> block.value.Valid()
  {
    var c := pool.config;
    && Fitting(block, gateway)
    && c.network == block.value.Network() && c.gateway == gateway.value && c.numHosts + 2 == Pow2(block.value.HostBits())
    && pool.leases.Keys == {c.network, c.gateway, c.network + c.numHosts + 1} && pool.cursor == 1
  }

  lemma ConfigIsBlock(block: Option<Cidr>, gateway: Option<uint32>)
    requires block.Some? ==> block.value.Valid() && block.value.ones >= 1
    requires NewConfig(block, gateway).Success?
    ensures Fitting(block, gateway)
    ensures var c := NewConfig(block, gateway).value;
            && c.Sound() && c.network == block.value.Network() && c.gateway == gateway.value
            && c.numHosts + 2 == Pow2(block.value.HostBits())
  {
    FittingIff(block, gateway);
    NewConfigAccepts(block, gateway);
    WrapBelow(NewConfig(block, gateway).value.numHosts + 2);
  }

  lemma NewPoolIsUnused(block: Option<Cidr>, gateway: Option<uint32>)
    requires block.Some? ==> block.value.Valid() && block.value.ones >= 1
    requires NewConfig(block, gateway).Success?
    ensures Unused(NewPool(NewConfig(block, gateway).value), block, gateway)
  {
    ConfigIsBlock(block, gateway);
    NewPoolValid(NewConfig(block, gateway).value);
  }

  // ---- allocating ----

  /**
   * An allocation in plain arithmetic: the address is `k` places from the
   * cursor going round the block, the offsets in between are the network's
   * or taken, and the cursor is left one place further on.
   */
  lemma AllocationIsNearest(s: PoolState, owner: string, address: int, s': PoolState) returns (k: nat)
    requires s.Valid() && Allocates(s, owner, address, s')
    ensures var total := s.config.numHosts + 2;
            && k < total && address == s.config.network + (s.cursor + k) % total
            && address != s.config.network && address !in s.leases
            && (forall j :: 0 <= j < k ==> Passed(s, j))
            && s' == PoolState(s.config, s.leases[address := owner], (s.cursor + k + 1) % total)
  {
    var total := s.config.numHosts + 2;
    WrapBelow(total);
    k := s.Distance(address - s.config.network);
    CursorSteps(s.cursor, k, total);
    CursorSteps(s.cursor, k + 1, total);
    forall j | 0 <= j < k
      ensures Passed(s, j)
    {
      NearerIsPassed(s, address, j);
    }
  }

  lemma NearerIsPassed(s: PoolState, address: int, j: nat)
    requires s.Valid() && Next(s, address) && j < s.Distance(address - s.config.network)
    ensures Passed(s, j)
  {
    WrapBelow(s.config.numHosts + 2);
    CursorSteps(s.cursor, j, s.config.numHosts + 2);
    assert !s.Free((s.cursor + j) % (s.config.numHosts + 2));
  }

  /** `j` places on from the cursor there is nothing to hand out. */
  ghost predicate Passed(s: PoolState, j: nat) {
    var offset := (s.cursor + j) % (s.config.numHosts + 2);
    offset == 0 || s.config.network + offset in s.leases
  }

  lemma CursorSteps(cursor: nat, j: nat, total: nat)
    requires cursor < total && j <= total
    ensures (cursor + j) % total == if cursor + j < total then cursor + j else cursor + j - total
  {
    if cursor + j < total {
      ModBelow(cursor + j, total);
    } else {
      ModOnce(cursor + j, total);
    }
  }

  /** An exhausted pool has every address but the network's taken. */
  lemma ExhaustedIsFull(s: PoolState)
    requires s.Valid()
    ensures Exhausted(s) <==> forall a :: s.config.network < a < s.config.network + s.config.numHosts + 2 ==> a in s.leases
  {
    WrapBelow(s.config.numHosts + 2);
    if Exhausted(s) {
      forall a | s.config.network < a < s.config.network + s.config.numHosts + 2
        ensures a in s.leases
      {
        assert !s.Free(a - s.config.network);
      }
    }
  }

  lemma AllocatesUsable(s: PoolState, owner: string, address: int, s': PoolState)
    requires s.Valid() && Allocates(s, owner, address, s')
    ensures s.config.Usable(address) && address !in s.leases
    ensures s'.Valid() && s'.InUse() == s.InUse() + 1
  {
    assert s'.leases.Keys == s.leases.Keys + {address};
  }

  /** The next address is a function of the taken addresses and the cursor alone. */
  lemma AllocatesDeterministic(s: PoolState, owner: string, a: int, s1: PoolState, b: int, s2: PoolState)
    requires s.Valid() && Allocates(s, owner, a, s1) && Allocates(s, owner, b, s2)
    ensures a == b && s1 == s2
  {
    assert s.Free(a - s.config.network) && s.Free(b - s.config.network);
  }

  function Range(lo: int, n: nat): (r: set<int>)
    ensures |r| == n
    ensures forall x :: x in r <==> lo <= x < lo + n
  {
    if n == 0 then {} else Range(lo, n - 1) + {lo + n - 1}
  }

  lemma ReservedInUse(s: PoolState)
    requires s.Valid()
    ensures |s.leases| >= 3
  {
    var c := s.config;
    var reserved := {c.network, c.network + c.numHosts + 1, c.gateway};
    assert c.IsReserved(c.network) && c.IsReserved(c.network + c.numHosts + 1) && c.IsReserved(c.gateway);
    assert reserved <= s.leases.Keys;
    assert |reserved| == 3;
    SubsetSize(reserved, s.leases.Keys);
  }

  /** 0 <= InUse <= Capacity, and the pool reports exhaustion exactly when every usable address is leased. */
  lemma Occupancy(s: PoolState)
    requires s.Valid()
    ensures 0 <= s.InUse() <= s.Capacity()
    ensures Exhausted(s) <==> s.InUse() == s.Capacity()
    ensures Exhausted(s) <==> forall a :: s.config.Usable(a) ==> a in s.leases
  {
    var block := Range(s.config.network, s.config.numHosts + 2);
    ReservedInUse(s);
    assert s.leases.Keys <= block;
    SubsetSize(s.leases.Keys, block);
    ExhaustedIffFull(s);
  }

  lemma ExhaustedIffFull(s: PoolState)
    requires s.Valid()
    ensures Exhausted(s) <==> s.leases.Keys == Range(s.config.network, s.config.numHosts + 2)
    ensures Exhausted(s) <==> forall a :: s.config.Usable(a) ==> a in s.leases
  {
    var c := s.config;
    if Exhausted(s) {
      forall a | c.InBlock(a)
        ensures a in s.leases
      {
        assert !s.Free(a - c.network);
        assert a == c.network ==> c.IsReserved(a);
      }
    }
    if forall a :: c.Usable(a) ==> a in s.leases {
      forall o ensures !s.Free(o) {
        assert c.IsReserved(c.network + o) || !c.InBlock(c.network + o) || c.Usable(c.network + o);
      }
    }
  }

  // ---- giving back and restoring ----

  /** Releasing keeps the pool valid exactly when the address is not one of the three reserved ones. */
  lemma ReleasedValid(s: PoolState, address: int)
    requires s.Valid()
    ensures Released(s, address).Valid() <==> !s.config.IsReserved(address)
    ensures !s.config.IsReserved(address) ==>
              Released(s, address).InUse() == s.InUse() - (if address in s.leases then 1 else 0)
  {
    var s' := Released(s, address);
    if s.config.IsReserved(address) {
      assert address !in s'.leases;
    } else {
      assert s'.leases.Keys == s.leases.Keys - {address};
    }
  }

  /** Reserve has no range check: the pool stays valid exactly when the address was refused or lies in the block. */
  lemma ReservedValid(s: PoolState, address: int, owner: string)
    requires s.Valid()
    ensures Reserved(s, address, owner).Valid() <==> ReserveRefused(s, address, owner) || s.config.InBlock(address)
  {
    if !ReserveRefused(s, address, owner) {
      assert address in Reserved(s, address, owner).leases;
    }
  }

  /** An out-of-block reservation can push InUse past Capacity. */
  lemma OutOfBlockReserveOverflows(s: PoolState, address: int, owner: string)
    requires s.Valid() && Exhausted(s) && !s.config.InBlock(address)
    ensures Reserved(s, address, owner).InUse() == s.Capacity() + 1
  {
    Occupancy(s);
    assert Reserved(s, address, owner).leases.Keys == s.leases.Keys + {address};
  }
}

/**
 * The tunnel address allocator: a map of taken addresses and a round-robin
 * cursor, both over 32-bit words. Every uint32 operation of the source is
 * written with `Wrap`, so the results below also say that no step overflows.
 */
module Ipam {
  import opened Arithmetic
  import opened Results

  const WORD: int := 0x1_0000_0000

  type uint32 = x: int | 0 <= x < 0x1_0000_0000

  function Wrap(x: int): uint32 {
    x % WORD
  }

  lemma WrapBelow(x: int)
    requires 0 <= x < WORD
    ensures Wrap(x) == x
  {
  }

  function Pow2(n: nat): (p: nat)
    ensures p >= 1
  {
    if n == 0 then 1 else 2 * Pow2(n - 1)
  }

  /** What parsing a CIDR string yields: the address as written, the prefix length, the address width. */
  datatype Cidr = Cidr(address: nat, ones: nat, bits: nat) {
    ghost predicate Valid() {
      && ones <= bits
      && address < Pow2(bits)
    }

    function HostBits(): nat
      requires ones <= bits
    {
      bits - ones
    }

    /** The address with its host bits cleared. */
    function Network(): int
      requires ones <= bits
    {
      AlignDown(address, Pow2(HostBits()))
    }

    predicate Contains(ip: nat)
      requires ones <= bits
    {
      AlignDown(ip, Pow2(HostBits())) == Network()
    }
  }

  /** The immutable part of a pool. */
  datatype Config = Config(network: uint32, maskLen: nat, numHosts: uint32, gateway: uint32) {
    function Total(): uint32 {
      Wrap(numHosts + 2)
    }

    /** The shape of every pool whose prefix is /1 to /30. */
    ghost predicate Sound() {
      && 4 <= numHosts + 2 <= WORD / 2
      && network + numHosts + 2 <= WORD
      && network < gateway < network + numHosts + 1
    }

    predicate InBlock(address: int) {
      network <= address < network + numHosts + 2
    }

    predicate IsReserved(address: int) {
      address == network || address == network + numHosts + 1 || address == gateway
    }

    /** An address a peer may be given. */
    predicate Usable(address: int) {
      InBlock(address) && !IsReserved(address)
    }
  }

  function NewConfig(block: Option<Cidr>, gateway: Option<uint32>): (r: Result<Config>)
    requires block.Some? ==> block.value.Valid()
  {
    if block.None? then Failure("invalid CIDR")
    else if block.value.bits != 32 then Failure("only IPv4 pools are supported")
    else if block.value.HostBits() < 2 then Failure("too small for a tunnel pool")
    else if gateway.None? then Failure("invalid gateway IP")
    else if !block.value.Contains(gateway.value) then Failure("gateway is not inside the block")
    else Build(Wrap(block.value.Network()), block.value.ones, Wrap(Pow2(block.value.HostBits())), gateway.value)
  }

  function Build(network: uint32, ones: nat, total: uint32, gateway: uint32): (r: Result<Config>) {
    var offset := Wrap(gateway - network);
    if offset == 0 || offset == Wrap(total - 1) then Failure("gateway is the network or broadcast address")
    else Success(Config(network, ones, Wrap(total - 2), gateway))
  }

  /** A snapshot of a pool. */
  datatype PoolState = PoolState(config: Config, leases: map<int, string>, cursor: uint32) {
    /** Offset `o` can be handed out: the scan skips offset 0 and every taken address. */
    ghost predicate Free(o: int) {
      0 < o < config.Total() && config.network + o !in leases
    }

    /** Steps from the cursor to offset `o` going round the block. */
    function Distance(o: int): int {
      if o >= cursor then o - cursor else o - cursor + config.Total()
    }

    /** What every pool operation of a well-behaved owner keeps. */
    ghost predicate Valid() {
      && config.Sound()
      && cursor < config.Total()
      && (forall a :: config.IsReserved(a) ==> a in leases)
      && (forall a :: a in leases ==> config.InBlock(a))
    }

    function InUse(): int {
      |leases| - 3
    }

    function Capacity(): int {
      config.numHosts - 1
    }
  }

  function NewPool(config: Config): PoolState {
    PoolState(config,
              map[config.network := "reserved:network"]
              [Wrap(config.network + config.Total() - 1) := "reserved:broadcast"]
              [config.gateway := "reserved:gateway"],
              1)
  }

  /** `address` is free, and no free address is fewer steps from the cursor. */
  ghost predicate Next(s: PoolState, address: int) {
    var offset := address - s.config.network;
    && s.Free(offset)
    && forall o :: s.Free(o) ==> s.Distance(offset) <= s.Distance(o)
  }

  /** `address` taken by `owner`, and the cursor moved just past it. */
  function Leased(s: PoolState, owner: string, address: int): PoolState
    requires 0 <= address - s.config.network < s.config.Total()
  {
    var offset := address - s.config.network;
    s.(leases := s.leases[address := owner],
    cursor := if offset + 1 == s.config.Total() then 0 else offset + 1)
  }

  /** `owner` was given the next free address, and nothing else changed. */
  ghost predicate Allocates(s: PoolState, owner: string, address: int, s': PoolState) {
    Next(s, address) && s' == Leased(s, owner, address)
  }

  ghost predicate Exhausted(s: PoolState) {
    forall o :: !s.Free(o)
  }

  function Released(s: PoolState, address: int): PoolState {
    s.(leases := s.leases - {address})
  }

  predicate ReserveRefused(s: PoolState, address: int, owner: string) {
    address in s.leases && s.leases[address] != owner
  }

  function Reserved(s: PoolState, address: int, owner: string): PoolState {
    if ReserveRefused(s, address, owner) then s else s.(leases := s.leases[address := owner])
  }

  class Pool {
    const config: Config
    var leases: map<int, string>
    var cursor: uint32

    ghost function State(): PoolState
      reads this
    {
      PoolState(config, leases, cursor)
    }

    constructor (config: Config)
      ensures this.config == config
      ensures State() == NewPool(config)
    {
      this.config := config;
      leases := map[config.network := "reserved:network"];
      cursor := 1;
      new;
      leases := leases[Wrap(config.network + config.Total() - 1) := "reserved:broadcast"];
      leases := leases[config.gateway := "reserved:gateway"];
    }

    /** The source's scan. A /0 block has Total() == 0, and then the loop never runs. */
    method Allocate(owner: string) returns (r: Result<uint32>)
      requires config.Sound() ==> cursor < config.Total()
      modifies this
      ensures r.Failure? ==> State() == old(State())
      ensures config.Sound() && r.Success? ==> Allocates(old(State()), owner, r.value, State())
      ensures config.Sound() && r.Failure? ==> Exhausted(old(State()))
      ensures config.Total() == 0 ==> r.Failure?
    {
      var total := Wrap(config.numHosts + 2);
      var i: uint32 := 0;
      while i < total
        invariant i <= total
        invariant State() == old(State())
        invariant config.Sound() ==> ScannedTo(State(), i)
      {
        var offset := AddModulo(cursor, i, total);
        if config.Sound() {
          ScanStep(State(), i, offset);
        }
        if offset != 0 {
          var candidate := Wrap(config.network + offset);
          if candidate !in leases {
            leases := leases[candidate := owner];
            cursor := AddModulo(offset, 1, total);
            return Success(candidate);
          }
        }
        i := i + 1;
      }
      if config.Sound() {
        ScanEnd(State());
      }
      return Failure("exhausted");
    }

    /** `address` is None for an IP that has no 4-byte form. */
    method Reserve(address: Option<uint32>, owner: string) returns (r: Result<()>)
      modifies this
      ensures r.Failure? <==> address.None? || ReserveRefused(old(State()), address.value, owner)
      ensures State() == if address.None? then old(State()) else Reserved(old(State()), address.value, owner)
      ensures r.Failure? <==> address.None? || (address.value in old(leases) && old(leases)[address.value] != owner)
      ensures cursor == old(cursor) && leases == if r.Failure? then old(leases) else old(leases)[address.value := owner]
    {
      if address.None? {
        return Failure("not an IPv4 address");
      }
      var key := address.value;
      if key in leases && leases[key] != owner {
        return Failure("already allocated");
      }
      leases := leases[key := owner];
      return Success(());
    }

    method Release(address: Option<uint32>)
      modifies this
      ensures State() == if address.None? then old(State()) else Released(old(State()), address.value)
      ensures cursor == old(cursor) && leases == if address.None? then old(leases) else old(leases) - {address.value}
    {
      if address.None? {
        return;
      }
      leases := leases - {address.value};
    }

    method InUse() returns (n: int)
      ensures n == State().InUse()
    {
      n := |leases| - 3;
    }

    method Capacity() returns (n: int)
      ensures n == State().Capacity()
    {
      n := config.numHosts - 1;
    }
  }

  /** `(x + y) % total` in 32-bit arithmetic; the addition cannot wrap for blocks of at most half the word. */
  method AddModulo(x: uint32, y: uint32, total: uint32) returns (r: uint32)
    requires total > 0
    ensures r < total
    ensures x < total && y < total <= WORD / 2 ==> r == if x + y < total then x + y else x + y - total
  {
    r := Wrap(x + y) % total;
    if x < total && y < total <= WORD / 2 {
      WrapBelow(x + y);
      if x + y < total {
        ModBelow(x + y, total);
      } else {
        ModOnce(x + y, total);
      }
    }
  }

  /** No free offset is nearer than `i` steps. */
  ghost predicate ScannedTo(s: PoolState, i: int) {
    forall o :: s.Free(o) ==> i <= s.Distance(o)
  }

  /** The scan has passed over every free offset nearer than `i`; step `i` either skips one more or hits the nearest. */
  lemma ScanStep(s: PoolState, i: int, offset: int)
    requires s.config.Sound() && s.cursor < s.config.Total() && 0 <= i < s.config.Total()
    requires offset == if s.cursor + i < s.config.Total() then s.cursor + i else s.cursor + i - s.config.Total()
    requires ScannedTo(s, i)
    ensures Wrap(s.config.network + offset) == s.config.network + offset
    ensures s.Distance(offset) == i
    ensures s.Free(offset) ==> Next(s, s.config.network + offset)
    ensures !s.Free(offset) ==> ScannedTo(s, i + 1)
  {
    WrapBelow(s.config.network + offset);
  }

  lemma ScanEnd(s: PoolState)
    requires s.config.Sound() && s.cursor < s.config.Total()
    requires ScannedTo(s, s.config.Total())
    ensures Exhausted(s)
  {
    assert forall o :: 0 < o < s.config.Total() ==> s.Distance(o) < s.config.Total();
  }
}

/**
 * The request handlers, the reaper and the restore loop as code over the live
 * objects: pools, session table, backends. Each handler is a run of lifecycle
 * steps, so everything proved about runs holds of it.
 */
module App {
  import opened Results
  import opened Sessions
  import opened Lifecycle
  import opened LeaseAccounting
  import opened Scenarios
  import opened Handling
  import opened Restart
  import opened SelfLoad
  import Ipam
  import Ipv6
  import PoolFacts

  /** `persists` says that a state file is configured. */
  datatype Settings = Settings(cap: int, ttl: real, nodeId: string, ipv6Enabled: bool, ipv6Prefix: Option<Ipv6.Prefix>, persists: bool)

  /**
   * What the world outside decides during one connect: tools installed, key
   * well-formed, backend command accepted, or refused but in effect all the same.
   */
  datatype World = World(available: bool, keyValid: bool, accepted: bool, leftBehind: bool, createdAt: real, lastSeenAt: real)

  /** What the world outside decides while a node starts: WireGuard identity and fleet registry can be loaded. */
  datatype Startup = Startup(identity: bool, registry: bool)

  datatype Response = Full | UnknownProtocol | Unavailable | BadKey | Failed | Established(record: Record)

  /** What a node is told about one protocol's pool: its block, and the gateway inside it. */
  datatype Subnet = Subnet(block: Option<Ipam.Cidr>, gateway: Option<Ipam.uint32>)

  function ConfigOf(subnet: Subnet): Result<Ipam.Config>
    requires subnet.block.Some? ==> subnet.block.value.Valid()
  {
    Ipam.NewConfig(subnet.block, subnet.gateway)
  }

  /** Blocks that parse are blocks. */
  ghost predicate Parsed(subnets: map<PoolName, Subnet>) {
    forall p :: p in subnets && subnets[p].block.Some? ==> subnets[p].block.value.Valid()
  }

  /** The protocol is disabled, or its pool can be built. */
  ghost predicate Configured(subnets: map<PoolName, Subnet>, p: PoolName)
    requires Parsed(subnets)
  {
    p in subnets ==> ConfigOf(subnets[p]).Success?
  }

  ghost predicate AllConfigured(subnets: map<PoolName, Subnet>)
    requires Parsed(subnets)
  {
    forall p :: p in subnets ==> Configured(subnets, p)
  }

  /** Everything a node needs in order to start. */
  ghost predicate Starts(subnets: map<PoolName, Subnet>, startup: Startup)
    requires Parsed(subnets)
  {
    AllConfigured(subnets) && (WgPool in subnets ==> startup.identity) && startup.registry
  }

  ghost function NewPools(subnets: map<PoolName, Subnet>): map<PoolName, Ipam.PoolState>
    requires Parsed(subnets) && AllConfigured(subnets)
  {
    map p | p in subnets :: assert Configured(subnets, p); Ipam.NewPool(ConfigOf(subnets[p]).value)
  }

  ghost function NewProcess(settings: Settings, subnets: map<PoolName, Subnet>, backends: map<PoolName, Backend>, now: real): Server
    requires Parsed(subnets) && AllConfigured(subnets)
  {
    Server(settings.cap, settings.ttl, NewPools(subnets), backends, map[], map[], map[], {}, now)
  }

  /** The records a starting process sees. */
  function Loaded(settings: Settings, file: seq<Record>): seq<Record> {
    if settings.persists then file else []
  }

  /** The blocks that parse are /1 to /30 or too small to be accepted. */
  ghost predicate NoneIsSlashZero(subnets: map<PoolName, Subnet>) {
    forall p :: p in subnets && subnets[p].block.Some? ==> subnets[p].block.value.ones >= 1
  }

  /** The protocols configured now were running before, on the same blocks. */
  ghost predicate SameBlocks(s: Server, subnets: map<PoolName, Subnet>)
    requires Parsed(subnets)
  {
    forall p :: p in subnets ==> p in s.pools && (ConfigOf(subnets[p]).Success? ==> ConfigOf(subnets[p]).value == s.pools[p].config)
  }

  const ALL_POOLS: set<PoolName> := {WgPool, OvpnPool, IkePool}

  lemma ConfiguredEach(subnets: map<PoolName, Subnet>)
    requires Parsed(subnets)
    ensures AllConfigured(subnets) <==> Configured(subnets, WgPool) && Configured(subnets, OvpnPool) && Configured(subnets, IkePool)
    ensures subnets.Keys <= ALL_POOLS
  {
    forall p | p in subnets
      ensures p in ALL_POOLS
    {
      assert p == WgPool || p == OvpnPool || p == IkePool;
    }
  }

  /** New pools, no two the same object, for those of `done` that are enabled. */
  ghost predicate Built(pools: map<PoolName, Ipam.Pool>, subnets: map<PoolName, Subnet>, done: set<PoolName>)
    requires Parsed(subnets)
    reads pools.Values
  {
    && (forall p :: p in pools <==> p in done && p in subnets)
    && (forall p, q :: p in pools && q in pools && pools[p] == pools[q] ==> p == q)
    && forall p :: p in pools ==> ConfigOf(subnets[p]).Success? && pools[p].State() == Ipam.NewPool(ConfigOf(subnets[p]).value)
  }

  lemma BuiltAreNew(pools: map<PoolName, Ipam.Pool>, subnets: map<PoolName, Subnet>)
    requires Parsed(subnets) && AllConfigured(subnets) && Built(pools, subnets, ALL_POOLS)
    ensures (map p | p in pools :: pools[p].State()) == NewPools(subnets)
  {
    ConfiguredEach(subnets);
  }

  lemma NewPoolsSound(subnets: map<PoolName, Subnet>)
    requires Parsed(subnets) && AllConfigured(subnets) && NoneIsSlashZero(subnets)
    ensures forall p :: p in NewPools(subnets) ==>
              var pool := NewPools(subnets)[p]; pool.config.Sound() && pool == Ipam.NewPool(pool.config)
  {
    forall p | p in subnets
      ensures ConfigOf(subnets[p]).Success? && ConfigOf(subnets[p]).value.Sound()
    {
      assert Configured(subnets, p);
      PoolFacts.NewConfigAccepts(subnets[p].block, subnets[p].gateway);
    }
  }

  /** What starting takes: fitting blocks for all configured protocols, the identity if WireGuard is one, and the registry. */
  lemma StartsIff(subnets: map<PoolName, Subnet>, startup: Startup)
    requires Parsed(subnets)
    ensures Starts(subnets, startup) <==>
              && (forall p :: p in subnets ==> PoolFacts.Fitting(subnets[p].block, subnets[p].gateway))
              && (WgPool in subnets ==> startup.identity)
              && startup.registry
  {
    forall p | p in subnets
      ensures Configured(subnets, p) <==> PoolFacts.Fitting(subnets[p].block, subnets[p].gateway)
    {
      PoolFacts.FittingIff(subnets[p].block, subnets[p].gateway);
    }
  }

  lemma NewPoolsUnused(subnets: map<PoolName, Subnet>)
    requires Parsed(subnets) && AllConfigured(subnets) && NoneIsSlashZero(subnets)
    ensures forall p :: p in subnets ==> PoolFacts.Unused(NewPools(subnets)[p], subnets[p].block, subnets[p].gateway)
  {
    forall p | p in subnets
      ensures ConfigOf(subnets[p]).Success?
      ensures PoolFacts.Unused(Ipam.NewPool(ConfigOf(subnets[p]).value), subnets[p].block, subnets[p].gateway)
    {
      assert Configured(subnets, p);
      PoolFacts.NewPoolIsUnused(subnets[p].block, subnets[p].gateway);
    }
  }

  /** A process starts with its cap and timeout, nothing in any table, and each pool unused on its own block. */
  lemma ProcessMeans(settings: Settings, subnets: map<PoolName, Subnet>, backends: map<PoolName, Backend>, now: real)
    requires Parsed(subnets) && AllConfigured(subnets) && NoneIsSlashZero(subnets)
    ensures var t := NewProcess(settings, subnets, backends, now);
            && t.cap == settings.cap && t.ttl == settings.ttl && t.backends == backends && t.now == now
            && t.store == map[] && t.connecting == map[] && t.removing == map[] && t.minted == {}
            && t.pools.Keys == subnets.Keys
            && forall p :: p in subnets ==> PoolFacts.Unused(t.pools[p], subnets[p].block, subnets[p].gateway)
  {
    NewPoolsUnused(subnets);
  }

  /** The state file counts only if one is configured. */
  lemma ProcessRestores(settings: Settings, subnets: map<PoolName, Subnet>, backends: map<PoolName, Backend>, now: real, file: seq<Record>)
    requires Parsed(subnets) && AllConfigured(subnets)
    ensures Restarted(NewProcess(settings, subnets, backends, now), Loaded(settings, file)).store
         == if settings.persists then Restored(map[], file) else map[]
  {
  }

  lemma ProcessIsBlank(settings: Settings, subnets: map<PoolName, Subnet>, backends: map<PoolName, Backend>, now: real)
    requires Parsed(subnets) && AllConfigured(subnets) && NoneIsSlashZero(subnets) && subnets.Keys <= backends.Keys
    ensures Blank(NewProcess(settings, subnets, backends, now))
  {
    NewPoolsSound(subnets);
  }

  lemma FreshIsJustStarted(settings: Settings, subnets: map<PoolName, Subnet>, now: real)
    requires Parsed(subnets) && AllConfigured(subnets) && NoneIsSlashZero(subnets)
    ensures JustStarted(Restarted(NewProcess(settings, subnets, map p | p in subnets :: map[], now), []))
  {
    NewPoolsSound(subnets);
  }

  /** A new process on the same node, whichever of its protocols are still configured. */
  lemma SameNode(s: Server, settings: Settings, subnets: map<PoolName, Subnet>, now: real)
    requires PoolsOk(s) && Parsed(subnets) && AllConfigured(subnets) && SameBlocks(s, subnets)
    ensures Succeeds(s, NewProcess(settings, subnets, s.backends, now))
  {
    forall p | p in subnets
      ensures p in s.pools && ConfigOf(subnets[p]).Success? && ConfigOf(subnets[p]).value == s.pools[p].config
    {
      assert Configured(subnets, p);
    }
  }

  /** What a backend says about a session: it is off, it does not know the client, or the client's counters. */
  datatype Report =
    | BackendOff
    | Unconnected
    | Counters(received: nat, sent: nat, handshake: Option<real>)

  datatype Health = Optimal | Degraded | Connecting

  const STALE_HANDSHAKE: real := 180.0

  /** A WireGuard client whose last handshake is over three minutes old is degraded; one nobody has seen is connecting. */
  function HealthOf(protocol: Protocol, report: Report, now: real): Health {
    match report
    case BackendOff => Optimal
    case Unconnected => Connecting
    case Counters(_, _, handshake) =>
      if protocol.WireGuard? && handshake.Some? && now - handshake.value > STALE_HANDSHAKE then Degraded else Optimal
  }

  /** A genuine IPv6 prefix that leaves room for an IPv4 address. */
  ghost predicate Roomy(prefix: Option<Ipv6.Prefix>) {
    && prefix.Some? && prefix.value.ones <= 96 && |prefix.value.base| == 16
    && prefix.value.base[..12] != [0, 0, 0, 0, 0, 0, 0, 0, 0, 0, 0xff, 0xff]
  }

  ghost predicate SameLeases(pools: map<PoolName, Ipam.PoolState>, pools': map<PoolName, Ipam.PoolState>) {
    pools'.Keys == pools.Keys && forall p :: p in pools ==> pools'[p].leases == pools[p].leases
  }

  /** Every address of the block after the network's own is taken. */
  ghost predicate AllTaken(pool: Ipam.PoolState) {
    forall a :: pool.config.network < a < pool.config.network + pool.config.numHosts + 2 ==> a in pool.leases
  }

  lemma HealthMeans(protocol: Protocol, report: Report, now: real)
    ensures HealthOf(protocol, report, now) == Connecting <==> report == Unconnected
    ensures HealthOf(protocol, report, now) == Degraded <==>
              report.Counters? && report.handshake.Some? && now > report.handshake.value + 180.0 && protocol == WireGuard
  {
  }

  datatype Telemetry = Telemetry(downMbps: real, upMbps: real, history: seq<real>, down: nat, up: nat, health: Health)

  class App {
    const settings: Settings
    const pools: map<PoolName, Ipam.Pool>
    const sessions: Store
    var backends: map<PoolName, Backend>
    /** The lifecycle state this object is in, with the phases of requests in progress. */
    ghost var model: Server

    ghost predicate Wired()
      reads this, sessions
    {
      sessions.Valid() && forall p, q :: p in pools && q in pools && pools[p] == pools[q] ==> p == q
    }

    /** The live objects are what this lifecycle state says. */
    ghost predicate Agrees(s: Server)
      reads this, sessions, sessions.sessions.Values, pools.Values
    {
      && s.cap == settings.cap && s.ttl == settings.ttl
      && s.pools.Keys == pools.Keys
      && (forall p :: p in pools ==> s.pools[p] == pools[p].State())
      && s.backends == backends
      && s.store == sessions.Contents()
    }

    ghost predicate Tied()
      reads this, sessions, sessions.sessions.Values, pools.Values
    {
      Wired() && Agrees(model)
    }

    ghost predicate Valid()
      reads this, sessions, sessions.sessions.Values, pools.Values
    {
      Tied() && LeasesMatch(model)
    }

    /** Wires pools that share no object to an empty table, with nothing in flight. */
    constructor (settings: Settings, pools: map<PoolName, Ipam.Pool>, backends: map<PoolName, Backend>, now: real)
      requires forall p, q :: p in pools && q in pools && pools[p] == pools[q] ==> p == q
      ensures Tied() && fresh(sessions) && sessions.sessions == map[]
      ensures this.settings == settings && this.pools == pools
      ensures model == Server(settings.cap, settings.ttl, map p | p in pools :: pools[p].State(), backends, map[], map[], map[], {}, now)
    {
      var store := new Store();
      this.settings, this.pools, this.backends, sessions := settings, pools, backends, store;
      model := Server(settings.cap, settings.ttl, map p | p in pools :: pools[p].State(), backends, map[], map[], map[], {}, now);
    }

    /** Adds the pool of one protocol if it is enabled; fails on a configuration error. */
    static method BuildPool(p: PoolName, subnets: map<PoolName, Subnet>, pools: map<PoolName, Ipam.Pool>, ghost done: set<PoolName>,
                            ghost next: set<PoolName>)
      returns (r: Result<map<PoolName, Ipam.Pool>>)
      requires Parsed(subnets) && p !in done && next == done + {p} && Built(pools, subnets, done)
      ensures r.Success? <==> Configured(subnets, p)
      ensures r.Success? ==> Built(r.value, subnets, next)
      ensures r.Success? ==> forall q :: q in r.value ==> (q in pools && r.value[q] == pools[q]) || fresh(r.value[q])
    {
      if p !in subnets {
        return Success(pools);
      }
      var config := ConfigOf(subnets[p]);
      if config.Failure? {
        return Failure(config.message);
      }
      var pool := new Ipam.Pool(config.value);
      r := Success(pools[p := pool]);
    }

    /** The pools of the enabled protocols, each on its own; or the first configuration error. */
    static method BuildPools(subnets: map<PoolName, Subnet>) returns (r: Result<map<PoolName, Ipam.Pool>>)
      requires Parsed(subnets)
      ensures r.Success? <==> AllConfigured(subnets)
      ensures r.Success? ==> Built(r.value, subnets, ALL_POOLS) && forall q :: q in r.value ==> fresh(r.value[q])
    {
      ConfiguredEach(subnets);
      r := BuildPool(WgPool, subnets, map[], {}, {WgPool});
      if r.Failure? {
        return;
      }
      r := BuildPool(OvpnPool, subnets, r.value, {WgPool}, {WgPool, OvpnPool});
      if r.Failure? {
        return;
      }
      r := BuildPool(IkePool, subnets, r.value, {WgPool, OvpnPool}, ALL_POOLS);
    }

    // ---- one method per locked call ----

    /** Moves the lifecycle state to what the live objects now hold. */
    ghost method Track(next: Server)
      requires Wired() && Agrees(next)
      modifies this`model
      ensures Tied() && model == next
    {
      model := next;
    }

    method AllocateFrom(p: PoolName, id: string) returns (r: Result<Ipam.uint32>)
      requires Wired() && p in pools && pools[p].State().Valid()
      modifies pools[p]
      ensures Wired() && sessions.Contents() == old(sessions.Contents())
      ensures r.Success? ==> Ipam.Next(old(pools[p].State()), r.value)
      ensures r.Failure? ==> Ipam.Exhausted(old(pools[p].State()))
      ensures forall q :: q in pools ==>
                pools[q].State() == if q == p && r.Success? then Ipam.Leased(old(pools[q].State()), id, r.value) else old(pools[q].State())
    {
      r := pools[p].Allocate(id);
    }

    /** `address` is the session's; one that is not a 32-bit number is skipped, and no pool holds it. */
    method ReleaseInto(p: PoolName, address: int)
      requires Wired() && p in pools && (address in pools[p].leases ==> 0 <= address < Ipam.WORD)
      modifies pools[p]
      ensures Wired() && sessions.Contents() == old(sessions.Contents())
      ensures forall q :: q in pools ==>
                pools[q].State() == if q == p then Ipam.Released(old(pools[q].State()), address) else old(pools[q].State())
    {
      if 0 <= address < Ipam.WORD {
        pools[p].Release(Some(address));
      } else {
        assert pools[p].leases - {address} == pools[p].leases;
      }
    }

    method TakeLease(id: string, protocol: Protocol) returns (r: Result<Ipam.uint32>)
      requires Tied() && PoolsOk(model) && PoolOf(protocol) in pools
      requires id in model.connecting && model.connecting[id].Admitted? && model.connecting[id].protocol == protocol
      modifies this`model, pools[PoolOf(protocol)]
      ensures Tied()
      ensures r.Success? ==> Enabled(old(model), Lease(id, r.value)) && model == Granted(old(model), id, r.value)
      ensures r.Failure? ==> Ipam.Exhausted(old(model).pools[PoolOf(protocol)]) && model == old(model)
    {
      assert model.pools[PoolOf(protocol)] == pools[PoolOf(protocol)].State();
      r := AllocateFrom(PoolOf(protocol), id);
      if r.Success? {
        Track(Granted(model, id, r.value));
      }
    }

    method ReturnLease(id: string, protocol: Protocol, address: Ipam.uint32)
      requires Tied() && PoolOf(protocol) in pools && Enabled(model, Return(id))
      requires model.connecting[id].protocol == protocol && model.connecting[id].address == address
      modifies this`model, pools[PoolOf(protocol)]
      ensures Tied() && model == GivenBack(old(model), id)
    {
      ghost var next := GivenBack(model, id);
      ReleaseInto(PoolOf(protocol), address);
      Track(next);
    }

    /** The backend's upsert, where a WireGuard address moves to the newer peer. */
    method AddPeer(id: string, protocol: Protocol, key: string, address: Ipam.uint32)
      requires Tied() && Enabled(model, Provision(id)) && model.connecting[id] == Leased(protocol, key, address)
      modifies this`model, this`backends
      ensures Tied() && model == Pinned(old(model), id)
    {
      var p := PoolOf(protocol);
      backends := backends[p := Upserted(backends[p], p, key, Pin(address, id))];
      Track(Pinned(model, id));
    }

    /** The backend reports a failure, and may have written the entry before it failed. */
    method FailPeer(id: string, protocol: Protocol, key: string, address: Ipam.uint32, applied: bool)
      requires Tied() && Enabled(model, Refuse(id, applied)) && model.connecting[id] == Leased(protocol, key, address)
      modifies this`model, this`backends
      ensures Tied() && model == RefusedIn(old(model), id, applied)
    {
      var p := PoolOf(protocol);
      if applied {
        backends := backends[p := Upserted(backends[p], p, key, Pin(address, id))];
      }
      Track(RefusedIn(model, id, applied));
    }

    method PutSession(r: Record)
      requires Tied() && Enabled(model, Publish(r))
      modifies this`model, sessions
      ensures Tied() && model == Published(old(model), r)
    {
      var session := new Session(r);
      sessions.Put(session);
      Track(Published(model, r));
    }

    /** The backend's removal command; `succeeded` says whether the entry is gone, and otherwise it stays as it is. */
    method RemovePeer(id: string, protocol: Protocol, key: string, succeeded: bool)
      requires Tied() && Enabled(model, Unpin(id, succeeded))
      requires model.removing[id].record.protocol == protocol && BackendKey(model.removing[id].record) == key
      modifies this`model, this`backends
      ensures Tied() && model == Unpinned(old(model), id, succeeded)
    {
      backends := backends[PoolOf(protocol) := if succeeded then backends[PoolOf(protocol)] - {key} else backends[PoolOf(protocol)]];
      Track(Unpinned(model, id, succeeded));
    }

    method FreeLease(id: string, protocol: Protocol, address: int)
      requires Tied() && PoolOf(protocol) in pools && Enabled(model, Release(id))
      requires address in model.pools[PoolOf(protocol)].leases ==> 0 <= address < Ipam.WORD
      requires model.removing[id].record.protocol == protocol && model.removing[id].record.virtualIp == address
      modifies this`model, pools[PoolOf(protocol)]
      ensures Tied() && model == Freed(old(model), id)
    {
      ReleaseInto(PoolOf(protocol), address);
      Track(Freed(model, id));
    }

    // ---- connects ----

    /** On a dual-stack node a WireGuard peer needs an IPv6 address paired with its lease. */
    predicate Paired(protocol: Protocol, address: Ipam.uint32) {
      protocol.WireGuard? && settings.ipv6Enabled ==> Ipv6.Derive(Ipv6.FromUint32(address), settings.ipv6Prefix).Success?
    }

    function Draft(id: string, protocol: Protocol, key: string, ephemeral: bool, address: Ipam.uint32, world: World): Record {
      Record(id, settings.nodeId, protocol, address, key, ephemeral, world.createdAt, world.lastSeenAt)
    }

    /** The backend was asked, refused, and has the entry all the same. */
    predicate LeavesBehind(protocol: Protocol, address: Ipam.uint32, world: World) {
      Paired(protocol, address) && !world.accepted && world.leftBehind
    }

    /** A connect that got an address: published if pairing and backend agreed, rolled back otherwise. */
    ghost predicate Attempted(s: Server, t: Server, r: Record, world: World, response: Response) {
      && CanConnect(s, r) && 0 <= r.virtualIp < Ipam.WORD
      && response == (if Paired(r.protocol, r.virtualIp) && world.accepted then Established(r) else Failed)
      && t == if response.Established? then Connected(s, r) else RolledBack(s, r, LeavesBehind(r.protocol, r.virtualIp, world))
    }

    /** A connect past its early checks: turned away by an exhausted pool, or an attempt on the next free address. */
    ghost predicate Connects(s: Server, t: Server, id: string, protocol: Protocol, key: string, ephemeral: bool, world: World,
                             r: Response) {
      && PoolOf(protocol) in s.pools
      && if r.Unavailable? then Ipam.Exhausted(s.pools[PoolOf(protocol)]) && t == TurnedAway(s, id)
      else exists a: Ipam.uint32 :: Attempted(s, t, Draft(id, protocol, key, ephemeral, a, world), world, r)
    }

    lemma AttemptReaches(s: Server, t: Server, r: Record, world: World, response: Response)
      requires Attempted(s, t, r, world, response)
      ensures Reaches(s, t, response.Failed? ==> !world.leftBehind)
    {
      if response.Established? {
        ConnectReaches(s, r);
      } else {
        RolledBackReaches(s, r, LeavesBehind(r.protocol, r.virtualIp, world));
      }
    }

    lemma ConnectsReaches(s: Server, t: Server, id: string, protocol: Protocol, key: string, ephemeral: bool, world: World,
                          r: Response)
      requires LeasesMatch(s) && Enabled(s, Admit(id, protocol, key))
      requires Connects(s, t, id, protocol, key, ephemeral, world, r)
      ensures Reaches(s, t, r.Failed? ==> !world.leftBehind) && LeasesMatch(t)
    {
      if r.Unavailable? {
        TurnedAwaySteps(s, Draft(id, protocol, key, ephemeral, 0, world));
      } else {
        var a: Ipam.uint32 :| Attempted(s, t, Draft(id, protocol, key, ephemeral, a, world), world, r);
        AttemptReaches(s, t, Draft(id, protocol, key, ephemeral, a, world), world, r);
      }
      ReachesKeepsLeases(s, t, r.Failed? ==> !world.leftBehind);
    }

    /** Undoes a lease whose IPv6 pairing or backend command failed. */
    method RollBack(ghost s: Server, r: Record, applied: bool)
      requires Tied() && CanConnect(s, r) && model == Holding(s, r, Leased(r.protocol, r.peerKey, r.virtualIp))
      requires 0 <= r.virtualIp < Ipam.WORD && PoolOf(r.protocol) in pools
      modifies this`model, this`backends, pools[PoolOf(r.protocol)]
      ensures Tied() && model == RolledBack(s, r, applied)
    {
      RefusedHolds(s, r, applied);
      FailPeer(r.id, r.protocol, r.peerKey, r.virtualIp, applied);
      ReturnedRollsBack(s, r, applied);
      ReturnLease(r.id, r.protocol, r.virtualIp);
    }

    /** The backend accepted: pin the peer and publish the session. */
    method Complete(ghost s: Server, r: Record)
      requires Tied() && CanConnect(s, r) && model == Granted(AdmittedTo(s, r), r.id, r.virtualIp)
      requires 0 <= r.virtualIp < Ipam.WORD
      modifies this`model, this`backends, sessions
      ensures Tied() && model == Connected(s, r)
    {
      ConnectSteps(s, r);
      AddPeer(r.id, r.protocol, r.peerKey, r.virtualIp);
      PutSession(r);
    }

    /** With the lease taken: pairing and backend decide between publishing and rolling back. */
    method Settle(ghost s: Server, r: Record, world: World) returns (response: Response)
      requires Tied() && CanConnect(s, r) && model == Granted(AdmittedTo(s, r), r.id, r.virtualIp)
      requires 0 <= r.virtualIp < Ipam.WORD && PoolOf(r.protocol) in pools
      modifies this`model, this`backends, sessions, pools[PoolOf(r.protocol)]
      ensures Tied() && Attempted(s, model, r, world, response)
    {
      if Paired(r.protocol, r.virtualIp) && world.accepted {
        Complete(s, r);
        response := Established(r);
      } else {
        GrantedHolds(s, r);
        RollBack(s, r, LeavesBehind(r.protocol, r.virtualIp, world));
        response := Failed;
      }
    }

    method AdmitAndLease(ghost s: Server, ghost r: Record, id: string, protocol: Protocol) returns (lease: Result<Ipam.uint32>)
      requires Tied() && model == s && PoolsOk(s) && PlacesOk(s) && PoolOf(protocol) in pools
      requires r.id == id && r.protocol == protocol && Enabled(s, Admit(id, protocol, r.peerKey))
      modifies this`model, pools[PoolOf(protocol)]
      ensures Tied()
      ensures lease.Failure? ==> Ipam.Exhausted(s.pools[PoolOf(protocol)]) && model == TurnedAway(s, id)
      ensures lease.Success? ==>
                && Enabled(AdmittedTo(s, r), Lease(id, lease.value)) && Ipam.Next(s.pools[PoolOf(protocol)], lease.value)
                && model == Granted(AdmittedTo(s, r), id, lease.value)
    {
      Track(AdmittedTo(s, r));
      lease := TakeLease(id, protocol);
      if lease.Failure? {
        TurnedAwaySteps(s, r);
        Track(TurnedAway(s, id));
      }
    }

    /** The part a connect shares between the three protocols, once its tools are known to be there. */
    method Establish(id: string, protocol: Protocol, key: string, ephemeral: bool, world: World) returns (r: Response)
      requires Tied() && PoolsOk(model) && PlacesOk(model) && PoolOf(protocol) in pools
      requires Enabled(model, Admit(id, protocol, key)) && world.lastSeenAt <= model.now
      modifies this`model, this`backends, sessions, pools[PoolOf(protocol)]
      ensures Tied()
      ensures Connects(old(model), model, id, protocol, key, ephemeral, world, r)
    {
      ghost var s := model;
      var lease := AdmitAndLease(s, Draft(id, protocol, key, ephemeral, 0, world), id, protocol);
      if lease.Failure? {
        return Unavailable;
      }
      r := Settle(s, Draft(id, protocol, key, ephemeral, lease.value, world), world);
    }

    /** Whether, and how, a connect is turned away before it tries for an address. */
    function Early(s: Server, protocol: Option<Protocol>, clientKey: string, world: World): Option<Response> {
      if 0 <= settings.cap <= |s.store| then Some(Full)
      else if protocol.None? then Some(UnknownProtocol)
      else if PoolOf(protocol.value) !in s.pools || !world.available then Some(Unavailable)
      else if protocol.value.WireGuard? && clientKey != "" && !world.keyValid then Some(BadKey)
      else None
    }

    method Screen(protocol: Option<Protocol>, clientKey: string, world: World) returns (r: Option<Response>)
      requires Tied()
      ensures r == Early(model, protocol, clientKey, world)
    {
      var count := sessions.Count();
      if 0 <= settings.cap <= count {
        return Some(Full);
      }
      if protocol.None? {
        return Some(UnknownProtocol);
      }
      if PoolOf(protocol.value) !in pools || !world.available {
        return Some(Unavailable);
      }
      if protocol.value.WireGuard? && clientKey != "" && !world.keyValid {
        return Some(BadKey);
      }
      return None;
    }

    /** A connect past its early checks, as a run of the lifecycle. */
    method Proceed(id: string, protocol: Protocol, key: string, ephemeral: bool, world: World) returns (r: Response)
      requires Valid() && PoolOf(protocol) in pools && Enabled(model, Admit(id, protocol, key)) && world.lastSeenAt <= model.now
      modifies this`model, this`backends, sessions, pools[PoolOf(protocol)]
      ensures Valid() && Reaches(old(model), model, r.Failed? ==> !world.leftBehind)
      ensures Connects(old(model), model, id, protocol, key, ephemeral, world, r)
    {
      ghost var s := model;
      r := Establish(id, protocol, key, ephemeral, world);
      ConnectsReaches(s, model, id, protocol, key, ephemeral, world, r);
    }

    /** The name a session has towards its backend. */
    function KeyFor(protocol: Protocol, clientKey: string, generated: string, id: string): string {
      if !protocol.WireGuard? then id else if clientKey == "" then generated else clientKey
    }

    /** The whole of a connect: turned away early, or tried for an address. */
    ghost predicate Answered(s: Server, t: Server, protocol: Option<Protocol>, clientKey: string, generated: string, minted: string,
                             world: World, r: Response) {
      var early := Early(s, protocol, clientKey, world);
      if early.Some? then r == early.value && t == s
      else
        protocol.Some? &&
        Connects(s, t, minted, protocol.value, KeyFor(protocol.value, clientKey, generated, minted),
                 protocol.value.WireGuard? && clientKey == "", world, r)
    }

    /** A refused connect leaves an entry exactly if its backend was asked and the command took effect all the same. */
    ghost predicate LeftOver(s: Server, t: Server, protocol: Protocol, key: string, id: string, world: World) {
      var p := if protocol.WireGuard? then WgPool else if protocol.IkeV2? then IkePool else OvpnPool;
      if world.leftBehind && !world.accepted && (protocol == WireGuard && settings.ipv6Enabled ==> Roomy(settings.ipv6Prefix)) then
        p in t.backends && key in t.backends[p] && t.backends[p][key].writer == id
      else t.backends == s.backends
    }

    lemma FailedKeepsLeases(s: Server, t: Server, draft: Record, applied: bool)
      requires CanConnect(s, draft) && t == RolledBack(s, draft, applied)
      ensures SameLeases(s.pools, t.pools)
    {
      var p := PoolOf(draft.protocol);
      assert draft.virtualIp !in s.pools[p].leases;
      assert s.pools[p].leases[draft.virtualIp := draft.id] - {draft.virtualIp} == s.pools[p].leases;
    }

    /** What an attempt on a free address answers and leaves. */
    lemma AttemptMeans(s: Server, t: Server, draft: Record, world: World, r: Response)
      requires PoolsOk(s) && Attempted(s, t, draft, world, r)
      ensures var p := if draft.protocol.WireGuard? then WgPool else if draft.protocol.IkeV2? then IkePool else OvpnPool;
              && p in s.pools && p in t.pools && p in t.backends && s.pools[p].config.network < draft.virtualIp
              && draft.virtualIp < s.pools[p].config.network + s.pools[p].config.numHosts + 2 && draft.virtualIp !in s.pools[p].leases
              && (r.Established? ==>
                    && Ipam.Allocates(s.pools[p], draft.id, draft.virtualIp, t.pools[p])
                    && draft.peerKey in t.backends[p] && t.backends[p][draft.peerKey] == Pin(draft.virtualIp, draft.id))
      ensures r == if world.accepted
                      && (draft.protocol == WireGuard && settings.ipv6Enabled ==> Roomy(settings.ipv6Prefix))
                   then Established(draft) else Failed
      ensures t.store == if r.Established? then s.store[draft.id := draft] else s.store
      ensures r == Failed ==> SameLeases(s.pools, t.pools) && LeftOver(s, t, draft.protocol, draft.peerKey, draft.id, world)
    {
      if r == Failed {
        FailedKeepsLeases(s, t, draft, LeavesBehind(draft.protocol, draft.virtualIp, world));
      }
      Ipv6.DeriveAccepts(Ipv6.FromUint32(draft.virtualIp), settings.ipv6Prefix);
      Ipam.WrapBelow(s.pools[PoolOf(draft.protocol)].config.numHosts + 2);
    }

    lemma TriedMeans(s: Server, t: Server, id: string, protocol: Protocol, key: string, ephemeral: bool, world: World, r: Response)
      requires PoolsOk(s) && Connects(s, t, id, protocol, key, ephemeral, world, r)
      ensures var p := if protocol.WireGuard? then WgPool else if protocol.IkeV2? then IkePool else OvpnPool;
              && p in s.pools
              && (r == Unavailable <==> AllTaken(s.pools[p]))
              && (r.Established? ==>
                    && p in t.pools && p in t.backends
                    && r.record == Record(id, settings.nodeId, protocol, r.record.virtualIp, key, ephemeral, world.createdAt, world.lastSeenAt)
                    && Ipam.Allocates(s.pools[p], id, r.record.virtualIp, t.pools[p])
                    && key in t.backends[p] && t.backends[p][key] == Pin(r.record.virtualIp, id))
      ensures r == Unavailable || r == Failed || r.Established?
      ensures r.Established? <==>
                && r != Unavailable && world.accepted
                && (protocol == WireGuard && settings.ipv6Enabled ==> Roomy(settings.ipv6Prefix))
      ensures t.store == if r.Established? then s.store[id := r.record] else s.store
      ensures !r.Established? ==> SameLeases(s.pools, t.pools)
      ensures r == Failed ==> LeftOver(s, t, protocol, key, id, world)
    {
      if r.Unavailable? {
        PoolFacts.ExhaustedIsFull(s.pools[PoolOf(protocol)]);
      } else {
        var a: Ipam.uint32 :| Attempted(s, t, Draft(id, protocol, key, ephemeral, a, world), world, r);
        AttemptMeans(s, t, Draft(id, protocol, key, ephemeral, a, world), world, r);
      }
    }

    /** The answer to a connect, condition by condition, and what the client gets. */
    lemma AnswerMeans(s: Server, t: Server, protocol: Option<Protocol>, clientKey: string, generated: string, minted: string,
                      world: World, r: Response)
      requires PoolsOk(s) && s.cap == settings.cap
      requires Answered(s, t, protocol, clientKey, generated, minted, world, r)
      ensures r == Full <==> 0 <= settings.cap <= |s.store|
      ensures r == UnknownProtocol <==> r != Full && protocol.None?
      ensures r == BadKey <==>
                r != Full && protocol == Some(WireGuard) && WgPool in s.pools && world.available && clientKey != "" && !world.keyValid
      ensures r == Unavailable <==>
                && r != Full && r != BadKey && protocol.Some?
                && var p := if protocol.value.WireGuard? then WgPool else if protocol.value.IkeV2? then IkePool else OvpnPool;
                   (p in s.pools && world.available ==> AllTaken(s.pools[p]))
      ensures r.Established? <==>
                && r != Full && r != BadKey && r != Unavailable && protocol.Some? && world.accepted
                && (protocol == Some(WireGuard) && settings.ipv6Enabled ==> Roomy(settings.ipv6Prefix))
      ensures r.Established? ==>
                var p := if protocol.value.WireGuard? then WgPool else if protocol.value.IkeV2? then IkePool else OvpnPool;
                && p in s.pools && p in t.pools && p in t.backends
                && r.record == Record(minted, settings.nodeId, protocol.value, r.record.virtualIp,
                                      if protocol.value != WireGuard then minted else if clientKey == "" then generated else clientKey,
                                      protocol.value == WireGuard && clientKey == "", world.createdAt, world.lastSeenAt)
                && Ipam.Allocates(s.pools[p], minted, r.record.virtualIp, t.pools[p])
                && r.record.peerKey in t.backends[p] && t.backends[p][r.record.peerKey] == Pin(r.record.virtualIp, minted)
      ensures t.store == if r.Established? then s.store[minted := r.record] else s.store
      ensures !r.Established? ==> SameLeases(s.pools, t.pools)
      ensures r != Failed && !r.Established? ==> t.backends == s.backends
      ensures r == Failed ==>
                var key := if protocol.value != WireGuard then minted else if clientKey == "" then generated else clientKey;
                LeftOver(s, t, protocol.value, key, minted, world)
    {
      if Early(s, protocol, clientKey, world).None? {
        TriedMeans(s, t, minted, protocol.value, KeyFor(protocol.value, clientKey, generated, minted),
                   protocol.value.WireGuard? && clientKey == "", world, r);
      }
    }

    method Answer(protocol: Option<Protocol>, clientKey: string, generated: string, minted: string, world: World)
      returns (r: Response)
      requires Valid() && minted !in model.minted && world.lastSeenAt <= model.now
      modifies this`model, this`backends, sessions, pools.Values
      ensures Valid() && Reaches(old(model), model, r.Failed? ==> !world.leftBehind)
      ensures Answered(old(model), model, protocol, clientKey, generated, minted, world, r)
    {
      StaysPut(model);
      var early := Screen(protocol, clientKey, world);
      if early.Some? {
        return early.value;
      }
      var key := KeyFor(protocol.value, clientKey, generated, minted);
      var ephemeral := protocol.value.WireGuard? && clientKey == "";
      r := Proceed(minted, protocol.value, key, ephemeral, world);
    }

    /** `clientKey` is empty when the client leaves key generation to the node; `minted` is a fresh session id. */
    method HandleConnect(protocol: Option<Protocol>, clientKey: string, generated: string, minted: string, world: World)
      returns (r: Response)
      requires Valid() && minted !in model.minted && world.lastSeenAt <= model.now
      modifies this`model, this`backends, sessions, pools.Values
      ensures Valid() && Reaches(old(model), model, r.Failed? ==> !world.leftBehind)
      ensures Answered(old(model), model, protocol, clientKey, generated, minted, world, r)
      ensures r == Full <==> 0 <= settings.cap <= |old(model).store|
      ensures r == UnknownProtocol <==> r != Full && protocol.None?
      ensures r == BadKey <==>
                r != Full && protocol == Some(WireGuard) && WgPool in old(model).pools && world.available && clientKey != "" && !world.keyValid
      ensures r == Unavailable <==>
                && r != Full && r != BadKey && protocol.Some?
                && var p := if protocol.value.WireGuard? then WgPool else if protocol.value.IkeV2? then IkePool else OvpnPool;
                   (p in old(model).pools && world.available ==> AllTaken(old(model).pools[p]))
      ensures r.Established? <==>
                && r != Full && r != BadKey && r != Unavailable && protocol.Some? && world.accepted
                && (protocol == Some(WireGuard) && settings.ipv6Enabled ==> Roomy(settings.ipv6Prefix))
      ensures r.Established? ==>
                var p := if protocol.value.WireGuard? then WgPool else if protocol.value.IkeV2? then IkePool else OvpnPool;
                && p in old(model).pools && p in model.pools && p in model.backends
                && r.record == Record(minted, settings.nodeId, protocol.value, r.record.virtualIp,
                                      if protocol.value != WireGuard then minted else if clientKey == "" then generated else clientKey,
                                      protocol.value == WireGuard && clientKey == "", world.createdAt, world.lastSeenAt)
                && Ipam.Allocates(old(model).pools[p], minted, r.record.virtualIp, model.pools[p])
                && r.record.peerKey in model.backends[p] && model.backends[p][r.record.peerKey] == Pin(r.record.virtualIp, minted)
      ensures model.store == if r.Established? then old(model).store[minted := r.record] else old(model).store
      ensures !r.Established? ==> SameLeases(old(model).pools, model.pools)
      ensures r != Failed && !r.Established? ==> model.backends == old(model).backends
      ensures r == Failed ==>
                var key := if protocol.value != WireGuard then minted else if clientKey == "" then generated else clientKey;
                LeftOver(old(model), model, protocol.value, key, minted, world)
    {
      ghost var s := model;
      r := Answer(protocol, clientKey, generated, minted, world);
      AnswerMeans(s, model, protocol, clientKey, generated, minted, world, r);
    }

    // ---- removals ----

    method TakeOut(id: string) returns (r: Option<Session>)
      requires Tied()
      modifies this`model, sessions
      ensures Tied() && sessions.sessions == old(sessions.sessions) - {id}
      ensures r.Some? <==> id in old(model).store
      ensures r.Some? ==> id in old(sessions.sessions) && r.value == old(sessions.sessions)[id]
      ensures r.Some? ==> r.value.Rec() == old(model).store[id] && model == TakenOut(old(model), {id})
      ensures r.None? ==> model == old(model)
    {
      r := sessions.Delete(id);
      if r.Some? {
        Track(TakenOut(model, {id}));
      }
    }

    /** Backend removal and then the release, for a protocol this node runs. */
    method RemoveAndFree(s: Session, key: string, succeeded: bool)
      requires Tied() && PoolOf(s.protocol) in pools
      requires s.virtualIp in model.pools[PoolOf(s.protocol)].leases ==> 0 <= s.virtualIp < Ipam.WORD
      requires CanEnd(model, s.id, succeeded) && HasLease(s, model.removing[s.id].record)
      requires key == BackendKey(model.removing[s.id].record)
      modifies this`model, this`backends, pools[PoolOf(s.protocol)]
      ensures Tied() && CanEnd(old(model), s.id, succeeded) && model == Ended(old(model), s.id, succeeded)
    {
      RemovePeer(s.id, s.protocol, key, succeeded);
      FreeLease(s.id, s.protocol, s.virtualIp);
    }

    /**
     * Backend removal, whose failure is only logged, and then the release of
     * the address; nothing for a protocol this node does not run.
     */
    method ReleaseSession(s: Session, succeeded: bool)
      requires Tied() && CanEnd(model, s.id, succeeded) && HasLease(s, model.removing[s.id].record)
      requires PoolOf(s.protocol) in pools && s.virtualIp in model.pools[PoolOf(s.protocol)].leases ==>
                 0 <= s.virtualIp < Ipam.WORD
      modifies this`model, this`backends, pools.Values
      ensures Tied() && CanEnd(old(model), s.id, succeeded) && model == Ended(old(model), s.id, succeeded)
    {
      if PoolOf(s.protocol) !in pools {
        Track(Skipped(model, s.id));
        return;
      }
      match s.protocol {
        case WireGuard => RemoveAndFree(s, s.peerKey, succeeded);
        case OpenVpnUdp | OpenVpnTcp => RemoveAndFree(s, s.peerKey, succeeded);
        case IkeV2 => RemoveAndFree(s, s.id, succeeded);
      }
    }

    /**
     * Ends a session once: an unknown or already ended id changes nothing,
     * and a session of a protocol this node does not run only leaves the table.
     */
    method HandleDisconnect(id: string, succeeded: bool) returns (found: bool)
      requires Valid()
      modifies this`model, this`backends, sessions, pools.Values
      ensures Valid() && Reaches(old(model), model, succeeded)
      ensures found <==> id != "" && id in old(model).store
      ensures found && Orphaned(old(model), id) ==> model == old(model).(store := old(model).store - {id})
      ensures found && !Orphaned(old(model), id) ==> CanRemove(old(model), id) && model == Removed(old(model), id, succeeded)
      ensures !found ==> model == old(model)
    {
      ghost var s := model;
      StaysPut(s);
      if id == "" {
        return false;
      }
      var taken := TakeOut(id);
      if taken.None? {
        return false;
      }
      DisconnectEnds(s, id, succeeded);
      ReleaseSession(taken.value, succeeded);
      ReachesKeepsLeases(s, model, succeeded);
      return true;
    }

    /** The session has the record's lease: everything a removal looks at. */
    predicate HasLease(s: Session, r: Record) {
      s.id == r.id && s.protocol == r.protocol && s.virtualIp == r.virtualIp && s.peerKey == r.peerKey
    }

    /** Sessions of exactly these ids, each once, that can be removed and have the leases the table has for them. */
    ghost predicate Due(ss: seq<Session>, ids: set<string>, s: Server) {
      if ss == [] then ids == {}
      else
        && ss[0].id in ids && Releasable(s, ss[0].id) && HasLease(ss[0], s.store[ss[0].id])
        && Due(ss[1..], ids - {ss[0].id}, s)
    }

    lemma {:induction false} AllDue(ss: seq<Session>, ids: set<string>, s: Server)
      requires forall j, k :: 0 <= j < k < |ss| ==> ss[j].id != ss[k].id
      requires forall i :: 0 <= i < |ss| ==> ss[i].id in s.store && HasLease(ss[i], s.store[ss[i].id])
      requires forall id :: id in ids ==> Releasable(s, id)
      requires IdsOf(ss) == ids
      ensures Due(ss, ids, s)
    {
      if ss != [] {
        assert ss == [ss[0]] + ss[1..];
        assert ss[0].id !in IdsOf(ss[1..]);
        assert ids == IdsOf(ss[1..]) + {ss[0].id};
        AllDue(ss[1..], ids - {ss[0].id}, s);
      }
    }

    method TakeOutIdle(cutoff: real) returns (expired: seq<Session>)
      requires Tied() && forall id :: id in IdleIds(model.store, cutoff) ==> Releasable(model, id)
      modifies this`model, sessions
      ensures Tied() && model == TakenOut(old(model), IdleIds(old(model).store, cutoff))
      ensures Due(expired, IdleIds(old(model).store, cutoff), old(model))
    {
      expired := sessions.ExpireIdle(cutoff);
      AllDue(expired, IdleIds(model.store, cutoff), model);
      Track(TakenOut(model, IdleIds(model.store, cutoff)));
    }

    method ReapOne(ghost s: Server, ghost done: set<string>, ghost pending: set<string>, session: Session, fails: set<string>)
      requires Tied() && model == Reaped(s, done, pending, fails)
      requires Releasable(s, session.id) && HasLease(session, s.store[session.id]) && session.id in pending
      modifies this`model, this`backends, pools.Values
      ensures Tied() && model == Reaped(s, done + {session.id}, pending - {session.id}, fails)
    {
      ReapedNext(s, done, pending, fails, session.id);
      OneLessLeaving(s.removing, s.store, pending, session.id);
      ReleaseSession(session, session.id !in fails);
    }

    method ReapAll(ghost s: Server, ghost idle: set<string>, expired: seq<Session>, fails: set<string>)
      requires Tied() && model == Reaped(s, {}, idle, fails)
      requires Due(expired, idle, s)
      modifies this`model, this`backends, pools.Values
      ensures Tied() && model == Reaped(s, idle, {}, fails)
    {
      ghost var done, pending := {}, idle;
      var rest := expired;
      while rest != []
        invariant Tied() && model == Reaped(s, done, pending, fails)
        invariant done + pending == idle && Due(rest, pending, s)
        decreases |rest|
      {
        ReapOne(s, done, pending, rest[0], fails);
        done, pending, rest := done + {rest[0].id}, pending - {rest[0].id}, rest[1..];
      }
      assert pending == {} && done == idle;
    }

    /** Sessions last seen before this instant are idle at `now`. */
    function Cutoff(now: real): real {
      now - settings.ttl
    }

    method Reap(now: real, fails: set<string>)
      requires Valid() && now <= model.now
      modifies this`model, this`backends, sessions, pools.Values
      ensures Valid() && Reaches(old(model), model, fails == {})
      ensures model == Reaped(old(model), IdleIds(old(model).store, Cutoff(now)), {}, fails)
    {
      ghost var s := model;
      var cutoff := Cutoff(now);
      StoredReleasable(s, IdleIds(s.store, cutoff));
      ReapStart(s, cutoff, fails);
      ReapReaches(s, IdleIds(s.store, cutoff), fails);
      var expired := TakeOutIdle(cutoff);
      ReapAll(s, IdleIds(s.store, cutoff), expired, fails);
      ReachesKeepsLeases(s, model, fails == {});
    }

    /**
     * Ends every session idle for longer than the timeout, and no other;
     * `fails` are those whose backend removal fails.
     */
    method ReapIdle(now: real, fails: set<string>)
      requires Valid() && now <= model.now
      modifies this`model, this`backends, sessions, pools.Values
      ensures Valid() && Reaches(old(model), model, fails == {})
      ensures model == Reaped(old(model), IdleIds(old(model).store, Cutoff(now)), {}, fails)
      ensures forall id :: id in old(model).store ==> (id in model.store <==> now - old(model).store[id].lastSeenAt <= settings.ttl)
      ensures forall id :: id in model.store ==> id in old(model).store && model.store[id] == old(model).store[id]
    {
      ghost var s := model;
      Reap(now, fails);
      ReapKeeps(s, model, Cutoff(now), fails);
    }

    // ---- telemetry ----

    method TouchSession(id: string, now: real)
      requires Tied() && model.now <= now
      modifies this`model
      modifies set s | s in sessions.sessions.Values && s.id == id :: s`lastSeenAt
      ensures Tied() && model == Apply(old(model).(now := now), Touch(id))
    {
      sessions.Touch(id, now);
      Track(Apply(model.(now := now), Touch(id)));
    }

    /**
     * Telemetry keeps a session alive and samples its counters. The counters
     * are the server's: what it sent is the client's download.
     */
    method HandleTelemetry(id: string, report: Report, now: real) returns (r: Option<Telemetry>)
      requires Tied() && model.now <= now
      modifies this`model, sessions.sessions.Values
      ensures Tied()
      ensures r.Some? <==> id != "" && id in old(model).store
      ensures r.None? ==> model == old(model)
      ensures r.Some? ==> model == Apply(old(model).(now := now), Touch(id))
      ensures r.Some? ==>
                var session := sessions.sessions[id];
                var before := old(sessions.sessions[id].Sampling());
                var (received, sent) := if report.Counters? then (report.received, report.sent) else (0, 0);
                && session.Sampling() == Sampled(before, now, sent, received)
                && r.value == Telemetry(Rate(before, now, before.down, sent), Rate(before, now, before.up, received),
                                        session.history, sent, received, HealthOf(session.protocol, report, now))
    {
      if id == "" {
        return None;
      }
      var found := sessions.Get(id);
      if found.None? {
        return None;
      }
      TouchSession(id, now);
      var down, up := 0, 0;
      if report.Counters? {
        down, up := report.sent, report.received;
      }
      var downMbps, upMbps, shown := SampleSession(found.value, now, down, up);
      r := Some(Telemetry(downMbps, upMbps, shown, down, up, HealthOf(found.value.protocol, report, now)));
    }

    method SampleSession(session: Session, now: real, down: nat, up: nat) returns (downMbps: real, upMbps: real, shown: seq<real>)
      requires Tied() && session in sessions.sessions.Values
      modifies session
      ensures Tied() && shown == session.history
      ensures session.Sampling() == Sampled(old(session.Sampling()), now, down, up)
      ensures downMbps == Rate(old(session.Sampling()), now, old(session.lastDown), down)
      ensures upMbps == Rate(old(session.Sampling()), now, old(session.lastUp), up)
    {
      downMbps, upMbps, shown := session.Sample(now, down, up);
      assert forall id :: id in sessions.sessions ==> sessions.sessions[id].Rec() == old(sessions.sessions[id].Rec());
    }

    // ---- load ----

    /** Capacity and leases of one pool, and zeros for a pool this node does not have. */
    method AddPool(p: PoolName, total: int, used: int) returns (total': int, used': int)
      requires Tied()
      ensures total' == total + CapacityOf(model.pools, p) && used' == used + InUseOf(model.pools, p)
    {
      total', used' := total, used;
      if p in pools {
        var capacity := pools[p].Capacity();
        var inUse := pools[p].InUse();
        total', used' := total + capacity, used + inUse;
      }
    }

    method SumPools() returns (total: int, used: int)
      requires Tied()
      ensures total == Total(model.pools) && used == Used(model.pools)
    {
      total, used := 0, 0;
      total, used := AddPool(WgPool, total, used);
      total, used := AddPool(OvpnPool, total, used);
      total, used := AddPool(IkePool, total, used);
    }

    /** The share of all peer addresses in use, in percent: 100 exactly when no pool has a free address. */
    method ComputeSelfLoad() returns (percent: int)
      requires Valid()
      ensures 0 <= percent <= 100 && percent == LoadOf(model.pools)
      ensures percent == 100 <==> model.pools != map[] && AllExhausted(model.pools)
    {
      LoadMeansFull(model.pools);
      var total, used := SumPools();
      if total <= 0 {
        return 0;
      }
      percent := used * 100 / total;
      if percent > 100 {
        percent := 100;
      }
    }

    // ---- start-up, shutdown and restart ----

    /** What a shutdown leaves in the state file, if it writes one. */
    method Shutdown(written: bool) returns (file: Option<seq<Record>>)
      requires Tied()
      ensures file.Some? <==> settings.persists && written
      ensures file.Some? ==> Lists(file.value, model.store)
    {
      if !settings.persists {
        return None;
      }
      var listed := sessions.Persist();
      file := if written then Some(listed) else None;
    }

    /** One restored session: a refused reservation is ignored, as is an address that is none. */
    method ReserveRestored(s: Session, ghost r: Record)
      requires Wired() && HasLease(s, r)
      modifies pools.Values
      ensures Wired() && sessions.Contents() == old(sessions.Contents())
      ensures forall p :: p in pools ==> pools[p].State() == ReservedFor(old(pools[p].State()), p, r)
    {
      var p := PoolOf(s.protocol);
      if 0 <= s.virtualIp < Ipam.WORD && p in pools {
        var ignored := pools[p].Reserve(Some(s.virtualIp), s.id);
      }
    }

    /** Loads the state file and re-marks its addresses as taken, in file order. */
    method Restore(file: seq<Record>)
      requires Tied()
      modifies this`model, sessions, pools.Values
      ensures Tied() && model == Restarted(old(model), file)
      ensures fresh(sessions.sessions.Values - old(sessions.sessions.Values))
    {
      ghost var s := model;
      var restored := LoadSessions(file);
      assert file[..0] == [];
      for i := 0 to |restored|
        modifies pools.Values
        invariant Wired() && sessions.Contents() == Restored(s.store, file)
        invariant forall p :: p in pools ==> pools[p].State() == ReservedFrom(s.pools[p], p, file[..i])
      {
        ReserveRestored(restored[i], file[i]);
        assert file[..i + 1][..i] == file[..i];
      }
      assert file[..|file|] == file;
      Track(Restarted(s, file));
    }

    method LoadSessions(file: seq<Record>) returns (restored: seq<Session>)
      requires Wired()
      modifies sessions
      ensures Wired() && sessions.Contents() == Restored(old(sessions.Contents()), file)
      ensures fresh(sessions.sessions.Values - old(sessions.sessions.Values))
      ensures |restored| == |file| && forall i :: 0 <= i < |file| ==> HasLease(restored[i], file[i])
      ensures forall p :: p in pools ==> pools[p].State() == old(pools[p].State())
    {
      restored := sessions.Load(file);
      assert forall i :: 0 <= i < |file| ==> restored[i].Rec() == file[i];
    }

    /** Builds the node: all pools or an error, an empty table, and the backends as they are found. */
    static method Assemble(settings: Settings, subnets: map<PoolName, Subnet>, backends: map<PoolName, Backend>, now: real,
                           startup: Startup)
      returns (r: Result<App>)
      requires Parsed(subnets)
      ensures r.Success? <==> Starts(subnets, startup)
      ensures r.Success? ==>
                && fresh(r.value) && fresh(r.value.sessions) && fresh(r.value.pools.Values) && r.value.sessions.sessions == map[]
                && r.value.Tied() && r.value.settings == settings && r.value.model == NewProcess(settings, subnets, backends, now)
    {
      if WgPool in subnets && !startup.identity {
        return Failure("bootstrapping WireGuard identity");
      }
      var pools := BuildPools(subnets);
      if pools.Failure? {
        return Failure(pools.message);
      }
      if !startup.registry {
        return Failure("loading fleet registry");
      }
      var app := new App(settings, pools.value, backends, now);
      BuiltAreNew(pools.value, subnets);
      r := Success(app);
    }

    /**
     * A process starts: it builds the node and restores `file`, which is
     * empty where there is none or none that can be read.
     */
    static method StartNode(settings: Settings, subnets: map<PoolName, Subnet>, backends: map<PoolName, Backend>, now: real,
                            startup: Startup, file: seq<Record>)
      returns (r: Result<App>)
      requires Parsed(subnets)
      ensures r.Success? <==> Starts(subnets, startup)
      ensures r.Success? ==>
                && fresh(r.value) && fresh(r.value.sessions) && fresh(r.value.pools.Values) && fresh(r.value.sessions.sessions.Values)
                && r.value.Tied() && r.value.settings == settings
                && r.value.model == Restarted(NewProcess(settings, subnets, backends, now), Loaded(settings, file))
    {
      r := Assemble(settings, subnets, backends, now, startup);
      if r.Success? {
        r.value.Restore(Loaded(settings, file));
      }
    }

    /** The node just started is in order exactly when its state file restores. */
    lemma RestoredIsValid(subnets: map<PoolName, Subnet>, backends: map<PoolName, Backend>, now: real, file: seq<Record>)
      requires Parsed(subnets) && AllConfigured(subnets) && NoneIsSlashZero(subnets) && subnets.Keys <= backends.Keys
      requires Tied() && model == Restarted(NewProcess(settings, subnets, backends, now), file)
      ensures Valid() <==> Restores(NewProcess(settings, subnets, backends, now), file)
    {
      ProcessIsBlank(settings, subnets, backends, now);
      RestoresIff(NewProcess(settings, subnets, backends, now), file);
    }

    /** A first start, with nothing in the backends and no state file, is in order, whatever happens afterwards. */
    static method StartFresh(settings: Settings, subnets: map<PoolName, Subnet>, now: real, startup: Startup) returns (r: Result<App>)
      requires Parsed(subnets) && NoneIsSlashZero(subnets)
      ensures r.Success? <==> Starts(subnets, startup)
      ensures r.Success? ==>
                && fresh(r.value) && fresh(r.value.sessions) && fresh(r.value.pools.Values) && fresh(r.value.sessions.sessions.Values)
                && r.value.Valid() && JustStarted(r.value.model) && Inv(r.value.model)
                && r.value.settings == settings && r.value.model.now == now && r.value.model.minted == {}
    {
      r := StartNode(settings, subnets, map p | p in subnets :: map[], now, startup, []);
      if r.Success? {
        FreshIsJustStarted(settings, subnets, now);
        StartIsSound(r.value.model);
      }
    }

    /**
     * A planned restart on the same blocks, possibly with fewer protocols: if
     * the shutdown wrote its state file, the new process has the same
     * sessions, owes them the same addresses, and is in order.
     */
    method RestartPlanned(subnets: map<PoolName, Subnet>, now: real, startup: Startup, written: bool, last: seq<Record>)
      returns (r: Result<App>)
      requires Valid() && Inv(model) && Quiet(model) && settings.persists
      requires Parsed(subnets) && SameBlocks(model, subnets)
      ensures r.Success? <==> Starts(subnets, startup)
      ensures r.Success? ==>
                && fresh(r.value) && fresh(r.value.sessions) && fresh(r.value.pools.Values) && fresh(r.value.sessions.sessions.Values)
      ensures r.Success? && written ==>
                r.value.Valid() && Inv(r.value.model) && Quiet(r.value.model) && Resumes(model, r.value.model)
    {
      ghost var s := model;
      var saved := Shutdown(written);
      var file := if saved.Some? then saved.value else last;
      r := StartNode(settings, subnets, backends, now, startup, file);
      if r.Success? && written {
        SameNode(s, settings, subnets, now);
        RestartRoundTrip(s, NewProcess(settings, subnets, backends, now), file);
      }
    }
  }
}

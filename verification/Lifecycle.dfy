/**
 * The tunnel lease lifecycle as a transition system. Every call that holds a
 * lock (a pool call, a session table call, a backend command) is one step;
 * requests and the idle reaper interleave freely between steps. A history
 * variable per session id says how far its connect or its removal has come.
 */
module Lifecycle {
  import opened Results
  import opened Sessions
  import Ipam

  datatype PoolName = WgPool | OvpnPool | IkePool

  /** UDP and TCP share one OpenVPN pool. */
  function PoolOf(p: Protocol): PoolName {
    match p
    case WireGuard => WgPool
    case OpenVpnUdp | OpenVpnTcp => OvpnPool
    case IkeV2 => IkePool
  }

  /** A backend entry: the pinned tunnel address, and (a history variable) the session that wrote it. */
  datatype Pin = Pin(address: int, writer: string)

  /** WireGuard peers by public key; OpenVPN and IKEv2 credentials by session id. */
  type Backend = map<string, Pin>

  /** A connect past the capacity check and not yet in the session table. */
  datatype Connect =
    | Admitted(protocol: Protocol, key: string)
    | Leased(protocol: Protocol, key: string, address: int)
    | Provisioned(protocol: Protocol, key: string, address: int)
    | Refused(protocol: Protocol, key: string, address: int)

  /** A session taken out of the table whose address is not yet released. */
  datatype Removal = Removal(record: Record, unpinned: bool)

  datatype Server = Server(
    cap: int,
    ttl: real,
    pools: map<PoolName, Ipam.PoolState>,
    backends: map<PoolName, Backend>,
    store: Table,
    connecting: map<string, Connect>,
    removing: map<string, Removal>,
    minted: set<string>,
    now: real
  )

  /** The name a removal uses towards the backend. */
  function BackendKey(r: Record): string {
    if r.protocol == IkeV2 then r.id else r.peerKey
  }

  datatype Label =
    | Tick(t: real)
    | Admit(id: string, protocol: Protocol, key: string)
    | GiveUp(id: string)
    | Lease(id: string, address: int)
    | Provision(id: string)
    | Refuse(id: string, applied: bool)
    | Return(id: string)
    | Publish(record: Record)
    | Touch(id: string)
    | Disconnect(id: string)
    | Expire(cutoff: real)
    | Unpin(id: string, succeeded: bool)
    | Release(id: string)
    | Skip(id: string)

  ghost predicate Enabled(s: Server, l: Label) {
    match l
    case Tick(t) => s.now <= t
    // A negative cap means no cap; session ids are fresh; only WireGuard clients choose their backend key.
    case Admit(id, protocol, key) =>
      id !in s.minted && (s.cap < 0 || |s.store| < s.cap) && (protocol.WireGuard? || key == id)
    // The backend is off or unavailable, the key is invalid, or the pool is exhausted.
    case GiveUp(id) => id in s.connecting && s.connecting[id].Admitted?
    case Lease(id, address) =>
      && id in s.connecting && s.connecting[id].Admitted?
      && PoolOf(s.connecting[id].protocol) in s.pools
      && Ipam.Next(s.pools[PoolOf(s.connecting[id].protocol)], address)
    case Provision(id) =>
      && id in s.connecting && s.connecting[id].Leased?
      && PoolOf(s.connecting[id].protocol) in s.pools && PoolOf(s.connecting[id].protocol) in s.backends
    // The IPv6 pairing or the backend command failed; a failed command may have taken effect all the same.
    case Refuse(id, applied) =>
      && id in s.connecting && s.connecting[id].Leased?
      && (applied ==> PoolOf(s.connecting[id].protocol) in s.pools && PoolOf(s.connecting[id].protocol) in s.backends)
    case Return(id) => id in s.connecting && s.connecting[id].Refused? && PoolOf(s.connecting[id].protocol) in s.pools
    case Publish(r) =>
      && r.id in s.connecting
      && s.connecting[r.id] == Provisioned(r.protocol, r.peerKey, r.virtualIp)
      && r.lastSeenAt <= s.now
    case Touch(id) => true
    case Disconnect(id) => id in s.store
    // The cutoff is computed from a clock reading taken before the lock.
    case Expire(cutoff) => cutoff + s.ttl <= s.now
    // `succeeded` says that the entry is gone, whatever the command returned.
    case Unpin(id, succeeded) =>
      && id in s.removing && !s.removing[id].unpinned
      && PoolOf(s.removing[id].record.protocol) in s.pools && PoolOf(s.removing[id].record.protocol) in s.backends
    case Release(id) =>
      && id in s.removing && s.removing[id].unpinned
      && PoolOf(s.removing[id].record.protocol) in s.pools
    // A session restored on a node that no longer runs its protocol: there is nothing to undo.
    case Skip(id) => id in s.removing && PoolOf(s.removing[id].record.protocol) !in s.pools
  }

  function WithPool(s: Server, p: PoolName, pool: Ipam.PoolState): Server {
    s.(pools := s.pools[p := pool])
  }

  function WithBackend(s: Server, p: PoolName, b: Backend): Server {
    s.(backends := s.backends[p := b])
  }

  /** Moves sessions from the table to their removers. */
  function TakenOut(s: Server, ids: set<string>): Server
    requires ids <= s.store.Keys
  {
    s.(store := Without(s.store, ids), removing := s.removing + map id | id in ids :: Removal(s.store[id], false))
  }

  function Granted(s: Server, id: string, address: int): Server
    requires Enabled(s, Lease(id, address))
  {
    var c := s.connecting[id];
    WithPool(s, PoolOf(c.protocol), Ipam.Leased(s.pools[PoolOf(c.protocol)], id, address))
    .(connecting := s.connecting[id := Leased(c.protocol, c.key, address)])
  }

  /** The entries that do not pin this address. */
  function Evicted(b: Backend, address: int): Backend {
    map k | k in b && b[k].address != address :: b[k]
  }

  /**
   * A backend after writing one entry. A WireGuard interface routes an
   * address to one peer only, so there the address leaves any other peer.
   */
  function Upserted(b: Backend, p: PoolName, key: string, pin: Pin): Backend {
    (if p == WgPool then Evicted(b, pin.address) else b)[key := pin]
  }

  /** The entry of a connect that holds a lease is written. */
  function Wrote(s: Server, id: string): map<PoolName, Backend>
    requires id in s.connecting && s.connecting[id].Leased? && PoolOf(s.connecting[id].protocol) in s.backends
  {
    var c := s.connecting[id];
    var p := PoolOf(c.protocol);
    s.backends[p := Upserted(s.backends[p], p, c.key, Pin(c.address, id))]
  }

  function RefusedIn(s: Server, id: string, applied: bool): Server
    requires Enabled(s, Refuse(id, applied))
  {
    var c := s.connecting[id];
    s.(backends := if applied then Wrote(s, id) else s.backends,
    connecting := s.connecting[id := Refused(c.protocol, c.key, c.address)])
  }

  function Pinned(s: Server, id: string): Server
    requires Enabled(s, Provision(id))
  {
    var c := s.connecting[id];
    s.(backends := Wrote(s, id),
    connecting := s.connecting[id := Provisioned(c.protocol, c.key, c.address)])
  }

  function GivenBack(s: Server, id: string): Server
    requires Enabled(s, Return(id))
  {
    var c := s.connecting[id];
    WithPool(s, PoolOf(c.protocol), Ipam.Released(s.pools[PoolOf(c.protocol)], c.address))
    .(connecting := s.connecting - {id})
  }

  function Published(s: Server, r: Record): Server {
    s.(store := s.store[r.id := r], connecting := s.connecting - {r.id})
  }

  function Unpinned(s: Server, id: string, succeeded: bool): Server
    requires Enabled(s, Unpin(id, succeeded))
  {
    var r := s.removing[id].record;
    var p := PoolOf(r.protocol);
    WithBackend(s, p, if succeeded then s.backends[p] - {BackendKey(r)} else s.backends[p])
    .(removing := s.removing[id := Removal(r, true)])
  }

  function Freed(s: Server, id: string): Server
    requires Enabled(s, Release(id))
  {
    var r := s.removing[id].record;
    WithPool(s, PoolOf(r.protocol), Ipam.Released(s.pools[PoolOf(r.protocol)], r.virtualIp))
    .(removing := s.removing - {id})
  }

  function Skipped(s: Server, id: string): Server {
    s.(removing := s.removing - {id})
  }

  function Apply(s: Server, l: Label): Server
    requires Enabled(s, l)
  {
    match l
    case Tick(t) => s.(now := t)
    case Admit(id, protocol, key) =>
      s.(connecting := s.connecting[id := Admitted(protocol, key)], minted := s.minted + {id})
    case GiveUp(id) => s.(connecting := s.connecting - {id})
    case Lease(id, address) => Granted(s, id, address)
    case Provision(id) => Pinned(s, id)
    case Refuse(id, applied) => RefusedIn(s, id, applied)
    case Return(id) => GivenBack(s, id)
    case Publish(r) => Published(s, r)
    case Touch(id) => s.(store := Touched(s.store, id, s.now))
    case Disconnect(id) => TakenOut(s, {id})
    case Expire(cutoff) => TakenOut(s, IdleIds(s.store, cutoff))
    case Unpin(id, succeeded) => Unpinned(s, id, succeeded)
    case Release(id) => Freed(s, id)
    case Skip(id) => Skipped(s, id)
  }

  ghost predicate ValidRun(s: Server, ls: seq<Label>)
    decreases |ls|
  {
    ls == [] || (Enabled(s, ls[0]) && ValidRun(Apply(s, ls[0]), ls[1..]))
  }

  ghost function After(s: Server, ls: seq<Label>): Server
    requires ValidRun(s, ls)
    decreases |ls|
  {
    if ls == [] then s else After(Apply(s, ls[0]), ls[1..])
  }

  /** Backend commands do what they report: removals succeed, and a refused entry is not there. */
  predicate Dependable(l: Label) {
    (l.Unpin? ==> l.succeeded) && (l.Refuse? ==> !l.applied)
  }

  ghost predicate Reliable(ls: seq<Label>) {
    forall i :: 0 <= i < |ls| ==> Dependable(ls[i])
  }

  // ---- who owns what ----

  datatype Claim = Claim(pool: PoolName, address: int, key: string)

  function RecordClaim(r: Record): Claim {
    Claim(PoolOf(r.protocol), r.virtualIp, BackendKey(r))
  }

  /** The address a session id is entitled to, by its phase. */
  function Holds(s: Server, id: string): Option<Claim> {
    if id in s.store then Some(RecordClaim(s.store[id]))
    else if id in s.connecting && !s.connecting[id].Admitted? then
      Some(Claim(PoolOf(s.connecting[id].protocol), s.connecting[id].address, s.connecting[id].key))
    else if id in s.removing then Some(RecordClaim(s.removing[id].record))
    else None
  }

  /** The backend entry a session id may have written and not yet removed. */
  function Pins(s: Server, id: string): Option<Claim> {
    if id in s.connecting && !s.connecting[id].Provisioned? then None
    else if id in s.removing && s.removing[id].unpinned then None
    else Holds(s, id)
  }

  ghost predicate PoolsOk(s: Server) {
    && s.pools.Keys <= s.backends.Keys
    && forall p :: p in s.pools ==> s.pools[p].Valid()
  }

  /** An id is in one place at a time. */
  ghost predicate PlacesOk(s: Server) {
    && s.store.Keys !! s.connecting.Keys && s.store.Keys !! s.removing.Keys && s.connecting.Keys !! s.removing.Keys
    && s.store.Keys <= s.minted && s.connecting.Keys <= s.minted && s.removing.Keys <= s.minted
  }

  /** Records carry their own id, and outside WireGuard a session is its own backend key. */
  ghost predicate KeysOk(s: Server) {
    && (forall id :: id in s.store ==> s.store[id].id == id && KeyOk(id, s.store[id].protocol, s.store[id].peerKey))
    && (forall id :: id in s.connecting ==> KeyOk(id, s.connecting[id].protocol, s.connecting[id].key))
    && (forall id :: id in s.removing ==>
          s.removing[id].record.id == id && KeyOk(id, s.removing[id].record.protocol, s.removing[id].record.peerKey))
  }

  predicate KeyOk(id: string, protocol: Protocol, key: string) {
    protocol.WireGuard? || key == id
  }

  /** Every claim is leased to its session, in its pool, if this node has that pool. */
  ghost predicate ClaimsLeased(s: Server) {
    forall id :: Holds(s, id).Some? ==>
      var c := Holds(s, id).value;
      c.pool in s.pools ==> LeasedTo(s.pools[c.pool], c.address, id)
  }

  ghost predicate LeasedTo(p: Ipam.PoolState, address: int, id: string) {
    p.config.Usable(address) && address in p.leases && p.leases[address] == id
  }

  /** Every lease is some session's claim. */
  ghost predicate LeasesClaimed(s: Server) {
    forall p, a :: p in s.pools && a in s.pools[p].leases && !s.pools[p].config.IsReserved(a) ==>
      Claims(s, s.pools[p].leases[a], p, a)
  }

  ghost predicate Claims(s: Server, id: string, p: PoolName, a: int) {
    Holds(s, id).Some? && Holds(s, id).value.pool == p && Holds(s, id).value.address == a
  }

  /** Every entry of a backend that this node runs was written by a session that still owns it. */
  ghost predicate PinsOwned(s: Server) {
    forall p, k :: p in s.pools && p in s.backends && k in s.backends[p] ==>
      Pins(s, s.backends[p][k].writer) == Some(Claim(p, s.backends[p][k].address, k))
  }

  /** The part of the invariant that never depends on backend commands. */
  ghost predicate LeasesMatch(s: Server) {
    PoolsOk(s) && PlacesOk(s) && KeysOk(s) && ClaimsLeased(s) && LeasesClaimed(s)
  }

  ghost predicate Inv(s: Server) {
    LeasesMatch(s) && PinsOwned(s)
  }
}

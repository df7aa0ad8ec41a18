/**
 * Complete connects and removals as runs of the lifecycle, and the two
 * concrete runs in which the backends disagree with the session table: a
 * WireGuard key used by two clients, and a backend removal that fails.
 */
module Scenarios {
  import opened Collections
  import opened Sessions
  import opened Lifecycle
  import opened LifecycleSafety
  import opened LeaseAccounting
  import opened BackendAgreement
  import Ipam
  import PoolFacts

  ghost predicate Leads(s: Server, ls: seq<Label>, t: Server) {
    ValidRun(s, ls) && After(s, ls) == t
  }

  lemma LeadsStep(s: Server, l: Label, ls: seq<Label>, t: Server)
    requires Enabled(s, l) && Leads(Apply(s, l), ls, t)
    ensures Leads(s, [l] + ls, t)
  {
    assert ([l] + ls)[1..] == ls;
  }

  lemma LeadsTail(s: Server, ls: seq<Label>, t: Server)
    requires Leads(s, ls, t) && ls != []
    ensures Enabled(s, ls[0]) && Leads(Apply(s, ls[0]), ls[1..], t)
  {
  }

  lemma {:induction false} LeadsThrough(s: Server, ls: seq<Label>, t: Server, ms: seq<Label>, u: Server)
    requires Leads(s, ls, t) && Leads(t, ms, u)
    ensures Leads(s, ls + ms, u)
    decreases |ls|
  {
    if ls == [] {
      assert s == t && ls + ms == ms;
    } else {
      LeadsTail(s, ls, t);
      LeadsThrough(Apply(s, ls[0]), ls[1..], t, ms, u);
      LeadsStep(s, ls[0], ls[1..] + ms, u);
      SplitHead(ls, ms);
    }
  }

  lemma SplitHead<T>(a: seq<T>, b: seq<T>)
    requires a != []
    ensures [a[0]] + (a[1..] + b) == a + b
  {
  }

  // ---- a whole connect ----

  function ConnectRun(r: Record): seq<Label> {
    [Admit(r.id, r.protocol, r.peerKey), Lease(r.id, r.virtualIp), Provision(r.id), Publish(r)]
  }

  /** A connect can run to completion now, getting this address. */
  ghost predicate CanConnect(s: Server, r: Record) {
    && PlacesOk(s) && Enabled(s, Admit(r.id, r.protocol, r.peerKey))
    && PoolOf(r.protocol) in s.pools && PoolOf(r.protocol) in s.backends
    && Ipam.Next(s.pools[PoolOf(r.protocol)], r.virtualIp)
    && r.lastSeenAt <= s.now
  }

  function Connected(s: Server, r: Record): Server
    requires PoolOf(r.protocol) in s.pools && PoolOf(r.protocol) in s.backends
    requires 0 <= r.virtualIp - s.pools[PoolOf(r.protocol)].config.network < s.pools[PoolOf(r.protocol)].config.Total()
  {
    var p := PoolOf(r.protocol);
    s.(pools := s.pools[p := Ipam.Leased(s.pools[p], r.id, r.virtualIp)],
    backends := s.backends[p := Upserted(s.backends[p], p, r.peerKey, Pin(r.virtualIp, r.id))],
    store := s.store[r.id := r],
    minted := s.minted + {r.id})
  }

  function AdmittedTo(s: Server, r: Record): Server {
    s.(connecting := s.connecting[r.id := Admitted(r.protocol, r.peerKey)], minted := s.minted + {r.id})
  }

  /** The four steps of a connect are enabled one after the other and end in `Connected`. */
  lemma ConnectSteps(s: Server, r: Record)
    requires CanConnect(s, r)
    ensures Enabled(AdmittedTo(s, r), Lease(r.id, r.virtualIp))
    ensures Enabled(Granted(AdmittedTo(s, r), r.id, r.virtualIp), Provision(r.id))
    ensures Enabled(Pinned(Granted(AdmittedTo(s, r), r.id, r.virtualIp), r.id), Publish(r))
    ensures Published(Pinned(Granted(AdmittedTo(s, r), r.id, r.virtualIp), r.id), r) == Connected(s, r)
  {
    var s3 := Pinned(Granted(AdmittedTo(s, r), r.id, r.virtualIp), r.id);
    assert Published(s3, r).connecting == s.connecting;
  }

  /** Four steps in a row. */
  lemma LeadsFour(s: Server, l1: Label, l2: Label, l3: Label, l4: Label)
    requires Enabled(s, l1) && Enabled(Apply(s, l1), l2) && Enabled(Apply(Apply(s, l1), l2), l3)
    requires Enabled(Apply(Apply(Apply(s, l1), l2), l3), l4)
    ensures Leads(s, [l1, l2, l3, l4], Apply(Apply(Apply(Apply(s, l1), l2), l3), l4))
  {
    var s1 := Apply(s, l1);
    var s2 := Apply(s1, l2);
    var s3 := Apply(s2, l3);
    var s4 := Apply(s3, l4);
    assert Leads(s4, [], s4);
    LeadsStep(s3, l4, [], s4);
    LeadsStep(s2, l3, [l4], s4);
    LeadsStep(s1, l2, [l3, l4], s4);
    LeadsStep(s, l1, [l2, l3, l4], s4);
    assert [l1] + [l2, l3, l4] == [l1, l2, l3, l4];
  }

  lemma ConnectLeads(s: Server, r: Record)
    requires CanConnect(s, r)
    ensures Leads(s, ConnectRun(r), Connected(s, r))
  {
    ConnectSteps(s, r);
    LeadsFour(s, Admit(r.id, r.protocol, r.peerKey), Lease(r.id, r.virtualIp), Provision(r.id), Publish(r));
  }

  // ---- a whole removal ----

  function RemoveRun(id: string, succeeded: bool): seq<Label> {
    [Disconnect(id), Unpin(id, succeeded), Release(id)]
  }

  ghost predicate CanRemove(s: Server, id: string) {
    PlacesOk(s) && id in s.store && PoolOf(s.store[id].protocol) in s.pools && PoolOf(s.store[id].protocol) in s.backends
  }

  /** The session's protocol is not run by this node any more. */
  predicate Orphaned(s: Server, id: string) {
    id in s.store && PoolOf(s.store[id].protocol) !in s.pools
  }

  function Removed(s: Server, id: string, succeeded: bool): Server
    requires id in s.store && PoolOf(s.store[id].protocol) in s.pools && PoolOf(s.store[id].protocol) in s.backends
  {
    var r := s.store[id];
    var p := PoolOf(r.protocol);
    s.(pools := s.pools[p := Ipam.Released(s.pools[p], r.virtualIp)],
    backends := if succeeded then s.backends[p := s.backends[p] - {BackendKey(r)}] else s.backends,
    store := s.store - {id})
  }

  /** The session, its address and, if the command worked, its entry are gone, and nothing else is. */
  lemma RemovedMeans(s: Server, id: string, succeeded: bool)
    requires KeysOk(s) && CanRemove(s, id)
    ensures var r := s.store[id];
            var p := if r.protocol.WireGuard? then WgPool else if r.protocol.IkeV2? then IkePool else OvpnPool;
            && p in s.pools && p in s.backends
            && Removed(s, id, succeeded) ==
                 s.(store := s.store - {id},
                    pools := s.pools[p := s.pools[p].(leases := s.pools[p].leases - {r.virtualIp})],
                    backends := if succeeded then s.backends[p := s.backends[p] - {if p == IkePool then id else r.peerKey}] else s.backends)
  {
  }

  lemma LeadsThree(s: Server, l1: Label, l2: Label, l3: Label)
    requires Enabled(s, l1) && Enabled(Apply(s, l1), l2) && Enabled(Apply(Apply(s, l1), l2), l3)
    ensures Leads(s, [l1, l2, l3], Apply(Apply(Apply(s, l1), l2), l3))
  {
    var s1 := Apply(s, l1);
    var s2 := Apply(s1, l2);
    var s3 := Apply(s2, l3);
    assert Leads(s3, [], s3);
    LeadsStep(s2, l3, [], s3);
    LeadsStep(s1, l2, [l3], s3);
    LeadsStep(s, l1, [l2, l3], s3);
    assert [l1] + [l2, l3] == [l1, l2, l3];
  }

  lemma TakenOutAdds(s: Server, id: string)
    requires PlacesOk(s) && id in s.store
    ensures TakenOut(s, {id}).removing == s.removing[id := Removal(s.store[id], false)]
    ensures TakenOut(s, {id}).store == s.store - {id}
  {
  }

  /** The state between the backend command and the release. */
  function Unhooked(s: Server, id: string, succeeded: bool): Server
    requires id in s.store && PoolOf(s.store[id].protocol) in s.pools && PoolOf(s.store[id].protocol) in s.backends
  {
    var r := s.store[id];
    s.(backends := Removed(s, id, succeeded).backends, store := s.store - {id}, removing := s.removing[id := Removal(r, true)])
  }

  lemma UnpinStepOf(s: Server, id: string, succeeded: bool)
    requires CanRemove(s, id)
    ensures Enabled(TakenOut(s, {id}), Unpin(id, succeeded))
    ensures Unpinned(TakenOut(s, {id}), id, succeeded) == Unhooked(s, id, succeeded)
  {
    TakenOutAdds(s, id);
    UpdatedTwice(s.removing, id, Removal(s.store[id], false), Removal(s.store[id], true));
  }

  lemma ReleaseStepOf(s: Server, id: string, succeeded: bool)
    requires CanRemove(s, id)
    ensures Enabled(Unhooked(s, id, succeeded), Release(id))
    ensures Freed(Unhooked(s, id, succeeded), id) == Removed(s, id, succeeded)
  {
    AddedAndDropped(s.removing, id, Removal(s.store[id], true));
  }

  lemma RemovalSteps(s: Server, id: string, succeeded: bool)
    requires CanRemove(s, id)
    ensures Enabled(TakenOut(s, {id}), Unpin(id, succeeded))
    ensures Enabled(Unpinned(TakenOut(s, {id}), id, succeeded), Release(id))
    ensures Freed(Unpinned(TakenOut(s, {id}), id, succeeded), id) == Removed(s, id, succeeded)
  {
    UnpinStepOf(s, id, succeeded);
    ReleaseStepOf(s, id, succeeded);
  }

  /** Removing a session of a protocol this node does not run only takes it out of the table. */
  lemma SkipLeads(s: Server, id: string)
    requires PlacesOk(s) && Orphaned(s, id)
    ensures Leads(s, [Disconnect(id), Skip(id)], s.(store := s.store - {id}))
    ensures Enabled(TakenOut(s, {id}), Skip(id)) && Skipped(TakenOut(s, {id}), id) == s.(store := s.store - {id})
  {
    var t, u := TakenOut(s, {id}), s.(store := s.store - {id});
    TakenOutAdds(s, id);
    AddedAndDropped(s.removing, id, Removal(s.store[id], false));
    assert Leads(u, [], u);
    LeadsStep(t, Skip(id), [], u);
    LeadsStep(s, Disconnect(id), [Skip(id)], u);
    assert [Disconnect(id)] + [Skip(id)] == [Disconnect(id), Skip(id)] && [Skip(id)] + [] == [Skip(id)];
  }

  lemma RemoveLeads(s: Server, id: string, succeeded: bool)
    requires CanRemove(s, id)
    ensures Leads(s, RemoveRun(id, succeeded), Removed(s, id, succeeded))
  {
    RemovalSteps(s, id, succeeded);
    LeadsThree(s, Disconnect(id), Unpin(id, succeeded), Release(id));
  }

  // ---- two concrete runs ----

  /** Some run without failed removals leads from one state to the other. */
  ghost predicate Reaches(s: Server, t: Server, reliable: bool) {
    exists ls :: Leads(s, ls, t) && (reliable ==> Reliable(ls))
  }

  lemma ReachesThrough(s: Server, t: Server, u: Server, reliable: bool)
    requires Reaches(s, t, reliable) && Reaches(t, u, reliable)
    ensures Reaches(s, u, reliable)
  {
    var ls :| Leads(s, ls, t) && (reliable ==> Reliable(ls));
    var ms :| Leads(t, ms, u) && (reliable ==> Reliable(ms));
    LeadsThrough(s, ls, t, ms, u);
    assert reliable ==> Reliable(ls + ms);
  }

  lemma ConnectReaches(s: Server, r: Record)
    requires CanConnect(s, r)
    ensures Reaches(s, Connected(s, r), true) && Reaches(s, Connected(s, r), false)
  {
    ConnectLeads(s, r);
    assert Reliable(ConnectRun(r));
  }

  lemma RemoveReaches(s: Server, id: string, succeeded: bool)
    requires CanRemove(s, id)
    ensures Reaches(s, Removed(s, id, succeeded), succeeded)
  {
    RemoveLeads(s, id, succeeded);
    assert succeeded ==> Reliable(RemoveRun(id, succeeded));
  }

  /** A node just started with no state file and nothing in the backends it runs. */
  ghost predicate JustStarted(s: Server) {
    && s.store == map[] && s.connecting == map[] && s.removing == map[]
    && s.pools.Keys <= s.backends.Keys
    && forall p :: p in s.pools ==>
         s.pools[p].config.Sound() && s.pools[p] == Ipam.NewPool(s.pools[p].config) && s.backends[p] == map[]
  }

  /** Every invariant holds at the start, so all the results about runs apply to every run from there. */
  lemma StartIsSound(s: Server)
    requires JustStarted(s)
    ensures Inv(s) && Agreement(s) && Quiet(s)
  {
    forall p | p in s.pools
      ensures s.pools[p].Valid()
      ensures forall a :: a in s.pools[p].leases ==> s.pools[p].config.IsReserved(a)
    {
      PoolFacts.NewPoolValid(s.pools[p].config);
    }
  }

  const NETWORK: Ipam.uint32 := 0x0A42_0000

  /** A node with one protocol, a pool of `numHosts + 2` addresses and nothing connected. */
  function Empty(p: PoolName, numHosts: Ipam.uint32): Server {
    Server(-1, 180.0, map[p := Ipam.NewPool(Ipam.Config(NETWORK, 29, numHosts, NETWORK + 1))],
           map[p := map[]], map[], map[], map[], {}, 0.0)
  }

  function Client(id: string, protocol: Protocol, key: string, offset: nat): Record {
    Record(id, "node", protocol, NETWORK + offset, key, false, 0.0, 0.0)
  }

  lemma EmptyIsSound(p: PoolName, numHosts: Ipam.uint32)
    requires 2 <= numHosts <= 6
    ensures JustStarted(Empty(p, numHosts)) && Inv(Empty(p, numHosts)) && Agreement(Empty(p, numHosts))
  {
    StartIsSound(Empty(p, numHosts));
  }

  lemma FirstAddress(p: PoolName, numHosts: Ipam.uint32)
    requires 2 <= numHosts <= 6
    ensures Ipam.Next(Empty(p, numHosts).pools[p], NETWORK + 2)
  {
    var pool := Empty(p, numHosts).pools[p];
    assert pool.cursor == 1 && NETWORK + 1 in pool.leases;
    assert pool.Free(2);
  }

  /** The state after "a" connected, written out. */
  function First(protocol: Protocol, numHosts: Ipam.uint32, key: string): Server
    requires 2 <= numHosts <= 6
  {
    var p := PoolOf(protocol);
    var s := Empty(p, numHosts);
    s.(pools := map[p := Ipam.Leased(s.pools[p], "a", NETWORK + 2)],
    backends := map[p := map[key := Pin(NETWORK + 2, "a")]],
    store := map["a" := Client("a", protocol, key, 2)], minted := {"a"})
  }

  lemma AfterFirst(protocol: Protocol, numHosts: Ipam.uint32, key: string)
    requires 2 <= numHosts <= 6 && KeyOk("a", protocol, key)
    ensures CanConnect(Empty(PoolOf(protocol), numHosts), Client("a", protocol, key, 2))
    ensures Connected(Empty(PoolOf(protocol), numHosts), Client("a", protocol, key, 2)) == First(protocol, numHosts, key)
  {
    FirstAddress(PoolOf(protocol), numHosts);
    FirstEntry(PoolOf(protocol), key);
    var s, p := Empty(PoolOf(protocol), numHosts), PoolOf(protocol);
    assert s.pools[p := Ipam.Leased(s.pools[p], "a", NETWORK + 2)] == First(protocol, numHosts, key).pools;
  }

  lemma FirstEntry(p: PoolName, key: string)
    ensures Upserted(map[], p, key, Pin(NETWORK + 2, "a")) == map[key := Pin(NETWORK + 2, "a")]
  {
    assert Evicted(map[], NETWORK + 2) == map[];
  }

  lemma FirstIsSound(protocol: Protocol, numHosts: Ipam.uint32, key: string)
    requires 2 <= numHosts <= 6 && KeyOk("a", protocol, key)
    ensures Inv(First(protocol, numHosts, key)) && Quiet(First(protocol, numHosts, key))
  {
    var s, r := Empty(PoolOf(protocol), numHosts), Client("a", protocol, key, 2);
    EmptyIsSound(PoolOf(protocol), numHosts);
    AfterFirst(protocol, numHosts, key);
    ConnectLeads(s, r);
    RunKeepsInv(s, ConnectRun(r));
  }

  // A second WireGuard client with the same key.

  function Shared(): Server
  {
    var s := Empty(WgPool, 6);
    s.(pools := map[WgPool := Ipam.Leased(Ipam.Leased(s.pools[WgPool], "a", NETWORK + 2), "b", NETWORK + 3)],
    backends := map[WgPool := map["k" := Pin(NETWORK + 3, "b")]],
    store := map["a" := Client("a", WireGuard, "k", 2), "b" := Client("b", WireGuard, "k", 3)], minted := {"a", "b"})
  }

  lemma SecondAddress()
    ensures Ipam.Next(Ipam.Leased(Empty(WgPool, 6).pools[WgPool], "a", NETWORK + 2), NETWORK + 3)
  {
    var p := Ipam.Leased(Empty(WgPool, 6).pools[WgPool], "a", NETWORK + 2);
    assert p.cursor == 3 && p.Free(3);
  }

  lemma SecondConnect()
    ensures CanConnect(First(WireGuard, 6, "k"), Client("b", WireGuard, "k", 3))
    ensures Connected(First(WireGuard, 6, "k"), Client("b", WireGuard, "k", 3)) == Shared()
  {
    SecondAddress();
    assert Upserted(First(WireGuard, 6, "k").backends[WgPool], WgPool, "k", Pin(NETWORK + 3, "b"))
        == map["k" := Pin(NETWORK + 3, "b")];
  }

  lemma SharedKeyRun(s: Server, a: Record, b: Record, u: Server)
    requires CanConnect(s, a) && CanConnect(Connected(s, a), b) && u == Connected(Connected(s, a), b) && CanRemove(u, a.id)
    ensures Reaches(s, Removed(u, a.id, true), true)
  {
    ConnectReaches(s, a);
    ConnectReaches(Connected(s, a), b);
    RemoveReaches(u, a.id, true);
    ReachesThrough(s, Connected(s, a), u, true);
    ReachesThrough(s, u, Removed(u, a.id, true), true);
  }

  /** A stored WireGuard session without a peer entry under its key. */
  ghost predicate LostPeer(t: Server, id: string) {
    id in t.store && t.store[id].protocol == WireGuard && WgPool in t.backends && t.store[id].peerKey !in t.backends[WgPool]
  }

  lemma SharedKeyReaches()
    ensures Reaches(Empty(WgPool, 6), Removed(Shared(), "a", true), true) && Quiet(Removed(Shared(), "a", true))
    ensures LostPeer(Removed(Shared(), "a", true), "b")
  {
    AfterFirst(WireGuard, 6, "k");
    SecondConnect();
    SharedKeyRun(Empty(WgPool, 6), Client("a", WireGuard, "k", 2), Client("b", WireGuard, "k", 3), Shared());
    var v := Removed(Shared(), "a", true);
    assert v.store["b"].peerKey == "k" && "k" !in v.backends[WgPool];
  }

  /**
   * Two clients of a freshly started node connect with the same key; when
   * the first leaves, the second is stored and has no peer entry.
   */
  lemma SharedKeyLosesPeer()
    ensures JustStarted(Empty(WgPool, 6)) && Inv(Empty(WgPool, 6)) && Agreement(Empty(WgPool, 6))
    ensures exists t :: Reaches(Empty(WgPool, 6), t, true) && Quiet(t) && LostPeer(t, "b")
  {
    EmptyIsSound(WgPool, 6);
    SharedKeyReaches();
  }

  // A failed removal of an IKEv2 session on a pool with a single address.

  function Stale(): Server {
    var s := Empty(IkePool, 2);
    s.(pools := map[IkePool := Ipam.Released(Ipam.Leased(s.pools[IkePool], "a", NETWORK + 2), NETWORK + 2)],
    backends := map[IkePool := map["a" := Pin(NETWORK + 2, "a")]], minted := {"a"})
  }

  lemma FailedRemovalLeavesStale()
    ensures CanRemove(First(IkeV2, 2, "a"), "a") && Removed(First(IkeV2, 2, "a"), "a", false) == Stale()
  {
    assert First(IkeV2, 2, "a").store - {"a"} == map[];
  }

  lemma AddressComesBack()
    ensures Ipam.Next(Stale().pools[IkePool], NETWORK + 2)
  {
    var p := Stale().pools[IkePool];
    assert p.cursor == 3 && p.Free(2) && NETWORK + 1 in p.leases && NETWORK + 3 in p.leases;
  }

  lemma FailedRemovalRun(s: Server, a: Record, b: Record, u: Server)
    requires CanConnect(s, a) && CanRemove(Connected(s, a), a.id)
    requires u == Removed(Connected(s, a), a.id, false) && CanConnect(u, b)
    ensures Reaches(s, Connected(u, b), false)
  {
    ConnectReaches(s, a);
    RemoveReaches(Connected(s, a), a.id, false);
    ConnectReaches(u, b);
    ReachesThrough(s, Connected(s, a), u, false);
    ReachesThrough(s, u, Connected(u, b), false);
  }

  /** Two entries of one backend pin one address. */
  lemma SameAddressTwice(t: Server, p: PoolName, k: string, l: string)
    requires p in t.pools && p in t.backends && k in t.backends[p] && l in t.backends[p] && k != l
    requires t.backends[p][k].address == t.backends[p][l].address
    ensures !Isolated(t)
  {
    assert !IsolatedIn(t, p);
  }

  lemma FailedRemovalReaches()
    ensures CanConnect(Stale(), Client("b", IkeV2, "b", 2))
    ensures Reaches(Empty(IkePool, 2), Connected(Stale(), Client("b", IkeV2, "b", 2)), false)
    ensures !Isolated(Connected(Stale(), Client("b", IkeV2, "b", 2)))
  {
    var b := Client("b", IkeV2, "b", 2);
    AfterFirst(IkeV2, 2, "a");
    FailedRemovalLeavesStale();
    AddressComesBack();
    FailedRemovalRun(Empty(IkePool, 2), Client("a", IkeV2, "a", 2), b, Stale());
    SameAddressTwice(Connected(Stale(), b), IkePool, "a", "b");
  }

  /**
   * On a freshly started node with a one-address pool: the configuration of
   * "a" cannot be removed, "b" gets its address, and two clients share it.
   */
  lemma FailedRemovalSharesAddress()
    ensures JustStarted(Empty(IkePool, 2)) && Inv(Empty(IkePool, 2)) && Agreement(Empty(IkePool, 2))
    ensures exists t :: Reaches(Empty(IkePool, 2), t, false) && !Isolated(t)
  {
    EmptyIsSound(IkePool, 2);
    FailedRemovalReaches();
  }
}

/**
 * Bookkeeping over whole runs: each session is taken out of the table once and
 * its address released once, no release touches another session's address,
 * and a pool's leases are exactly its sessions and the work in flight.
 */
module LeaseAccounting {
  import opened Results
  import opened Sessions
  import opened Lifecycle
  import opened LifecycleSafety
  import Ipam

  // ---- once each ----

  function Count(b: bool): nat {
    if b then 1 else 0
  }

  /** Steps of the run that put session `id` into the table. */
  ghost function Publishes(ls: seq<Label>, id: string): nat {
    if ls == [] then 0 else Count(ls[0].Publish? && ls[0].record.id == id) + Publishes(ls[1..], id)
  }

  /** Steps of the run, by a disconnect or by the reaper, that took `id` out of the table. */
  ghost function Takes(s: Server, ls: seq<Label>, id: string): nat
    requires ValidRun(s, ls)
    decreases |ls|
  {
    if ls == [] then 0
    else Count(id in s.store && id !in Apply(s, ls[0]).store) + Takes(Apply(s, ls[0]), ls[1..], id)
  }

  /** The step that ends a removal: it releases the address, or there is no pool of the protocol to release it to. */
  predicate Ends(l: Label, id: string) {
    l == Release(id) || l == Skip(id)
  }

  /** Steps of the run that ended the removal of a session. */
  ghost function Releases(ls: seq<Label>, id: string): nat {
    if ls == [] then 0 else Count(Ends(ls[0], id)) + Releases(ls[1..], id)
  }

  /** How far a session id has come: unused, connecting, stored, being removed, gone. */
  function Stage(s: Server, id: string): nat {
    if id in s.removing then 3
    else if id in s.store then 2
    else if id in s.connecting then 1
    else if id in s.minted then 4
    else 0
  }

  /** The step moves `id` at most one stage on, and each counted step is the move it stands for. */
  ghost predicate Advances(s: Server, l: Label, s': Server, id: string) {
    var before, now := Stage(s, id), Stage(s', id);
    && before <= now
    && (l.Publish? && l.record.id == id <==> before == 1 && now == 2)
    && (id in s.store && id !in s'.store <==> before == 2 && now == 3)
    && (Ends(l, id) <==> before == 3 && now == 4)
    && (now > before ==> now == before + 1 || before == 1)
  }

  predicate ConnectLabel(l: Label) {
    l.Admit? || l.GiveUp? || l.Lease? || l.Provision? || l.Refuse? || l.Return?
  }

  /** The ids connecting after one of these steps. */
  function ConnectingAfter(ids: set<string>, l: Label): set<string>
    requires ConnectLabel(l)
  {
    if l.Admit? then ids + {l.id} else if l.GiveUp? || l.Return? then ids - {l.id} else ids
  }

  lemma ConnectKeys(s: Server, l: Label)
    requires Enabled(s, l) && ConnectLabel(l)
    ensures l.Admit? || l.id in s.connecting
    ensures var s' := Apply(s, l);
            && s'.store == s.store && s'.removing == s.removing
            && s'.connecting.Keys == ConnectingAfter(s.connecting.Keys, l)
            && s'.minted == if l.Admit? then s.minted + {l.id} else s.minted
  {
  }

  lemma ConnectAdvances(s: Server, l: Label, s': Server, id: string)
    requires PlacesOk(s) && ConnectLabel(l) && if l.Admit? then l.id !in s.minted else l.id in s.connecting
    requires s'.store == s.store && s'.removing == s.removing
    requires s'.connecting.Keys == ConnectingAfter(s.connecting.Keys, l)
    requires s'.minted == if l.Admit? then s.minted + {l.id} else s.minted
    ensures Advances(s, l, s', id)
  {
  }

  lemma PublishAdvances(s: Server, r: Record, id: string)
    requires PlacesOk(s) && Enabled(s, Publish(r))
    ensures Advances(s, Publish(r), Published(s, r), id)
  {
  }

  lemma TakeOutAdvances(s: Server, l: Label, s': Server, ids: set<string>, id: string)
    requires PlacesOk(s) && (l.Disconnect? || l.Expire?) && ids <= s.store.Keys
    requires s'.store.Keys == s.store.Keys - ids && s'.removing.Keys == s.removing.Keys + ids
    requires s'.connecting.Keys == s.connecting.Keys && s'.minted == s.minted
    ensures Advances(s, l, s', id)
  {
  }

  lemma TakenOutAdvances(s: Server, l: Label, ids: set<string>, id: string)
    requires PlacesOk(s) && (l.Disconnect? || l.Expire?) && ids <= s.store.Keys
    ensures Advances(s, l, TakenOut(s, ids), id)
  {
    var s' := TakenOut(s, ids);
    assert s'.store.Keys == s.store.Keys - ids && s'.removing.Keys == s.removing.Keys + ids;
    TakeOutAdvances(s, l, s', ids, id);
  }

  lemma RemovalAdvances(s: Server, l: Label, s': Server, id: string)
    requires PlacesOk(s) && (l.Unpin? || l.Release? || l.Skip?) && l.id in s.removing
    requires s'.store.Keys == s.store.Keys && s'.connecting.Keys == s.connecting.Keys && s'.minted == s.minted
    requires s'.removing.Keys == if l.Unpin? then s.removing.Keys else s.removing.Keys - {l.id}
    ensures Advances(s, l, s', id)
  {
  }

  lemma RemovalKeys(s: Server, l: Label)
    requires Enabled(s, l) && (l.Unpin? || l.Release? || l.Skip?)
    ensures var s' := Apply(s, l);
            && l.id in s.removing
            && s'.store == s.store && s'.connecting == s.connecting && s'.minted == s.minted
            && s'.removing.Keys == if l.Unpin? then s.removing.Keys else s.removing.Keys - {l.id}
  {
  }

  lemma StillAdvances(s: Server, l: Label, id: string)
    requires Enabled(s, l) && (l.Tick? || l.Touch?)
    ensures Advances(s, l, Apply(s, l), id)
  {
  }

  lemma StepStage(s: Server, l: Label, id: string)
    requires PlacesOk(s) && Enabled(s, l)
    ensures PlacesOk(Apply(s, l)) && Advances(s, l, Apply(s, l), id)
  {
    PlacesStep(s, l);
    if l.Publish? {
      PublishAdvances(s, l.record, id);
    } else if l.Disconnect? {
      TakenOutAdvances(s, l, {l.id}, id);
    } else if l.Expire? {
      TakenOutAdvances(s, l, IdleIds(s.store, l.cutoff), id);
    } else if l.Unpin? || l.Release? || l.Skip? {
      RemovalKeys(s, l);
      RemovalAdvances(s, l, Apply(s, l), id);
    } else if l.Tick? || l.Touch? {
      StillAdvances(s, l, id);
    } else {
      ConnectKeys(s, l);
      ConnectAdvances(s, l, Apply(s, l), id);
    }
  }

  /** Every session put into the table is taken out once, and every one taken out is released once. */
  lemma {:induction false} TakesBalance(s: Server, ls: seq<Label>, id: string)
    requires PlacesOk(s) && ValidRun(s, ls)
    ensures PlacesOk(After(s, ls)) && Stage(s, id) <= Stage(After(s, ls), id)
    ensures Count(Stage(s, id) == 2) + Publishes(ls, id) == Count(Stage(After(s, ls), id) == 2) + Takes(s, ls, id)
    ensures Count(Stage(s, id) == 3) + Takes(s, ls, id) == Count(Stage(After(s, ls), id) == 3) + Releases(ls, id)
    ensures Publishes(ls, id) <= Count(Stage(s, id) <= 1 && Stage(After(s, ls), id) >= 2)
    decreases |ls|
  {
    if ls != [] {
      StepStage(s, ls[0], id);
      TakesBalance(Apply(s, ls[0]), ls[1..], id);
    }
  }

  /**
   * A session id used for the first time in a run enters the table at most
   * once, leaves it by exactly one of disconnect and reaper, and its removal
   * then ends exactly once. `SkipsOnlyWithoutPool` says when that end is not
   * the release of its address.
   */
  lemma TakenAndReleasedOnce(s: Server, ls: seq<Label>, id: string)
    requires PlacesOk(s) && ValidRun(s, ls) && id !in s.minted
    ensures Releases(ls, id) <= Takes(s, ls, id) <= Publishes(ls, id) <= 1
    ensures Takes(s, ls, id) == Publishes(ls, id) - Count(id in After(s, ls).store)
    ensures Releases(ls, id) == Takes(s, ls, id) - Count(id in After(s, ls).removing)
  {
    TakesBalance(s, ls, id);
  }

  lemma StepKeepsPoolNames(s: Server, l: Label)
    requires Enabled(s, l)
    ensures Apply(s, l).pools.Keys == s.pools.Keys
  {
    if PhaseStep(l) {
      PhaseStepPools(s, l);
    }
  }

  lemma {:induction false} RunKeepsPoolNames(s: Server, ls: seq<Label>)
    requires ValidRun(s, ls)
    ensures After(s, ls).pools.Keys == s.pools.Keys
    decreases |ls|
  {
    if ls != [] {
      StepKeepsPoolNames(s, ls[0]);
      RunKeepsPoolNames(Apply(s, ls[0]), ls[1..]);
    }
  }

  /** A removal ends without a release only where this node has no pool of the session's protocol. */
  lemma SkipsOnlyWithoutPool(s: Server, ls: seq<Label>, i: nat)
    requires ValidRun(s, ls) && i < |ls| && ls[i].Skip?
    ensures ValidRun(s, ls[..i]) && ls[i].id in After(s, ls[..i]).removing
    ensures PoolOf(After(s, ls[..i]).removing[ls[i].id].record.protocol) !in s.pools
  {
    PrefixRun(s, ls, i);
    RunKeepsPoolNames(s, ls[..i]);
  }

  // ---- nobody else's address ----

  lemma {:induction false} PrefixRun(s: Server, ls: seq<Label>, i: nat)
    requires ValidRun(s, ls) && i < |ls|
    ensures ValidRun(s, ls[..i]) && Enabled(After(s, ls[..i]), ls[i])
    decreases i
  {
    if i > 0 {
      PrefixRun(Apply(s, ls[0]), ls[1..], i - 1);
      assert ls[..i][1..] == ls[1..][..i - 1];
    }
  }

  /** The step releases an address leased to the session giving it up; every other claim stays leased. */
  ghost predicate FreesOnlyItsOwn(s: Server, l: Label)
    requires Enabled(s, l) && (l.Release? || l.Return?)
  {
    && Holds(s, l.id).Some?
    && var c, s' := Holds(s, l.id).value, Apply(s, l);
       && c.pool in s.pools && LeasedTo(s.pools[c.pool], c.address, l.id)
       && s'.pools == s.pools[c.pool := Ipam.Released(s.pools[c.pool], c.address)]
       && ClaimsLeased(s')
       && forall x :: x != l.id ==> Holds(s', x) == Holds(s, x)
  }

  lemma ReleaseFreesOwn(s: Server, id: string)
    requires LeasesMatch(s) && Enabled(s, Release(id))
    ensures FreesOnlyItsOwn(s, Release(id))
  {
    var s' := Freed(s, id);
    ForgetRemoval(s, s', id);
    ReleaseStep(s, id);
    assert Holds(s, id) == Some(RecordClaim(s.removing[id].record));
  }

  lemma ReturnFreesOwn(s: Server, id: string)
    requires LeasesMatch(s) && Enabled(s, Return(id))
    ensures FreesOnlyItsOwn(s, Return(id))
  {
    var s' := GivenBack(s, id);
    ForgetConnect(s, s', id);
    ReturnStep(s, id);
  }

  /** No release of a run ever frees an address that by then belongs to another session. */
  lemma ReleasesOwnAddress(s: Server, ls: seq<Label>, i: nat)
    requires LeasesMatch(s) && ValidRun(s, ls) && i < |ls| && (ls[i].Release? || ls[i].Return?)
    ensures ValidRun(s, ls[..i]) && Enabled(After(s, ls[..i]), ls[i])
    ensures FreesOnlyItsOwn(After(s, ls[..i]), ls[i])
  {
    PrefixRun(s, ls, i);
    RunKeepsLeases(s, ls[..i]);
    if ls[i].Release? {
      ReleaseFreesOwn(After(s, ls[..i]), ls[i].id);
    } else {
      ReturnFreesOwn(After(s, ls[..i]), ls[i].id);
    }
  }

  // ---- conservation ----

  ghost function StoredIn(s: Server, p: PoolName): set<string> {
    set id | id in s.store && PoolOf(s.store[id].protocol) == p
  }

  /** Connects holding an address that is not in the table yet. */
  ghost function ConnectingIn(s: Server, p: PoolName): set<string> {
    set id | id in s.connecting && !s.connecting[id].Admitted? && PoolOf(s.connecting[id].protocol) == p
  }

  /** Sessions out of the table whose address is not released yet. */
  ghost function RemovingIn(s: Server, p: PoolName): set<string> {
    set id | id in s.removing && PoolOf(s.removing[id].record.protocol) == p
  }

  ghost function HoldersIn(s: Server, p: PoolName): set<string> {
    StoredIn(s, p) + ConnectingIn(s, p) + RemovingIn(s, p)
  }

  /** The leases of a pool that are not reserved slots: address to session. */
  ghost function PeerLeases(pool: Ipam.PoolState): map<int, string> {
    map a | a in pool.leases && !pool.config.IsReserved(a) :: pool.leases[a]
  }

  lemma HoldersAreClaimants(s: Server, p: PoolName, id: string)
    requires PlacesOk(s)
    ensures id in HoldersIn(s, p) <==> Holds(s, id).Some? && Holds(s, id).value.pool == p
  {
  }

  /** A pool's leases are exactly its sessions, its unfinished connects and its unfinished removals, each at its address. */
  lemma Conservation(s: Server, p: PoolName)
    requires LeasesMatch(s) && p in s.pools
    ensures forall id :: id in HoldersIn(s, p) ==>
              Holds(s, id).Some? && Holds(s, id).value.address in PeerLeases(s.pools[p])
              && PeerLeases(s.pools[p])[Holds(s, id).value.address] == id
    ensures forall a :: a in PeerLeases(s.pools[p]) ==>
              PeerLeases(s.pools[p])[a] in HoldersIn(s, p)
              && Holds(s, PeerLeases(s.pools[p])[a]).Some? && Holds(s, PeerLeases(s.pools[p])[a]).value.address == a
  {
    forall id | id in HoldersIn(s, p)
      ensures Holds(s, id).Some? && Holds(s, id).value.address in PeerLeases(s.pools[p])
      ensures PeerLeases(s.pools[p])[Holds(s, id).value.address] == id
    {
      HoldersAreClaimants(s, p, id);
      assert LeasedTo(s.pools[p], Holds(s, id).value.address, id);
    }
    forall a | a in PeerLeases(s.pools[p])
      ensures PeerLeases(s.pools[p])[a] in HoldersIn(s, p)
      ensures Holds(s, PeerLeases(s.pools[p])[a]).Some? && Holds(s, PeerLeases(s.pools[p])[a]).value.address == a
    {
      assert Claims(s, s.pools[p].leases[a], p, a);
      HoldersAreClaimants(s, p, s.pools[p].leases[a]);
    }
  }

  ghost predicate HasValue<K>(m: map<K, string>, id: string) {
    exists a :: a in m && m[a] == id
  }

  /** A map without repeated values has as many values as keys. */
  lemma {:induction false} InjectiveSize<K>(m: map<K, string>, ids: set<string>)
    requires forall a, b :: a in m && b in m && m[a] == m[b] ==> a == b
    requires forall a :: a in m ==> m[a] in ids
    requires forall id :: id in ids ==> HasValue(m, id)
    ensures |m| == |ids|
    decreases |ids|
  {
    if ids == {} {
      assert forall a :: a !in m;
      assert m == map[];
    } else {
      var id :| id in ids;
      assert HasValue(m, id);
      var a :| a in m && m[a] == id;
      var m' := m - {a};
      forall x | x in ids - {id}
        ensures HasValue(m', x)
      {
        assert HasValue(m, x);
        var b :| b in m && m[b] == x;
        assert b in m' && m'[b] == x;
      }
      InjectiveSize(m', ids - {id});
      assert m.Keys == m'.Keys + {a};
    }
  }

  lemma PeerLeasesSize(pool: Ipam.PoolState)
    requires pool.Valid()
    ensures |PeerLeases(pool)| == pool.InUse()
  {
    var c := pool.config;
    var reserved := {c.network, c.network + c.numHosts + 1, c.gateway};
    assert c.IsReserved(c.network) && c.IsReserved(c.network + c.numHosts + 1) && c.IsReserved(c.gateway);
    assert reserved <= pool.leases.Keys && |reserved| == 3;
    assert PeerLeases(pool).Keys == pool.leases.Keys - reserved;
  }

  /** InUse counts exactly the sessions and the work in flight. */
  lemma InUseCountsHolders(s: Server, p: PoolName)
    requires LeasesMatch(s) && p in s.pools
    ensures s.pools[p].InUse() == |HoldersIn(s, p)|
    ensures |HoldersIn(s, p)| == |StoredIn(s, p)| + |ConnectingIn(s, p)| + |RemovingIn(s, p)|
  {
    Conservation(s, p);
    PeerLeasesSize(s.pools[p]);
    var m := PeerLeases(s.pools[p]);
    forall id | id in HoldersIn(s, p)
      ensures HasValue(m, id)
    {
      assert Holds(s, id).value.address in m;
    }
    InjectiveSize(m, HoldersIn(s, p));
    HoldersSize(s, p);
  }

  lemma HoldersSize(s: Server, p: PoolName)
    requires PlacesOk(s)
    ensures |HoldersIn(s, p)| == |StoredIn(s, p)| + |ConnectingIn(s, p)| + |RemovingIn(s, p)|
  {
    assert StoredIn(s, p) <= s.store.Keys && ConnectingIn(s, p) <= s.connecting.Keys && RemovingIn(s, p) <= s.removing.Keys;
  }

  ghost predicate Quiet(s: Server) {
    s.connecting == map[] && s.removing == map[]
  }

  /** With nothing in flight, InUse is the session count of the pool's protocols; UDP and TCP share one pool. */
  lemma QuietInUse(s: Server)
    requires LeasesMatch(s) && Quiet(s)
    ensures WgPool in s.pools ==> s.pools[WgPool].InUse() == |OfProtocol(s.store, WireGuard)|
    ensures IkePool in s.pools ==> s.pools[IkePool].InUse() == |OfProtocol(s.store, IkeV2)|
    ensures OvpnPool in s.pools ==>
              s.pools[OvpnPool].InUse() == |OfProtocol(s.store, OpenVpnUdp)| + |OfProtocol(s.store, OpenVpnTcp)|
  {
    forall p | p in s.pools
      ensures s.pools[p].InUse() == |StoredIn(s, p)|
    {
      InUseCountsHolders(s, p);
    }
    assert StoredIn(s, WgPool) == OfProtocol(s.store, WireGuard);
    assert StoredIn(s, IkePool) == OfProtocol(s.store, IkeV2);
    assert StoredIn(s, OvpnPool) == OfProtocol(s.store, OpenVpnUdp) + OfProtocol(s.store, OpenVpnTcp);
  }
}

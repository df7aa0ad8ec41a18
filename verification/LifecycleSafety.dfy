/** The lifecycle invariant holds over every interleaving, and what follows from it. */
module LifecycleSafety {
  import opened Results
  import opened Sessions
  import opened Lifecycle
  import Ipam
  import PoolFacts
  import Ipv6

  // ---- the invariant, step by step ----

  lemma TakenOutPlaces(s: Server, ids: set<string>)
    requires PlacesOk(s) && ids <= s.store.Keys
    ensures PlacesOk(TakenOut(s, ids))
    ensures forall id :: Holds(TakenOut(s, ids), id) == Holds(s, id) && Pins(TakenOut(s, ids), id) == Pins(s, id)
  {
    var s' := TakenOut(s, ids);
    assert s'.store.Keys == s.store.Keys - ids && s'.removing.Keys == s.removing.Keys + ids;
  }

  lemma PublishPlaces(s: Server, r: Record)
    requires PlacesOk(s) && Enabled(s, Publish(r))
    ensures PlacesOk(Published(s, r))
  {
    var s' := Published(s, r);
    assert s'.store.Keys == s.store.Keys + {r.id} && s'.connecting.Keys == s.connecting.Keys - {r.id};
  }

  lemma PublishedClaim(s: Server, r: Record)
    requires PlacesOk(s) && KeysOk(s) && Enabled(s, Publish(r))
    ensures Holds(Published(s, r), r.id) == Holds(s, r.id) == Some(RecordClaim(r))
    ensures Pins(Published(s, r), r.id) == Pins(s, r.id) == Some(RecordClaim(r))
  {
    assert r.id !in s.store && r.id !in s.removing;
    assert KeyOk(r.id, r.protocol, r.peerKey);
  }

  lemma OthersClaim(s: Server, r: Record, id: string)
    requires id != r.id
    ensures Holds(Published(s, r), id) == Holds(s, id) && Pins(Published(s, r), id) == Pins(s, id)
  {
  }

  lemma PublishClaims(s: Server, r: Record)
    requires PlacesOk(s) && KeysOk(s) && Enabled(s, Publish(r))
    ensures forall id :: Holds(Published(s, r), id) == Holds(s, id)
    ensures forall id :: Pins(Published(s, r), id) == Pins(s, id)
  {
    PublishedClaim(s, r);
    forall id | id != r.id
      ensures Holds(Published(s, r), id) == Holds(s, id) && Pins(Published(s, r), id) == Pins(s, id)
    {
      OthersClaim(s, r, id);
    }
  }

  lemma TouchClaims(s: Server, id: string)
    ensures var s' := Apply(s, Touch(id));
            forall x :: Holds(s', x) == Holds(s, x) && Pins(s', x) == Pins(s, x)
  {
  }

  /** One id's entry among the connects changes or goes. */
  lemma ConnectingPlaces(s: Server, s': Server, id: string)
    requires PlacesOk(s) && s'.store.Keys == s.store.Keys && s'.removing.Keys == s.removing.Keys && s.minted <= s'.minted
    requires id !in s.store && id !in s.removing && id in s'.minted
    requires s'.connecting.Keys <= s.connecting.Keys + {id}
    ensures PlacesOk(s')
  {
  }

  lemma RemovingPlaces(s: Server, s': Server)
    requires PlacesOk(s) && s'.store.Keys == s.store.Keys && s'.connecting.Keys == s.connecting.Keys
    requires s'.minted == s.minted && s'.removing.Keys <= s.removing.Keys
    ensures PlacesOk(s')
  {
  }

  lemma ConnectPlaces(s: Server, l: Label)
    requires PlacesOk(s) && Enabled(s, l)
    requires l.Admit? || l.GiveUp? || l.Lease? || l.Provision? || l.Refuse? || l.Return?
    ensures PlacesOk(Apply(s, l))
  {
    assert l.id !in s.store && l.id !in s.removing;
    ConnectingPlaces(s, Apply(s, l), l.id);
  }

  lemma RemovePlaces(s: Server, l: Label)
    requires PlacesOk(s) && Enabled(s, l) && (l.Touch? || l.Unpin? || l.Release? || l.Skip? || l.Tick?)
    ensures PlacesOk(Apply(s, l))
  {
    RemovingPlaces(s, Apply(s, l));
  }

  lemma PlacesStep(s: Server, l: Label)
    requires PlacesOk(s) && Enabled(s, l)
    ensures PlacesOk(Apply(s, l))
  {
    if l.Publish? {
      PublishPlaces(s, l.record);
    } else if l.Disconnect? {
      TakenOutPlaces(s, {l.id});
    } else if l.Expire? {
      TakenOutPlaces(s, IdleIds(s.store, l.cutoff));
    } else if l.Touch? || l.Unpin? || l.Release? || l.Skip? || l.Tick? {
      RemovePlaces(s, l);
    } else {
      ConnectPlaces(s, l);
    }
  }

  lemma TakenOutKeys(s: Server, ids: set<string>)
    requires KeysOk(s) && ids <= s.store.Keys
    ensures KeysOk(TakenOut(s, ids))
  {
  }

  lemma ConnectingKeys(s: Server, l: Label)
    requires KeysOk(s) && Enabled(s, l)
    requires l.Admit? || l.GiveUp? || l.Lease? || l.Provision? || l.Refuse? || l.Return?
    ensures KeysOk(Apply(s, l))
  {
    var s' := Apply(s, l);
    assert s'.store == s.store && s'.removing == s.removing;
  }

  lemma RemovingKeys(s: Server, l: Label)
    requires KeysOk(s) && Enabled(s, l) && (l.Unpin? || l.Release? || l.Skip?)
    ensures KeysOk(Apply(s, l))
  {
    var s' := Apply(s, l);
    assert s'.store == s.store && s'.connecting == s.connecting;
  }

  lemma StoringKeys(s: Server, l: Label)
    requires KeysOk(s) && Enabled(s, l) && (l.Publish? || l.Tick? || l.Touch?)
    ensures KeysOk(Apply(s, l))
  {
  }

  lemma KeysStep(s: Server, l: Label)
    requires KeysOk(s) && Enabled(s, l)
    ensures KeysOk(Apply(s, l))
  {
    if l.Disconnect? {
      TakenOutKeys(s, {l.id});
    } else if l.Expire? {
      TakenOutKeys(s, IdleIds(s.store, l.cutoff));
    } else if l.Unpin? || l.Release? || l.Skip? {
      RemovingKeys(s, l);
    } else if l.Publish? || l.Tick? || l.Touch? {
      StoringKeys(s, l);
    } else {
      ConnectingKeys(s, l);
    }
  }

  /** Steps that only move a session between phases. */
  predicate PhaseStep(l: Label) {
    l.Tick? || l.Admit? || l.GiveUp? || (l.Refuse? && !l.applied) || l.Publish? || l.Touch? || l.Disconnect? || l.Expire?
  }

  /** The claim of a connect in flight, if it has one. */
  function ConnectClaim(s: Server, id: string): Option<Claim> {
    if id in s.connecting && !s.connecting[id].Admitted? then
      Some(Claim(PoolOf(s.connecting[id].protocol), s.connecting[id].address, s.connecting[id].key))
    else None
  }

  lemma SetConnect(s: Server, s': Server, id: string)
    requires s'.store == s.store && s'.removing == s.removing && id !in s.store && id !in s.removing
    requires forall x :: x != id ==> (x in s'.connecting <==> x in s.connecting)
    requires forall x :: x != id && x in s.connecting ==> s'.connecting[x] == s.connecting[x]
    requires ConnectClaim(s', id) == ConnectClaim(s, id)
    requires (id in s.connecting ==> !s.connecting[id].Provisioned?) && (id in s'.connecting ==> !s'.connecting[id].Provisioned?)
    ensures forall x :: Holds(s', x) == Holds(s, x)
    ensures forall x :: Pins(s', x) == Pins(s, x)
  {
    assert Pins(s, id).None? && Pins(s', id).None?;
    forall x
      ensures Holds(s', x) == Holds(s, x) && Pins(s', x) == Pins(s, x)
    {
      if x == id {
        assert Holds(s, x) == ConnectClaim(s, x) && Holds(s', x) == ConnectClaim(s', x);
      }
    }
  }

  lemma PhaseStepKeepsClaims(s: Server, l: Label)
    requires PlacesOk(s) && KeysOk(s) && Enabled(s, l) && PhaseStep(l)
    ensures forall id :: Holds(Apply(s, l), id) == Holds(s, id)
    ensures forall id :: Pins(Apply(s, l), id) == Pins(s, id)
  {
    if l.Publish? {
      PublishClaims(s, l.record);
    } else if l.Disconnect? {
      TakenOutPlaces(s, {l.id});
    } else if l.Expire? {
      TakenOutPlaces(s, IdleIds(s.store, l.cutoff));
    } else if l.Touch? {
      TouchClaims(s, l.id);
    } else if !l.Tick? {
      SetConnect(s, Apply(s, l), l.id);
    }
  }

  /** A step that touches no pool and changes no claim keeps claims and leases matched. */
  lemma SameClaims(s: Server, s': Server)
    requires ClaimsLeased(s) && LeasesClaimed(s) && s'.pools == s.pools
    requires forall id :: Holds(s', id) == Holds(s, id)
    ensures ClaimsLeased(s') && LeasesClaimed(s')
  {
    forall p, a | p in s'.pools && a in s'.pools[p].leases && !s'.pools[p].config.IsReserved(a)
      ensures Claims(s', s'.pools[p].leases[a], p, a)
    {
      assert Claims(s, s.pools[p].leases[a], p, a);
    }
  }

  lemma SamePins(s: Server, s': Server)
    requires PinsOwned(s) && s'.pools.Keys == s.pools.Keys && s'.backends == s.backends
    requires forall id :: Pins(s, id).Some? ==> Pins(s', id) == Pins(s, id)
    ensures PinsOwned(s')
  {
    forall p, k | p in s'.pools && p in s'.backends && k in s'.backends[p]
      ensures Pins(s', s'.backends[p][k].writer) == Some(Claim(p, s'.backends[p][k].address, k))
    {
      assert Pins(s, s.backends[p][k].writer) == Some(Claim(p, s.backends[p][k].address, k));
    }
  }

  /** `id` alone changes its claim, from `before` to `now`. */
  ghost predicate OnlyClaim(s: Server, s': Server, id: string, before: Option<Claim>, now: Option<Claim>) {
    && Holds(s, id) == before && Holds(s', id) == now
    && forall x :: x != id ==> Holds(s', x) == Holds(s, x)
  }

  /** `id` alone changes its right to a backend entry. */
  ghost predicate OnlyPin(s: Server, s': Server, id: string, before: Option<Claim>, now: Option<Claim>) {
    && Pins(s, id) == before && Pins(s', id) == now
    && forall x :: x != id ==> Pins(s', x) == Pins(s, x)
  }

  lemma ForgetConnect(s: Server, s': Server, id: string)
    requires id in s.connecting && !s.connecting[id].Admitted? && !s.connecting[id].Provisioned?
    requires id !in s.store && id !in s.removing
    requires s'.connecting == s.connecting - {id} && s'.store == s.store && s'.removing == s.removing
    ensures var c := s.connecting[id]; OnlyClaim(s, s', id, Some(Claim(PoolOf(c.protocol), c.address, c.key)), None)
    ensures forall x :: Pins(s', x) == Pins(s, x)
  {
  }

  lemma ForgetRemoval(s: Server, s': Server, id: string)
    requires id in s.removing && id !in s.store && id !in s.connecting
    requires s'.removing == s.removing - {id} && s'.store == s.store && s'.connecting == s.connecting
    ensures OnlyClaim(s, s', id, Some(RecordClaim(s.removing[id].record)), None)
    ensures forall x :: x != id || s.removing[id].unpinned ==> Pins(s', x) == Pins(s, x)
  {
  }

  /** A new claim on an address that was free. */
  lemma GrantClaim(s: Server, s': Server, id: string, c: Claim)
    requires ClaimsLeased(s) && LeasesClaimed(s) && OnlyClaim(s, s', id, None, Some(c))
    requires c.pool in s.pools && s'.pools.Keys == s.pools.Keys
    requires forall q :: q in s.pools && q != c.pool ==> s'.pools[q] == s.pools[q]
    requires var pool, pool' := s.pools[c.pool], s'.pools[c.pool];
             && pool'.config == pool.config && pool'.leases == pool.leases[c.address := id]
             && c.address !in pool.leases && pool.config.Usable(c.address)
    ensures ClaimsLeased(s') && LeasesClaimed(s')
  {
    forall x | Holds(s', x).Some?
      ensures var d := Holds(s', x).value; d.pool in s'.pools ==> LeasedTo(s'.pools[d.pool], d.address, x)
    {
      if x != id {
        var d := Holds(s, x).value;
        assert d.pool in s.pools ==> LeasedTo(s.pools[d.pool], d.address, x);
      }
    }
    forall q, a | q in s'.pools && a in s'.pools[q].leases && !s'.pools[q].config.IsReserved(a)
      ensures Claims(s', s'.pools[q].leases[a], q, a)
    {
      if q != c.pool || a != c.address {
        assert Claims(s, s.pools[q].leases[a], q, a);
      }
    }
  }

  /** Freeing a claim's address along with the claim frees nobody else's address. */
  lemma FreeClaim(s: Server, s': Server, id: string, c: Claim)
    requires ClaimsLeased(s) && LeasesClaimed(s) && OnlyClaim(s, s', id, Some(c), None)
    requires c.pool in s.pools && s'.pools == s.pools[c.pool := Ipam.Released(s.pools[c.pool], c.address)]
    ensures ClaimsLeased(s') && LeasesClaimed(s')
  {
    assert LeasedTo(s.pools[c.pool], c.address, id);
    forall x | Holds(s', x).Some?
      ensures var d := Holds(s', x).value; d.pool in s'.pools ==> LeasedTo(s'.pools[d.pool], d.address, x)
    {
      var d := Holds(s, x).value;
      assert d.pool in s.pools ==> LeasedTo(s.pools[d.pool], d.address, x);
    }
    forall q, a | q in s'.pools && a in s'.pools[q].leases && !s'.pools[q].config.IsReserved(a)
      ensures Claims(s', s'.pools[q].leases[a], q, a)
    {
      assert Claims(s, s.pools[q].leases[a], q, a);
    }
  }

  lemma LeaseClaims(s: Server, id: string, address: int)
    requires PlacesOk(s) && Enabled(s, Lease(id, address))
    ensures var c := s.connecting[id];
            OnlyClaim(s, Granted(s, id, address), id, None, Some(Claim(PoolOf(c.protocol), address, c.key)))
    ensures forall x :: Pins(Granted(s, id, address), x) == Pins(s, x)
  {
  }

  lemma LeaseStep(s: Server, id: string, address: int)
    requires LeasesMatch(s) && Enabled(s, Lease(id, address))
    ensures PoolsOk(Granted(s, id, address))
    ensures ClaimsLeased(Granted(s, id, address)) && LeasesClaimed(Granted(s, id, address))
  {
    var c := s.connecting[id];
    var p := PoolOf(c.protocol);
    var s' := Granted(s, id, address);
    PoolFacts.AllocatesUsable(s.pools[p], id, address, s'.pools[p]);
    LeaseClaims(s, id, address);
    GrantClaim(s, s', id, Claim(p, address, c.key));
  }

  /** A claimed address is not a reserved one, so releasing it keeps the pool valid. */
  lemma FreeKeepsPool(s: Server, id: string, c: Claim)
    requires PoolsOk(s) && ClaimsLeased(s) && Holds(s, id) == Some(c) && c.pool in s.pools
    ensures Ipam.Released(s.pools[c.pool], c.address).Valid()
  {
    assert LeasedTo(s.pools[c.pool], c.address, id);
    PoolFacts.ReleasedValid(s.pools[c.pool], c.address);
  }

  lemma ReturnStep(s: Server, id: string)
    requires LeasesMatch(s) && Enabled(s, Return(id))
    ensures PoolsOk(GivenBack(s, id)) && ClaimsLeased(GivenBack(s, id)) && LeasesClaimed(GivenBack(s, id))
  {
    ForgetConnect(s, GivenBack(s, id), id);
    FreeKeepsPool(s, id, Holds(s, id).value);
    FreeClaim(s, GivenBack(s, id), id, Holds(s, id).value);
  }

  lemma ReleaseStep(s: Server, id: string)
    requires LeasesMatch(s) && Enabled(s, Release(id))
    ensures PoolsOk(Freed(s, id)) && ClaimsLeased(Freed(s, id)) && LeasesClaimed(Freed(s, id))
  {
    ForgetRemoval(s, Freed(s, id), id);
    FreeKeepsPool(s, id, Holds(s, id).value);
    FreeClaim(s, Freed(s, id), id, Holds(s, id).value);
  }

  lemma SkipStep(s: Server, id: string)
    requires LeasesMatch(s) && Enabled(s, Skip(id))
    ensures PoolsOk(Skipped(s, id)) && ClaimsLeased(Skipped(s, id)) && LeasesClaimed(Skipped(s, id))
  {
    var s' := Skipped(s, id);
    ForgetRemoval(s, s', id);
    forall p, a | p in s'.pools && a in s'.pools[p].leases && !s'.pools[p].config.IsReserved(a)
      ensures Claims(s', s'.pools[p].leases[a], p, a)
    {
      assert Claims(s, s.pools[p].leases[a], p, a);
    }
  }

  /** A session of a protocol this node does not run has no entry in any backend. */
  lemma SkipPins(s: Server, id: string)
    requires PoolsOk(s) && PlacesOk(s) && PinsOwned(s) && Enabled(s, Skip(id))
    ensures PinsOwned(Skipped(s, id))
  {
    var s' := Skipped(s, id);
    ForgetRemoval(s, s', id);
    forall p, k | p in s'.pools && p in s'.backends && k in s'.backends[p]
      ensures Pins(s', s'.backends[p][k].writer) == Some(Claim(p, s'.backends[p][k].address, k))
    {
      assert Pins(s, s.backends[p][k].writer) == Some(Claim(p, s.backends[p][k].address, k));
    }
  }

  lemma ProvisionClaims(s: Server, id: string)
    requires PlacesOk(s) && Enabled(s, Provision(id))
    ensures var c := s.connecting[id];
            OnlyPin(s, Pinned(s, id), id, None, Some(Claim(PoolOf(c.protocol), c.address, c.key)))
    ensures forall x :: Holds(Pinned(s, id), x) == Holds(s, x)
  {
  }

  lemma UnpinClaims(s: Server, id: string, succeeded: bool)
    requires PlacesOk(s) && Enabled(s, Unpin(id, succeeded))
    ensures OnlyPin(s, Unpinned(s, id, succeeded), id, Some(RecordClaim(s.removing[id].record)), None)
    ensures forall x :: Holds(Unpinned(s, id, succeeded), x) == Holds(s, x)
  {
  }

  lemma RefuseStep(s: Server, id: string, applied: bool)
    requires LeasesMatch(s) && Enabled(s, Refuse(id, applied))
    ensures PoolsOk(RefusedIn(s, id, applied))
    ensures ClaimsLeased(RefusedIn(s, id, applied)) && LeasesClaimed(RefusedIn(s, id, applied))
  {
    var s' := RefusedIn(s, id, applied);
    assert id !in s.store && id !in s.removing && s'.store == s.store && s'.removing == s.removing;
    SetConnect(s, s', id);
    SameClaims(s, s');
  }

  lemma ProvisionStep(s: Server, id: string)
    requires LeasesMatch(s) && Enabled(s, Provision(id))
    ensures PoolsOk(Pinned(s, id)) && ClaimsLeased(Pinned(s, id)) && LeasesClaimed(Pinned(s, id))
  {
    ProvisionClaims(s, id);
    SameClaims(s, Pinned(s, id));
  }

  lemma UnpinStep(s: Server, id: string, succeeded: bool)
    requires LeasesMatch(s) && Enabled(s, Unpin(id, succeeded))
    ensures PoolsOk(Unpinned(s, id, succeeded))
    ensures ClaimsLeased(Unpinned(s, id, succeeded)) && LeasesClaimed(Unpinned(s, id, succeeded))
  {
    UnpinClaims(s, id, succeeded);
    SameClaims(s, Unpinned(s, id, succeeded));
  }

  lemma PhaseStepPools(s: Server, l: Label)
    requires Enabled(s, l) && PhaseStep(l)
    ensures Apply(s, l).pools == s.pools && Apply(s, l).backends == s.backends
  {
    if l.Disconnect? {
      assert Apply(s, l) == TakenOut(s, {l.id});
    } else if l.Expire? {
      assert Apply(s, l) == TakenOut(s, IdleIds(s.store, l.cutoff));
    } else if l.Tick? || l.Admit? {
    } else if l.GiveUp? || l.Refuse? {
    }
  }

  lemma QuietStep(s: Server, l: Label)
    requires LeasesMatch(s) && Enabled(s, l) && PhaseStep(l)
    ensures PoolsOk(Apply(s, l)) && ClaimsLeased(Apply(s, l)) && LeasesClaimed(Apply(s, l))
  {
    PhaseStepPools(s, l);
    PhaseStepKeepsClaims(s, l);
    SameClaims(s, Apply(s, l));
  }

  /** Every step, whether or not backend commands succeed, keeps claims and leases matched. */
  lemma StepKeepsLeases(s: Server, l: Label)
    requires LeasesMatch(s) && Enabled(s, l)
    ensures LeasesMatch(Apply(s, l))
  {
    PlacesStep(s, l);
    KeysStep(s, l);
    if l.Lease? {
      LeaseStep(s, l.id, l.address);
    } else if l.Return? {
      ReturnStep(s, l.id);
    } else if l.Release? {
      ReleaseStep(s, l.id);
    } else if l.Skip? {
      SkipStep(s, l.id);
    } else if l.Provision? {
      ProvisionStep(s, l.id);
    } else if l.Unpin? {
      UnpinStep(s, l.id, l.succeeded);
    } else if l.Refuse? {
      RefuseStep(s, l.id, l.applied);
    } else {
      QuietStep(s, l);
    }
  }

  lemma WritePin(s: Server, s': Server, id: string, c: Claim)
    requires PinsOwned(s) && OnlyPin(s, s', id, None, Some(c))
    requires c.pool in s.backends && s'.pools == s.pools
    requires s'.backends == s.backends[c.pool := Upserted(s.backends[c.pool], c.pool, c.key, Pin(c.address, id))]
    ensures PinsOwned(s')
  {
    forall p, k | p in s'.pools && p in s'.backends && k in s'.backends[p]
      ensures Pins(s', s'.backends[p][k].writer) == Some(Claim(p, s'.backends[p][k].address, k))
    {
      if p != c.pool || k != c.key {
        assert Pins(s, s.backends[p][k].writer) == Some(Claim(p, s.backends[p][k].address, k));
      }
    }
  }

  /** Removing by key removes every entry its owner wrote. */
  lemma RemovePin(s: Server, s': Server, id: string, c: Claim)
    requires PinsOwned(s) && OnlyPin(s, s', id, Some(c), None) && s'.pools == s.pools
    requires c.pool in s.backends && s'.backends == s.backends[c.pool := s.backends[c.pool] - {c.key}]
    ensures PinsOwned(s')
  {
    forall p, k | p in s'.pools && p in s'.backends && k in s'.backends[p]
      ensures Pins(s', s'.backends[p][k].writer) == Some(Claim(p, s'.backends[p][k].address, k))
    {
      assert Pins(s, s.backends[p][k].writer) == Some(Claim(p, s.backends[p][k].address, k));
    }
  }

  lemma LeaseKeepsPins(s: Server, id: string, address: int)
    requires PlacesOk(s) && PinsOwned(s) && Enabled(s, Lease(id, address))
    ensures PinsOwned(Granted(s, id, address))
  {
    LeaseClaims(s, id, address);
    SamePins(s, Granted(s, id, address));
  }

  lemma ReturnKeepsPins(s: Server, id: string)
    requires PlacesOk(s) && PinsOwned(s) && Enabled(s, Return(id))
    ensures PinsOwned(GivenBack(s, id))
  {
    ForgetConnect(s, GivenBack(s, id), id);
    SamePins(s, GivenBack(s, id));
  }

  lemma ProvisionKeepsPins(s: Server, id: string)
    requires PlacesOk(s) && PinsOwned(s) && Enabled(s, Provision(id))
    ensures PinsOwned(Pinned(s, id))
  {
    var c := s.connecting[id];
    ProvisionClaims(s, id);
    WritePin(s, Pinned(s, id), id, Claim(PoolOf(c.protocol), c.address, c.key));
  }

  lemma ConnectKeepsPins(s: Server, l: Label)
    requires PlacesOk(s) && PinsOwned(s) && Enabled(s, l) && (l.Lease? || l.Return? || l.Provision?)
    ensures PinsOwned(Apply(s, l))
  {
    if l.Lease? {
      LeaseKeepsPins(s, l.id, l.address);
    } else if l.Return? {
      ReturnKeepsPins(s, l.id);
    } else {
      ProvisionKeepsPins(s, l.id);
    }
  }

  lemma RemovalKeepsPins(s: Server, l: Label)
    requires PoolsOk(s) && PlacesOk(s) && PinsOwned(s) && Enabled(s, l)
    requires l.Release? || l.Skip? || (l.Unpin? && l.succeeded)
    ensures PinsOwned(Apply(s, l))
  {
    if l.Release? {
      ForgetRemoval(s, Freed(s, l.id), l.id);
      SamePins(s, Freed(s, l.id));
    } else if l.Skip? {
      SkipPins(s, l.id);
    } else {
      UnpinClaims(s, l.id, true);
      RemovePin(s, Unpinned(s, l.id, true), l.id, RecordClaim(s.removing[l.id].record));
    }
  }

  lemma StepKeepsPins(s: Server, l: Label)
    requires PoolsOk(s) && PlacesOk(s) && KeysOk(s) && PinsOwned(s) && Enabled(s, l) && Dependable(l)
    ensures PinsOwned(Apply(s, l))
  {
    if l.Lease? || l.Return? || l.Provision? {
      ConnectKeepsPins(s, l);
    } else if l.Release? || l.Skip? || l.Unpin? {
      RemovalKeepsPins(s, l);
    } else {
      PhaseStepKeepsClaims(s, l);
      SamePins(s, Apply(s, l));
    }
  }

  lemma {:induction false} RunKeepsLeases(s: Server, ls: seq<Label>)
    requires LeasesMatch(s) && ValidRun(s, ls)
    ensures LeasesMatch(After(s, ls))
    decreases |ls|
  {
    if ls != [] {
      StepKeepsLeases(s, ls[0]);
      RunKeepsLeases(Apply(s, ls[0]), ls[1..]);
    }
  }

  /** Over every interleaving of steps, as long as backend removals succeed, the whole invariant holds. */
  lemma {:induction false} RunKeepsInv(s: Server, ls: seq<Label>)
    requires Inv(s) && ValidRun(s, ls) && Reliable(ls)
    ensures Inv(After(s, ls))
    decreases |ls|
  {
    if ls != [] {
      assert Dependable(ls[0]);
      StepKeepsLeases(s, ls[0]);
      StepKeepsPins(s, ls[0]);
      RunKeepsInv(Apply(s, ls[0]), ls[1..]);
    }
  }

  // ---- isolation ----

  /** No two entries of this backend pin the same address. */
  ghost predicate DistinctEntries(b: Backend) {
    forall k, l :: k in b && l in b && k != l ==> b[k].address != b[l].address
  }

  /** No two entries of one backend pin the same address, and each pinned address is leased to its writer. */
  ghost predicate IsolatedIn(s: Server, p: PoolName)
    requires p in s.pools && p in s.backends
  {
    && DistinctEntries(s.backends[p])
    && forall k :: k in s.backends[p] ==> LeasedTo(s.pools[p], s.backends[p][k].address, s.backends[p][k].writer)
  }

  /** So it is in every backend that this node runs. */
  ghost predicate Isolated(s: Server) {
    forall p :: p in s.pools && p in s.backends ==> IsolatedIn(s, p)
  }

  ghost predicate PinsLeased(s: Server) {
    forall p, k :: p in s.pools && p in s.backends && k in s.backends[p] ==>
      LeasedTo(s.pools[p], s.backends[p][k].address, s.backends[p][k].writer)
  }

  lemma OwnedIsolates(s: Server, p: PoolName)
    requires Inv(s) && p in s.pools && p in s.backends
    ensures IsolatedIn(s, p)
  {
    var b := s.backends[p];
    forall k | k in b
      ensures LeasedTo(s.pools[p], b[k].address, b[k].writer)
    {
      assert Pins(s, b[k].writer) == Some(Claim(p, b[k].address, k));
    }
    forall k, l | k in b && l in b && b[k].address == b[l].address
      ensures k == l
    {
      assert LeasedTo(s.pools[p], b[k].address, b[k].writer) && LeasedTo(s.pools[p], b[l].address, b[l].writer);
    }
  }

  lemma InvIsolates(s: Server)
    requires Inv(s)
    ensures Isolated(s)
  {
    forall p | p in s.pools && p in s.backends
      ensures IsolatedIn(s, p)
    {
      OwnedIsolates(s, p);
    }
  }

  /**
   * Client isolation: in every reachable state two different backend entries
   * of one protocol pin different IPv4 addresses, each leased to the session
   * that pinned it, even if WireGuard clients share public keys.
   */
  lemma AlwaysIsolated(s: Server, ls: seq<Label>)
    requires Inv(s) && ValidRun(s, ls) && Reliable(ls)
    ensures Isolated(After(s, ls))
  {
    RunKeepsInv(s, ls);
    InvIsolates(After(s, ls));
  }

  /** The paired IPv6 addresses of two different entries differ as well. */
  lemma AlwaysIsolatedV6(s: Server, ls: seq<Label>, p: PoolName, k: string, l: string, prefix: Option<Ipv6.Prefix>)
    requires Inv(s) && ValidRun(s, ls) && Reliable(ls)
    requires p in After(s, ls).pools
    requires var b := After(s, ls).backends; p in b && k in b[p] && l in b[p] && k != l
    ensures var b := After(s, ls).backends[p];
            && 0 <= b[k].address < Ipam.WORD && 0 <= b[l].address < Ipam.WORD
            && (Ipv6.Derive(Ipv6.FromUint32(b[k].address), prefix).Success? ==>
                  Ipv6.Derive(Ipv6.FromUint32(b[k].address), prefix) != Ipv6.Derive(Ipv6.FromUint32(b[l].address), prefix))
  {
    AlwaysIsolated(s, ls);
    RunKeepsInv(s, ls);
    var t := After(s, ls);
    assert IsolatedIn(t, p);
    assert LeasedTo(t.pools[p], t.backends[p][k].address, t.backends[p][k].writer);
    assert LeasedTo(t.pools[p], t.backends[p][l].address, t.backends[p][l].writer);
    if Ipv6.Derive(Ipv6.FromUint32(t.backends[p][k].address), prefix)
       == Ipv6.Derive(Ipv6.FromUint32(t.backends[p][l].address), prefix)
       && Ipv6.Derive(Ipv6.FromUint32(t.backends[p][k].address), prefix).Success? {
      Ipv6.DeriveInjective(t.backends[p][k].address, t.backends[p][l].address, prefix);
    }
  }
}

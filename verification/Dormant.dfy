/**
 * Protocols that are disabled for a while. Their entries survive in the
 * backends, nobody removes them, and the addresses come back into use when
 * the protocol is enabled again; the results say exactly when that is safe.
 */
module Dormant {
  import opened Results
  import opened Sessions
  import opened Lifecycle
  import opened LifecycleSafety
  import opened LeaseAccounting
  import opened FailedRemovals
  import opened Restart
  import opened Scenarios
  import Ipam
  import PoolFacts

  /** The claim of a session on pool `p`, running or not. */
  function HoldsIn(s: Server, id: string, p: PoolName): Option<Claim> {
    if Holds(s, id).Some? && Holds(s, id).value.pool == p then Holds(s, id) else None
  }

  /** The node does not run the protocol, and no connect holds one of its addresses. */
  ghost predicate Disabled(s: Server, p: PoolName) {
    && p !in s.pools && p in s.backends
    && forall id :: id in s.connecting && PoolOf(s.connecting[id].protocol) == p ==> s.connecting[id].Admitted?
  }

  /** Every entry's writer is a session that still has the address to its name. */
  ghost predicate EntriesClaimed(s: Server, p: PoolName)
    requires p in s.backends
  {
    forall k :: k in s.backends[p] ==> Claims(s, s.backends[p][k].writer, p, s.backends[p][k].address)
  }

  /** The step does not give up a session of `p` that still has an entry. */
  ghost predicate SkipClean(s: Server, l: Label, p: PoolName)
    requires Enabled(s, l)
  {
    l.Skip? && PoolOf(s.removing[l.id].record.protocol) == p ==> WroteNothing(s, p, l.id)
  }

  ghost predicate SkipsClean(s: Server, ls: seq<Label>, p: PoolName)
    requires ValidRun(s, ls)
    decreases |ls|
  {
    ls == [] || (SkipClean(s, ls[0], p) && SkipsClean(Apply(s, ls[0]), ls[1..], p))
  }

  // ---- a disabled protocol, step by step ----

  /** Nothing about `p` changes but that `gone`, if any, loses its claim. */
  ghost predicate OnlyLoses(s: Server, s': Server, p: PoolName, gone: Option<string>) {
    && Disabled(s', p) && p in s.backends && s'.backends[p] == s.backends[p]
    && forall id :: HoldsIn(s', id, p) == if gone == Some(id) then None else HoldsIn(s, id, p)
  }

  lemma LeaseElsewhere(s: Server, id: string, address: int, p: PoolName)
    requires PlacesOk(s) && Disabled(s, p) && Enabled(s, Lease(id, address))
    ensures OnlyLoses(s, Granted(s, id, address), p, None)
  {
    LeaseClaims(s, id, address);
  }

  lemma ReturnElsewhere(s: Server, id: string, p: PoolName)
    requires PlacesOk(s) && Disabled(s, p) && Enabled(s, Return(id))
    ensures OnlyLoses(s, GivenBack(s, id), p, None)
  {
    ForgetConnect(s, GivenBack(s, id), id);
  }

  lemma ProvisionElsewhere(s: Server, id: string, p: PoolName)
    requires PlacesOk(s) && Disabled(s, p) && Enabled(s, Provision(id))
    ensures OnlyLoses(s, Pinned(s, id), p, None)
  {
    ProvisionClaims(s, id);
  }

  lemma RefuseElsewhere(s: Server, id: string, applied: bool, p: PoolName)
    requires PlacesOk(s) && Disabled(s, p) && Enabled(s, Refuse(id, applied))
    ensures OnlyLoses(s, RefusedIn(s, id, applied), p, None)
  {
    var s' := RefusedIn(s, id, applied);
    assert id !in s.store && id !in s.removing && s'.store == s.store && s'.removing == s.removing;
    SetConnect(s, s', id);
  }

  lemma UnpinElsewhere(s: Server, id: string, succeeded: bool, p: PoolName)
    requires PlacesOk(s) && Disabled(s, p) && Enabled(s, Unpin(id, succeeded))
    ensures OnlyLoses(s, Unpinned(s, id, succeeded), p, None)
  {
    UnpinClaims(s, id, succeeded);
  }

  lemma ReleaseElsewhere(s: Server, id: string, p: PoolName)
    requires PlacesOk(s) && Disabled(s, p) && Enabled(s, Release(id))
    ensures OnlyLoses(s, Freed(s, id), p, None)
  {
    ForgetRemoval(s, Freed(s, id), id);
  }

  lemma SkipLoses(s: Server, id: string, p: PoolName)
    requires PlacesOk(s) && Disabled(s, p) && Enabled(s, Skip(id))
    ensures OnlyLoses(s, Skipped(s, id), p, Some(id))
    ensures HoldsIn(s, id, p).Some? <==> PoolOf(s.removing[id].record.protocol) == p
  {
    ForgetRemoval(s, Skipped(s, id), id);
  }

  lemma PhaseElsewhere(s: Server, l: Label, p: PoolName)
    requires PlacesOk(s) && KeysOk(s) && Disabled(s, p) && Enabled(s, l) && PhaseStep(l)
    ensures OnlyLoses(s, Apply(s, l), p, None)
  {
    PhaseStepKeepsClaims(s, l);
    PhaseStepPools(s, l);
    forall id | id in Apply(s, l).connecting && PoolOf(Apply(s, l).connecting[id].protocol) == p
      ensures Apply(s, l).connecting[id].Admitted?
    {
      PhaseConnects(s, l, id);
    }
  }

  lemma PhaseConnects(s: Server, l: Label, id: string)
    requires Enabled(s, l) && PhaseStep(l) && id in Apply(s, l).connecting
    ensures Apply(s, l).connecting[id].Admitted? ||
            (id in s.connecting && !s.connecting[id].Admitted? && Apply(s, l).connecting[id].protocol == s.connecting[id].protocol)
  {
    if l.Disconnect? {
      assert Apply(s, l) == TakenOut(s, {l.id});
    } else if l.Expire? {
      assert Apply(s, l) == TakenOut(s, IdleIds(s.store, l.cutoff));
    }
  }

  lemma StepOnlyLoses(s: Server, l: Label, p: PoolName)
    requires PlacesOk(s) && KeysOk(s) && Disabled(s, p) && Enabled(s, l)
    ensures OnlyLoses(s, Apply(s, l), p, if l.Skip? then Some(l.id) else None)
  {
    if l.Lease? {
      LeaseElsewhere(s, l.id, l.address, p);
    } else if l.Return? {
      ReturnElsewhere(s, l.id, p);
    } else if l.Provision? {
      ProvisionElsewhere(s, l.id, p);
    } else if l.Refuse? {
      RefuseElsewhere(s, l.id, l.applied, p);
    } else if l.Unpin? {
      UnpinElsewhere(s, l.id, l.succeeded, p);
    } else if l.Release? {
      ReleaseElsewhere(s, l.id, p);
    } else if l.Skip? {
      SkipLoses(s, l.id, p);
    } else {
      PhaseElsewhere(s, l, p);
    }
  }

  lemma ClaimsIsHoldsIn(s: Server, id: string, p: PoolName, a: int)
    ensures Claims(s, id, p, a) <==> HoldsIn(s, id, p).Some? && HoldsIn(s, id, p).value.address == a
  {
  }

  lemma StepEntriesIff(s: Server, l: Label, p: PoolName)
    requires PlacesOk(s) && KeysOk(s) && Disabled(s, p) && Enabled(s, l) && EntriesClaimed(s, p)
    ensures Disabled(Apply(s, l), p) && Apply(s, l).backends[p] == s.backends[p]
    ensures SkipClean(s, l, p) ==> EntriesClaimed(Apply(s, l), p)
    ensures !SkipClean(s, l, p) ==>
              exists k :: k in s.backends[p] && HoldsIn(Apply(s, l), s.backends[p][k].writer, p).None?
  {
    var s' := Apply(s, l);
    StepOnlyLoses(s, l, p);
    if l.Skip? {
      SkipLoses(s, l.id, p);
    }
    if SkipClean(s, l, p) {
      forall k | k in s'.backends[p]
        ensures Claims(s', s'.backends[p][k].writer, p, s'.backends[p][k].address)
      {
        ClaimsIsHoldsIn(s, s.backends[p][k].writer, p, s.backends[p][k].address);
        ClaimsIsHoldsIn(s', s.backends[p][k].writer, p, s.backends[p][k].address);
      }
    } else {
      var k :| k in s.backends[p] && s.backends[p][k].writer == l.id;
      assert HoldsIn(s', s.backends[p][k].writer, p).None?;
    }
  }

  /** While the protocol is off, lost claims stay lost and entries stay put. */
  lemma {:induction false} RunOnlyLoses(s: Server, ls: seq<Label>, p: PoolName)
    requires PlacesOk(s) && KeysOk(s) && Disabled(s, p) && ValidRun(s, ls)
    ensures Disabled(After(s, ls), p) && After(s, ls).backends[p] == s.backends[p]
    ensures forall id :: HoldsIn(After(s, ls), id, p).Some? ==> HoldsIn(After(s, ls), id, p) == HoldsIn(s, id, p)
    decreases |ls|
  {
    if ls != [] {
      PlacesStep(s, ls[0]);
      KeysStep(s, ls[0]);
      StepOnlyLoses(s, ls[0], p);
      RunOnlyLoses(Apply(s, ls[0]), ls[1..], p);
    }
  }

  /** After a run with the protocol off, its entries still belong to sessions exactly when every skip was clean. */
  lemma {:induction false} RunEntriesIff(s: Server, ls: seq<Label>, p: PoolName)
    requires PlacesOk(s) && KeysOk(s) && Disabled(s, p) && EntriesClaimed(s, p) && ValidRun(s, ls)
    ensures p in After(s, ls).backends
    ensures EntriesClaimed(After(s, ls), p) <==> SkipsClean(s, ls, p)
    decreases |ls|
  {
    RunOnlyLoses(s, ls, p);
    if ls != [] {
      var s', rest := Apply(s, ls[0]), ls[1..];
      PlacesStep(s, ls[0]);
      KeysStep(s, ls[0]);
      StepEntriesIff(s, ls[0], p);
      if SkipClean(s, ls[0], p) {
        RunEntriesIff(s', rest, p);
      } else {
        RunOnlyLoses(s', rest, p);
        var k :| k in s.backends[p] && HoldsIn(s', s.backends[p][k].writer, p).None?;
        ClaimsIsHoldsIn(After(s, ls), s.backends[p][k].writer, p, s.backends[p][k].address);
      }
    }
  }

  // ---- enabling it again ----

  /** The sessions of `p` have usable addresses of their own, whether the node runs the protocol or not. */
  ghost predicate Placed(s: Server, p: PoolName, c: Ipam.Config) {
    && (forall id :: HoldsIn(s, id, p).Some? ==> c.Usable(HoldsIn(s, id, p).value.address))
    && (forall x, y :: HoldsIn(s, x, p).Some? && HoldsIn(s, y, p).Some? && x != y ==>
          HoldsIn(s, x, p).value.address != HoldsIn(s, y, p).value.address)
  }

  lemma MatchingPlaces(s: Server, p: PoolName)
    requires ClaimsLeased(s) && p in s.pools
    ensures Placed(s, p, s.pools[p].config)
  {
    forall id | HoldsIn(s, id, p).Some?
      ensures LeasedTo(s.pools[p], HoldsIn(s, id, p).value.address, id)
    {
      assert Holds(s, id).value.pool == p;
    }
  }

  lemma PlacedReservable(s: Server, p: PoolName, c: Ipam.Config, file: seq<Record>)
    requires PlacesOk(s) && Placed(s, p, c) && Lists(file, s.store)
    ensures Reservable(c, p, file)
  {
    forall i | 0 <= i < |file| && PoolOf(file[i].protocol) == p
      ensures HoldsIn(s, file[i].id, p) == Some(RecordClaim(file[i]))
    {
      assert s.store[file[i].id] == file[i];
    }
  }

  lemma ListedIffClaimed(s: Server, file: seq<Record>, p: PoolName, a: int, owner: string)
    requires Quiet(s) && Lists(file, s.store)
    ensures Listed(file, p, a, owner) <==> Claims(s, owner, p, a)
  {
    if Claims(s, owner, p, a) {
      assert Mentions(file, owner);
      var i :| 0 <= i < |file| && file[i].id == owner;
      assert file[i] == s.store[owner];
    }
  }

  /** In a new process that runs `p`, its clients are isolated exactly when every entry left there belongs to a stored session. */
  lemma RestartIsolatesIff(s: Server, t: Server, file: seq<Record>, p: PoolName)
    requires Quiet(s) && PlacesOk(s) && Lists(file, s.store) && p in s.backends && DistinctEntries(s.backends[p])
    requires Blank(t) && t.backends == s.backends && p in t.pools && Placed(s, p, t.pools[p].config)
    ensures IsolatedIn(Restarted(t, file), p) <==> EntriesClaimed(s, p)
  {
    var c, u := t.pools[p].config, Restarted(t, file);
    PlacedReservable(s, p, c, file);
    ReservationsMatch(c, p, file);
    forall k | k in s.backends[p]
      ensures LeasedTo(u.pools[p], s.backends[p][k].address, s.backends[p][k].writer)
         <==> Claims(s, s.backends[p][k].writer, p, s.backends[p][k].address)
    {
      var a, w := s.backends[p][k].address, s.backends[p][k].writer;
      ListedIffClaimed(s, file, p, a, w);
      ClaimsIsHoldsIn(s, w, p, a);
      assert !c.IsReserved(a) ==> (LeasedBy(u.pools[p], a, w) <==> Listed(file, p, a, w));
    }
  }

  lemma IsolatedEntriesClaimed(s: Server, p: PoolName)
    requires LeasesMatch(s) && p in s.pools && p in s.backends && IsolatedIn(s, p)
    ensures EntriesClaimed(s, p)
  {
    forall k | k in s.backends[p]
      ensures Claims(s, s.backends[p][k].writer, p, s.backends[p][k].address)
    {
      assert LeasedTo(s.pools[p], s.backends[p][k].address, s.backends[p][k].writer);
    }
  }

  lemma SameHolds(s: Server, u: Server, p: PoolName)
    requires Quiet(s) && Quiet(u) && u.store == s.store && u.backends == s.backends
    ensures forall id :: HoldsIn(u, id, p) == HoldsIn(s, id, p)
    ensures p in s.backends ==> (EntriesClaimed(u, p) <==> EntriesClaimed(s, p))
  {
    assert forall id :: Holds(u, id) == Holds(s, id);
    assert forall id, a :: Claims(u, id, p, a) <==> Claims(s, id, p, a);
  }

  /** What holds of `p` right after it was disabled. */
  lemma DisabledStart(s: Server, t: Server, file: seq<Record>, p: PoolName)
    requires LeasesMatch(s) && Quiet(s) && Lists(file, s.store) && Succeeds(s, t)
    requires p in s.pools && p in s.backends && IsolatedIn(s, p) && p !in t.pools
    ensures var u := Restarted(t, file);
            && LeasesMatch(u) && Disabled(u, p) && EntriesClaimed(u, p) && Placed(u, p, s.pools[p].config)
            && u.backends == s.backends
  {
    var u := Restarted(t, file);
    MatchingRoundTrip(s, t, file);
    MatchingPlaces(s, p);
    IsolatedEntriesClaimed(s, p);
    SameHolds(s, u, p);
  }

  /**
   * A protocol is disabled by a restart, the node runs without it, and a
   * second restart enables it again on the same block. Then its clients are
   * isolated exactly when no session of it was ended in between while it had
   * an entry in the backend.
   */
  lemma ReenabledIff(s: Server, t: Server, file: seq<Record>, ls: seq<Label>, t': Server, file': seq<Record>, p: PoolName)
    requires LeasesMatch(s) && Quiet(s) && Lists(file, s.store) && Succeeds(s, t)
    requires p in s.pools && p in s.backends && IsolatedIn(s, p) && p !in t.pools
    requires ValidRun(Restarted(t, file), ls)
    requires var u := After(Restarted(t, file), ls);
             && Quiet(u) && Lists(file', u.store)
             && Blank(t') && t'.backends == u.backends && p in t'.pools && t'.pools[p].config == s.pools[p].config
    ensures IsolatedIn(Restarted(t', file'), p) <==> SkipsClean(Restarted(t, file), ls, p)
  {
    var u0 := Restarted(t, file);
    var u := After(u0, ls);
    DisabledStart(s, t, file, p);
    RunKeepsLeases(u0, ls);
    RunOnlyLoses(u0, ls, p);
    RunEntriesIff(u0, ls, p);
    RestartIsolatesIff(u, t', file', p);
  }

  lemma PlacedFits(u: Server, t: Server, file: seq<Record>, p: PoolName)
    requires Quiet(u) && PlacesOk(u) && Lists(file, u.store) && Blank(t) && p in t.pools && Placed(u, p, t.pools[p].config)
    ensures Fits(t.pools[p].config, p, file)
  {
    var c, w := t.pools[p].config, Restarted(t, file);
    PlacedReservable(u, p, c, file);
    ReservationsMatch(c, p, file);
    FileRebuilds(c, p, file);
    TableRoundTrip(file, u.store);
    ReservesMatch(u, w, file, p);
    FitsIff(w, c, p, file);
  }

  lemma ReservesMatch(u: Server, w: Server, file: seq<Record>, p: PoolName)
    requires Quiet(u) && PlacesOk(u) && Lists(file, u.store) && w.store == u.store && p in w.pools
    requires Placed(u, p, w.pools[p].config) && Reserves(w.pools[p], w.pools[p].config, p, file)
    ensures Owed(w, p) && Accounted(w, p)
  {
    var c := w.pools[p].config;
    forall id | id in w.store && PoolOf(w.store[id].protocol) == p
      ensures LeasedTo(w.pools[p], w.store[id].virtualIp, id)
    {
      assert HoldsIn(u, id, p) == Some(RecordClaim(u.store[id]));
      ListedIffClaimed(u, file, p, w.store[id].virtualIp, id);
      assert LeasedBy(w.pools[p], w.store[id].virtualIp, id);
    }
    forall a | a in w.pools[p].leases && !c.IsReserved(a)
      ensures Has(w.store, w.pools[p].leases[a], p, a)
    {
      assert LeasedBy(w.pools[p], a, w.pools[p].leases[a]);
      ListedIffClaimed(u, file, p, a, w.pools[p].leases[a]);
    }
  }

  lemma PlacedMatches(u: Server, t: Server, file: seq<Record>)
    requires Quiet(u) && PlacesOk(u) && KeysOk(u) && Lists(file, u.store) && Blank(t)
    requires forall p :: p in t.pools ==> Placed(u, p, t.pools[p].config)
    ensures LeasesMatch(Restarted(t, file))
  {
    TableRoundTrip(file, u.store);
    forall p | p in t.pools
      ensures Fits(t.pools[p].config, p, file)
    {
      PlacedFits(u, t, file, p);
    }
    RestoresIff(t, file);
  }

  lemma StepKeepsConfig(s: Server, l: Label, p: PoolName)
    requires Enabled(s, l) && p in s.pools
    ensures p in Apply(s, l).pools && Apply(s, l).pools[p].config == s.pools[p].config
  {
    if PhaseStep(l) {
      PhaseStepPools(s, l);
    }
  }

  lemma {:induction false} RunKeepsConfig(s: Server, ls: seq<Label>, p: PoolName)
    requires ValidRun(s, ls) && p in s.pools
    ensures p in After(s, ls).pools && After(s, ls).pools[p].config == s.pools[p].config
    decreases |ls|
  {
    if ls != [] {
      StepKeepsConfig(s, ls[0], p);
      RunKeepsConfig(Apply(s, ls[0]), ls[1..], p);
    }
  }

  lemma StillPlaced(s: Server, t: Server, file: seq<Record>, ls: seq<Label>, p: PoolName)
    requires LeasesMatch(s) && Quiet(s) && Lists(file, s.store) && Succeeds(s, t) && ValidRun(Restarted(t, file), ls)
    requires p in s.pools
    ensures Placed(After(Restarted(t, file), ls), p, s.pools[p].config)
  {
    var u0 := Restarted(t, file);
    MatchingRoundTrip(s, t, file);
    RunKeepsLeases(u0, ls);
    if p in t.pools {
      RestartedParts(s, t, file);
      RunKeepsConfig(u0, ls, p);
      MatchingPlaces(After(u0, ls), p);
    } else {
      MatchingPlaces(s, p);
      SameHolds(s, u0, p);
      assert Disabled(u0, p);
      RunOnlyLoses(u0, ls, p);
    }
  }

  /**
   * Whatever the two restarts switch off and on again, on the same blocks,
   * sessions and leases match after the second one.
   */
  lemma ReenabledMatches(s: Server, t: Server, file: seq<Record>, ls: seq<Label>, t': Server, file': seq<Record>)
    requires LeasesMatch(s) && Quiet(s) && Lists(file, s.store) && Succeeds(s, t) && ValidRun(Restarted(t, file), ls)
    requires var u := After(Restarted(t, file), ls);
             && Quiet(u) && Lists(file', u.store) && Blank(t') && t'.pools.Keys <= s.pools.Keys
             && forall p :: p in t'.pools ==> t'.pools[p].config == s.pools[p].config
    ensures LeasesMatch(Restarted(t', file'))
  {
    var u := After(Restarted(t, file), ls);
    MatchingRoundTrip(s, t, file);
    RunKeepsLeases(Restarted(t, file), ls);
    forall p | p in t'.pools
      ensures Placed(u, p, t'.pools[p].config)
    {
      StillPlaced(s, t, file, ls, p);
    }
    PlacedMatches(u, t', file');
  }

  // ---- a concrete run ----

  /** The node of one IKEv2 client, restarted with nothing enabled. */
  function Off(): Server {
    Restarted(Rebooted(First(IkeV2, 2, "a"), {}), [Client("a", IkeV2, "a", 2)])
  }

  /** Restarted with IKEv2 again, after the client's session was ended. */
  function OnAgain(): Server {
    var s := Empty(IkePool, 2);
    s.(backends := map[IkePool := map["a" := Pin(NETWORK + 2, "a")]])
  }

  lemma OffIs()
    ensures Lists([Client("a", IkeV2, "a", 2)], First(IkeV2, 2, "a").store)
    ensures Off().store == map["a" := Client("a", IkeV2, "a", 2)] && Off().pools == map[] && "a" in Off().minted
    ensures Off().connecting == map[] && Off().removing == map[] && Off().backends == OnAgain().backends
  {
    var r := Client("a", IkeV2, "a", 2);
    assert [r][0].id == "a";
    assert Restored(map[], [r]) == Restored(map[], [r][..0])["a" := r];
  }

  lemma EndedWithEntry(s: Server, id: string, p: PoolName, k: string)
    requires PlacesOk(s) && Orphaned(s, id) && PoolOf(s.store[id].protocol) == p
    requires p in s.backends && k in s.backends[p] && s.backends[p][k].writer == id
    ensures ValidRun(s, [Disconnect(id), Skip(id)]) && !SkipsClean(s, [Disconnect(id), Skip(id)], p)
  {
    TakenOutAdds(s, id);
    UncleanSecond(s, Disconnect(id), Skip(id), p);
  }

  lemma UncleanSecond(s: Server, l: Label, m: Label, p: PoolName)
    requires Enabled(s, l) && Enabled(Apply(s, l), m) && !SkipClean(Apply(s, l), m, p)
    ensures ValidRun(s, [l, m]) && !SkipsClean(s, [l, m], p)
  {
    assert [l, m][1..] == [m];
  }

  lemma EndedWhileOff(s: Server)
    requires s.store == map["a" := Client("a", IkeV2, "a", 2)] && s.pools == map[] && "a" in s.minted
    requires s.connecting == map[] && s.removing == map[] && s.backends == OnAgain().backends
    ensures Leads(s, [Disconnect("a"), Skip("a")], s.(store := map[]))
    ensures !SkipsClean(s, [Disconnect("a"), Skip("a")], IkePool)
  {
    SkipLeads(s, "a");
    assert s.store - {"a"} == map[];
    EndedWithEntry(s, "a", IkePool, "a");
  }

  lemma OnAgainPool()
    ensures NETWORK + 2 !in OnAgain().pools[IkePool].leases
  {
    PoolFacts.NewPoolValid(OnAgain().pools[IkePool].config);
  }

  lemma NextAgain()
    ensures CanConnect(OnAgain(), Client("b", IkeV2, "b", 2))
    ensures !Isolated(OnAgain()) && !Isolated(Connected(OnAgain(), Client("b", IkeV2, "b", 2)))
  {
    FirstAddress(IkePool, 2);
    OnAgainPool();
    var b := Client("b", IkeV2, "b", 2);
    assert !LeasedTo(OnAgain().pools[IkePool], OnAgain().backends[IkePool]["a"].address, "a");
    assert !IsolatedIn(OnAgain(), IkePool);
    SameAddressTwice(Connected(OnAgain(), b), IkePool, "a", "b");
  }

  lemma OnAgainIsRestarted()
    ensures OnAgain() == Restarted(Empty(IkePool, 2).(backends := OnAgain().backends), [])
  {
    var t := Empty(IkePool, 2).(backends := OnAgain().backends);
    assert Ids([]) == {};
    assert Restarted(t, []).pools == t.pools;
  }

  /**
   * From an isolated state: restart without IKEv2, end the one session,
   * restart with IKEv2. The old configuration still pins the address that the
   * next client is given.
   */
  lemma DisabledSharesAddress()
    ensures Inv(First(IkeV2, 2, "a")) && Isolated(First(IkeV2, 2, "a"))
    ensures Leads(Off(), [Disconnect("a"), Skip("a")], Off().(store := map[]))
    ensures OnAgain() == Restarted(Empty(IkePool, 2).(backends := Off().backends), [])
    ensures !Isolated(OnAgain())
    ensures CanConnect(OnAgain(), Client("b", IkeV2, "b", 2)) && !Isolated(Connected(OnAgain(), Client("b", IkeV2, "b", 2)))
  {
    FirstIsSound(IkeV2, 2, "a");
    InvIsolates(First(IkeV2, 2, "a"));
    OffIs();
    EndedWhileOff(Off());
    NextAgain();
    OnAgainIsRestarted();
  }
}

/**
 * Backend removals that fail. The source only logs the failure and releases
 * the address anyway, so an entry can outlive its lease; the results say
 * exactly which runs keep clients isolated all the same.
 */
module FailedRemovals {
  import opened Results
  import opened Sessions
  import opened Lifecycle
  import opened LifecycleSafety
  import Ipam

  /** The backend entry a session id may have written and whose address is still its own: it lasts until the release. */
  function Keeps(s: Server, id: string): Option<Claim> {
    if id in s.connecting && s.connecting[id].Leased? then None else Holds(s, id)
  }

  /** Every entry of a backend that this node runs was written by a session that still holds the address. */
  ghost predicate PinsHeld(s: Server) {
    forall p, k :: p in s.pools && p in s.backends && k in s.backends[p] ==>
      Keeps(s, s.backends[p][k].writer) == Some(Claim(p, s.backends[p][k].address, k))
  }

  /** The session has no entry in this backend. */
  ghost predicate WroteNothing(s: Server, p: PoolName, id: string) {
    p in s.backends ==> forall k :: k in s.backends[p] ==> s.backends[p][k].writer != id
  }

  /** A step that gives an address back finds none of its session's entries in the backend. */
  ghost predicate ReleasesClean(s: Server, l: Label)
    requires Enabled(s, l)
  {
    && (l.Release? ==> WroteNothing(s, PoolOf(s.removing[l.id].record.protocol), l.id))
    && (l.Return? ==> WroteNothing(s, PoolOf(s.connecting[l.id].protocol), l.id))
  }

  ghost predicate CleanThroughout(s: Server, ls: seq<Label>)
    requires ValidRun(s, ls)
    decreases |ls|
  {
    ls == [] || (ReleasesClean(s, ls[0]) && CleanThroughout(Apply(s, ls[0]), ls[1..]))
  }

  /** Clients are isolated in every state of the run. */
  ghost predicate IsolatedThroughout(s: Server, ls: seq<Label>)
    requires ValidRun(s, ls)
    decreases |ls|
  {
    Isolated(s) && (ls == [] || IsolatedThroughout(Apply(s, ls[0]), ls[1..]))
  }

  /** While removals succeed, entries are owned and hence held. */
  lemma OwnedIsHeld(s: Server)
    requires PlacesOk(s) && PinsOwned(s)
    ensures PinsHeld(s)
  {
    forall p, k | p in s.pools && p in s.backends && k in s.backends[p]
      ensures Keeps(s, s.backends[p][k].writer) == Some(Claim(p, s.backends[p][k].address, k))
    {
      assert Pins(s, s.backends[p][k].writer) == Some(Claim(p, s.backends[p][k].address, k));
    }
  }

  lemma HeldIsolatesIn(s: Server, p: PoolName)
    requires LeasesMatch(s) && PinsHeld(s) && p in s.pools && p in s.backends
    ensures IsolatedIn(s, p)
  {
    var b := s.backends[p];
    forall k | k in b
      ensures LeasedTo(s.pools[p], b[k].address, b[k].writer)
    {
      assert Keeps(s, b[k].writer) == Some(Claim(p, b[k].address, k));
    }
    forall k, l | k in b && l in b && b[k].address == b[l].address
      ensures k == l
    {
      assert LeasedTo(s.pools[p], b[k].address, b[k].writer) && LeasedTo(s.pools[p], b[l].address, b[l].writer);
      assert Keeps(s, b[k].writer) == Some(Claim(p, b[k].address, k)) && Keeps(s, b[l].writer) == Some(Claim(p, b[l].address, l));
    }
  }

  lemma HeldIsolates(s: Server)
    requires LeasesMatch(s) && PinsHeld(s)
    ensures Isolated(s)
  {
    forall p | p in s.pools && p in s.backends
      ensures IsolatedIn(s, p)
    {
      HeldIsolatesIn(s, p);
    }
  }

  // ---- step by step ----

  /** Backends that lose entries at most, and rights that last. */
  lemma HeldStays(s: Server, s': Server)
    requires PinsHeld(s) && s'.pools.Keys == s.pools.Keys
    requires forall p, k :: p in s'.backends && k in s'.backends[p] ==>
               p in s.backends && k in s.backends[p] && s'.backends[p][k] == s.backends[p][k]
    requires forall x :: Keeps(s, x).Some? ==> Keeps(s', x) == Keeps(s, x)
    ensures PinsHeld(s')
  {
    forall p, k | p in s'.pools && p in s'.backends && k in s'.backends[p]
      ensures Keeps(s', s'.backends[p][k].writer) == Some(Claim(p, s'.backends[p][k].address, k))
    {
      assert Keeps(s, s.backends[p][k].writer) == Some(Claim(p, s.backends[p][k].address, k));
    }
  }

  lemma OneConnect(s: Server, s': Server, id: string)
    requires s'.store == s.store && s'.removing == s.removing && id !in s.store && id !in s.removing
    requires forall x :: x != id ==> (x in s'.connecting <==> x in s.connecting)
    requires forall x :: x != id && x in s.connecting ==> s'.connecting[x] == s.connecting[x]
    requires id in s.connecting ==> s.connecting[id].Admitted? || s.connecting[id].Leased?
    ensures Keeps(s, id).None? && forall x :: x != id ==> Keeps(s', x) == Keeps(s, x)
  {
  }

  lemma ConnectHeld(s: Server, l: Label)
    requires PlacesOk(s) && PinsHeld(s) && Enabled(s, l) && (l.Lease? || l.Admit? || l.GiveUp? || (l.Refuse? && !l.applied))
    ensures PinsHeld(Apply(s, l))
  {
    var s' := Apply(s, l);
    OneConnect(s, s', l.id);
    assert s'.backends == s.backends && s'.pools.Keys == s.pools.Keys;
    HeldStays(s, s');
  }

  lemma MoveHeld(s: Server, l: Label)
    requires PlacesOk(s) && KeysOk(s) && PinsHeld(s) && Enabled(s, l)
    requires l.Publish? || l.Touch? || l.Disconnect? || l.Expire? || l.Tick?
    ensures PinsHeld(Apply(s, l))
  {
    PhaseStepKeepsClaims(s, l);
    PhaseStepPools(s, l);
    PlacesStep(s, l);
    HeldStays(s, Apply(s, l));
  }

  /** The entry of a connect is written, whatever the command reports. */
  lemma WriteHeld(s: Server, s': Server, id: string)
    requires PlacesOk(s) && PinsHeld(s) && id in s.connecting && s.connecting[id].Leased?
    requires PoolOf(s.connecting[id].protocol) in s.backends
    requires s'.pools == s.pools && s'.backends == Wrote(s, id) && s'.store == s.store && s'.removing == s.removing
    requires id in s'.connecting && s'.connecting == s.connecting[id := s'.connecting[id]]
    requires var c := s.connecting[id];
             s'.connecting[id] == Provisioned(c.protocol, c.key, c.address) || s'.connecting[id] == Refused(c.protocol, c.key, c.address)
    ensures PinsHeld(s')
  {
    var c := s.connecting[id];
    assert id !in s.store;
    OneConnect(s, s', id);
    assert Keeps(s', id) == Some(Claim(PoolOf(c.protocol), c.address, c.key));
    forall p, k | p in s'.pools && p in s'.backends && k in s'.backends[p]
      ensures Keeps(s', s'.backends[p][k].writer) == Some(Claim(p, s'.backends[p][k].address, k))
    {
      if p != PoolOf(c.protocol) || k != c.key {
        assert Keeps(s, s.backends[p][k].writer) == Some(Claim(p, s.backends[p][k].address, k));
      }
    }
  }

  lemma UnpinHeld(s: Server, id: string, succeeded: bool)
    requires PlacesOk(s) && PinsHeld(s) && Enabled(s, Unpin(id, succeeded))
    ensures PinsHeld(Unpinned(s, id, succeeded))
  {
    UnpinClaims(s, id, succeeded);
    HeldStays(s, Unpinned(s, id, succeeded));
  }

  /** The session that goes wrote none of the entries that stay. */
  lemma GoneHeld(s: Server, s': Server, id: string, p: PoolName)
    requires PinsHeld(s) && s'.backends == s.backends && s'.pools.Keys == s.pools.Keys
    requires Keeps(s, id).Some? ==> Keeps(s, id).value.pool == p && (p in s.pools ==> WroteNothing(s, p, id))
    requires forall x :: x != id ==> Keeps(s', x) == Keeps(s, x)
    ensures PinsHeld(s')
  {
    forall q, k | q in s'.pools && q in s'.backends && k in s'.backends[q]
      ensures Keeps(s', s'.backends[q][k].writer) == Some(Claim(q, s'.backends[q][k].address, k))
    {
      assert Keeps(s, s.backends[q][k].writer) == Some(Claim(q, s.backends[q][k].address, k));
    }
  }

  lemma RemovalGone(s: Server, s': Server, id: string)
    requires PlacesOk(s) && id in s.removing
    requires s'.removing == s.removing - {id} && s'.store == s.store && s'.connecting == s.connecting
    ensures Keeps(s, id) == Some(RecordClaim(s.removing[id].record))
    ensures forall x :: x != id ==> Keeps(s', x) == Keeps(s, x)
  {
  }

  lemma ConnectGone(s: Server, s': Server, id: string)
    requires PlacesOk(s) && id in s.connecting && s.connecting[id].Refused?
    requires s'.connecting == s.connecting - {id} && s'.store == s.store && s'.removing == s.removing
    ensures var c := s.connecting[id]; Keeps(s, id) == Some(Claim(PoolOf(c.protocol), c.address, c.key))
    ensures forall x :: x != id ==> Keeps(s', x) == Keeps(s, x)
  {
    assert id !in s.store;
  }

  lemma ReleaseHeld(s: Server, id: string)
    requires PlacesOk(s) && PinsHeld(s) && Enabled(s, Release(id)) && ReleasesClean(s, Release(id))
    ensures PinsHeld(Freed(s, id))
  {
    RemovalGone(s, Freed(s, id), id);
    GoneHeld(s, Freed(s, id), id, PoolOf(s.removing[id].record.protocol));
  }

  lemma ReturnHeld(s: Server, id: string)
    requires PlacesOk(s) && PinsHeld(s) && Enabled(s, Return(id)) && ReleasesClean(s, Return(id))
    ensures PinsHeld(GivenBack(s, id))
  {
    ConnectGone(s, GivenBack(s, id), id);
    GoneHeld(s, GivenBack(s, id), id, PoolOf(s.connecting[id].protocol));
  }

  lemma SkipHeld(s: Server, id: string)
    requires PlacesOk(s) && PinsHeld(s) && Enabled(s, Skip(id))
    ensures PinsHeld(Skipped(s, id))
  {
    RemovalGone(s, Skipped(s, id), id);
    GoneHeld(s, Skipped(s, id), id, PoolOf(s.removing[id].record.protocol));
  }

  /** An address given back while an entry is left: the entry's address is nobody's, or soon somebody else's. */
  lemma StaleEntry(s: Server, s': Server, id: string, p: PoolName, address: int)
    requires PinsHeld(s) && p in s.pools && p in s.backends && !WroteNothing(s, p, id)
    requires Keeps(s, id).Some? && Keeps(s, id).value.address == address
    requires s'.backends == s.backends && s'.pools == s.pools[p := Ipam.Released(s.pools[p], address)]
    ensures !PinsLeased(s')
  {
    var k :| k in s.backends[p] && s.backends[p][k].writer == id;
    assert Keeps(s, id) == Some(Claim(p, s.backends[p][k].address, k));
    assert !LeasedTo(s'.pools[p], s'.backends[p][k].address, id);
  }

  lemma UncleanStep(s: Server, l: Label)
    requires LeasesMatch(s) && PinsHeld(s) && Enabled(s, l) && !ReleasesClean(s, l)
    ensures !PinsLeased(Apply(s, l))
  {
    if l.Release? {
      RemovalGone(s, Freed(s, l.id), l.id);
      StaleEntry(s, Freed(s, l.id), l.id, PoolOf(s.removing[l.id].record.protocol), s.removing[l.id].record.virtualIp);
    } else {
      ConnectGone(s, GivenBack(s, l.id), l.id);
      StaleEntry(s, GivenBack(s, l.id), l.id, PoolOf(s.connecting[l.id].protocol), s.connecting[l.id].address);
    }
  }

  lemma IsolatedIsLeased(s: Server)
    requires PoolsOk(s) && Isolated(s)
    ensures PinsLeased(s)
  {
    forall p, k | p in s.pools && p in s.backends && k in s.backends[p]
      ensures LeasedTo(s.pools[p], s.backends[p][k].address, s.backends[p][k].writer)
    {
      assert IsolatedIn(s, p);
    }
  }

  lemma StepHeld(s: Server, l: Label)
    requires LeasesMatch(s) && PinsHeld(s) && Enabled(s, l) && ReleasesClean(s, l)
    ensures PinsHeld(Apply(s, l))
  {
    if l.Provision? {
      WriteHeld(s, Pinned(s, l.id), l.id);
    } else if l.Refuse? && l.applied {
      WriteHeld(s, RefusedIn(s, l.id, true), l.id);
    } else if l.Unpin? {
      UnpinHeld(s, l.id, l.succeeded);
    } else if l.Release? {
      ReleaseHeld(s, l.id);
    } else if l.Return? {
      ReturnHeld(s, l.id);
    } else if l.Skip? {
      SkipHeld(s, l.id);
    } else if l.Lease? || l.Admit? || l.GiveUp? || l.Refuse? {
      ConnectHeld(s, l);
    } else {
      MoveHeld(s, l);
    }
  }

  // ---- over runs ----

  /**
   * Whatever backend commands misreport and however the steps interleave:
   * clients are isolated in every state of the run exactly when every address
   * is given back, by a removal or by a refused connect, only after the last
   * entry its session wrote is gone, removed by the command or overwritten by
   * another connect.
   */
  lemma {:induction false} IsolatedIff(s: Server, ls: seq<Label>)
    requires LeasesMatch(s) && PinsHeld(s) && ValidRun(s, ls)
    ensures IsolatedThroughout(s, ls) <==> CleanThroughout(s, ls)
    decreases |ls|
  {
    HeldIsolates(s);
    if ls != [] {
      StepKeepsLeases(s, ls[0]);
      if ReleasesClean(s, ls[0]) {
        StepHeld(s, ls[0]);
        IsolatedIff(Apply(s, ls[0]), ls[1..]);
      } else {
        UncleanStep(s, ls[0]);
        if Isolated(Apply(s, ls[0])) {
          IsolatedIsLeased(Apply(s, ls[0]));
        }
      }
    }
  }

  lemma UnpinLeavesWriter(s: Server, id: string)
    requires PlacesOk(s) && PinsOwned(s) && Enabled(s, Unpin(id, false))
    ensures var r := s.removing[id].record;
            WroteNothing(Unpinned(s, id, false), PoolOf(r.protocol), id) <==>
            !(BackendKey(r) in s.backends[PoolOf(r.protocol)]
              && s.backends[PoolOf(r.protocol)][BackendKey(r)].writer == id)
  {
    var t, p := Unpinned(s, id, false), PoolOf(s.removing[id].record.protocol);
    UnpinClaims(s, id, false);
    assert t.backends == s.backends;
    forall k | k in s.backends[p] && s.backends[p][k].writer == id
      ensures k == BackendKey(s.removing[id].record)
    {
      assert Pins(s, id) == Some(Claim(p, s.backends[p][k].address, k));
    }
  }

  /**
   * The first failed removal, with its release right after it: clients stay
   * isolated exactly when the entry had already been overwritten by another
   * session.
   */
  lemma FailedRemovalIsolatesIff(s: Server, id: string)
    requires Inv(s) && Enabled(s, Unpin(id, false))
    ensures Enabled(Unpinned(s, id, false), Release(id))
    ensures Isolated(Freed(Unpinned(s, id, false), id)) <==> PinsLeased(Freed(Unpinned(s, id, false), id))
    ensures Isolated(Freed(Unpinned(s, id, false), id)) <==>
              var r := s.removing[id].record;
              !(BackendKey(r) in s.backends[PoolOf(r.protocol)]
                && s.backends[PoolOf(r.protocol)][BackendKey(r)].writer == id)
  {
    var t := Unpinned(s, id, false);
    OwnedIsHeld(s);
    UnpinHeld(s, id, false);
    StepKeepsLeases(s, Unpin(id, false));
    UnpinLeavesWriter(s, id);
    StepKeepsLeases(t, Release(id));
    if ReleasesClean(t, Release(id)) {
      StepHeld(t, Release(id));
      HeldIsolates(Freed(t, id));
      IsolatedIsLeased(Freed(t, id));
    } else {
      UncleanStep(t, Release(id));
      if Isolated(Freed(t, id)) {
        IsolatedIsLeased(Freed(t, id));
      }
    }
  }

  /**
   * Once the address of a stale entry is next in line, the following connect
   * shares it with the old client; only a WireGuard interface takes the
   * address away from the old peer.
   */
  lemma StaleEntryIsShared(s: Server, id: string, stale: string)
    requires id in s.connecting && s.connecting[id].Admitted?
    requires var p := PoolOf(s.connecting[id].protocol);
             && p in s.pools && p in s.backends && stale in s.backends[p] && stale != s.connecting[id].key
             && Ipam.Next(s.pools[p], s.backends[p][stale].address)
    ensures var p := PoolOf(s.connecting[id].protocol);
            var address := s.backends[p][stale].address;
            && Enabled(s, Lease(id, address)) && Enabled(Granted(s, id, address), Provision(id))
            && (if p == WgPool then stale !in Pinned(Granted(s, id, address), id).backends[p]
                else !Isolated(Pinned(Granted(s, id, address), id)))
  {
    var p := PoolOf(s.connecting[id].protocol);
    var address := s.backends[p][stale].address;
    var t := Pinned(Granted(s, id, address), id);
    if p != WgPool {
      assert t.backends[p][stale].address == t.backends[p][s.connecting[id].key].address;
      assert !DistinctEntries(t.backends[p]);
      assert !IsolatedIn(t, p);
    }
  }
}

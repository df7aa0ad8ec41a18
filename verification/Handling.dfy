/** What each request handler does to the lifecycle state, step by step and as a whole. */
module Handling {
  import opened Collections
  import opened Results
  import opened Sessions
  import opened Lifecycle
  import opened LifecycleSafety
  import opened Scenarios
  import Ipam

  // ---- connects ----

  /** A connect that found its pool exhausted leaves only its used-up session id behind. */
  function TurnedAway(s: Server, id: string): Server {
    s.(minted := s.minted + {id})
  }

  /**
   * A connect whose backend refused: the address is free again, but the
   * cursor has moved past it, and a refused command may have taken effect.
   */
  function RolledBack(s: Server, r: Record, applied: bool): Server
    requires PoolOf(r.protocol) in s.pools && PoolOf(r.protocol) in s.backends
    requires 0 <= r.virtualIp - s.pools[PoolOf(r.protocol)].config.network < s.pools[PoolOf(r.protocol)].config.Total()
  {
    var p := PoolOf(r.protocol);
    s.(pools := s.pools[p := Ipam.Released(Ipam.Leased(s.pools[p], r.id, r.virtualIp), r.virtualIp)],
    backends := if applied then s.backends[p := Upserted(s.backends[p], p, r.peerKey, Pin(r.virtualIp, r.id))] else s.backends,
    minted := s.minted + {r.id})
  }

  lemma TurnedAwaySteps(s: Server, r: Record)
    requires PlacesOk(s) && Enabled(s, Admit(r.id, r.protocol, r.peerKey))
    ensures Enabled(AdmittedTo(s, r), GiveUp(r.id)) && Apply(AdmittedTo(s, r), GiveUp(r.id)) == TurnedAway(s, r.id)
    ensures Reaches(s, TurnedAway(s, r.id), true)
  {
    AddedAndDropped(s.connecting, r.id, Admitted(r.protocol, r.peerKey));
    TwoStepsReach(s, Admit(r.id, r.protocol, r.peerKey), GiveUp(r.id), TurnedAway(s, r.id));
  }

  /** The state after a connect took its lease, or was refused with the lease still held. */
  function Holding(s: Server, r: Record, c: Connect): Server
    requires PoolOf(r.protocol) in s.pools
    requires 0 <= r.virtualIp - s.pools[PoolOf(r.protocol)].config.network < s.pools[PoolOf(r.protocol)].config.Total()
  {
    var p := PoolOf(r.protocol);
    s.(pools := s.pools[p := Ipam.Leased(s.pools[p], r.id, r.virtualIp)],
    connecting := s.connecting[r.id := c],
    minted := s.minted + {r.id})
  }

  lemma GrantedHolds(s: Server, r: Record)
    requires CanConnect(s, r)
    ensures Enabled(AdmittedTo(s, r), Lease(r.id, r.virtualIp))
    ensures Granted(AdmittedTo(s, r), r.id, r.virtualIp) == Holding(s, r, Leased(r.protocol, r.peerKey, r.virtualIp))
  {
    var s2 := Granted(AdmittedTo(s, r), r.id, r.virtualIp);
    assert s2.connecting == s.connecting[r.id := Leased(r.protocol, r.peerKey, r.virtualIp)];
  }

  /** Refused, with the lease still held. */
  function Balked(s: Server, r: Record, applied: bool): Server
    requires PoolOf(r.protocol) in s.pools && PoolOf(r.protocol) in s.backends
    requires 0 <= r.virtualIp - s.pools[PoolOf(r.protocol)].config.network < s.pools[PoolOf(r.protocol)].config.Total()
  {
    Holding(s, r, Refused(r.protocol, r.peerKey, r.virtualIp)).(backends := RolledBack(s, r, applied).backends)
  }

  lemma RefusedHolds(s: Server, r: Record, applied: bool)
    requires CanConnect(s, r)
    ensures var s2 := Holding(s, r, Leased(r.protocol, r.peerKey, r.virtualIp));
            Enabled(s2, Refuse(r.id, applied)) && RefusedIn(s2, r.id, applied) == Balked(s, r, applied)
  {
    UpdatedTwice(s.connecting, r.id, Leased(r.protocol, r.peerKey, r.virtualIp), Refused(r.protocol, r.peerKey, r.virtualIp));
  }

  lemma ReturnedRollsBack(s: Server, r: Record, applied: bool)
    requires CanConnect(s, r)
    ensures var s3 := Balked(s, r, applied);
            Enabled(s3, Return(r.id)) && GivenBack(s3, r.id) == RolledBack(s, r, applied)
  {
    var p := PoolOf(r.protocol);
    var leased := Ipam.Leased(s.pools[p], r.id, r.virtualIp);
    UpdatedTwice(s.pools, p, leased, Ipam.Released(leased, r.virtualIp));
    AddedAndDropped(s.connecting, r.id, Refused(r.protocol, r.peerKey, r.virtualIp));
  }

  lemma RolledBackReaches(s: Server, r: Record, applied: bool)
    requires CanConnect(s, r)
    ensures Reaches(s, RolledBack(s, r, applied), !applied)
  {
    StaysPut(s);
    StepTo(s, s, Admit(r.id, r.protocol, r.peerKey), AdmittedTo(s, r), !applied);
    GrantedHolds(s, r);
    var s2 := Holding(s, r, Leased(r.protocol, r.peerKey, r.virtualIp));
    StepTo(s, AdmittedTo(s, r), Lease(r.id, r.virtualIp), s2, !applied);
    RefusedHolds(s, r, applied);
    StepTo(s, s2, Refuse(r.id, applied), Balked(s, r, applied), !applied);
    ReturnedRollsBack(s, r, applied);
    StepTo(s, Balked(s, r, applied), Return(r.id), RolledBack(s, r, applied), !applied);
  }

  lemma StepTo(s: Server, t: Server, l: Label, u: Server, reliable: bool)
    requires Reaches(s, t, reliable) && Enabled(t, l) && (reliable ==> Dependable(l)) && Apply(t, l) == u
    ensures Reaches(s, u, reliable)
  {
    OneStepReaches(t, l, reliable);
    ReachesThrough(s, t, u, reliable);
  }

  lemma ReachesKeepsLeases(s: Server, t: Server, reliable: bool)
    requires LeasesMatch(s) && Reaches(s, t, reliable)
    ensures LeasesMatch(t)
  {
    var ls :| Leads(s, ls, t);
    RunKeepsLeases(s, ls);
  }

  /** Without failed removals the whole invariant carries over, and clients stay isolated. */
  lemma ReachesKeepsInv(s: Server, t: Server)
    requires Inv(s) && Reaches(s, t, true)
    ensures Inv(t) && Isolated(t)
  {
    var ls :| Leads(s, ls, t) && Reliable(ls);
    RunKeepsInv(s, ls);
    InvIsolates(t);
  }

  // ---- reaping ----

  function AddressesOf(t: Table, p: PoolName, ids: set<string>): set<int> {
    set id | id in ids && id in t && PoolOf(t[id].protocol) == p :: t[id].virtualIp
  }

  function KeysOf(t: Table, p: PoolName, ids: set<string>): set<string> {
    set id | id in ids && id in t && PoolOf(t[id].protocol) == p :: BackendKey(t[id])
  }

  function PoolsWithout(pools: map<PoolName, Ipam.PoolState>, t: Table, ids: set<string>): map<PoolName, Ipam.PoolState> {
    map p | p in pools :: pools[p].(leases := pools[p].leases - AddressesOf(t, p, ids))
  }

  /** The backends that are `running` lose the entries of these sessions. */
  function BackendsWithout(backends: map<PoolName, Backend>, running: set<PoolName>, t: Table, ids: set<string>): map<PoolName, Backend> {
    map p | p in backends :: if p in running then backends[p] - KeysOf(t, p, ids) else backends[p]
  }

  function Leaving(t: Table, ids: set<string>): map<string, Removal> {
    map id | id in ids && id in t :: Removal(t[id], false)
  }

  /**
   * The state in the middle of a reap: `pending` and `done` are out of the
   * table, and of `done` the addresses are free and the backend entries gone,
   * except where the backend command failed.
   */
  function Reaped(s: Server, done: set<string>, pending: set<string>, fails: set<string>): Server {
    s.(store := Without(s.store, done + pending),
    removing := s.removing + Leaving(s.store, pending),
    pools := PoolsWithout(s.pools, s.store, done),
    backends := BackendsWithout(s.backends, s.pools.Keys, s.store, done - fails))
  }

  lemma NothingGone(pools: map<PoolName, Ipam.PoolState>, backends: map<PoolName, Backend>, running: set<PoolName>, t: Table)
    ensures PoolsWithout(pools, t, {}) == pools && BackendsWithout(backends, running, t, {}) == backends
  {
    forall p
      ensures AddressesOf(t, p, {}) == {} && KeysOf(t, p, {}) == {}
    {
    }
    assert forall p :: p in pools ==> pools[p].leases - {} == pools[p].leases;
    assert forall p :: p in backends ==> backends[p] - {} == backends[p];
  }

  lemma ReapedStart(s: Server, ids: set<string>, fails: set<string>)
    requires ids <= s.store.Keys
    ensures Reaped(s, {}, ids, fails) == TakenOut(s, ids)
  {
    NothingGone(s.pools, s.backends, s.pools.Keys, s.store);
    assert {} + ids == ids && {} - fails == {};
    assert Leaving(s.store, ids) == map id | id in ids :: Removal(s.store[id], false);
  }

  lemma AddressesGrow(t: Table, p: PoolName, ids: set<string>, id: string)
    requires id in t
    ensures AddressesOf(t, p, ids + {id}) ==
              AddressesOf(t, p, ids) + if PoolOf(t[id].protocol) == p then {t[id].virtualIp} else {}
  {
  }

  lemma KeysGrow(t: Table, p: PoolName, ids: set<string>, id: string)
    requires id in t
    ensures KeysOf(t, p, ids + {id}) == KeysOf(t, p, ids) + if PoolOf(t[id].protocol) == p then {BackendKey(t[id])} else {}
  {
  }

  lemma OneMoreAddress(pools: map<PoolName, Ipam.PoolState>, t: Table, ids: set<string>, id: string)
    requires id in t && PoolOf(t[id].protocol) in pools
    ensures var p := PoolOf(t[id].protocol);
            PoolsWithout(pools, t, ids + {id})
            == PoolsWithout(pools, t, ids)[p := Ipam.Released(PoolsWithout(pools, t, ids)[p], t[id].virtualIp)]
  {
    var p := PoolOf(t[id].protocol);
    forall q | q in pools
      ensures PoolsWithout(pools, t, ids + {id})[q]
           == if q == p then Ipam.Released(PoolsWithout(pools, t, ids)[q], t[id].virtualIp) else PoolsWithout(pools, t, ids)[q]
    {
      AddressesGrow(t, q, ids, id);
      if q == p {
        assert pools[q].leases - (AddressesOf(t, q, ids) + {t[id].virtualIp})
            == (pools[q].leases - AddressesOf(t, q, ids)) - {t[id].virtualIp};
      } else {
        assert AddressesOf(t, q, ids) + {} == AddressesOf(t, q, ids);
      }
    }
  }

  lemma OneMoreKey(backends: map<PoolName, Backend>, running: set<PoolName>, t: Table, ids: set<string>, id: string)
    requires id in t && PoolOf(t[id].protocol) in backends && PoolOf(t[id].protocol) in running
    ensures var p := PoolOf(t[id].protocol);
            BackendsWithout(backends, running, t, ids + {id})
            == BackendsWithout(backends, running, t, ids)[p := BackendsWithout(backends, running, t, ids)[p] - {BackendKey(t[id])}]
  {
    var p := PoolOf(t[id].protocol);
    forall q | q in backends
      ensures BackendsWithout(backends, running, t, ids + {id})[q]
           == if q == p then BackendsWithout(backends, running, t, ids)[q] - {BackendKey(t[id])} else BackendsWithout(backends, running, t, ids)[q]
    {
      KeysGrow(t, q, ids, id);
      if q == p {
        assert backends[q] - (KeysOf(t, q, ids) + {BackendKey(t[id])}) == (backends[q] - KeysOf(t, q, ids)) - {BackendKey(t[id])};
      } else {
        assert KeysOf(t, q, ids) + {} == KeysOf(t, q, ids);
      }
    }
  }

  lemma OneLessLeaving(removing: map<string, Removal>, t: Table, ids: set<string>, id: string)
    requires id in t && id in ids && id !in removing
    ensures var m := removing + Leaving(t, ids);
            && id in m && m[id] == Removal(t[id], false)
            && m[id := Removal(t[id], true)] - {id} == removing + Leaving(t, ids - {id})
  {
  }

  ghost predicate Reaping(s: Server, pending: set<string>, id: string) {
    id in pending && id in s.store && id !in s.removing && s.pools.Keys <= s.backends.Keys
  }

  lemma OneMoreUnlessFailed(backends: map<PoolName, Backend>, running: set<PoolName>, t: Table, done: set<string>, fails: set<string>, id: string)
    requires id in t && PoolOf(t[id].protocol) in backends && PoolOf(t[id].protocol) in running
    ensures var p, before := PoolOf(t[id].protocol), BackendsWithout(backends, running, t, done - fails);
            BackendsWithout(backends, running, t, (done + {id}) - fails)
            == before[p := if id !in fails then before[p] - {BackendKey(t[id])} else before[p]]
  {
    if id in fails {
      assert (done + {id}) - fails == done - fails;
    } else {
      assert (done + {id}) - fails == (done - fails) + {id};
      OneMoreKey(backends, running, t, done - fails, id);
    }
  }

  /** The reap with one more backend entry gone, and the address still to be released. */
  function HalfReaped(s: Server, done: set<string>, pending: set<string>, fails: set<string>, id: string): Server
    requires id in s.store
  {
    var t := Reaped(s, done, pending, fails);
    t.(backends := BackendsWithout(s.backends, s.pools.Keys, s.store, (done + {id}) - fails),
    removing := t.removing[id := Removal(s.store[id], true)])
  }

  lemma ReapedUnpins(s: Server, done: set<string>, pending: set<string>, fails: set<string>, id: string)
    requires Reaping(s, pending, id) && PoolOf(s.store[id].protocol) in s.pools
    ensures var t := Reaped(s, done, pending, fails);
            Enabled(t, Unpin(id, id !in fails)) && Unpinned(t, id, id !in fails) == HalfReaped(s, done, pending, fails, id)
  {
    OneLessLeaving(s.removing, s.store, pending, id);
    OneMoreUnlessFailed(s.backends, s.pools.Keys, s.store, done, fails, id);
  }

  /** The removal in progress can end: unpin and release, or nothing where the node does not run the protocol. */
  ghost predicate CanEnd(t: Server, id: string, succeeded: bool) {
    && id in t.removing
    && if PoolOf(t.removing[id].record.protocol) in t.pools then
      Enabled(t, Unpin(id, succeeded)) && Enabled(Unpinned(t, id, succeeded), Release(id))
    else Enabled(t, Skip(id))
  }

  ghost function Ended(t: Server, id: string, succeeded: bool): Server
    requires CanEnd(t, id, succeeded)
  {
    if PoolOf(t.removing[id].record.protocol) in t.pools then Freed(Unpinned(t, id, succeeded), id) else Skipped(t, id)
  }

  lemma HalfReapedReleases(s: Server, done: set<string>, pending: set<string>, fails: set<string>, id: string)
    requires Reaping(s, pending, id) && PoolOf(s.store[id].protocol) in s.pools
    ensures var t := HalfReaped(s, done, pending, fails, id);
            Enabled(t, Release(id)) && Freed(t, id) == Reaped(s, done + {id}, pending - {id}, fails)
  {
    OneMoreAddress(s.pools, s.store, done, id);
    OneLessLeaving(s.removing, s.store, pending, id);
    assert (done + {id}) + (pending - {id}) == done + pending;
  }

  lemma ReapedRelease(s: Server, done: set<string>, pending: set<string>, fails: set<string>, id: string)
    requires Reaping(s, pending, id) && PoolOf(s.store[id].protocol) in s.pools
    ensures var t := Reaped(s, done, pending, fails);
            && Enabled(t, Unpin(id, id !in fails))
            && Enabled(Unpinned(t, id, id !in fails), Release(id))
            && Freed(Unpinned(t, id, id !in fails), id) == Reaped(s, done + {id}, pending - {id}, fails)
  {
    ReapedUnpins(s, done, pending, fails, id);
    HalfReapedReleases(s, done, pending, fails, id);
  }

  lemma NothingMore(s: Server, ids: set<string>, id: string)
    requires id in s.store && PoolOf(s.store[id].protocol) !in s.pools
    ensures PoolsWithout(s.pools, s.store, ids + {id}) == PoolsWithout(s.pools, s.store, ids)
    ensures BackendsWithout(s.backends, s.pools.Keys, s.store, ids + {id}) == BackendsWithout(s.backends, s.pools.Keys, s.store, ids)
  {
    forall p | p in s.pools
      ensures AddressesOf(s.store, p, ids + {id}) == AddressesOf(s.store, p, ids)
      ensures KeysOf(s.store, p, ids + {id}) == KeysOf(s.store, p, ids)
    {
      AddressesGrow(s.store, p, ids, id);
      KeysGrow(s.store, p, ids, id);
    }
  }

  lemma NothingMoreUnlessFailed(s: Server, done: set<string>, fails: set<string>, id: string)
    requires id in s.store && PoolOf(s.store[id].protocol) !in s.pools
    ensures BackendsWithout(s.backends, s.pools.Keys, s.store, (done + {id}) - fails)
         == BackendsWithout(s.backends, s.pools.Keys, s.store, done - fails)
  {
    if id in fails {
      assert (done + {id}) - fails == done - fails;
    } else {
      assert (done + {id}) - fails == (done - fails) + {id};
      NothingMore(s, done - fails, id);
    }
  }

  lemma ReapedSkip(s: Server, done: set<string>, pending: set<string>, fails: set<string>, id: string)
    requires Reaping(s, pending, id) && PoolOf(s.store[id].protocol) !in s.pools
    ensures var t := Reaped(s, done, pending, fails);
            Enabled(t, Skip(id)) && Skipped(t, id) == Reaped(s, done + {id}, pending - {id}, fails)
  {
    NothingMore(s, done, id);
    NothingMoreUnlessFailed(s, done, fails, id);
    OneLessLeaving(s.removing, s.store, pending, id);
    assert (done + {id}) + (pending - {id}) == done + pending;
  }

  /** One more of a reap's sessions is dealt with. */
  lemma ReapedNext(s: Server, done: set<string>, pending: set<string>, fails: set<string>, id: string)
    requires Reaping(s, pending, id)
    ensures var t := Reaped(s, done, pending, fails);
            && CanEnd(t, id, id !in fails)
            && Ended(t, id, id !in fails) == Reaped(s, done + {id}, pending - {id}, fails)
  {
    OneLessLeaving(s.removing, s.store, pending, id);
    if PoolOf(s.store[id].protocol) in s.pools {
      ReapedRelease(s, done, pending, fails, id);
    } else {
      ReapedSkip(s, done, pending, fails, id);
    }
  }

  lemma ReapedReaches(s: Server, done: set<string>, pending: set<string>, fails: set<string>, id: string)
    requires Reaping(s, pending, id) && Reaches(s, Reaped(s, done, pending, fails), fails == {})
    ensures Reaches(s, Reaped(s, done + {id}, pending - {id}, fails), fails == {})
  {
    ReapedNext(s, done, pending, fails, id);
    EndReaches(s, Reaped(s, done, pending, fails), id, id !in fails, fails == {});
  }

  lemma EndReaches(s: Server, t: Server, id: string, succeeded: bool, reliable: bool)
    requires Reaches(s, t, reliable) && (reliable ==> succeeded) && CanEnd(t, id, succeeded)
    ensures Reaches(s, Ended(t, id, succeeded), reliable)
  {
    if PoolOf(t.removing[id].record.protocol) in t.pools {
      UnpinReleaseReaches(s, t, id, succeeded, reliable);
    } else {
      OneStepReaches(t, Skip(id), reliable);
      ReachesThrough(s, t, Skipped(t, id), reliable);
    }
  }

  lemma UnpinReleaseReaches(s: Server, t: Server, id: string, succeeded: bool, reliable: bool)
    requires Reaches(s, t, reliable) && (reliable ==> succeeded)
    requires Enabled(t, Unpin(id, succeeded)) && Enabled(Unpinned(t, id, succeeded), Release(id))
    ensures Reaches(s, Freed(Unpinned(t, id, succeeded), id), reliable)
  {
    OneStepReaches(t, Unpin(id, succeeded), reliable);
    OneStepReaches(Unpinned(t, id, succeeded), Release(id), reliable);
    ReachesThrough(s, t, Unpinned(t, id, succeeded), reliable);
    ReachesThrough(s, Unpinned(t, id, succeeded), Freed(Unpinned(t, id, succeeded), id), reliable);
  }

  lemma TwoStepsReach(s: Server, l: Label, m: Label, u: Server)
    requires Enabled(s, l) && Enabled(Apply(s, l), m) && Apply(Apply(s, l), m) == u
    ensures forall reliable :: (reliable ==> Reliable([l, m])) ==> Reaches(s, u, reliable)
  {
    assert Leads(u, [], u);
    LeadsStep(Apply(s, l), m, [], u);
    LeadsStep(s, l, [m], u);
    assert [l] + [m] == [l, m] && [m] + [] == [m];
  }

  /** What the removal of a stored session relies on. */
  ghost predicate Releasable(s: Server, id: string) {
    && id in s.store && id !in s.removing && s.store[id].id == id && s.pools.Keys <= s.backends.Keys
    && (PoolOf(s.store[id].protocol) in s.pools ==> 0 <= s.store[id].virtualIp < Ipam.WORD)
  }

  /** A stored session of a matching state, if its pool exists, has a usable address in it. */
  lemma StoredIsLeased(s: Server, id: string)
    requires LeasesMatch(s) && id in s.store
    ensures Releasable(s, id) && (PoolOf(s.store[id].protocol) in s.pools ==> CanRemove(s, id))
  {
    assert Holds(s, id) == Some(RecordClaim(s.store[id]));
    if PoolOf(s.store[id].protocol) in s.pools {
      assert LeasedTo(s.pools[PoolOf(s.store[id].protocol)], s.store[id].virtualIp, id);
    }
  }

  /** What a disconnect leaves behind, whether or not this node runs the session's protocol. */
  lemma DisconnectEnds(s: Server, id: string, succeeded: bool)
    requires LeasesMatch(s) && id in s.store
    ensures var t := TakenOut(s, {id});
            && CanEnd(t, id, succeeded) && t.removing[id].record == s.store[id]
            && Releasable(s, id) && t.pools == s.pools
            && Reaches(s, Ended(t, id, succeeded), succeeded)
            && (if Orphaned(s, id) then Ended(t, id, succeeded) == s.(store := s.store - {id})
                else CanRemove(s, id) && Ended(t, id, succeeded) == Removed(s, id, succeeded))
  {
    StoredIsLeased(s, id);
    TakenOutAdds(s, id);
    if Orphaned(s, id) {
      SkipLeads(s, id);
      assert Reliable([Disconnect(id), Skip(id)]);
    } else {
      RemovalSteps(s, id, succeeded);
      RemoveReaches(s, id, succeeded);
    }
  }

  lemma {:induction false} PendingReaches(s: Server, all: set<string>, done: set<string>, pending: set<string>, fails: set<string>)
    requires done + pending == all && forall id :: id in pending ==> Releasable(s, id)
    requires Reaches(s, Reaped(s, done, pending, fails), fails == {})
    ensures Reaches(s, Reaped(s, all, {}, fails), fails == {})
    decreases pending
  {
    if pending == {} {
      assert done == all;
    } else {
      var id :| id in pending;
      ReapedReaches(s, done, pending, fails, id);
      PendingReaches(s, all, done + {id}, pending - {id}, fails);
    }
  }

  lemma StoredReleasable(s: Server, ids: set<string>)
    requires LeasesMatch(s) && ids <= s.store.Keys
    ensures forall id :: id in ids ==> Releasable(s, id)
  {
    forall id | id in ids
      ensures Releasable(s, id)
    {
      StoredIsLeased(s, id);
    }
  }

  lemma ReapStart(s: Server, cutoff: real, fails: set<string>)
    requires Enabled(s, Expire(cutoff))
    ensures Reaped(s, {}, IdleIds(s.store, cutoff), fails) == TakenOut(s, IdleIds(s.store, cutoff))
    ensures Reaches(s, Reaped(s, {}, IdleIds(s.store, cutoff), fails), fails == {})
  {
    ReapedStart(s, IdleIds(s.store, cutoff), fails);
    OneStepReaches(s, Expire(cutoff), fails == {});
  }

  /** A whole reap is a run of the lifecycle: the idle sessions are taken out, and then removed one by one. */
  lemma ReapReaches(s: Server, idle: set<string>, fails: set<string>)
    requires Reaches(s, Reaped(s, {}, idle, fails), fails == {})
    requires forall id :: id in idle ==> Releasable(s, id)
    ensures Reaches(s, Reaped(s, idle, {}, fails), fails == {})
  {
    PendingReaches(s, idle, {}, idle, fails);
  }

  /** A session outlives a reap exactly if it was last seen at the cutoff or later, and then unchanged. */
  lemma ReapKeeps(s: Server, t: Server, cutoff: real, fails: set<string>)
    requires t == Reaped(s, IdleIds(s.store, cutoff), {}, fails)
    ensures forall id :: id in s.store ==> (id in t.store <==> s.store[id].lastSeenAt >= cutoff)
    ensures forall id :: id in t.store ==> id in s.store && t.store[id] == s.store[id]
  {
    var idle := IdleIds(s.store, cutoff);
    assert idle + {} == idle;
  }

  /** What goes gives back its address and, unless its backend command failed, its entry. */
  lemma ReapCleans(s: Server, t: Server, cutoff: real, fails: set<string>)
    requires KeysOk(s) && t == Reaped(s, IdleIds(s.store, cutoff), {}, fails)
    ensures forall id :: id in s.store && id !in t.store ==>
              var r := s.store[id];
              var p := if r.protocol.WireGuard? then WgPool else if r.protocol.IkeV2? then IkePool else OvpnPool;
              p in s.pools && p in t.pools ==>
                && r.virtualIp !in t.pools[p].leases
                && (id !in fails && p in t.backends ==> (if p == IkePool then id else r.peerKey) !in t.backends[p])
  {
    var idle := IdleIds(s.store, cutoff);
    assert idle + {} == idle;
    forall id, p | id in idle && p in s.pools && p == PoolOf(s.store[id].protocol)
      ensures s.store[id].virtualIp !in t.pools[p].leases
      ensures id !in fails && p in t.backends ==> BackendKey(s.store[id]) !in t.backends[p]
    {
      assert s.store[id].virtualIp in AddressesOf(s.store, p, idle);
      if id !in fails {
        assert id in idle - fails && BackendKey(s.store[id]) in KeysOf(s.store, p, idle - fails);
      }
    }
  }

  lemma OneStepReaches(s: Server, l: Label, reliable: bool)
    requires Enabled(s, l) && (reliable ==> Dependable(l))
    ensures Reaches(s, Apply(s, l), reliable)
  {
    assert Leads(Apply(s, l), [], Apply(s, l));
    LeadsStep(s, l, [], Apply(s, l));
    assert reliable ==> Reliable([l] + []);
  }

  lemma StaysPut(s: Server)
    ensures forall reliable :: Reaches(s, s, reliable)
  {
    assert Leads(s, [], s) && Reliable([]);
  }
}

/**
 * The tunnel backends against the session table. A backend command is an
 * upsert, so a connect can write over another session's entry; the results
 * say that this is the only way in which the two come apart, and that it
 * cannot happen while WireGuard keys are not shared.
 */
module BackendAgreement {
  import opened Results
  import opened Sessions
  import opened Lifecycle
  import opened LifecycleSafety
  import opened LeaseAccounting

  // ---- what was written is still there ----

  /** The entry of a claim, if this node runs that backend, is the one its session wrote. */
  ghost predicate Written(s: Server, id: string, c: Claim) {
    c.pool in s.pools && c.pool in s.backends ==>
      c.key in s.backends[c.pool] && s.backends[c.pool][c.key] == Pin(c.address, id)
  }

  /** Everything a session wrote to its backend is still there. */
  ghost predicate PinsWritten(s: Server) {
    forall id :: Pins(s, id).Some? ==> Written(s, id, Pins(s, id).value)
  }

  /** A step that provisions finds nothing under its key. A caller of the backend could look before it writes. */
  ghost predicate FindsNoEntry(s: Server, l: Label)
    requires Enabled(s, l)
  {
    l.Provision? ==> s.connecting[l.id].key !in s.backends[PoolOf(s.connecting[l.id].protocol)]
  }

  ghost predicate NoOverwrites(s: Server, ls: seq<Label>)
    requires ValidRun(s, ls)
    decreases |ls|
  {
    ls == [] || (FindsNoEntry(s, ls[0]) && NoOverwrites(Apply(s, ls[0]), ls[1..]))
  }

  /** In every state of the run everything written is still there. */
  ghost predicate WrittenThroughout(s: Server, ls: seq<Label>)
    requires ValidRun(s, ls)
    decreases |ls|
  {
    PinsWritten(s) && (ls == [] || WrittenThroughout(Apply(s, ls[0]), ls[1..]))
  }

  /** The rights to backend entries that a step leaves unchanged stay honoured if the backends do. */
  lemma WrittenStays(s: Server, s': Server)
    requires PinsWritten(s) && s'.pools.Keys == s.pools.Keys && s'.backends == s.backends
    requires forall x :: Pins(s', x).Some? ==> Pins(s', x) == Pins(s, x)
    ensures PinsWritten(s')
  {
    forall x | Pins(s', x).Some?
      ensures Written(s', x, Pins(s', x).value)
    {
      assert Written(s, x, Pins(s, x).value);
    }
  }

  lemma ProvisionOverwrites(s: Server, id: string)
    requires PlacesOk(s) && PinsOwned(s) && Enabled(s, Provision(id)) && !FindsNoEntry(s, Provision(id))
    ensures !PinsWritten(Pinned(s, id))
  {
    var p, k := PoolOf(s.connecting[id].protocol), s.connecting[id].key;
    var entry := s.backends[p][k];
    ProvisionClaims(s, id);
    assert Pins(s, entry.writer) == Some(Claim(p, entry.address, k));
    assert entry.writer != id;
    assert !Written(Pinned(s, id), entry.writer, Claim(p, entry.address, k));
  }

  /** The address of a lease not yet written is in no other session's entry. */
  lemma AddressUnpinned(s: Server, id: string, k: string)
    requires Inv(s) && Enabled(s, Provision(id))
    ensures var p := PoolOf(s.connecting[id].protocol);
            k in s.backends[p] ==> s.backends[p][k].address != s.connecting[id].address
  {
    var p := PoolOf(s.connecting[id].protocol);
    assert id !in s.store && Holds(s, id) == Some(Claim(p, s.connecting[id].address, s.connecting[id].key));
    assert LeasedTo(s.pools[p], s.connecting[id].address, id) && Pins(s, id).None?;
    if k in s.backends[p] {
      var w := s.backends[p][k].writer;
      assert Pins(s, w) == Some(Claim(p, s.backends[p][k].address, k));
      assert LeasedTo(s.pools[p], s.backends[p][k].address, w);
    }
  }

  lemma NothingEvicted(s: Server, id: string)
    requires Inv(s) && Enabled(s, Provision(id))
    ensures var c := s.connecting[id];
            var p := PoolOf(c.protocol);
            Wrote(s, id) == s.backends[p := s.backends[p][c.key := Pin(c.address, id)]]
  {
    var p := PoolOf(s.connecting[id].protocol);
    forall k | k in s.backends[p]
      ensures s.backends[p][k].address != s.connecting[id].address
    {
      AddressUnpinned(s, id, k);
    }
    assert Evicted(s.backends[p], s.connecting[id].address) == s.backends[p];
  }

  lemma ProvisionWrites(s: Server, id: string)
    requires Inv(s) && PinsWritten(s) && Enabled(s, Provision(id)) && FindsNoEntry(s, Provision(id))
    ensures PinsWritten(Pinned(s, id))
  {
    var s' := Pinned(s, id);
    ProvisionClaims(s, id);
    NothingEvicted(s, id);
    forall x | Pins(s', x).Some?
      ensures Written(s', x, Pins(s', x).value)
    {
      if x != id {
        assert Written(s, x, Pins(s, x).value);
      }
    }
  }

  lemma UnpinWritten(s: Server, id: string)
    requires PlacesOk(s) && PinsWritten(s) && Enabled(s, Unpin(id, true))
    ensures PinsWritten(Unpinned(s, id, true))
  {
    var s' := Unpinned(s, id, true);
    UnpinClaims(s, id, true);
    assert Written(s, id, Pins(s, id).value);
    forall x | Pins(s', x).Some?
      ensures Written(s', x, Pins(s', x).value)
    {
      assert Written(s, x, Pins(s, x).value);
    }
  }

  lemma LeaseWritten(s: Server, id: string, address: int)
    requires PlacesOk(s) && PinsWritten(s) && Enabled(s, Lease(id, address))
    ensures PinsWritten(Granted(s, id, address))
  {
    LeaseClaims(s, id, address);
    WrittenStays(s, Granted(s, id, address));
  }

  lemma ReturnWritten(s: Server, id: string)
    requires PlacesOk(s) && PinsWritten(s) && Enabled(s, Return(id))
    ensures PinsWritten(GivenBack(s, id))
  {
    ForgetConnect(s, GivenBack(s, id), id);
    WrittenStays(s, GivenBack(s, id));
  }

  lemma EndWritten(s: Server, s': Server, id: string)
    requires PlacesOk(s) && PinsWritten(s) && id in s.removing
    requires s'.removing == s.removing - {id} && s'.store == s.store && s'.connecting == s.connecting
    requires s'.pools.Keys == s.pools.Keys && s'.backends == s.backends
    ensures PinsWritten(s')
  {
    ForgetRemoval(s, s', id);
    assert Pins(s', id).None?;
    WrittenStays(s, s');
  }

  lemma PhaseWritten(s: Server, l: Label)
    requires Inv(s) && PinsWritten(s) && Enabled(s, l) && PhaseStep(l)
    ensures PinsWritten(Apply(s, l))
  {
    PhaseStepKeepsClaims(s, l);
    PhaseStepPools(s, l);
    WrittenStays(s, Apply(s, l));
  }

  lemma RemovalWritten(s: Server, l: Label)
    requires PlacesOk(s) && PinsWritten(s) && Enabled(s, l) && (l.Release? || l.Skip?)
    ensures PinsWritten(Apply(s, l))
  {
    var s' := Apply(s, l);
    assert s'.pools.Keys == s.pools.Keys;
    EndWritten(s, s', l.id);
  }

  lemma StepWrittenIff(s: Server, l: Label)
    requires Inv(s) && PinsWritten(s) && Enabled(s, l) && Dependable(l)
    ensures PinsWritten(Apply(s, l)) <==> FindsNoEntry(s, l)
  {
    if l.Provision? {
      if FindsNoEntry(s, l) {
        ProvisionWrites(s, l.id);
      } else {
        ProvisionOverwrites(s, l.id);
      }
    } else if l.Unpin? {
      UnpinWritten(s, l.id);
    } else if l.Release? || l.Skip? {
      RemovalWritten(s, l);
    } else if l.Lease? {
      LeaseWritten(s, l.id, l.address);
    } else if l.Return? {
      ReturnWritten(s, l.id);
    } else {
      PhaseWritten(s, l);
    }
  }

  /**
   * What the sessions wrote is there in every state of a run exactly when no
   * connect of the run writes over an entry it finds under its key.
   */
  lemma {:induction false} RunWrittenIff(s: Server, ls: seq<Label>)
    requires Inv(s) && PinsWritten(s) && ValidRun(s, ls) && Reliable(ls)
    ensures WrittenThroughout(s, ls) <==> NoOverwrites(s, ls)
    ensures NoOverwrites(s, ls) ==> Inv(After(s, ls)) && PinsWritten(After(s, ls))
    decreases |ls|
  {
    if ls != [] {
      assert Dependable(ls[0]);
      StepKeepsLeases(s, ls[0]);
      StepKeepsPins(s, ls[0]);
      StepWrittenIff(s, ls[0]);
      if FindsNoEntry(s, ls[0]) {
        RunWrittenIff(Apply(s, ls[0]), ls[1..]);
      }
    }
  }

  // ---- backend and table ----

  /** The entries a backend should hold: each stored session's key, pinned to its address. */
  ghost predicate MirrorsStore(s: Server, p: PoolName)
    requires p in s.backends
  {
    && (forall k :: k in s.backends[p] ==>
          var id := s.backends[p][k].writer;
          id in s.store && RecordClaim(s.store[id]) == Claim(p, s.backends[p][k].address, k))
    && (forall id :: id in StoredIn(s, p) ==>
          BackendKey(s.store[id]) in s.backends[p]
          && s.backends[p][BackendKey(s.store[id])] == Pin(s.store[id].virtualIp, id))
  }

  lemma MirrorSize(s: Server, p: PoolName)
    requires p in s.backends && MirrorsStore(s, p)
    ensures |s.backends[p]| == |StoredIn(s, p)|
  {
    var writers := map k | k in s.backends[p] :: s.backends[p][k].writer;
    forall id | id in StoredIn(s, p)
      ensures HasValue(writers, id)
    {
      assert writers[BackendKey(s.store[id])] == id;
    }
    InjectiveSize(writers, StoredIn(s, p));
    assert writers.Keys == s.backends[p].Keys;
  }

  lemma MirrorsWritten(s: Server)
    requires PoolsOk(s) && PlacesOk(s) && Quiet(s) && forall p :: p in s.pools ==> MirrorsStore(s, p)
    ensures PinsWritten(s)
  {
    forall id | Pins(s, id).Some?
      ensures Written(s, id, Pins(s, id).value)
    {
      var p := PoolOf(s.store[id].protocol);
      if p in s.pools {
        assert MirrorsStore(s, p) && id in StoredIn(s, p);
      }
    }
  }

  lemma QuietMirrors(s: Server, p: PoolName)
    requires PinsOwned(s) && PinsWritten(s) && Quiet(s) && p in s.pools && p in s.backends
    ensures MirrorsStore(s, p)
  {
    forall k | k in s.backends[p]
      ensures var id := s.backends[p][k].writer;
              id in s.store && RecordClaim(s.store[id]) == Claim(p, s.backends[p][k].address, k)
    {
      assert Pins(s, s.backends[p][k].writer).Some?;
    }
    forall id | id in StoredIn(s, p)
      ensures BackendKey(s.store[id]) in s.backends[p]
      ensures s.backends[p][BackendKey(s.store[id])] == Pin(s.store[id].virtualIp, id)
    {
      assert Written(s, id, Pins(s, id).value);
    }
  }

  /** With nothing in flight, the table and the backends this node runs agree exactly when everything written is still there. */
  lemma MirrorsIff(s: Server)
    requires Inv(s) && Quiet(s)
    ensures (forall p :: p in s.pools ==> MirrorsStore(s, p)) <==> PinsWritten(s)
  {
    if PinsWritten(s) {
      forall p | p in s.pools
        ensures MirrorsStore(s, p)
      {
        QuietMirrors(s, p);
      }
    } else if forall p :: p in s.pools ==> MirrorsStore(s, p) {
      MirrorsWritten(s);
    }
  }

  /**
   * After a run without overwrites and with nothing in flight, each backend
   * holds exactly the stored sessions' keys and addresses, as many as the
   * pool has in use.
   */
  lemma QuietAgreement(s: Server, ls: seq<Label>, p: PoolName)
    requires Inv(s) && PinsWritten(s) && ValidRun(s, ls) && Reliable(ls) && NoOverwrites(s, ls)
    requires Quiet(After(s, ls)) && p in After(s, ls).pools
    ensures var t := After(s, ls);
            p in t.backends && MirrorsStore(t, p) && |t.backends[p]| == |StoredIn(t, p)| == t.pools[p].InUse()
  {
    RunWrittenIff(s, ls);
    var t := After(s, ls);
    MirrorsIff(t);
    MirrorSize(t, p);
    InUseCountsHolders(t, p);
    assert HoldersIn(t, p) == StoredIn(t, p);
  }

  // ---- unshared keys ----

  datatype Right = Right(pool: PoolName, key: string)

  /** The backend key a session id will write, has written, or has yet to remove. */
  function Wants(s: Server, id: string): Option<Right> {
    if id in s.store then Some(Right(PoolOf(s.store[id].protocol), BackendKey(s.store[id])))
    else if id in s.connecting && !s.connecting[id].Refused? then
      Some(Right(PoolOf(s.connecting[id].protocol), s.connecting[id].key))
    else if id in s.removing && !s.removing[id].unpinned then
      Some(Right(PoolOf(s.removing[id].record.protocol), BackendKey(s.removing[id].record)))
    else None
  }

  ghost predicate DistinctKeys(s: Server) {
    forall x, y :: Wants(s, x).Some? && Wants(s, x) == Wants(s, y) ==> x == y
  }

  ghost predicate KeyFree(s: Server, right: Right) {
    forall x :: Wants(s, x) != Some(right)
  }

  /** No connect of the run presents a WireGuard key that a session in progress or in the table already uses. */
  ghost predicate KeysUnshared(s: Server, ls: seq<Label>)
    requires ValidRun(s, ls)
    decreases |ls|
  {
    ls == [] || ((ls[0].Admit? && ls[0].protocol.WireGuard? ==> KeyFree(s, Right(WgPool, ls[0].key)))
                 && KeysUnshared(Apply(s, ls[0]), ls[1..]))
  }

  ghost predicate Agreement(s: Server) {
    DistinctKeys(s) && PinsWritten(s)
  }

  lemma PinsAreWanted(s: Server, id: string)
    requires PlacesOk(s) && Pins(s, id).Some?
    ensures Wants(s, id) == Some(Right(Pins(s, id).value.pool, Pins(s, id).value.key))
  {
  }

  lemma AdmitWants(s: Server, l: Label)
    requires PlacesOk(s) && Enabled(s, l) && l.Admit?
    ensures var s' := Apply(s, l);
            && Wants(s', l.id) == Some(Right(PoolOf(l.protocol), l.key)) && Wants(s, l.id).None?
            && (forall x :: x != l.id ==> Wants(s', x) == Wants(s, x))
            && (forall x :: Pins(s', x) == Pins(s, x))
  {
  }

  lemma TakenOutWants(s: Server, ids: set<string>)
    requires PlacesOk(s) && ids <= s.store.Keys
    ensures forall x :: Wants(TakenOut(s, ids), x) == Wants(s, x)
  {
  }

  lemma PublishWants(s: Server, r: Record)
    requires PlacesOk(s) && KeysOk(s) && Enabled(s, Publish(r))
    ensures forall x :: Wants(Published(s, r), x) == Wants(s, x)
  {
    assert r.id !in s.store && r.id !in s.removing && KeyOk(r.id, r.protocol, r.peerKey);
  }

  lemma UnpinWants(s: Server, id: string, succeeded: bool)
    requires PlacesOk(s) && Enabled(s, Unpin(id, succeeded))
    ensures var s' := Unpinned(s, id, succeeded);
            Wants(s', id).None? && forall x :: x != id ==> Wants(s', x) == Wants(s, x)
  {
  }

  lemma EndWants(s: Server, s': Server, id: string)
    requires PlacesOk(s) && id in s.removing
    requires s'.store == s.store && s'.connecting == s.connecting && s'.removing == s.removing - {id}
    ensures forall x :: Wants(s', x).Some? ==> Wants(s', x) == Wants(s, x)
  {
    assert id !in s.store && id !in s.connecting;
  }

  lemma PhaseWants(s: Server, l: Label)
    requires PlacesOk(s) && Enabled(s, l) && (l.GiveUp? || l.Lease? || l.Provision? || l.Refuse? || l.Return?)
    ensures forall x :: Wants(Apply(s, l), x).Some? ==> Wants(Apply(s, l), x) == Wants(s, x)
  {
    assert l.id !in s.store && l.id !in s.removing;
  }

  /** Other steps never give a session id a key it did not want. */
  lemma WantsShrink(s: Server, l: Label)
    requires PlacesOk(s) && KeysOk(s) && Enabled(s, l) && !l.Admit?
    ensures forall x :: Wants(Apply(s, l), x).Some? ==> Wants(Apply(s, l), x) == Wants(s, x)
  {
    if l.Publish? {
      PublishWants(s, l.record);
    } else if l.Disconnect? {
      TakenOutWants(s, {l.id});
    } else if l.Expire? {
      TakenOutWants(s, IdleIds(s.store, l.cutoff));
    } else if l.Unpin? {
      UnpinWants(s, l.id, l.succeeded);
    } else if l.Touch? || l.Tick? {
    } else if l.Release? {
      EndWants(s, Freed(s, l.id), l.id);
    } else if l.Skip? {
      EndWants(s, Skipped(s, l.id), l.id);
    } else {
      PhaseWants(s, l);
    }
  }

  /** Outside WireGuard a wanted key is a minted session id, so a fresh id's key is free. */
  lemma OtherProtocolsOwnTheirKey(s: Server, pool: PoolName, key: string)
    requires PlacesOk(s) && KeysOk(s) && pool != WgPool && key !in s.minted
    ensures KeyFree(s, Right(pool, key))
  {
    assert forall x :: Wants(s, x).Some? && Wants(s, x).value.pool != WgPool ==>
        x in s.minted && Wants(s, x).value.key == x;
  }

  lemma StepKeepsDistinct(s: Server, l: Label)
    requires PlacesOk(s) && KeysOk(s) && DistinctKeys(s) && Enabled(s, l)
    requires l.Admit? && l.protocol.WireGuard? ==> KeyFree(s, Right(WgPool, l.key))
    ensures DistinctKeys(Apply(s, l))
  {
    if l.Admit? {
      AdmitWants(s, l);
      if !l.protocol.WireGuard? {
        OtherProtocolsOwnTheirKey(s, PoolOf(l.protocol), l.key);
      }
    } else {
      WantsShrink(s, l);
    }
  }

  lemma DistinctFindsNoEntry(s: Server, l: Label)
    requires PlacesOk(s) && PinsOwned(s) && DistinctKeys(s) && Enabled(s, l)
    ensures FindsNoEntry(s, l)
  {
    if l.Provision? {
      var p, k := PoolOf(s.connecting[l.id].protocol), s.connecting[l.id].key;
      assert l.id !in s.store && Wants(s, l.id) == Some(Right(p, k)) && Pins(s, l.id).None?;
      if k in s.backends[p] {
        PinsAreWanted(s, s.backends[p][k].writer);
      }
    }
  }

  /** Unshared keys are enough: no connect of such a run writes over an entry. */
  lemma {:induction false} UnsharedNeverOverwrites(s: Server, ls: seq<Label>)
    requires Inv(s) && DistinctKeys(s) && ValidRun(s, ls) && Reliable(ls) && KeysUnshared(s, ls)
    ensures NoOverwrites(s, ls) && DistinctKeys(After(s, ls))
    decreases |ls|
  {
    if ls != [] {
      assert Dependable(ls[0]);
      DistinctFindsNoEntry(s, ls[0]);
      StepKeepsLeases(s, ls[0]);
      StepKeepsPins(s, ls[0]);
      StepKeepsDistinct(s, ls[0]);
      UnsharedNeverOverwrites(Apply(s, ls[0]), ls[1..]);
    }
  }

  lemma RunKeepsAgreement(s: Server, ls: seq<Label>)
    requires Inv(s) && Agreement(s) && ValidRun(s, ls) && Reliable(ls) && KeysUnshared(s, ls)
    ensures Inv(After(s, ls)) && Agreement(After(s, ls))
  {
    UnsharedNeverOverwrites(s, ls);
    RunWrittenIff(s, ls);
  }

  /** They are not necessary: a connect that presents a key in use and is turned away overwrites nothing. */
  lemma SharedKeyMayBeHarmless(s: Server, id: string, key: string)
    requires Enabled(s, Admit(id, WireGuard, key)) && !KeyFree(s, Right(WgPool, key))
    ensures var ls := [Admit(id, WireGuard, key), GiveUp(id)];
            ValidRun(s, ls) && Reliable(ls) && NoOverwrites(s, ls) && !KeysUnshared(s, ls)
  {
    var l, m := Admit(id, WireGuard, key), GiveUp(id);
    var t := Apply(s, l);
    assert [m][1..] == [] && [l, m][1..] == [m];
    assert ValidRun(t, [m]) && NoOverwrites(t, [m]);
  }
}

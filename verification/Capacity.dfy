/** The session cap under concurrency: the count is checked before, not together with, the insertion. */
module Capacity {
  import opened Sessions
  import opened Lifecycle
  import opened LifecycleSafety

  /** At most `k` connects are past the check at any moment of the run. */
  ghost predicate InFlightAtMost(s: Server, ls: seq<Label>, k: nat)
    requires ValidRun(s, ls)
    decreases |ls|
  {
    |s.connecting| <= k && (ls == [] || InFlightAtMost(Apply(s, ls[0]), ls[1..], k))
  }

  function Load(s: Server): nat {
    |s.store| + |s.connecting|
  }

  lemma TakenOutLoad(s: Server, ids: set<string>)
    requires ids <= s.store.Keys
    ensures Load(TakenOut(s, ids)) <= Load(s) && TakenOut(s, ids).cap == s.cap
  {
    var t := TakenOut(s, ids);
    assert t.store.Keys == s.store.Keys - ids;
    assert |t.store.Keys| == |t.store| && |s.store.Keys| == |s.store|;
  }

  lemma DropConnect(s: Server, t: Server, id: string)
    requires id in s.connecting && t.connecting == s.connecting - {id}
    ensures |t.connecting| == |s.connecting| - 1
  {
    assert t.connecting.Keys == s.connecting.Keys - {id};
    assert |t.connecting.Keys| == |t.connecting| && |s.connecting.Keys| == |s.connecting|;
  }

  lemma PublishLoad(s: Server, r: Record)
    requires PlacesOk(s) && Enabled(s, Publish(r))
    ensures Load(Published(s, r)) == Load(s)
  {
    DropConnect(s, Published(s, r), r.id);
    assert r.id !in s.store;
  }

  lemma SameKeysLoad(s: Server, t: Server)
    requires t.store.Keys == s.store.Keys && t.connecting.Keys == s.connecting.Keys
    ensures Load(t) == Load(s)
  {
    assert |t.store.Keys| == |t.store| && |s.store.Keys| == |s.store|;
    assert |t.connecting.Keys| == |t.connecting| && |s.connecting.Keys| == |s.connecting|;
  }

  /** Only the capacity check itself adds load. */
  lemma StepLoad(s: Server, l: Label)
    requires PlacesOk(s) && Enabled(s, l) && !l.Admit?
    ensures Load(Apply(s, l)) <= Load(s)
  {
    if l.Publish? {
      PublishLoad(s, l.record);
    } else if l.Disconnect? {
      TakenOutLoad(s, {l.id});
    } else if l.Expire? {
      TakenOutLoad(s, IdleIds(s.store, l.cutoff));
    } else if l.GiveUp? || l.Return? {
      DropConnect(s, Apply(s, l), l.id);
    } else {
      SameKeysLoad(s, Apply(s, l));
    }
  }

  lemma StepCap(s: Server, l: Label)
    requires Enabled(s, l)
    ensures Apply(s, l).cap == s.cap
  {
  }

  /**
   * With a cap of at least one and at most `k` connects in flight, sessions
   * plus connects past the check never exceed cap - 1 + k. A sequential
   * server, k == 1, never exceeds its cap.
   */
  lemma {:induction false} CapHolds(s: Server, ls: seq<Label>, k: nat)
    requires PlacesOk(s) && s.cap >= 1 && ValidRun(s, ls) && InFlightAtMost(s, ls, k)
    requires Load(s) <= s.cap - 1 + k
    ensures Load(After(s, ls)) <= s.cap - 1 + k
    decreases |ls|
  {
    if ls != [] {
      PlacesStep(s, ls[0]);
      StepCap(s, ls[0]);
      if !ls[0].Admit? {
        StepLoad(s, ls[0]);
      }
      CapHolds(Apply(s, ls[0]), ls[1..], k);
    }
  }

  /** A cap of zero admits nobody: no connect starts and the load only falls. */
  lemma {:induction false} ZeroCapDrains(s: Server, ls: seq<Label>)
    requires PlacesOk(s) && s.cap == 0 && ValidRun(s, ls)
    ensures forall i :: 0 <= i < |ls| ==> !ls[i].Admit?
    ensures Load(After(s, ls)) <= Load(s)
    decreases |ls|
  {
    if ls != [] {
      PlacesStep(s, ls[0]);
      StepCap(s, ls[0]);
      StepLoad(s, ls[0]);
      ZeroCapDrains(Apply(s, ls[0]), ls[1..]);
    }
  }

  function AdmitAll(ids: seq<string>): seq<Label> {
    if ids == [] then [] else [Admit(ids[0], WireGuard, ids[0])] + AdmitAll(ids[1..])
  }

  /** The bound is reached: with one place left, any number of connects pass the check before the first is stored. */
  lemma {:induction false} BoundIsReached(s: Server, ids: seq<string>)
    requires PlacesOk(s) && s.cap >= 1 && |s.store| == s.cap - 1
    requires forall i :: 0 <= i < |ids| ==> ids[i] !in s.minted
    requires forall i, j :: 0 <= i < j < |ids| ==> ids[i] != ids[j]
    ensures ValidRun(s, AdmitAll(ids)) && After(s, AdmitAll(ids)).store == s.store
    ensures Load(After(s, AdmitAll(ids))) == Load(s) + |ids|
    decreases |ids|
  {
    if ids != [] {
      var l := Admit(ids[0], WireGuard, ids[0]);
      assert Enabled(s, l);
      assert AdmitAll(ids)[0] == l && AdmitAll(ids)[1..] == AdmitAll(ids[1..]);
      PlacesStep(s, l);
      assert ids[0] !in s.connecting;
      BoundIsReached(Apply(s, l), ids[1..]);
    }
  }
}

/** The idle reaper: a session in use is never reaped, an abandoned one is always cleaned up. */
module Reaping {
  import opened Results
  import opened Sessions
  import opened Lifecycle
  import opened LifecycleSafety
  import opened LeaseAccounting

  /**
   * Along the run the session is not disconnected, and whenever a reap fires
   * its last touch, at first `last`, is no older than the ttl.
   */
  ghost predicate KeptFresh(s: Server, ls: seq<Label>, id: string, last: real)
    requires ValidRun(s, ls)
    decreases |ls|
  {
    ls == [] || (
      && ls[0] != Disconnect(id)
      && (ls[0].Expire? ==> s.now - last <= s.ttl)
      && KeptFresh(Apply(s, ls[0]), ls[1..], id, if ls[0] == Touch(id) then s.now else last)
    )
  }

  /** A touch moves the time of one stored session to the clock's, and does nothing else. */
  lemma TouchMeans(s: Server, id: string)
    ensures Apply(s, Touch(id)) == if id in s.store then s.(store := s.store[id := s.store[id].(lastSeenAt := s.now)]) else s
  {
  }

  lemma FreshStep(s: Server, l: Label, id: string, last: real)
    requires PlacesOk(s) && Enabled(s, l) && id in s.store && s.store[id].lastSeenAt >= last
    requires l != Disconnect(id) && (l.Expire? ==> s.now - last <= s.ttl)
    ensures PlacesOk(Apply(s, l)) && id in Apply(s, l).store
    ensures Apply(s, l).store[id].lastSeenAt >= if l == Touch(id) then s.now else last
  {
    PlacesStep(s, l);
    if l.Publish? {
      assert l.record.id in s.connecting;
      assert l.record.id != id;
    }
  }

  /** A session touched at least every ttl and not disconnected survives every reap. */
  lemma {:induction false} LiveSessionSurvives(s: Server, ls: seq<Label>, id: string, last: real)
    requires PlacesOk(s) && ValidRun(s, ls) && KeptFresh(s, ls, id, last)
    requires id in s.store && s.store[id].lastSeenAt >= last
    ensures id in After(s, ls).store
    decreases |ls|
  {
    if ls != [] {
      FreshStep(s, ls[0], id, last);
      LiveSessionSurvives(Apply(s, ls[0]), ls[1..], id, if ls[0] == Touch(id) then s.now else last);
    }
  }

  lemma UntouchedStep(s: Server, l: Label, id: string)
    requires PlacesOk(s) && Enabled(s, l) && id in s.store && l != Touch(id)
    ensures PlacesOk(Apply(s, l))
    ensures if id in Apply(s, l).store then Apply(s, l).store[id] == s.store[id] else Stage(Apply(s, l), id) == 3
    ensures l.Expire? && l.cutoff > s.store[id].lastSeenAt ==> id !in Apply(s, l).store
  {
    PlacesStep(s, l);
    if l.Publish? {
      assert l.record.id in s.connecting;
    }
  }

  /** Once a reap with a cutoff past its last touch has fired, an untouched session is out of the table for good. */
  lemma {:induction false} IdleSessionLeaves(s: Server, ls: seq<Label>, id: string, j: nat)
    requires PlacesOk(s) && ValidRun(s, ls) && id in s.store
    requires forall i :: 0 <= i < |ls| ==> ls[i] != Touch(id)
    requires j < |ls| && ls[j].Expire? && ls[j].cutoff > s.store[id].lastSeenAt
    ensures Stage(After(s, ls), id) >= 3
    decreases |ls|
  {
    UntouchedStep(s, ls[0], id);
    var t := Apply(s, ls[0]);
    if id !in t.store {
      TakesBalance(t, ls[1..], id);
    } else {
      assert j > 0;
      IdleSessionLeaves(t, ls[1..], id, j - 1);
    }
  }

  /**
   * No lease leaks: a session never touched again is gone from the table, the
   * pool and the backend, if the node runs its protocol, once a reap that
   * started more than ttl after its last touch has completed, and stays gone.
   */
  lemma IdleSessionIsCleanedUp(s: Server, ls: seq<Label>, id: string, j: nat, started: real)
    requires Inv(s) && ValidRun(s, ls) && Reliable(ls) && id in s.store
    requires forall i :: 0 <= i < |ls| ==> ls[i] != Touch(id)
    requires j < |ls| && ls[j] == Expire(started - s.ttl) && started > s.store[id].lastSeenAt + s.ttl
    requires id !in After(s, ls).removing
    ensures var t := After(s, ls);
            && id !in t.store && id !in t.connecting
            && (forall p, a :: p in t.pools && a in t.pools[p].leases && !t.pools[p].config.IsReserved(a) ==> t.pools[p].leases[a] != id)
            && (forall p, k :: p in t.pools && p in t.backends && k in t.backends[p] ==> t.backends[p][k].writer != id)
  {
    IdleSessionLeaves(s, ls, id, j);
    RunKeepsInv(s, ls);
    var t := After(s, ls);
    NothingIsLeft(t, id);
  }

  lemma NothingIsLeft(t: Server, id: string)
    requires Inv(t) && Holds(t, id).None?
    ensures forall p, a :: p in t.pools && a in t.pools[p].leases && !t.pools[p].config.IsReserved(a) ==> t.pools[p].leases[a] != id
    ensures forall p, k :: p in t.pools && p in t.backends && k in t.backends[p] ==> t.backends[p][k].writer != id
  {
    assert Pins(t, id).None?;
    forall p, a | p in t.pools && a in t.pools[p].leases && !t.pools[p].config.IsReserved(a)
      ensures t.pools[p].leases[a] != id
    {
      assert Claims(t, t.pools[p].leases[a], p, a);
    }
  }
}

/** Shutdown and restart: the state file, and the address reservations rebuilt from it. */
module Restart {
  import opened Results
  import opened Sessions
  import opened Lifecycle
  import opened LeaseAccounting
  import Ipam
  import PoolFacts

  /**
   * One restored session's reservation in pool `p`. A number outside 32 bits
   * stands for text that does not parse as an IPv4 address; it is skipped.
   */
  function ReservedFor(pool: Ipam.PoolState, p: PoolName, r: Record): Ipam.PoolState {
    if PoolOf(r.protocol) == p && 0 <= r.virtualIp < Ipam.WORD then Ipam.Reserved(pool, r.virtualIp, r.id) else pool
  }

  /** A pool after reserving, in file order, the address of every restored session of its protocols. */
  function ReservedFrom(pool: Ipam.PoolState, p: PoolName, file: seq<Record>): Ipam.PoolState {
    if file == [] then pool
    else
      var n := |file| - 1;
      ReservedFor(ReservedFrom(pool, p, file[..n]), p, file[n])
  }

  function Ids(file: seq<Record>): set<string> {
    set r | r in file :: r.id
  }

  /** A new process: its pools are new and its table is empty; the backends are as they were found. */
  ghost predicate Blank(t: Server) {
    && t.store == map[] && t.connecting == map[] && t.removing == map[]
    && t.pools.Keys <= t.backends.Keys
    && forall p :: p in t.pools ==> t.pools[p].config.Sound() && t.pools[p] == Ipam.NewPool(t.pools[p].config)
  }

  /** The process after loading a state file: the file's table, the reservations made in file order, the file's ids used up. */
  function Restarted(t: Server, file: seq<Record>): Server {
    t.(pools := map p | p in t.pools :: ReservedFrom(t.pools[p], p, file),
    store := Restored(t.store, file),
    minted := t.minted + Ids(file))
  }

  // ---- the table ----

  /** Of several records with one id the last one counts. */
  lemma {:induction false} LastRecordCounts(file: seq<Record>, i: nat)
    requires i < |file| && forall j :: i < j < |file| ==> file[j].id != file[i].id
    ensures file[i].id in Restored(map[], file) && Restored(map[], file)[file[i].id] == file[i]
    decreases |file|
  {
    var n := |file| - 1;
    if i < n {
      LastRecordCounts(file[..n], i);
    }
  }

  lemma {:induction false} RestoredKeys(file: seq<Record>, id: string)
    requires id in Restored(map[], file)
    ensures Mentions(file, id)
  {
    var n := |file| - 1;
    if file[n].id != id {
      RestoredKeys(file[..n], id);
      var i :| 0 <= i < n && file[..n][i].id == id;
      assert file[i].id == id;
    }
  }

  /** Whatever order the table was walked in, loading the file gives the same table back. */
  lemma TableRoundTrip(file: seq<Record>, t: Table)
    requires Lists(file, t)
    ensures Restored(map[], file) == t
  {
    var u := Restored(map[], file);
    forall id
      ensures (id in u <==> id in t) && (id in t ==> u[id] == t[id])
    {
      if id in t {
        assert Mentions(file, id);
        var i :| 0 <= i < |file| && file[i].id == id;
        LastRecordCounts(file, i);
      } else if id in u {
        RestoredKeys(file, id);
      }
    }
  }

  // ---- the pools ----

  /** Every record of pool `p` has a usable address of its own. */
  ghost predicate Reservable(c: Ipam.Config, p: PoolName, file: seq<Record>) {
    && (forall i :: 0 <= i < |file| && PoolOf(file[i].protocol) == p ==> c.Usable(file[i].virtualIp))
    && (forall i, j :: 0 <= i < j < |file| && PoolOf(file[i].protocol) == p && PoolOf(file[j].protocol) == p ==>
          file[i].virtualIp != file[j].virtualIp)
  }

  /** Some record of pool `p` has this address and this owner. */
  ghost predicate Listed(file: seq<Record>, p: PoolName, address: int, owner: string) {
    exists i :: 0 <= i < |file| && PoolOf(file[i].protocol) == p && file[i].virtualIp == address && file[i].id == owner
  }

  lemma ListedGrows(file: seq<Record>, r: Record, p: PoolName, address: int, owner: string)
    ensures Listed(file + [r], p, address, owner) <==>
              Listed(file, p, address, owner) || (PoolOf(r.protocol) == p && r.virtualIp == address && r.id == owner)
  {
    if Listed(file, p, address, owner) {
      var i :| 0 <= i < |file| && PoolOf(file[i].protocol) == p && file[i].virtualIp == address && file[i].id == owner;
      assert (file + [r])[i] == file[i];
    }
    if PoolOf(r.protocol) == p && r.virtualIp == address && r.id == owner {
      assert (file + [r])[|file|] == r;
    }
  }

  ghost predicate LeasedBy(pool: Ipam.PoolState, address: int, owner: string) {
    address in pool.leases && pool.leases[address] == owner
  }

  /** The reservations are exactly the file's, and none was refused. */
  ghost predicate Reserves(pool: Ipam.PoolState, c: Ipam.Config, p: PoolName, file: seq<Record>) {
    && pool.Valid() && pool.config == c
    && forall a, owner :: !c.IsReserved(a) ==> (LeasedBy(pool, a, owner) <==> Listed(file, p, a, owner))
  }

  lemma NotYetListed(c: Ipam.Config, p: PoolName, file: seq<Record>, r: Record, owner: string)
    requires Reservable(c, p, file + [r]) && PoolOf(r.protocol) == p
    ensures !Listed(file, p, r.virtualIp, owner)
  {
    var all := file + [r];
    assert all[|file|] == r;
    assert forall i :: 0 <= i < |file| ==> all[i] == file[i];
  }

  lemma ReserveNext(pool: Ipam.PoolState, c: Ipam.Config, p: PoolName, file: seq<Record>, r: Record)
    requires Reserves(pool, c, p, file) && Reservable(c, p, file + [r]) && PoolOf(r.protocol) == p
    ensures r.virtualIp !in pool.leases
    ensures Reserves(Ipam.Reserved(pool, r.virtualIp, r.id), c, p, file + [r])
  {
    var all := file + [r];
    assert all[|file|] == r;
    assert r.virtualIp !in pool.leases by {
      forall owner
        ensures !LeasedBy(pool, r.virtualIp, owner)
      {
        NotYetListed(c, p, file, r, owner);
      }
      assert r.virtualIp in pool.leases ==> LeasedBy(pool, r.virtualIp, pool.leases[r.virtualIp]);
    }
    PoolFacts.ReservedValid(pool, r.virtualIp, r.id);
    var pool' := Ipam.Reserved(pool, r.virtualIp, r.id);
    forall a, owner | !c.IsReserved(a)
      ensures LeasedBy(pool', a, owner) <==> Listed(all, p, a, owner)
    {
      ListedGrows(file, r, p, a, owner);
      if a == r.virtualIp {
        NotYetListed(c, p, file, r, owner);
      } else {
        assert LeasedBy(pool, a, owner) <==> Listed(file, p, a, owner);
      }
    }
  }

  lemma SkipNext(pool: Ipam.PoolState, c: Ipam.Config, p: PoolName, file: seq<Record>, r: Record)
    requires Reserves(pool, c, p, file) && PoolOf(r.protocol) != p
    ensures Reserves(pool, c, p, file + [r])
  {
    forall a, owner | !c.IsReserved(a)
      ensures LeasedBy(pool, a, owner) <==> Listed(file + [r], p, a, owner)
    {
      ListedGrows(file, r, p, a, owner);
      assert LeasedBy(pool, a, owner) <==> Listed(file, p, a, owner);
    }
  }

  lemma {:induction false} ReservationsMatch(c: Ipam.Config, p: PoolName, file: seq<Record>)
    requires c.Sound() && Reservable(c, p, file)
    ensures Reserves(ReservedFrom(Ipam.NewPool(c), p, file), c, p, file)
  {
    if file == [] {
      PoolFacts.NewPoolValid(c);
    } else {
      var n := |file| - 1;
      var r := file[n];
      ReservationsMatch(c, p, file[..n]);
      assert file == file[..n] + [r];
      var before := ReservedFrom(Ipam.NewPool(c), p, file[..n]);
      if PoolOf(r.protocol) == p {
        ReserveNext(before, c, p, file[..n], r);
      } else {
        SkipNext(before, c, p, file[..n], r);
      }
    }
  }

  // ---- the round trip ----

  lemma FileIsReservable(s: Server, file: seq<Record>, p: PoolName)
    requires LeasesMatch(s) && Lists(file, s.store) && p in s.pools
    ensures Reservable(s.pools[p].config, p, file)
  {
    forall i | 0 <= i < |file| && PoolOf(file[i].protocol) == p
      ensures LeasedTo(s.pools[p], file[i].virtualIp, file[i].id)
    {
      assert Holds(s, file[i].id) == Some(RecordClaim(file[i]));
    }
  }

  lemma ListedIsLeased(s: Server, file: seq<Record>, p: PoolName, a: int, owner: string)
    requires LeasesMatch(s) && Quiet(s) && Lists(file, s.store) && p in s.pools && !s.pools[p].config.IsReserved(a)
    ensures Listed(file, p, a, owner) <==> LeasedBy(s.pools[p], a, owner)
  {
    if Listed(file, p, a, owner) {
      var i :| 0 <= i < |file| && PoolOf(file[i].protocol) == p && file[i].virtualIp == a && file[i].id == owner;
      assert Holds(s, owner) == Some(RecordClaim(file[i]));
      assert LeasedTo(s.pools[p], a, owner);
    }
    if LeasedBy(s.pools[p], a, owner) {
      assert Claims(s, owner, p, a);
      assert Mentions(file, owner);
      var i :| 0 <= i < |file| && file[i].id == owner;
      assert file[i] == s.store[owner];
    }
  }

  lemma SamePeerLeases(x: Ipam.PoolState, y: Ipam.PoolState)
    requires x.config == y.config
    requires forall a, owner :: !x.config.IsReserved(a) ==> (LeasedBy(x, a, owner) <==> LeasedBy(y, a, owner))
    ensures PeerLeases(x) == PeerLeases(y)
  {
    forall a | !x.config.IsReserved(a)
      ensures a in x.leases <==> a in y.leases
      ensures a in x.leases ==> x.leases[a] == y.leases[a]
    {
      assert a in x.leases ==> LeasedBy(x, a, x.leases[a]);
      assert a in y.leases ==> LeasedBy(y, a, y.leases[a]);
    }
  }

  lemma PoolRoundTrip(s: Server, file: seq<Record>, p: PoolName)
    requires LeasesMatch(s) && Quiet(s) && Lists(file, s.store) && p in s.pools
    ensures var pool := ReservedFrom(Ipam.NewPool(s.pools[p].config), p, file);
            pool.Valid() && pool.config == s.pools[p].config && PeerLeases(pool) == PeerLeases(s.pools[p])
  {
    var c := s.pools[p].config;
    var pool := ReservedFrom(Ipam.NewPool(c), p, file);
    FileIsReservable(s, file, p);
    ReservationsMatch(c, p, file);
    forall a, owner | !c.IsReserved(a)
      ensures LeasedBy(pool, a, owner) <==> LeasedBy(s.pools[p], a, owner)
    {
      ListedIsLeased(s, file, p, a, owner);
    }
    SamePeerLeases(pool, s.pools[p]);
  }

  /** `t` is a new process on the node that was in state `s`: the same backends, and the same blocks for what it still runs. */
  ghost predicate Succeeds(s: Server, t: Server) {
    && Blank(t) && t.backends == s.backends && t.pools.Keys <= s.pools.Keys
    && forall p :: p in t.pools ==> t.pools[p].config == s.pools[p].config
  }

  lemma RestartedParts(s: Server, t: Server, file: seq<Record>)
    requires LeasesMatch(s) && Quiet(s) && Lists(file, s.store) && Succeeds(s, t)
    ensures Restarted(t, file).store == s.store && s.store.Keys <= Restarted(t, file).minted
    ensures forall p :: p in t.pools ==>
              var pool := Restarted(t, file).pools[p];
              pool.Valid() && pool.config == s.pools[p].config && PeerLeases(pool) == PeerLeases(s.pools[p])
  {
    TableRoundTrip(file, s.store);
    forall id | id in s.store
      ensures id in Ids(file)
    {
      assert Mentions(file, id);
      var i :| 0 <= i < |file| && file[i].id == id;
      assert file[i] in file;
    }
    forall p | p in t.pools
      ensures var pool := ReservedFrom(t.pools[p], p, file);
              pool.Valid() && pool.config == s.pools[p].config && PeerLeases(pool) == PeerLeases(s.pools[p])
    {
      PoolRoundTrip(s, file, p);
    }
  }

  /** Same peer leases, same claims: the matching carries over. */
  lemma MatchingCarriesOver(s: Server, t: Server)
    requires LeasesMatch(s) && Quiet(s) && Quiet(t)
    requires t.store == s.store && s.store.Keys <= t.minted && t.backends == s.backends && t.pools.Keys <= s.pools.Keys
    requires forall p :: p in t.pools ==>
               t.pools[p].Valid() && t.pools[p].config == s.pools[p].config && PeerLeases(t.pools[p]) == PeerLeases(s.pools[p])
    ensures LeasesMatch(t)
  {
    assert forall id :: Holds(t, id) == Holds(s, id);
    forall id | Holds(t, id).Some?
      ensures var c := Holds(t, id).value; c.pool in t.pools ==> LeasedTo(t.pools[c.pool], c.address, id)
    {
      var c := Holds(s, id).value;
      if c.pool in t.pools {
        assert LeasedTo(s.pools[c.pool], c.address, id);
        assert c.address in PeerLeases(s.pools[c.pool]);
      }
    }
    forall p, a | p in t.pools && a in t.pools[p].leases && !t.pools[p].config.IsReserved(a)
      ensures Claims(t, t.pools[p].leases[a], p, a)
    {
      assert a in PeerLeases(t.pools[p]);
      assert Claims(s, s.pools[p].leases[a], p, a);
    }
  }

  lemma PinsCarryOver(s: Server, t: Server)
    requires PinsOwned(s) && Quiet(s) && Quiet(t) && t.store == s.store && t.backends == s.backends
    requires t.pools.Keys <= s.pools.Keys
    ensures PinsOwned(t)
  {
    assert forall id :: Pins(t, id) == Pins(s, id);
    forall p, k | p in t.pools && p in t.backends && k in t.backends[p]
      ensures Pins(t, t.backends[p][k].writer) == Some(Claim(p, t.backends[p][k].address, k))
    {
      assert Pins(s, s.backends[p][k].writer) == Some(Claim(p, s.backends[p][k].address, k));
    }
  }

  /** `u` has the sessions and the backends of `s`, and every pool it still has owes the same addresses to the same sessions. */
  ghost predicate Resumes(s: Server, u: Server) {
    && u.store == s.store && u.backends == s.backends && u.pools.Keys <= s.pools.Keys
    && forall p :: p in u.pools ==> PeerLeases(u.pools[p]) == PeerLeases(s.pools[p])
  }

  lemma MatchingRoundTrip(s: Server, t: Server, file: seq<Record>)
    requires LeasesMatch(s) && Quiet(s) && Lists(file, s.store) && Succeeds(s, t)
    ensures Resumes(s, Restarted(t, file)) && LeasesMatch(Restarted(t, file)) && Quiet(Restarted(t, file))
  {
    RestartedParts(s, t, file);
    MatchingCarriesOver(s, Restarted(t, file));
  }

  /**
   * From a state with nothing in flight, persisting and starting a new
   * process rebuilds the same session table and the same address-to-owner
   * map in every pool the process still has, in whatever order the table was
   * written, and the lifecycle invariant holds again.
   */
  lemma RestartRoundTrip(s: Server, t: Server, file: seq<Record>)
    requires Inv(s) && Quiet(s) && Lists(file, s.store) && Succeeds(s, t)
    ensures Resumes(s, Restarted(t, file)) && Inv(Restarted(t, file)) && Quiet(Restarted(t, file))
  {
    MatchingRoundTrip(s, t, file);
    PinsCarryOver(s, Restarted(t, file));
  }

  // ---- which state files restore ----

  /** The owner of the first record in the file that asks pool `p` for this address. */
  function FirstAt(file: seq<Record>, p: PoolName, address: int): Option<string> {
    if file == [] then None
    else
      var n := |file| - 1;
      var before := FirstAt(file[..n], p, address);
      if before.Some? then before
      else if PoolOf(file[n].protocol) == p && file[n].virtualIp == address && 0 <= address < Ipam.WORD then Some(file[n].id)
      else None
  }

  /**
   * The file fits this pool: every restored session of the pool asked first
   * for its address, which is a usable one, and every address asked for,
   * other than a reserved one, is in the block and the owner still has it.
   */
  ghost predicate Fits(c: Ipam.Config, p: PoolName, file: seq<Record>) {
    var t := Restored(map[], file);
    && (forall id :: id in t && PoolOf(t[id].protocol) == p ==>
          c.Usable(t[id].virtualIp) && FirstAt(file, p, t[id].virtualIp) == Some(id))
    && (forall a :: !c.IsReserved(a) && FirstAt(file, p, a).Some? ==> c.InBlock(a) && Has(t, FirstAt(file, p, a).value, p, a))
  }

  ghost predicate Has(t: Table, id: string, p: PoolName, address: int) {
    id in t && PoolOf(t[id].protocol) == p && t[id].virtualIp == address
  }

  /** The file fits every pool of the process, and only WireGuard sessions have keys of their own. */
  ghost predicate Restores(t: Server, file: seq<Record>) {
    && (forall id :: id in Restored(map[], file) ==>
          KeyOk(id, Restored(map[], file)[id].protocol, Restored(map[], file)[id].peerKey))
    && forall p :: p in t.pools ==> Fits(t.pools[p].config, p, file)
  }

  /** The leases of a pool rebuilt from a file: the reserved ones, and the first asker of every other address. */
  ghost predicate Rebuilt(pool: Ipam.PoolState, c: Ipam.Config, p: PoolName, file: seq<Record>) {
    && pool.config == c && pool.cursor == 1
    && (forall a :: c.IsReserved(a) ==> a in pool.leases)
    && (forall a :: !c.IsReserved(a) ==> (a in pool.leases <==> FirstAt(file, p, a).Some?))
    && (forall a :: !c.IsReserved(a) && a in pool.leases ==> pool.leases[a] == FirstAt(file, p, a).value)
  }

  lemma {:induction false} FileRebuilds(c: Ipam.Config, p: PoolName, file: seq<Record>)
    requires c.Sound()
    ensures Rebuilt(ReservedFrom(Ipam.NewPool(c), p, file), c, p, file)
  {
    if file == [] {
      PoolFacts.NewPoolValid(c);
    } else {
      var n := |file| - 1;
      FileRebuilds(c, p, file[..n]);
      OneMoreRebuilds(ReservedFrom(Ipam.NewPool(c), p, file[..n]), c, p, file);
    }
  }

  lemma OneMoreRebuilds(pool: Ipam.PoolState, c: Ipam.Config, p: PoolName, file: seq<Record>)
    requires file != [] && Rebuilt(pool, c, p, file[..|file| - 1])
    ensures Rebuilt(ReservedFor(pool, p, file[|file| - 1]), c, p, file)
  {
    var r := file[|file| - 1];
    var pool' := ReservedFor(pool, p, r);
    forall a
      ensures a in pool'.leases <==> a in pool.leases || (PoolOf(r.protocol) == p && r.virtualIp == a && 0 <= a < Ipam.WORD)
      ensures a in pool.leases ==> a in pool'.leases && pool'.leases[a] == pool.leases[a]
    {
    }
  }

  lemma RebuiltValid(pool: Ipam.PoolState, c: Ipam.Config, p: PoolName, file: seq<Record>)
    requires c.Sound() && Rebuilt(pool, c, p, file)
    ensures pool.Valid() <==> forall a :: !c.IsReserved(a) && FirstAt(file, p, a).Some? ==> c.InBlock(a)
  {
    if pool.Valid() {
      forall a | !c.IsReserved(a) && FirstAt(file, p, a).Some?
        ensures c.InBlock(a)
      {
        assert a in pool.leases;
      }
    } else {
      assert exists a :: a in pool.leases && !c.InBlock(a);
    }
  }

  /** The restored sessions that pool `p` owes their address to. */
  ghost predicate Owed(t: Server, p: PoolName) {
    forall id :: id in t.store && PoolOf(t.store[id].protocol) == p ==> p in t.pools && LeasedTo(t.pools[p], t.store[id].virtualIp, id)
  }

  /** Every lease of pool `p` is a stored session's. */
  ghost predicate Accounted(t: Server, p: PoolName)
    requires p in t.pools
  {
    forall a :: a in t.pools[p].leases && !t.pools[p].config.IsReserved(a) ==> Has(t.store, t.pools[p].leases[a], p, a)
  }

  /** With nothing in flight, matching is a statement about each pool by itself. */
  lemma QuietMatchIff(t: Server)
    requires Quiet(t) && t.pools.Keys <= t.backends.Keys && t.store.Keys <= t.minted
    requires forall id :: id in t.store ==> t.store[id].id == id
    ensures LeasesMatch(t) <==>
              && (forall id :: id in t.store ==> KeyOk(id, t.store[id].protocol, t.store[id].peerKey))
              && forall p :: p in t.pools ==> t.pools[p].Valid() && Owed(t, p) && Accounted(t, p)
  {
    assert forall id :: Holds(t, id) == if id in t.store then Some(RecordClaim(t.store[id])) else None;
    assert forall id, p, a :: Claims(t, id, p, a) <==> Has(t.store, id, p, a);
    if LeasesMatch(t) {
      forall p | p in t.pools
        ensures Owed(t, p) && Accounted(t, p)
      {
        QuietMatchOwed(t, p);
      }
    }
    if forall p :: p in t.pools ==> t.pools[p].Valid() && Owed(t, p) && Accounted(t, p) {
      QuietOwedMatch(t);
    }
  }

  lemma QuietMatchOwed(t: Server, p: PoolName)
    requires Quiet(t) && LeasesMatch(t) && p in t.pools
    ensures Owed(t, p) && Accounted(t, p)
  {
    forall id | id in t.store && PoolOf(t.store[id].protocol) == p
      ensures LeasedTo(t.pools[p], t.store[id].virtualIp, id)
    {
      assert Holds(t, id) == Some(RecordClaim(t.store[id]));
    }
    forall a | a in t.pools[p].leases && !t.pools[p].config.IsReserved(a)
      ensures Has(t.store, t.pools[p].leases[a], p, a)
    {
      assert Claims(t, t.pools[p].leases[a], p, a);
    }
  }

  lemma QuietOwedMatch(t: Server)
    requires Quiet(t) && forall p :: p in t.pools ==> Owed(t, p) && Accounted(t, p)
    ensures ClaimsLeased(t) && LeasesClaimed(t)
  {
    forall id | Holds(t, id).Some?
      ensures var c := Holds(t, id).value; c.pool in t.pools ==> LeasedTo(t.pools[c.pool], c.address, id)
    {
      var p := PoolOf(t.store[id].protocol);
      assert p in t.pools ==> Owed(t, p);
    }
    forall p, a | p in t.pools && a in t.pools[p].leases && !t.pools[p].config.IsReserved(a)
      ensures Claims(t, t.pools[p].leases[a], p, a)
    {
      assert Accounted(t, p) && Has(t.store, t.pools[p].leases[a], p, a);
    }
  }

  lemma FitsIff(t: Server, c: Ipam.Config, p: PoolName, file: seq<Record>)
    requires p in t.pools && c.Sound() && Rebuilt(t.pools[p], c, p, file) && t.store == Restored(map[], file)
    ensures t.pools[p].Valid() && Owed(t, p) && Accounted(t, p) <==> Fits(c, p, file)
  {
    RebuiltValid(t.pools[p], c, p, file);
    assert Owed(t, p) <==> forall id :: id in t.store && PoolOf(t.store[id].protocol) == p ==>
      c.Usable(t.store[id].virtualIp) && FirstAt(file, p, t.store[id].virtualIp) == Some(id);
    assert Accounted(t, p) <==> forall a :: !c.IsReserved(a) && FirstAt(file, p, a).Some? ==>
      Has(t.store, FirstAt(file, p, a).value, p, a);
  }

  lemma {:induction false} RestoredIds(t: Table, file: seq<Record>)
    requires forall id :: id in t ==> t[id].id == id
    ensures forall id :: id in Restored(t, file) ==> Restored(t, file)[id].id == id
    ensures Restored(t, file).Keys == t.Keys + Ids(file)
  {
    if file != [] {
      var n := |file| - 1;
      RestoredIds(t, file[..n]);
      assert file == file[..n] + [file[n]];
    }
  }

  /**
   * Exactly which state files, written by this program or not, restore to a
   * state in which leases and sessions match.
   */
  lemma RestoresIff(t: Server, file: seq<Record>)
    requires Blank(t)
    ensures LeasesMatch(Restarted(t, file)) <==> Restores(t, file)
  {
    var u := Restarted(t, file);
    RestoredIds(map[], file);
    QuietMatchIff(u);
    forall p | p in t.pools
      ensures u.pools[p].Valid() && Owed(u, p) && Accounted(u, p) <==> Fits(t.pools[p].config, p, file)
    {
      FileRebuilds(t.pools[p].config, p, file);
      FitsIff(u, t.pools[p].config, p, file);
    }
  }

  // ---- fewer protocols ----

  /** A new process with only some of the protocols; what the others left in their backends stays there. */
  function Rebooted(s: Server, enabled: set<PoolName>): Server {
    s.(pools := map p | p in s.pools && p in enabled :: Ipam.NewPool(s.pools[p].config),
    store := map[], connecting := map[], removing := map[], minted := {})
  }

  /**
   * A restart that disables protocols keeps the invariant for the others; the
   * sessions of the disabled ones stay in the table, and their entries in the
   * backends.
   */
  lemma RestartWithFewerProtocols(s: Server, enabled: set<PoolName>, file: seq<Record>)
    requires Inv(s) && Quiet(s) && Lists(file, s.store)
    ensures Inv(Restarted(Rebooted(s, enabled), file)) && Resumes(s, Restarted(Rebooted(s, enabled), file))
  {
    RestartRoundTrip(s, Rebooted(s, enabled), file);
  }
}

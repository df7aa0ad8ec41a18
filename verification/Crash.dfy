/**
 * The state file while the node runs, and a process that dies. A handler that
 * changes the table owes the file a snapshot; taking one and writing it are
 * two steps, so the writes of two handlers can overtake each other.
 */
module Crash {
  import opened Results
  import opened Sessions
  import opened Lifecycle
  import opened LifecycleSafety
  import opened LeaseAccounting
  import opened Restart
  import opened Dormant
  import opened Scenarios
  import opened Handling
  import Ipam

  /** A snapshot of the table, and (a history variable) how many changes of the table came before it. */
  datatype Snapshot = Snapshot(file: seq<Record>, version: nat)

  /** `disk` is the state file; `owed` counts the changes whose handlers have yet to take their snapshot. */
  datatype Node = Node(server: Server, disk: Snapshot, writing: map<nat, Snapshot>, version: nat, owed: nat)

  datatype Act =
    | Does(step: Label)
    | Snaps(job: nat, file: seq<Record>, due: bool)
    | Writes(job: nat, succeeded: bool)

  /** Telemetry changes no more than a time of last use, and does not persist. */
  ghost predicate Changes(s: Server, l: Label) {
    l.Publish? || l.Disconnect? || (l.Expire? && IdleIds(s.store, l.cutoff) != {})
  }

  ghost predicate CanAct(n: Node, a: Act) {
    match a
    case Does(l) => Enabled(n.server, l)
    // A shutdown takes a snapshot that no handler owes.
    case Snaps(job, file, due) => job !in n.writing && Lists(file, n.server.store) && (due ==> n.owed > 0)
    case Writes(job, succeeded) => job in n.writing
  }

  ghost function Acted(n: Node, a: Act): Node
    requires CanAct(n, a)
  {
    match a
    case Does(l) =>
      var more := if Changes(n.server, l) then 1 else 0;
      n.(server := Apply(n.server, l), version := n.version + more, owed := n.owed + more)
    case Snaps(job, file, due) =>
      n.(writing := n.writing[job := Snapshot(file, n.version)], owed := if due then n.owed - 1 else n.owed)
    // A failed write is only logged.
    case Writes(job, succeeded) => n.(writing := n.writing - {job}, disk := if succeeded then n.writing[job] else n.disk)
  }

  ghost predicate ValidActs(n: Node, acts: seq<Act>)
    decreases |acts|
  {
    acts == [] || (CanAct(n, acts[0]) && ValidActs(Acted(n, acts[0]), acts[1..]))
  }

  ghost function AfterActs(n: Node, acts: seq<Act>): Node
    requires ValidActs(n, acts)
    decreases |acts|
  {
    if acts == [] then n else AfterActs(Acted(n, acts[0]), acts[1..])
  }

  // ---- what any snapshot is good for ----

  ghost predicate OnBlocks(s: Server, blocks: map<PoolName, Ipam.Config>) {
    forall p :: p in blocks ==> p in s.pools && s.pools[p].config == blocks[p]
  }

  /** The file lists each session once, with a usable address of its own. */
  ghost predicate Sane(file: seq<Record>, blocks: map<PoolName, Ipam.Config>) {
    && (forall i, j :: 0 <= i < j < |file| ==> file[i].id != file[j].id)
    && (forall i :: 0 <= i < |file| ==> KeyOk(file[i].id, file[i].protocol, file[i].peerKey))
    && (forall p :: p in blocks ==> Reservable(blocks[p], p, file))
  }

  /** A new process on the same blocks, possibly with fewer protocols. */
  ghost predicate Replaces(t: Server, blocks: map<PoolName, Ipam.Config>) {
    Blank(t) && forall p :: p in t.pools ==> p in blocks && t.pools[p].config == blocks[p]
  }

  lemma SnapshotIsSane(s: Server, file: seq<Record>, blocks: map<PoolName, Ipam.Config>)
    requires LeasesMatch(s) && OnBlocks(s, blocks) && Lists(file, s.store)
    ensures Sane(file, blocks)
  {
    forall p | p in blocks
      ensures Reservable(blocks[p], p, file)
    {
      FileIsReservable(s, file, p);
    }
  }

  /** A stopped node whose table is the file. */
  function Stopped(t: Server, file: seq<Record>): Server {
    t.(store := Restored(map[], file), minted := Ids(file))
  }

  lemma SaneLists(file: seq<Record>, blocks: map<PoolName, Ipam.Config>)
    requires Sane(file, blocks)
    ensures Lists(file, Restored(map[], file))
  {
    var u := Restored(map[], file);
    forall i | 0 <= i < |file|
      ensures file[i].id in u && u[file[i].id] == file[i]
    {
      LastRecordCounts(file, i);
    }
    forall id | id in u
      ensures Mentions(file, id)
    {
      RestoredKeys(file, id);
    }
  }

  lemma StoppedHolds(t: Server, file: seq<Record>, blocks: map<PoolName, Ipam.Config>, p: PoolName, id: string) returns (i: nat)
    requires Replaces(t, blocks) && Sane(file, blocks) && HoldsIn(Stopped(t, file), id, p).Some?
    ensures i < |file| && file[i].id == id && PoolOf(file[i].protocol) == p
    ensures HoldsIn(Stopped(t, file), id, p).value == RecordClaim(file[i])
  {
    SaneLists(file, blocks);
    assert Mentions(file, id);
    i :| 0 <= i < |file| && file[i].id == id;
  }

  lemma SaneApart(c: Ipam.Config, p: PoolName, file: seq<Record>, i: nat, j: nat)
    requires Reservable(c, p, file) && i < |file| && j < |file| && i != j
    requires PoolOf(file[i].protocol) == p && PoolOf(file[j].protocol) == p
    ensures file[i].virtualIp != file[j].virtualIp
  {
    assert i < j || j < i;
  }

  lemma SanePlaces(t: Server, file: seq<Record>, blocks: map<PoolName, Ipam.Config>, p: PoolName)
    requires Replaces(t, blocks) && Sane(file, blocks) && p in t.pools
    ensures Quiet(Stopped(t, file)) && PlacesOk(Stopped(t, file)) && Lists(file, Stopped(t, file).store)
    ensures Placed(Stopped(t, file), p, t.pools[p].config)
  {
    SaneLists(file, blocks);
    RestoredIds(map[], file);
    SaneAddresses(t, file, blocks, p);
  }

  lemma SaneAddresses(t: Server, file: seq<Record>, blocks: map<PoolName, Ipam.Config>, p: PoolName)
    requires Replaces(t, blocks) && Sane(file, blocks) && p in t.pools
    ensures Placed(Stopped(t, file), p, t.pools[p].config)
  {
    var u := Stopped(t, file);
    forall id | HoldsIn(u, id, p).Some?
      ensures t.pools[p].config.Usable(HoldsIn(u, id, p).value.address)
    {
      var i := StoppedHolds(t, file, blocks, p, id);
      assert Reservable(t.pools[p].config, p, file);
    }
    forall x, y | HoldsIn(u, x, p).Some? && HoldsIn(u, y, p).Some? && x != y
      ensures HoldsIn(u, x, p).value.address != HoldsIn(u, y, p).value.address
    {
      var i := StoppedHolds(t, file, blocks, p, x);
      var j := StoppedHolds(t, file, blocks, p, y);
      SaneApart(t.pools[p].config, p, file, i, j);
    }
  }

  /** Any such file restores to a state in which sessions and leases match. */
  lemma SaneMatches(t: Server, file: seq<Record>, blocks: map<PoolName, Ipam.Config>)
    requires Replaces(t, blocks) && Sane(file, blocks)
    ensures LeasesMatch(Restarted(t, file))
  {
    SaneLists(file, blocks);
    RestoredIds(map[], file);
    forall p | p in t.pools
      ensures Placed(Stopped(t, file), p, t.pools[p].config)
    {
      SanePlaces(t, file, blocks, p);
    }
    forall id | id in Restored(map[], file)
      ensures KeyOk(id, Restored(map[], file)[id].protocol, Restored(map[], file)[id].peerKey)
    {
      assert Mentions(file, id);
    }
    PlacedMatches(Stopped(t, file), t, file);
  }

  /** Every entry's writer is in the file with the address pinned for it. */
  ghost predicate EntriesListed(b: Backend, p: PoolName, file: seq<Record>) {
    forall k :: k in b ==> Listed(file, p, b[k].address, b[k].writer)
  }

  lemma SaneIsolatesIff(t: Server, file: seq<Record>, blocks: map<PoolName, Ipam.Config>, p: PoolName)
    requires Replaces(t, blocks) && Sane(file, blocks) && p in t.pools && DistinctEntries(t.backends[p])
    ensures IsolatedIn(Restarted(t, file), p) <==> EntriesListed(t.backends[p], p, file)
  {
    var u := Stopped(t, file);
    SanePlaces(t, file, blocks, p);
    RestartIsolatesIff(u, t, file, p);
    forall k | k in t.backends[p]
      ensures Listed(file, p, t.backends[p][k].address, t.backends[p][k].writer)
         <==> Claims(u, t.backends[p][k].writer, p, t.backends[p][k].address)
    {
      ListedIffClaimed(u, file, p, t.backends[p][k].address, t.backends[p][k].writer);
    }
  }

  // ---- every run ----

  /** The file lists the table, except for the times of last use. */
  ghost predicate ListsButSeen(file: seq<Record>, t: Table) {
    && (forall i, j :: 0 <= i < j < |file| ==> file[i].id != file[j].id)
    && (forall i :: 0 <= i < |file| ==> SameButSeen(file[i], t))
    && (forall id :: id in t ==> Mentions(file, id))
  }

  ghost predicate SameButSeen(r: Record, t: Table) {
    r.id in t && t[r.id] == r.(lastSeenAt := t[r.id].lastSeenAt)
  }

  /** A snapshot is sane, and one that no change came after still lists the table. */
  ghost predicate SnapshotOk(n: Node, k: Snapshot, blocks: map<PoolName, Ipam.Config>) {
    Sane(k.file, blocks) && k.version <= n.version && (k.version == n.version ==> ListsButSeen(k.file, n.server.store))
  }

  ghost predicate Ok(n: Node, blocks: map<PoolName, Ipam.Config>) {
    LeasesMatch(n.server) && OnBlocks(n.server, blocks) && SnapshotsOk(n, blocks)
  }

  ghost predicate SnapshotsOk(n: Node, blocks: map<PoolName, Ipam.Config>) {
    && SnapshotOk(n, n.disk, blocks)
    && forall j :: j in n.writing ==> SnapshotOk(n, n.writing[j], blocks)
  }

  /** The last change is owed a snapshot, or one is being written, or one is on disk. */
  ghost predicate Covered(n: Node) {
    n.owed > 0 || n.disk.version == n.version || exists j :: j in n.writing && n.writing[j].version == n.version
  }

  ghost predicate Settled(n: Node) {
    n.owed == 0 && n.writing == map[]
  }

  lemma StoreButSeen(s: Server, l: Label, file: seq<Record>)
    requires Enabled(s, l) && !Changes(s, l) && ListsButSeen(file, s.store)
    ensures ListsButSeen(file, Apply(s, l).store)
  {
    if l.Touch? {
      TouchButSeen(s.store, l.id, s.now, file);
    } else {
      StoreStays(s, l);
    }
  }

  lemma StoreStays(s: Server, l: Label)
    requires Enabled(s, l) && !Changes(s, l) && !l.Touch?
    ensures Apply(s, l).store == s.store
  {
    if l.Expire? {
      assert Without(s.store, {}) == s.store;
    }
  }

  lemma TouchButSeen(t: Table, id: string, now: real, file: seq<Record>)
    requires ListsButSeen(file, t)
    ensures ListsButSeen(file, Touched(t, id, now))
  {
    forall i | 0 <= i < |file|
      ensures SameButSeen(file[i], Touched(t, id, now))
    {
      assert SameButSeen(file[i], t);
    }
  }

  lemma DoesKeepsSnapshot(n: Node, l: Label, k: Snapshot, blocks: map<PoolName, Ipam.Config>)
    requires Enabled(n.server, l) && SnapshotOk(n, k, blocks)
    ensures SnapshotOk(Acted(n, Does(l)), k, blocks)
  {
    if !Changes(n.server, l) && k.version == n.version {
      StoreButSeen(n.server, l, k.file);
    }
  }

  lemma StepKeepsBlocks(s: Server, l: Label, blocks: map<PoolName, Ipam.Config>)
    requires OnBlocks(s, blocks) && Enabled(s, l)
    ensures OnBlocks(Apply(s, l), blocks)
  {
    forall p | p in blocks
      ensures p in Apply(s, l).pools && Apply(s, l).pools[p].config == blocks[p]
    {
      StepKeepsConfig(s, l, p);
    }
  }

  lemma DoesKeepsOk(n: Node, l: Label, blocks: map<PoolName, Ipam.Config>)
    requires Ok(n, blocks) && Enabled(n.server, l)
    ensures Ok(Acted(n, Does(l)), blocks)
  {
    StepKeepsLeases(n.server, l);
    StepKeepsBlocks(n.server, l, blocks);
    DoesKeepsSnapshot(n, l, n.disk, blocks);
    forall j | j in n.writing
      ensures SnapshotOk(Acted(n, Does(l)), n.writing[j], blocks)
    {
      DoesKeepsSnapshot(n, l, n.writing[j], blocks);
    }
  }

  lemma LatestSnapshotOk(n: Node, file: seq<Record>, blocks: map<PoolName, Ipam.Config>)
    requires LeasesMatch(n.server) && OnBlocks(n.server, blocks) && Lists(file, n.server.store)
    ensures SnapshotOk(n, Snapshot(file, n.version), blocks)
  {
    SnapshotIsSane(n.server, file, blocks);
    assert ListsButSeen(file, n.server.store);
  }

  lemma SnapsOk(n: Node, job: nat, file: seq<Record>, due: bool, blocks: map<PoolName, Ipam.Config>)
    requires SnapshotsOk(n, blocks) && SnapshotOk(n, Snapshot(file, n.version), blocks) && CanAct(n, Snaps(job, file, due))
    ensures SnapshotsOk(Acted(n, Snaps(job, file, due)), blocks)
  {
  }

  lemma WritesOk(n: Node, job: nat, succeeded: bool, blocks: map<PoolName, Ipam.Config>)
    requires SnapshotsOk(n, blocks) && CanAct(n, Writes(job, succeeded))
    ensures SnapshotsOk(Acted(n, Writes(job, succeeded)), blocks)
  {
  }

  lemma ActKeepsOk(n: Node, a: Act, blocks: map<PoolName, Ipam.Config>)
    requires Ok(n, blocks) && CanAct(n, a)
    ensures Ok(Acted(n, a), blocks)
  {
    match a {
      case Does(l) => DoesKeepsOk(n, l, blocks);
      case Snaps(job, file, due) =>
        LatestSnapshotOk(n, file, blocks);
        SnapsOk(n, job, file, due, blocks);
      case Writes(job, succeeded) => WritesOk(n, job, succeeded, blocks);
    }
  }

  lemma {:induction false} RunKeepsOk(n: Node, acts: seq<Act>, blocks: map<PoolName, Ipam.Config>)
    requires Ok(n, blocks) && ValidActs(n, acts)
    ensures Ok(AfterActs(n, acts), blocks)
    decreases |acts|
  {
    if acts != [] {
      ActKeepsOk(n, acts[0], blocks);
      RunKeepsOk(Acted(n, acts[0]), acts[1..], blocks);
    }
  }

  /** A process that restored a sane file starts out in order, with its table on disk. */
  lemma StartIsOk(t: Server, file: seq<Record>, blocks: map<PoolName, Ipam.Config>)
    requires Replaces(t, blocks) && blocks.Keys <= t.pools.Keys && Sane(file, blocks)
    ensures var n := Node(Restarted(t, file), Snapshot(file, 0), map[], 0, 0);
            Ok(n, blocks) && Covered(n) && Settled(n)
  {
    SaneMatches(t, file, blocks);
    SaneLists(file, blocks);
    forall p | p in blocks
      ensures Restarted(t, file).pools[p].config == blocks[p]
    {
      ReservationsMatch(blocks[p], p, file);
    }
    assert ListsButSeen(file, Restarted(t, file).store);
  }

  /**
   * Whenever the process dies, with whatever in flight and whichever snapshot
   * written last: in its successor sessions and leases match, and the clients
   * of a protocol are isolated exactly when every entry of its backend was
   * written by a session that the file lists with that address.
   */
  lemma AnyCrash(n: Node, acts: seq<Act>, blocks: map<PoolName, Ipam.Config>, t: Server)
    requires Ok(n, blocks) && ValidActs(n, acts)
    requires Replaces(t, blocks) && t.backends == AfterActs(n, acts).server.backends
    ensures var file := AfterActs(n, acts).disk.file;
            && LeasesMatch(Restarted(t, file))
            && forall p :: p in t.pools && DistinctEntries(t.backends[p]) ==>
                 (IsolatedIn(Restarted(t, file), p) <==> EntriesListed(t.backends[p], p, file))
  {
    var file := AfterActs(n, acts).disk.file;
    RunKeepsOk(n, acts, blocks);
    SaneMatches(t, file, blocks);
    forall p | p in t.pools && DistinctEntries(t.backends[p])
      ensures IsolatedIn(Restarted(t, file), p) <==> EntriesListed(t.backends[p], p, file)
    {
      SaneIsolatesIff(t, file, blocks, p);
    }
  }

  // ---- when the file is up to date ----

  /** The write succeeds and does not replace a later snapshot. */
  ghost predicate InOrder(n: Node, a: Act)
    requires CanAct(n, a)
  {
    a.Writes? ==> a.succeeded && n.disk.version <= n.writing[a.job].version
  }

  ghost predicate AllInOrder(n: Node, acts: seq<Act>)
    requires ValidActs(n, acts)
    decreases |acts|
  {
    acts == [] || (InOrder(n, acts[0]) && AllInOrder(Acted(n, acts[0]), acts[1..]))
  }

  lemma ActKeepsCovered(n: Node, a: Act, blocks: map<PoolName, Ipam.Config>)
    requires Ok(n, blocks) && Covered(n) && CanAct(n, a) && InOrder(n, a)
    ensures Covered(Acted(n, a))
  {
    var m := Acted(n, a);
    if a.Snaps? {
      assert a.job in m.writing && m.writing[a.job].version == m.version;
    } else if a.Writes? && n.owed == 0 && n.disk.version != n.version && n.writing[a.job].version != n.version {
      var j :| j in n.writing && n.writing[j].version == n.version;
      assert j in m.writing;
    } else if a.Does? && !Changes(n.server, a.step) && n.owed == 0 && n.disk.version != n.version {
      var j :| j in n.writing && n.writing[j].version == n.version;
      assert j in m.writing;
    }
  }

  lemma {:induction false} RunKeepsCovered(n: Node, acts: seq<Act>, blocks: map<PoolName, Ipam.Config>)
    requires Ok(n, blocks) && Covered(n) && ValidActs(n, acts) && AllInOrder(n, acts)
    ensures Covered(AfterActs(n, acts))
    decreases |acts|
  {
    if acts != [] {
      ActKeepsOk(n, acts[0], blocks);
      ActKeepsCovered(n, acts[0], blocks);
      RunKeepsCovered(Acted(n, acts[0]), acts[1..], blocks);
    }
  }

  /** As long as no write overtakes a later one, the file of a settled node lists its table. */
  lemma SettledFileLists(n: Node, acts: seq<Act>, blocks: map<PoolName, Ipam.Config>)
    requires Ok(n, blocks) && Covered(n) && ValidActs(n, acts) && AllInOrder(n, acts) && Settled(AfterActs(n, acts))
    ensures ListsButSeen(AfterActs(n, acts).disk.file, AfterActs(n, acts).server.store)
  {
    RunKeepsOk(n, acts, blocks);
    RunKeepsCovered(n, acts, blocks);
  }

  /**
   * The write that settles a node leaves the latest snapshot on disk exactly
   * when it is in order, or fails while the disk has it already.
   */
  lemma LastWriteIff(n: Node, job: nat, succeeded: bool, blocks: map<PoolName, Ipam.Config>)
    requires Ok(n, blocks) && Covered(n) && CanAct(n, Writes(job, succeeded)) && Settled(Acted(n, Writes(job, succeeded)))
    ensures var m := Acted(n, Writes(job, succeeded));
            m.disk.version == m.version <==>
              if succeeded then n.disk.version <= n.writing[job].version else n.writing[job].version <= n.disk.version
  {
    assert forall j :: j in n.writing && j != job ==> j in n.writing - {job};
  }

  /** `u` has the sessions of `s`, though some may look unused for longer, and owes the same addresses. */
  ghost predicate ResumesButSeen(s: Server, u: Server) {
    && u.store.Keys == s.store.Keys && (forall id :: id in u.store ==> SameButSeen(u.store[id], s.store))
    && u.backends == s.backends && u.pools.Keys <= s.pools.Keys
    && forall p :: p in u.pools ==> PeerLeases(u.pools[p]) == PeerLeases(s.pools[p])
  }

  /** The node as the file knows it. */
  function AsListed(s: Server, file: seq<Record>): Server {
    s.(store := Restored(map[], file))
  }

  lemma AsListedIsInv(s: Server, file: seq<Record>)
    requires Inv(s) && Quiet(s) && ListsButSeen(file, s.store)
    ensures Inv(AsListed(s, file)) && Quiet(AsListed(s, file)) && Lists(file, AsListed(s, file).store)
    ensures AsListed(s, file).store.Keys == s.store.Keys
    ensures forall id :: id in s.store ==> SameButSeen(AsListed(s, file).store[id], s.store)
  {
    var u := AsListed(s, file);
    forall i | 0 <= i < |file|
      ensures file[i].id in u.store && u.store[file[i].id] == file[i]
    {
      LastRecordCounts(file, i);
    }
    forall id
      ensures id in u.store <==> id in s.store
      ensures id in s.store ==> SameButSeen(u.store[id], s.store) && u.store[id].id == id
    {
      if id in u.store {
        RestoredKeys(file, id);
      }
      if id in s.store {
        assert Mentions(file, id);
      }
    }
    ListedHolds(s, u);
  }

  lemma ListedHolds(s: Server, u: Server)
    requires Inv(s) && Quiet(s) && u == s.(store := u.store) && u.store.Keys == s.store.Keys
    requires forall id :: id in s.store ==> SameButSeen(u.store[id], s.store) && u.store[id].id == id
    ensures Inv(u)
  {
    forall id
      ensures Holds(u, id) == Holds(s, id) && Pins(u, id) == Pins(s, id)
    {
      assert id in s.store ==> SameButSeen(u.store[id], s.store);
    }
    SameClaims(s, u);
    SamePins(s, u);
  }

  /** Backend commands do what they report. */
  ghost predicate AllDependable(acts: seq<Act>) {
    forall i :: 0 <= i < |acts| && acts[i].Does? ==> Dependable(acts[i].step)
  }

  lemma {:induction false} RunKeepsServerInv(n: Node, acts: seq<Act>)
    requires Inv(n.server) && ValidActs(n, acts) && AllDependable(acts)
    ensures Inv(AfterActs(n, acts).server)
    decreases |acts|
  {
    if acts != [] {
      if acts[0].Does? {
        assert Dependable(acts[0].step);
        StepKeepsLeases(n.server, acts[0].step);
        StepKeepsPins(n.server, acts[0].step);
      }
      RunKeepsServerInv(Acted(n, acts[0]), acts[1..]);
    }
  }

  /**
   * A process that dies while nothing is in flight and every change was
   * persisted in order is resumed by its successor like after a planned
   * restart, except that sessions may look unused for longer than they were.
   */
  lemma SettledCrashResumes(n: Node, acts: seq<Act>, blocks: map<PoolName, Ipam.Config>, t: Server)
    requires Ok(n, blocks) && Covered(n) && Inv(n.server) && ValidActs(n, acts) && AllInOrder(n, acts) && AllDependable(acts)
    requires var m := AfterActs(n, acts); Settled(m) && Quiet(m.server) && Succeeds(m.server, t)
    ensures var m := AfterActs(n, acts);
            Inv(Restarted(t, m.disk.file)) && Quiet(Restarted(t, m.disk.file)) && ResumesButSeen(m.server, Restarted(t, m.disk.file))
  {
    var m := AfterActs(n, acts);
    RunKeepsServerInv(n, acts);
    SettledFileLists(n, acts, blocks);
    AsListedIsInv(m.server, m.disk.file);
    RestartRoundTrip(AsListed(m.server, m.disk.file), t, m.disk.file);
  }

  // ---- a write that comes late ----

  ghost predicate ActsLead(n: Node, acts: seq<Act>, m: Node) {
    ValidActs(n, acts) && AfterActs(n, acts) == m
  }

  lemma {:induction false} ActsThrough(n: Node, acts: seq<Act>, m: Node, more: seq<Act>, k: Node)
    requires ActsLead(n, acts, m) && ActsLead(m, more, k)
    ensures ActsLead(n, acts + more, k)
    decreases |acts|
  {
    if acts == [] {
      assert acts + more == more;
    } else {
      ActsThrough(Acted(n, acts[0]), acts[1..], m, more, k);
      assert (acts + more)[1..] == acts[1..] + more;
    }
  }

  lemma ActLeads(n: Node, a: Act)
    requires CanAct(n, a)
    ensures ActsLead(n, [a], Acted(n, a))
  {
    assert [a][1..] == [];
  }

  lemma TwoLead(n: Node, a: Act, m: Node, b: Act, k: Node)
    requires ActsLead(n, [a], m) && ActsLead(m, [b], k)
    ensures ActsLead(n, [a, b], k)
  {
    ActsThrough(n, [a], m, [b], k);
    assert [a] + [b] == [a, b];
  }

  function Changed(n: Node, s: Server): Node {
    n.(server := s, version := n.version + 1, owed := n.owed + 1)
  }

  lemma DoesLead(n: Node, l: Label, s: Server)
    requires Enabled(n.server, l) && Apply(n.server, l) == s
    ensures ActsLead(n, [Does(l)], if Changes(n.server, l) then Changed(n, s) else n.(server := s))
  {
    ActLeads(n, Does(l));
  }

  function ConnectActs(r: Record): seq<Act> {
    [Does(Admit(r.id, r.protocol, r.peerKey)), Does(Lease(r.id, r.virtualIp))] + [Does(Provision(r.id)), Does(Publish(r))]
  }

  lemma ConnectBegins(n: Node, r: Record)
    requires CanConnect(n.server, r)
    ensures ActsLead(n, [Does(Admit(r.id, r.protocol, r.peerKey))], n.(server := AdmittedTo(n.server, r)))
    ensures ActsLead(n.(server := AdmittedTo(n.server, r)), [Does(Lease(r.id, r.virtualIp))],
                     n.(server := Holding(n.server, r, Leased(r.protocol, r.peerKey, r.virtualIp))))
  {
    GrantedHolds(n.server, r);
    DoesLead(n, Admit(r.id, r.protocol, r.peerKey), AdmittedTo(n.server, r));
    DoesLead(n.(server := AdmittedTo(n.server, r)), Lease(r.id, r.virtualIp),
             Holding(n.server, r, Leased(r.protocol, r.peerKey, r.virtualIp)));
  }

  lemma ConnectEnds(n: Node, r: Record)
    requires CanConnect(n.server, r)
    ensures ActsLead(n.(server := Holding(n.server, r, Leased(r.protocol, r.peerKey, r.virtualIp))),
                     [Does(Provision(r.id)), Does(Publish(r))], Changed(n, Connected(n.server, r)))
  {
    GrantedHolds(n.server, r);
    ConnectSteps(n.server, r);
    var m := n.(server := Holding(n.server, r, Leased(r.protocol, r.peerKey, r.virtualIp)));
    var k := n.(server := Pinned(m.server, r.id));
    DoesLead(m, Provision(r.id), k.server);
    DoesLead(k, Publish(r), Connected(n.server, r));
    TwoLead(m, Does(Provision(r.id)), k, Does(Publish(r)), Changed(n, Connected(n.server, r)));
  }

  /** A connect changes the table once, and owes a snapshot. */
  lemma ConnectActsLead(n: Node, r: Record)
    requires CanConnect(n.server, r)
    ensures ActsLead(n, ConnectActs(r), Changed(n, Connected(n.server, r)))
  {
    var n1 := n.(server := AdmittedTo(n.server, r));
    var n2 := n.(server := Holding(n.server, r, Leased(r.protocol, r.peerKey, r.virtualIp)));
    ConnectBegins(n, r);
    TwoLead(n, Does(Admit(r.id, r.protocol, r.peerKey)), n1, Does(Lease(r.id, r.virtualIp)), n2);
    ConnectEnds(n, r);
    ActsThrough(n, [Does(Admit(r.id, r.protocol, r.peerKey)), Does(Lease(r.id, r.virtualIp))], n2,
                [Does(Provision(r.id)), Does(Publish(r))], Changed(n, Connected(n.server, r)));
  }

  function LateTail(): seq<Act> {
    [Snaps(1, [Client("a", IkeV2, "a", 2), Client("b", IkeV2, "b", 3)], true)] + [Writes(1, true), Writes(0, true)]
  }

  /** The second client's snapshot is on disk before the first one's. */
  function LateWrite(): seq<Act> {
    var a, b := Client("a", IkeV2, "a", 2), Client("b", IkeV2, "b", 3);
    ConnectActs(a) + ([Snaps(0, [a], true)] + (ConnectActs(b) + LateTail()))
  }

  /** Two clients connected. */
  function Two(): Server {
    var s := Empty(IkePool, 6);
    s.(pools := map[IkePool := Ipam.Leased(Ipam.Leased(s.pools[IkePool], "a", NETWORK + 2), "b", NETWORK + 3)],
    backends := map[IkePool := map["a" := Pin(NETWORK + 2, "a"), "b" := Pin(NETWORK + 3, "b")]],
    store := map["a" := Client("a", IkeV2, "a", 2), "b" := Client("b", IkeV2, "b", 3)], minted := {"a", "b"})
  }

  lemma SecondJoins()
    ensures CanConnect(First(IkeV2, 6, "a"), Client("b", IkeV2, "b", 3))
    ensures Connected(First(IkeV2, 6, "a"), Client("b", IkeV2, "b", 3)) == Two()
  {
    SecondAddress();
    var s, b := First(IkeV2, 6, "a"), Client("b", IkeV2, "b", 3);
    assert s.pools[IkePool] == Ipam.Leased(Empty(WgPool, 6).pools[WgPool], "a", NETWORK + 2);
    assert s.backends[IkePool]["b" := Pin(NETWORK + 3, "b")] == Two().backends[IkePool];
    assert s.store["b" := b] == Two().store;
  }

  function Unsaved(): Node {
    Node(Empty(IkePool, 6), Snapshot([], 0), map[], 0, 0)
  }

  lemma ListsTwo()
    ensures Lists([Client("a", IkeV2, "a", 2), Client("b", IkeV2, "b", 3)], Two().store)
    ensures Lists([Client("a", IkeV2, "a", 2)], First(IkeV2, 6, "a").store)
  {
    var a, b := Client("a", IkeV2, "a", 2), Client("b", IkeV2, "b", 3);
    assert [a, b][0].id == "a" && [a, b][1].id == "b" && [a][0].id == "a";
  }

  /** Both snapshots are taken; the later one is written first. */
  lemma TailLeads(n: Node)
    requires n == Node(Two(), Snapshot([], 0), map[0 := Snapshot([Client("a", IkeV2, "a", 2)], 1)], 2, 1)
    ensures ActsLead(n, LateTail(), Node(Two(), Snapshot([Client("a", IkeV2, "a", 2)], 1), map[], 2, 0))
  {
    var a, b := Client("a", IkeV2, "a", 2), Client("b", IkeV2, "b", 3);
    var m := Node(Two(), Snapshot([a], 1), map[], 2, 0);
    var m2 := Node(Two(), Snapshot([a, b], 2), map[0 := Snapshot([a], 1)], 2, 0);
    var m1 := Node(Two(), Snapshot([], 0), map[0 := Snapshot([a], 1), 1 := Snapshot([a, b], 2)], 2, 0);
    ListsTwo();
    ActLeads(n, Snaps(1, [a, b], true));
    ActLeads(m1, Writes(1, true));
    ActLeads(m2, Writes(0, true));
    assert m1.writing - {1} == m2.writing && m2.writing - {0} == map[];
    TwoLead(m1, Writes(1, true), m2, Writes(0, true), m);
    ActsThrough(n, [Snaps(1, [a, b], true)], m1, [Writes(1, true), Writes(0, true)], m);
  }

  lemma LateWriteLeads()
    ensures ActsLead(Unsaved(), LateWrite(), Node(Two(), Snapshot([Client("a", IkeV2, "a", 2)], 1), map[], 2, 0))
  {
    var a, b := Client("a", IkeV2, "a", 2), Client("b", IkeV2, "b", 3);
    var m := Node(Two(), Snapshot([a], 1), map[], 2, 0);
    var n1 := Node(First(IkeV2, 6, "a"), Snapshot([], 0), map[], 1, 1);
    var n2 := Node(First(IkeV2, 6, "a"), Snapshot([], 0), map[0 := Snapshot([a], 1)], 1, 0);
    SecondJoins();
    TailLeads(Changed(n2, Two()));
    ConnectActsLead(n2, b);
    ActsThrough(n2, ConnectActs(b), Changed(n2, Two()), LateTail(), m);
    ListsTwo();
    ActLeads(n1, Snaps(0, [a], true));
    ActsThrough(n1, [Snaps(0, [a], true)], n2, ConnectActs(b) + LateTail(), m);
    AfterFirst(IkeV2, 6, "a");
    ConnectActsLead(Unsaved(), a);
    ActsThrough(Unsaved(), ConnectActs(a), n1, [Snaps(0, [a], true)] + (ConnectActs(b) + LateTail()), m);
  }

  /** The successor of that process. */
  function Forgetful(): Server {
    Restarted(Empty(IkePool, 6).(backends := Two().backends), [Client("a", IkeV2, "a", 2)])
  }

  lemma ForgetfulIs()
    ensures Forgetful().pools.Keys == {IkePool}
    ensures Forgetful().pools[IkePool] == Ipam.Reserved(Empty(IkePool, 6).pools[IkePool], NETWORK + 2, "a")
    ensures Forgetful().store == map["a" := Client("a", IkeV2, "a", 2)] && Forgetful().minted == {"a"}
    ensures Forgetful().connecting == map[] && Forgetful().removing == map[] && Forgetful().backends == Two().backends
  {
    var a := Client("a", IkeV2, "a", 2);
    var t := Empty(IkePool, 6).(backends := Two().backends);
    assert [a][..0] == [] && Ids([a]) == {"a"};
    assert Forgetful().pools[IkePool] == ReservedFrom(t.pools[IkePool], IkePool, [a]);
    assert ReservedFrom(t.pools[IkePool], IkePool, [a]) == ReservedFor(ReservedFrom(t.pools[IkePool], IkePool, []), IkePool, a);
  }

  lemma ForgetfulNext()
    ensures Ipam.Next(Ipam.Reserved(Empty(IkePool, 6).pools[IkePool], NETWORK + 2, "a"), NETWORK + 3)
  {
    var p := Ipam.Reserved(Empty(IkePool, 6).pools[IkePool], NETWORK + 2, "a");
    assert p.Free(3) && !p.Free(1) && !p.Free(2);
  }

  lemma ThirdJoins()
    ensures CanConnect(Forgetful(), Client("c", IkeV2, "c", 3))
  {
    ForgetfulIs();
    ForgetfulNext();
  }

  lemma ThirdShares(t: Server)
    requires CanConnect(Forgetful(), Client("c", IkeV2, "c", 3)) && t == Connected(Forgetful(), Client("c", IkeV2, "c", 3))
    ensures !Isolated(t)
  {
    ForgetfulIs();
    assert t.backends[IkePool] == Two().backends[IkePool]["c" := Pin(NETWORK + 3, "c")];
    SameAddressTwice(t, IkePool, "b", "c");
  }

  /**
   * Two persists overlap, and the earlier snapshot is written last. Both
   * clients are connected and nothing is in flight, yet after a crash the
   * second client's address is given to a third.
   */
  lemma LateWriteSharesAddress()
    ensures exists m :: ActsLead(Unsaved(), LateWrite(), m) && Settled(m) && m.server == Two()
                        && m.disk.file == [Client("a", IkeV2, "a", 2)]
    ensures Forgetful() == Restarted(Empty(IkePool, 6).(backends := Two().backends), [Client("a", IkeV2, "a", 2)])
    ensures CanConnect(Forgetful(), Client("c", IkeV2, "c", 3)) && !Isolated(Connected(Forgetful(), Client("c", IkeV2, "c", 3)))
  {
    LateWriteLeads();
    ThirdJoins();
    ThirdShares(Connected(Forgetful(), Client("c", IkeV2, "c", 3)));
  }
}

/** Live sessions: the lease record, its telemetry baseline, and the lock-protected table of them. */
module Sessions {
  import opened Results

  datatype Protocol = WireGuard | OpenVpnUdp | OpenVpnTcp | IkeV2

  /** The persisted fields of a session, which are also everything the lease lifecycle looks at. */
  datatype Record = Record(
    id: string,
    nodeId: string,
    protocol: Protocol,
    virtualIp: int,
    peerKey: string,
    ephemeral: bool,
    createdAt: real,
    lastSeenAt: real
  )

  const HISTORY: nat := 16

  /** The runtime-only sampling state of a session. */
  datatype Baseline = Baseline(at: Option<real>, down: nat, up: nat, history: seq<real>)

  function Mbps(bytes: nat, elapsed: real): real
    requires elapsed > 0.0
  {
    bytes as real * 8.0 / elapsed / 1000000.0
  }

  /** Throughput of one counter against the previous reading; a counter that fell counts as zero. */
  function Rate(b: Baseline, now: real, before: nat, bytes: nat): real {
    if b.at.Some? && now - b.at.value > 0.0 && bytes >= before then Mbps(bytes - before, now - b.at.value) else 0.0
  }

  /** The last `n` items. */
  function Last<T>(s: seq<T>, n: nat): seq<T> {
    if |s| > n then s[|s| - n..] else s
  }

  function Sampled(b: Baseline, now: real, down: nat, up: nat): Baseline {
    Baseline(Some(now), down, up, Last(b.history + [Rate(b, now, b.down, down)], HISTORY))
  }

  class Session {
    const id: string
    const nodeId: string
    const protocol: Protocol
    const virtualIp: int
    const peerKey: string
    const ephemeral: bool
    const createdAt: real
    var lastSeenAt: real
    var lastSampleAt: Option<real>
    var lastDown: nat
    var lastUp: nat
    var history: seq<real>

    ghost function Rec(): Record
      reads this`lastSeenAt
    {
      Record(id, nodeId, protocol, virtualIp, peerKey, ephemeral, createdAt, lastSeenAt)
    }

    ghost function Sampling(): Baseline
      reads this
    {
      Baseline(lastSampleAt, lastDown, lastUp, history)
    }

    constructor (r: Record)
      ensures Rec() == r
      ensures Sampling() == Baseline(None, 0, 0, [])
    {
      id, nodeId, protocol, virtualIp := r.id, r.nodeId, r.protocol, r.virtualIp;
      peerKey, ephemeral, createdAt, lastSeenAt := r.peerKey, r.ephemeral, r.createdAt, r.lastSeenAt;
      lastSampleAt, lastDown, lastUp, history := None, 0, 0, [];
    }

    method Sample(now: real, down: nat, up: nat) returns (downMbps: real, upMbps: real, shown: seq<real>)
      modifies this`lastSampleAt, this`lastDown, this`lastUp, this`history
      ensures downMbps == Rate(old(Sampling()), now, old(lastDown), down)
      ensures upMbps == Rate(old(Sampling()), now, old(lastUp), up)
      ensures Sampling() == Sampled(old(Sampling()), now, down, up)
      ensures shown == history
    {
      downMbps, upMbps := 0.0, 0.0;
      if lastSampleAt.Some? {
        var elapsed := now - lastSampleAt.value;
        if elapsed > 0.0 {
          if down >= lastDown {
            downMbps := (down - lastDown) as real * 8.0 / elapsed / 1000000.0;
          }
          if up >= lastUp {
            upMbps := (up - lastUp) as real * 8.0 / elapsed / 1000000.0;
          }
        }
      }
      lastSampleAt := Some(now);
      lastDown := down;
      lastUp := up;
      history := history + [downMbps];
      if |history| > 16 {
        history := history[|history| - 16..];
      }
      shown := history;
    }
  }

  /** The session table's contents. */
  type Table = map<string, Record>

  function IdleIds(t: Table, cutoff: real): set<string> {
    set id | id in t && t[id].lastSeenAt < cutoff
  }

  function Without(t: Table, ids: set<string>): Table {
    t - ids
  }

  function Touched(t: Table, id: string, now: real): Table {
    if id in t then t[id := t[id].(lastSeenAt := now)] else t
  }

  function OfProtocol(t: Table, p: Protocol): set<string> {
    set id | id in t && t[id].protocol == p
  }

  /** `file` lists every record of the table once, in some order. */
  ghost predicate Lists(file: seq<Record>, t: Table) {
    && (forall i, j :: 0 <= i < j < |file| ==> file[i].id != file[j].id)
    && (forall i :: 0 <= i < |file| ==> file[i].id in t && t[file[i].id] == file[i])
    && (forall id :: id in t ==> Mentions(file, id))
  }

  ghost predicate Mentions(file: seq<Record>, id: string) {
    exists i :: 0 <= i < |file| && file[i].id == id
  }

  lemma MentionsGrows(file: seq<Record>, r: Record)
    ensures forall id :: Mentions(file, id) || id == r.id ==> Mentions(file + [r], id)
  {
    forall id | Mentions(file, id) || id == r.id
      ensures Mentions(file + [r], id)
    {
      var i := if id == r.id then |file| else var i :| 0 <= i < |file| && file[i].id == id; i;
      assert (file + [r])[i].id == id;
    }
  }

  /** A table with a state file's records loaded into it: a later record of the same id wins. */
  function Restored(t: Table, file: seq<Record>): Table {
    if file == [] then t else Restored(t, file[..|file| - 1])[file[|file| - 1].id := file[|file| - 1]]
  }

  function IdsOf(ss: seq<Session>): set<string> {
    set s | s in ss :: s.id
  }

  /** `ss` holds the sessions of these ids, each once. */
  ghost predicate Collected(ss: seq<Session>, from: map<string, Session>, ids: set<string>) {
    && (forall i :: 0 <= i < |ss| ==> ss[i].id in ids && ss[i].id in from && from[ss[i].id] == ss[i])
    && (forall i, j :: 0 <= i < j < |ss| ==> ss[i].id != ss[j].id)
    && (forall id :: id in ids ==> id in from && from[id].id == id && from[id] in ss)
  }

  lemma CollectedGrows(ss: seq<Session>, from: map<string, Session>, ids: set<string>, id: string)
    requires Collected(ss, from, ids) && id !in ids && id in from && from[id].id == id
    ensures Collected(ss + [from[id]], from, ids + {id})
  {
    var ss' := ss + [from[id]];
    assert ss'[|ss|] == from[id];
    assert forall s :: s in ss ==> s in ss';
  }

  lemma CollectedIds(ss: seq<Session>, from: map<string, Session>, ids: set<string>)
    requires Collected(ss, from, ids)
    ensures IdsOf(ss) == ids
  {
    forall id | id in ids
      ensures id in IdsOf(ss)
    {
      assert from[id] in ss;
    }
  }

  class Store {
    var sessions: map<string, Session>

    ghost predicate Valid()
      reads this
    {
      forall id :: id in sessions ==> sessions[id].id == id
    }

    ghost function Contents(): Table
      reads this, sessions.Values
    {
      map id | id in sessions :: sessions[id].Rec()
    }

    constructor ()
      ensures Valid() && Contents() == map[] && sessions == map[]
    {
      sessions := map[];
    }

    method Put(s: Session)
      requires Valid()
      modifies this
      ensures Valid() && sessions == old(sessions)[s.id := s]
      ensures Contents() == old(Contents())[s.id := s.Rec()]
    {
      sessions := sessions[s.id := s];
    }

    method Get(id: string) returns (r: Option<Session>)
      requires Valid()
      ensures r == if id in sessions then Some(sessions[id]) else None
    {
      r := if id in sessions then Some(sessions[id]) else None;
    }

    method Delete(id: string) returns (r: Option<Session>)
      requires Valid()
      modifies this
      ensures Valid() && sessions == old(sessions) - {id}
      ensures r == if id in old(sessions) then Some(old(sessions)[id]) else None
      ensures Contents() == Without(old(Contents()), {id})
    {
      if id in sessions {
        r := Some(sessions[id]);
        sessions := sessions - {id};
      } else {
        r := None;
        assert sessions - {id} == sessions;
      }
    }

    method Touch(id: string, now: real)
      requires Valid()
      modifies set s | s in sessions.Values && s.id == id :: s`lastSeenAt
      ensures Valid() && Contents() == Touched(old(Contents()), id, now)
      ensures id in sessions ==> sessions[id].lastSeenAt == now
    {
      if id in sessions {
        sessions[id].lastSeenAt := now;
      }
    }

    method Count() returns (n: nat)
      ensures n == |Contents()|
    {
      assert Contents().Keys == sessions.Keys;
      n := |sessions|;
    }

    method CountByProtocol(p: Protocol) returns (n: nat)
      ensures n == |OfProtocol(Contents(), p)|
      ensures n == |set id | id in sessions && sessions[id].protocol == p|
    {
      n := 0;
      var pending := sessions.Keys;
      ghost var counted := {};
      while pending != {}
        invariant pending <= sessions.Keys
        invariant counted == set id | id in sessions && id !in pending && sessions[id].protocol == p
        invariant n == |counted|
        decreases pending
      {
        var id :| id in pending;
        pending := pending - {id};
        if sessions[id].protocol == p {
          n := n + 1;
          counted := counted + {id};
        }
      }
      assert counted == OfProtocol(Contents(), p);
      assert counted == set id | id in sessions && sessions[id].protocol == p;
    }

    /** Takes out and returns every session last seen before `cutoff`. */
    method ExpireIdle(cutoff: real) returns (expired: seq<Session>)
      requires Valid()
      modifies this
      ensures Valid() && sessions == old(sessions) - IdleIds(old(Contents()), cutoff)
      ensures forall i :: 0 <= i < |expired| ==> expired[i] in old(sessions).Values
      ensures forall i, j :: 0 <= i < j < |expired| ==> expired[i].id != expired[j].id
      ensures IdsOf(expired) == IdleIds(old(Contents()), cutoff)
      ensures Contents() == Without(old(Contents()), IdleIds(old(Contents()), cutoff))
    {
      expired := [];
      var pending := sessions.Keys;
      ghost var idle := IdleIds(Contents(), cutoff);
      while pending != {}
        invariant pending <= sessions.Keys && sessions == old(sessions) - (idle - pending)
        invariant Collected(expired, old(sessions), idle - pending)
        decreases pending
      {
        var id :| id in pending;
        ghost var before := idle - pending;
        pending := pending - {id};
        var s := sessions[id];
        assert idle - pending == if s.lastSeenAt < cutoff then before + {id} else before;
        if s.lastSeenAt < cutoff {
          CollectedGrows(expired, old(sessions), before, id);
          expired := expired + [s];
          sessions := sessions - {id};
        }
      }
      CollectedIds(expired, old(sessions), idle);
    }

    /** The snapshot a persist writes, in whatever order the map is walked. */
    method Persist() returns (file: seq<Record>)
      requires Valid()
      ensures Lists(file, Contents())
    {
      file := [];
      var pending := sessions.Keys;
      while pending != {}
        invariant pending <= sessions.Keys
        invariant forall i :: 0 <= i < |file| ==> file[i].id in sessions.Keys - pending
        invariant forall i :: 0 <= i < |file| ==> file[i] == sessions[file[i].id].Rec()
        invariant forall i, j :: 0 <= i < j < |file| ==> file[i].id != file[j].id
        invariant forall id :: id in sessions && id !in pending ==> Mentions(file, id)
        decreases pending
      {
        var id :| id in pending;
        pending := pending - {id};
        var s := sessions[id];
        var r := Record(s.id, s.nodeId, s.protocol, s.virtualIp, s.peerKey, s.ephemeral, s.createdAt, s.lastSeenAt);
        MentionsGrows(file, r);
        file := file + [r];
      }
    }

    /** Adds a state file's sessions to the table, with fresh sampling state. */
    method Load(file: seq<Record>) returns (restored: seq<Session>)
      requires Valid()
      modifies this
      ensures Valid() && fresh(sessions.Values - old(sessions.Values))
      ensures Contents() == Restored(old(Contents()), file)
      ensures |restored| == |file| && forall i :: 0 <= i < |file| ==> restored[i].Rec() == file[i]
    {
      restored := [];
      assert file[..0] == [];
      for i := 0 to |file|
        invariant Valid()
        invariant forall id :: id in sessions ==> sessions[id] in old(sessions.Values) || fresh(sessions[id])
        invariant Contents() == Restored(old(Contents()), file[..i])
        invariant |restored| == i && forall j :: 0 <= j < i ==> restored[j].Rec() == file[j]
      {
        var s := new Session(file[i]);
        Put(s);
        restored := restored + [s];
        assert file[..i + 1][..i] == file[..i];
      }
      assert file[..|file|] == file;
    }
  }
}

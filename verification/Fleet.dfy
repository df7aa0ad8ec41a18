/**
 * The node registry and the stateless forwarding of calls between nodes that
 * share nothing: a connect goes to the node it names, a session call to the
 * first registry entry whose prefix the session id carries.
 */
module Fleet {
  import opened Results
  import opened SessionIds

  datatype Node = Node(id: string, isSelf: bool, baselineLoad: int, internalUrl: string)

  /** The last polled health of a remote node. */
  datatype LiveStatus = LiveStatus(healthy: bool, load: int)

  datatype View = View(id: string, isSelf: bool, healthy: bool, load: int)

  /** A node as displayed: its own load, a healthy node's polled load, or the baseline. */
  function Viewed(n: Node, live: map<string, LiveStatus>, selfLoad: int): View {
    if n.isSelf then View(n.id, true, true, selfLoad)
    else if n.id !in live then View(n.id, false, true, n.baselineLoad)
    else View(n.id, false, live[n.id].healthy, if live[n.id].healthy then live[n.id].load else n.baselineLoad)
  }

  /** A registry file's entries with the ones of the loading node's own id flagged. */
  function Marked(nodes: seq<Node>, selfId: string): seq<Node> {
    seq(|nodes|, i requires 0 <= i < |nodes| => if nodes[i].id == selfId then nodes[i].(isSelf := true) else nodes[i])
  }

  method MarkSelf(a: array<Node>, selfId: string) returns (found: bool)
    modifies a
    ensures a[..] == Marked(old(a[..]), selfId)
    ensures found <==> Lists(old(a[..]), selfId)
  {
    found := false;
    for i := 0 to a.Length
      invariant forall j :: 0 <= j < i ==> a[j] == Marked(old(a[..]), selfId)[j]
      invariant forall j :: i <= j < a.Length ==> a[j] == old(a[j])
      invariant found <==> exists j :: 0 <= j < i && old(a[j]).id == selfId
    {
      if a[i].id == selfId {
        a[i] := a[i].(isSelf := true);
        found := true;
      }
    }
  }

  ghost predicate Lists(nodes: seq<Node>, id: string) {
    exists i :: 0 <= i < |nodes| && nodes[i].id == id
  }

  /** The first entry of this id. */
  function LookupIn(nodes: seq<Node>, id: string): (r: Option<Node>)
    ensures r.Some? ==> r.value.id == id && r.value in nodes
    ensures r.None? <==> !Lists(nodes, id)
  {
    if nodes == [] then None
    else if nodes[0].id == id then Some(nodes[0])
    else
      var r := LookupIn(nodes[1..], id);
      assert nodes == [nodes[0]] + nodes[1..];
      r
  }

  /** The first entry that matches the session id. */
  function OwnerIn(nodes: seq<Node>, sessionId: string): (r: Option<Node>)
    ensures r.Some? ==> Matches(r.value.id, sessionId) && r.value in nodes
    ensures r.None? <==> forall i :: 0 <= i < |nodes| ==> !Matches(nodes[i].id, sessionId)
  {
    if nodes == [] then None
    else if Matches(nodes[0].id, sessionId) then Some(nodes[0])
    else
      var r := OwnerIn(nodes[1..], sessionId);
      assert nodes == [nodes[0]] + nodes[1..];
      r
  }

  /** What a registry holds after loading its file; None stands for a file that is not there. */
  ghost function Loaded(file: Option<seq<Node>>, selfId: string, defaults: Node): seq<Node> {
    var self := defaults.(id := selfId, isSelf := true);
    if file.None? then [self]
    else if Lists(file.value, selfId) then Marked(file.value, selfId)
    else [self] + file.value
  }

  /** A loaded registry always lists its own node, flagged; and it leaves every other entry, and the order, alone. */
  lemma LoadedListsSelf(file: Option<seq<Node>>, selfId: string, defaults: Node)
    ensures var nodes := Loaded(file, selfId, defaults);
            && Lists(nodes, selfId)
            && (forall i :: 0 <= i < |nodes| && nodes[i].id == selfId ==> nodes[i].isSelf)
            && (file.None? || !Lists(file.value, selfId) ==>
                  nodes == [Node(selfId, true, defaults.baselineLoad, defaults.internalUrl)] + if file.Some? then file.value else [])
            && (file.Some? && Lists(file.value, selfId) ==>
                  && |nodes| == |file.value|
                  && forall i :: 0 <= i < |nodes| && nodes[i].id == selfId ==>
                       nodes[i] == Node(selfId, true, file.value[i].baselineLoad, file.value[i].internalUrl))
            && (file.Some? ==>
                  var k := |nodes| - |file.value|;
                  && k == (if Lists(file.value, selfId) then 0 else 1)
                  && forall i :: 0 <= i < |file.value| && file.value[i].id != selfId ==> nodes[k + i] == file.value[i])
  {
    var nodes := Loaded(file, selfId, defaults);
    if file.Some? && Lists(file.value, selfId) {
      var i :| 0 <= i < |file.value| && file.value[i].id == selfId;
      assert nodes[i].id == selfId;
    } else {
      assert nodes[0].id == selfId;
    }
  }

  /** The order is the file's: the own node comes first only if the file says so or does not list it. */
  lemma SelfComesFirstIff(file: seq<Node>, selfId: string, defaults: Node)
    ensures Loaded(Some(file), selfId, defaults)[0].id == selfId <==> !Lists(file, selfId) || file[0].id == selfId
  {
  }

  class Registry {
    const selfId: string
    const nodes: seq<Node>
    var live: map<string, LiveStatus>

    ghost predicate Valid() {
      Lists(nodes, selfId)
    }

    /**
     * `file` is None when there is no registry file. Flags the node's own
     * entries in place, or puts a default entry for itself in front.
     */
    constructor (file: Option<array<Node>>, selfId: string, defaults: Node)
      modifies if file.Some? then {file.value} else {}
      ensures Valid() && this.selfId == selfId
      ensures nodes == Loaded(if file.Some? then Some(old(file.value[..])) else None, selfId, defaults)
      ensures file.Some? ==> file.value[..] == Marked(old(file.value[..]), selfId)
    {
      this.selfId, live := selfId, map[];
      var self := defaults.(id := selfId, isSelf := true);
      if file.None? {
        this.nodes := [self];
      } else {
        var foundSelf := MarkSelf(file.value, selfId);
        assert !foundSelf ==> Marked(old(file.value[..]), selfId) == old(file.value[..]);
        this.nodes := (if foundSelf then [] else [self]) + file.value[..];
      }
      new;
      ghost var was := if file.Some? then Some(old(file.value[..])) else None;
      assert nodes == Loaded(was, selfId, defaults);
      LoadedListsSelf(was, selfId, defaults);
    }

    method Lookup(id: string) returns (r: Option<Node>)
      ensures r == LookupIn(nodes, id)
    {
      for i := 0 to |nodes|
        invariant LookupIn(nodes, id) == LookupIn(nodes[i..], id)
      {
        if nodes[i].id == id {
          return Some(nodes[i]);
        }
        assert nodes[i..][1..] == nodes[i + 1..];
      }
      return None;
    }

    predicate IsSelf(id: string) {
      id == selfId
    }

    /** One view per entry, in registry order. */
    method Views(selfLoad: int) returns (views: seq<View>)
      ensures |views| == |nodes| && forall i :: 0 <= i < |nodes| ==> views[i] == Viewed(nodes[i], live, selfLoad)
      ensures forall i :: 0 <= i < |nodes| ==>
                var n, v := nodes[i], views[i];
                && v.id == n.id && v.isSelf == n.isSelf
                && (v.healthy <==> n.isSelf || n.id !in live || live[n.id].healthy)
                && v.load == if n.isSelf then selfLoad
                             else if n.id in live && live[n.id].healthy then live[n.id].load
                             else n.baselineLoad
    {
      views := [];
      for i := 0 to |nodes|
        invariant |views| == i && forall j :: 0 <= j < i ==> views[j] == Viewed(nodes[j], live, selfLoad)
      {
        var n := nodes[i];
        var healthy, load := true, n.baselineLoad;
        if n.isSelf {
          load := selfLoad;
        } else if n.id in live {
          healthy := live[n.id].healthy;
          if healthy {
            load := live[n.id].load;
          }
        }
        views := views + [View(n.id, n.isSelf, healthy, load)];
      }
    }

    /**
     * Looks for a prefix match among the views and then that entry's id up
     * again: the first matching entry, whatever its health.
     */
    method FindOwningNode(sessionId: string, selfLoad: int) returns (r: Option<Node>)
      ensures r == OwnerIn(nodes, sessionId)
    {
      var views := Views(selfLoad);
      for i := 0 to |views|
        invariant OwnerIn(nodes, sessionId) == OwnerIn(nodes[i..], sessionId)
        invariant forall j :: 0 <= j < i ==> !Matches(nodes[j].id, sessionId)
      {
        if Matches(views[i].id, sessionId) {
          FirstOfItsId(nodes, i);
          r := Lookup(views[i].id);
          return;
        }
        OwnerSkips(nodes, i, sessionId);
      }
      return None;
    }
  }

  lemma OwnerSkips(nodes: seq<Node>, i: nat, sessionId: string)
    requires i < |nodes| && !Matches(nodes[i].id, sessionId)
    ensures OwnerIn(nodes[i..], sessionId) == OwnerIn(nodes[i + 1..], sessionId)
  {
    assert nodes[i..][1..] == nodes[i + 1..];
  }

  lemma {:induction false} FirstOfItsId(nodes: seq<Node>, i: nat)
    requires i < |nodes| && forall j :: 0 <= j < i ==> nodes[j].id != nodes[i].id
    ensures LookupIn(nodes, nodes[i].id) == Some(nodes[i])
  {
    if i > 0 {
      FirstOfItsId(nodes[1..], i - 1);
    }
  }

  // ---- who is picked ----

  /** `n` is listed, and no entry before it is related to it. */
  ghost predicate FirstRelated(nodes: seq<Node>, n: string) {
    exists i :: 0 <= i < |nodes| && nodes[i].id == n && forall j :: 0 <= j < i ==> !Related(nodes[j].id, n)
  }

  lemma {:induction false} OwnerFollowsRelation(nodes: seq<Node>, n: string, bytes: seq<byte>)
    ensures var r := OwnerIn(nodes, SessionId(n, bytes));
            r.Some? && r.value.id == n <==> FirstRelated(nodes, n)
  {
    var s := SessionId(n, bytes);
    if nodes != [] {
      RoutingExact(nodes[0].id, n, bytes);
      OwnerFollowsRelation(nodes[1..], n, bytes);
      FirstRelatedSteps(nodes, n);
    }
  }

  lemma FirstRelatedSteps(nodes: seq<Node>, n: string)
    requires nodes != []
    ensures FirstRelated(nodes, n) <==>
              nodes[0].id == n || (!Related(nodes[0].id, n) && FirstRelated(nodes[1..], n))
  {
    var rest := nodes[1..];
    if nodes[0].id != n && !Related(nodes[0].id, n) && FirstRelated(rest, n) {
      var i :| 0 <= i < |rest| && rest[i].id == n && forall j :: 0 <= j < i ==> !Related(rest[j].id, n);
      assert nodes[i + 1].id == n && forall j :: 0 <= j < i + 1 ==> !Related(nodes[j].id, n);
    }
    if nodes[0].id != n && FirstRelated(nodes, n) {
      var i :| 0 <= i < |nodes| && nodes[i].id == n && forall j :: 0 <= j < i ==> !Related(nodes[j].id, n);
      assert rest[i - 1].id == n && forall j :: 0 <= j < i - 1 ==> !Related(rest[j].id, n) by {
        assert forall j :: 0 <= j < i - 1 ==> rest[j] == nodes[j + 1];
      }
    }
  }

  predicate Picks(nodes: seq<Node>, n: string, sessionId: string) {
    OwnerIn(nodes, sessionId).Some? && OwnerIn(nodes, sessionId).value.id == n
  }

  /** A registry sends every session of `n` to `n` exactly when it lists `n` before anything related to `n`. */
  lemma PicksOwnerIff(nodes: seq<Node>, n: string)
    ensures (forall bytes :: |bytes| == 12 ==> Picks(nodes, n, SessionId(n, bytes))) <==> FirstRelated(nodes, n)
  {
    forall bytes
      ensures Picks(nodes, n, SessionId(n, bytes)) <==> FirstRelated(nodes, n)
    {
      OwnerFollowsRelation(nodes, n, bytes);
    }
    if forall bytes :: |bytes| == 12 ==> Picks(nodes, n, SessionId(n, bytes)) {
      var some: seq<byte> := seq(12, i => 0);
      assert Picks(nodes, n, SessionId(n, some));
    }
  }

  // ---- the choice does not depend on the random part ----

  /** The first entry related to `n`. */
  function ChosenFor(nodes: seq<Node>, n: string): (r: Option<Node>)
    ensures r.Some? ==> r.value in nodes && Related(r.value.id, n)
    ensures r.None? <==> forall i :: 0 <= i < |nodes| ==> !Related(nodes[i].id, n)
  {
    if nodes == [] then None
    else if Related(nodes[0].id, n) then Some(nodes[0])
    else
      var r := ChosenFor(nodes[1..], n);
      assert nodes == [nodes[0]] + nodes[1..];
      r
  }

  /** Every session of `n` is routed alike: to the first entry related to `n`. */
  lemma {:induction false} OwnerIsChosen(nodes: seq<Node>, n: string, bytes: seq<byte>)
    ensures OwnerIn(nodes, SessionId(n, bytes)) == ChosenFor(nodes, n)
  {
    if nodes != [] {
      RoutingExact(nodes[0].id, n, bytes);
      OwnerIsChosen(nodes[1..], n, bytes);
    }
  }
}

/**
 * Forwarding as a distributed protocol: every node decides from its own
 * registry alone, and a forwarded call is decided again where it arrives.
 */
module Routing {
  import opened Collections
  import opened Results
  import opened SessionIds
  import opened Fleet

  /** What a node knows. */
  datatype Place = Place(selfId: string, nodes: seq<Node>)

  /** The nodes that a request to an internal URL reaches; other URLs reach nobody. */
  type Network = map<string, Place>

  datatype Call = ConnectCall(serverId: string) | SessionCall(sessionId: string)

  datatype Decision = Answer | Reject | NoUrl | Forward(url: string)

  /** A connect is routed by exact id, a disconnect or telemetry call by the session id's prefix. */
  function Decide(at: Place, c: Call): Decision {
    match c
    case ConnectCall(serverId) =>
      var node := LookupIn(at.nodes, serverId);
      if node.None? then Reject
      else if node.value.id == at.selfId then Answer
      else ForwardTo(node.value)
    case SessionCall(sessionId) =>
      if sessionId == "" then Answer
      else
        var node := OwnerIn(at.nodes, sessionId);
        if node.Some? && node.value.id != at.selfId then ForwardTo(node.value) else Answer
  }

  function ForwardTo(node: Node): Decision {
    if node.internalUrl == "" then NoUrl else Forward(node.internalUrl)
  }

  datatype Outcome = AnsweredBy(id: string) | Rejected | Unreachable | StillForwarding

  /** A call that may be forwarded at most `hops` times. */
  function Run(net: Network, at: Place, c: Call, hops: nat): Outcome
    decreases hops
  {
    match Decide(at, c)
    case Answer => AnsweredBy(at.selfId)
    case Reject => Rejected
    case NoUrl => Unreachable
    case Forward(url) =>
      if url !in net then Unreachable
      else if hops == 0 then StillForwarding
      else Run(net, net[url], c, hops - 1)
  }

  /** A loaded registry: it lists its own node. */
  ghost predicate SelfListed(at: Place) {
    Lists(at.nodes, at.selfId)
  }

  /** Each internal URL of this registry that reaches anyone reaches the node with that id. */
  ghost predicate WellAddressed(net: Network, at: Place) {
    forall i :: 0 <= i < |at.nodes| && at.nodes[i].internalUrl in net ==> net[at.nodes[i].internalUrl].selfId == at.nodes[i].id
  }

  /** No two different ids of this registry have sanitized forms that are equal or extend one another at an underscore. */
  ghost predicate Unrelated(at: Place) {
    forall i, j :: 0 <= i < |at.nodes| && 0 <= j < |at.nodes| && Related(at.nodes[i].id, at.nodes[j].id) ==>
      at.nodes[i].id == at.nodes[j].id
  }

  ghost predicate Sound(net: Network) {
    forall url :: url in net ==> SelfListed(net[url]) && Unrelated(net[url])
  }

  /** In a registry of unrelated ids the owner is the one entry that matches. */
  lemma OwnerIsOnlyMatch(at: Place, m: string, sessionId: string)
    requires Unrelated(at) && Lists(at.nodes, m) && Matches(m, sessionId)
    ensures OwnerIn(at.nodes, sessionId).Some? && OwnerIn(at.nodes, sessionId).value.id == m
  {
    var i :| 0 <= i < |at.nodes| && at.nodes[i].id == m;
    var n := OwnerIn(at.nodes, sessionId).value;
    var j :| 0 <= j < |at.nodes| && at.nodes[j] == n;
    RivalsAreRelated(m, n.id, sessionId);
    assert Related(at.nodes[i].id, at.nodes[j].id) || Related(at.nodes[j].id, at.nodes[i].id);
  }

  /** A call that arrives where it was forwarded to is not forwarded again. */
  lemma ArrivesForGood(net: Network, at: Place, c: Call)
    requires WellAddressed(net, at) && Sound(net)
    requires Decide(at, c).Forward? && Decide(at, c).url in net
    ensures Decide(net[Decide(at, c).url], c) == Answer
  {
    var there := net[Decide(at, c).url];
    if c.SessionCall? {
      var n := OwnerIn(at.nodes, c.sessionId).value;
      OwnerIsOnlyMatch(there, n.id, c.sessionId);
    }
  }

  /**
   * Forwarding terminates: whatever the call, connect or session, honest or
   * made-up session id, it is answered, rejected or unreachable after at most
   * one hop; and only a call to a place that named it was forwarded there.
   */
  lemma OneHopIsEnough(net: Network, at: Place, c: Call, hops: nat)
    requires WellAddressed(net, at) && Sound(net) && hops >= 1
    ensures !Run(net, at, c, hops).StillForwarding?
    ensures Run(net, at, c, hops) == Run(net, at, c, 1)
    ensures c.ConnectCall? && Run(net, at, c, hops).AnsweredBy? ==> Run(net, at, c, hops).id == c.serverId
  {
    var d := Decide(at, c);
    if d.Forward? && d.url in net {
      ArrivesForGood(net, at, c);
      assert Run(net, net[d.url], c, hops - 1) == AnsweredBy(net[d.url].selfId);
      assert Run(net, net[d.url], c, 0) == AnsweredBy(net[d.url].selfId);
    }
  }

  /**
   * Where ids are unrelated a session call is answered by the one node that
   * the place it is made at chooses for the minting node: the minting node
   * itself if it is listed, the place itself if no listed id is related to
   * it, and otherwise the listed node whose id it extends.
   */
  lemma SessionCallsGoHome(net: Network, at: Place, n: string, bytes: seq<byte>, hops: nat)
    requires WellAddressed(net, at) && Sound(net) && Unrelated(at) && hops >= 1
    ensures var r := Run(net, at, SessionCall(SessionId(n, bytes)), hops);
            if Lists(at.nodes, n) then r == AnsweredBy(n) || r == Unreachable
            else if ChosenFor(at.nodes, n).None? then r == AnsweredBy(at.selfId)
            else r == AnsweredBy(ChosenFor(at.nodes, n).value.id) || r == Unreachable
  {
    var c := SessionCall(SessionId(n, bytes));
    OneHopIsEnough(net, at, c, hops);
    OwnerIsChosen(at.nodes, n, bytes);
    var d := Decide(at, c);
    if d.Forward? && d.url in net {
      ArrivesForGood(net, at, c);
      assert Run(net, net[d.url], c, 0) == AnsweredBy(net[d.url].selfId);
    }
    if Lists(at.nodes, n) {
      OwnerIsOnlyMatch(at, n, c.sessionId);
    }
  }

  /** The first entry of this index's id. */
  ghost predicate FirstOfId(nodes: seq<Node>, i: nat) {
    i < |nodes| && forall j :: 0 <= j < i ==> nodes[j].id != nodes[i].id
  }

  lemma FirstIsFound(nodes: seq<Node>, id: string)
    ensures forall i :: 0 <= i < |nodes| && nodes[i].id == id && FirstOfId(nodes, i) ==> LookupIn(nodes, id) == Some(nodes[i])
  {
    forall i | 0 <= i < |nodes| && nodes[i].id == id && FirstOfId(nodes, i)
      ensures LookupIn(nodes, id) == Some(nodes[i])
    {
      FirstOfItsId(nodes, i);
    }
  }

  /**
   * A connect, case by case: rejected without an entry of that id; otherwise
   * answered here if it names this node, and else by the named node if the
   * first such entry has a URL that reaches anyone.
   */
  lemma ConnectsByName(net: Network, at: Place, m: string, hops: nat)
    requires WellAddressed(net, at) && Sound(net) && hops >= 1
    ensures Run(net, at, ConnectCall(m), hops) == Rejected <==> forall j :: 0 <= j < |at.nodes| ==> at.nodes[j].id != m
    ensures forall i :: 0 <= i < |at.nodes| && at.nodes[i].id == m && FirstOfId(at.nodes, i) ==>
              var url := at.nodes[i].internalUrl;
              Run(net, at, ConnectCall(m), hops) ==
                if at.selfId == m || (url != "" && url in net) then AnsweredBy(m) else Unreachable
  {
    var c := ConnectCall(m);
    OneHopIsEnough(net, at, c, hops);
    FirstIsFound(at.nodes, m);
    var d := Decide(at, c);
    if d.Forward? && d.url in net {
      ArrivesForGood(net, at, c);
      assert Run(net, net[d.url], c, 0) == AnsweredBy(net[d.url].selfId);
    }
  }

  lemma {:induction false} FirstMatchOwns(nodes: seq<Node>, i: nat, sessionId: string)
    requires i < |nodes| && Matches(nodes[i].id, sessionId) && forall j :: 0 <= j < i ==> !Matches(nodes[j].id, sessionId)
    ensures OwnerIn(nodes, sessionId) == Some(nodes[i])
  {
    if i > 0 {
      FirstMatchOwns(nodes[1..], i - 1, sessionId);
    }
  }

  /** The entry's route prefix starts the session id, and no earlier entry's does. */
  ghost predicate FirstPrefixed(nodes: seq<Node>, i: nat, sessionId: string) {
    && i < |nodes| && "sess_" + Sanitize(nodes[i].id) + "_" <= sessionId
    && forall j :: 0 <= j < i ==> !("sess_" + Sanitize(nodes[j].id) + "_" <= sessionId)
  }

  lemma {:induction false} OwnerIsFirstPrefixed(nodes: seq<Node>, sessionId: string) returns (i: nat)
    requires OwnerIn(nodes, sessionId).Some?
    ensures FirstPrefixed(nodes, i, sessionId)
  {
    if Matches(nodes[0].id, sessionId) {
      i := 0;
    } else {
      var k := OwnerIsFirstPrefixed(nodes[1..], sessionId);
      i := k + 1;
      forall j | 0 <= j < i
        ensures !Matches(nodes[j].id, sessionId)
      {
        assert j > 0 ==> nodes[j] == nodes[1..][j - 1];
      }
    }
  }

  lemma FirstIsOwner(nodes: seq<Node>, sessionId: string)
    ensures forall i :: 0 <= i < |nodes| && FirstPrefixed(nodes, i, sessionId) ==> OwnerIn(nodes, sessionId) == Some(nodes[i])
    ensures (forall i :: 0 <= i < |nodes| ==> !FirstPrefixed(nodes, i, sessionId)) ==> OwnerIn(nodes, sessionId).None?
  {
    forall i | 0 <= i < |nodes| && FirstPrefixed(nodes, i, sessionId)
      ensures OwnerIn(nodes, sessionId) == Some(nodes[i])
    {
      FirstMatchOwns(nodes, i, sessionId);
    }
    if OwnerIn(nodes, sessionId).Some? {
      var i := OwnerIsFirstPrefixed(nodes, sessionId);
    }
  }

  /**
   * A disconnect or telemetry call for any session id, case by case: answered
   * where it is made unless some entry's prefix starts the id; otherwise by
   * the first such node, here if it is this one, and elsewhere if its URL
   * reaches anyone.
   */
  lemma SessionsByPrefix(net: Network, at: Place, sessionId: string, hops: nat)
    requires WellAddressed(net, at) && Sound(net) && hops >= 1
    ensures (forall i :: 0 <= i < |at.nodes| ==> !FirstPrefixed(at.nodes, i, sessionId)) ==>
              Run(net, at, SessionCall(sessionId), hops) == AnsweredBy(at.selfId)
    ensures forall i :: 0 <= i < |at.nodes| && FirstPrefixed(at.nodes, i, sessionId) ==>
              var n := at.nodes[i];
              Run(net, at, SessionCall(sessionId), hops) ==
                if at.selfId == n.id || (n.internalUrl != "" && n.internalUrl in net) then AnsweredBy(n.id) else Unreachable
  {
    var c := SessionCall(sessionId);
    OneHopIsEnough(net, at, c, hops);
    FirstIsOwner(at.nodes, sessionId);
    var d := Decide(at, c);
    if d.Forward? && d.url in net {
      ArrivesForGood(net, at, c);
      assert Run(net, net[d.url], c, 0) == AnsweredBy(net[d.url].selfId);
    }
  }

  // ---- when forwarding ends ----

  /** More hops change nothing once a call is settled. */
  lemma {:induction false} SettledStays(net: Network, at: Place, c: Call, hops: nat, more: nat)
    requires hops <= more && !Run(net, at, c, hops).StillForwarding?
    ensures Run(net, at, c, more) == Run(net, at, c, hops)
    decreases hops
  {
    var d := Decide(at, c);
    if d.Forward? && d.url in net {
      SettledStays(net, net[d.url], c, hops - 1, more - 1);
    }
  }

  /** The call is settled within `hops` hops, and not within one less. */
  ghost predicate SettlesIn(net: Network, at: Place, c: Call, hops: nat) {
    !Run(net, at, c, hops).StillForwarding? && (hops > 0 ==> Run(net, at, c, hops - 1).StillForwarding?)
  }

  /** None of these places settles the call within `hops` hops. */
  ghost predicate Further(net: Network, c: Call, urls: set<string>, hops: nat) {
    urls <= net.Keys && forall url :: url in urls ==> Run(net, net[url], c, hops).StillForwarding?
  }

  lemma NextSettles(net: Network, at: Place, c: Call, hops: nat)
    requires hops >= 1 && SettlesIn(net, at, c, hops)
    ensures Decide(at, c).Forward? && Decide(at, c).url in net && SettlesIn(net, net[Decide(at, c).url], c, hops - 1)
  {
  }

  lemma StillEarlier(net: Network, at: Place, c: Call, hops: nat)
    requires hops >= 1 && Run(net, at, c, hops).StillForwarding?
    ensures Run(net, at, c, hops - 1).StillForwarding?
  {
    if !Run(net, at, c, hops - 1).StillForwarding? {
      SettledStays(net, at, c, hops - 1, hops);
    }
  }

  lemma FurtherStill(net: Network, c: Call, urls: set<string>, url: string, hops: nat)
    requires hops >= 1 && Further(net, c, urls, hops) && url in net && SettlesIn(net, net[url], c, hops)
    ensures url !in urls && Further(net, c, urls + {url}, hops - 1)
  {
    forall u | u in urls
      ensures Run(net, net[u], c, hops - 1).StillForwarding?
    {
      StillEarlier(net, net[u], c, hops);
    }
  }

  /**
   * A call that settles after exactly `hops` hops visits as many different
   * nodes, none of them among those that are further from settling.
   */
  lemma {:induction false} VisitsDiffer(net: Network, at: Place, c: Call, hops: nat, further: set<string>)
    requires hops >= 1 && SettlesIn(net, at, c, hops) && Further(net, c, further, hops - 1)
    ensures hops + |further| <= |net|
    decreases hops
  {
    NextSettles(net, at, c, hops);
    var url := Decide(at, c).url;
    if hops == 1 {
      assert url !in further;
      SubsetSize(further + {url}, net.Keys);
      assert |net.Keys| == |net|;
    } else {
      FurtherStill(net, c, further, url, hops - 1);
      VisitsDiffer(net, net[url], c, hops - 1, further + {url});
    }
  }

  lemma {:induction false} SettlesEarly(net: Network, at: Place, c: Call, hops: nat)
    requires !Run(net, at, c, hops).StillForwarding?
    ensures !Run(net, at, c, |net|).StillForwarding?
    decreases hops
  {
    if hops > 0 && !Run(net, at, c, hops - 1).StillForwarding? {
      SettlesEarly(net, at, c, hops - 1);
    } else {
      if hops > 0 {
        VisitsDiffer(net, at, c, hops, {});
      }
      SettledStays(net, at, c, hops, |net|);
    }
  }

  /** A call is forwarded for ever exactly when it is still forwarded after as many hops as there are nodes to reach. */
  lemma ForeverIff(net: Network, at: Place, c: Call)
    ensures (forall hops :: Run(net, at, c, hops).StillForwarding?) <==> Run(net, at, c, |net|).StillForwarding?
  {
    if Run(net, at, c, |net|).StillForwarding? {
      forall hops: nat
        ensures Run(net, at, c, hops).StillForwarding?
      {
        if !Run(net, at, c, hops).StillForwarding? {
          SettlesEarly(net, at, c, hops);
        }
      }
    }
  }

  /** Where a place sends the sessions of `n`: to the URL of a node that can be reached, or no further. */
  function NextFor(net: Network, at: Place, n: string): Option<string> {
    var node := ChosenFor(at.nodes, n);
    if node.Some? && node.value.id != at.selfId && node.value.internalUrl != "" && node.value.internalUrl in net
    then Some(node.value.internalUrl) else None
  }

  /**
   * All sessions of a node fare alike, and one hop settles their calls
   * exactly when the place first chosen chooses itself or nobody it can
   * reach.
   */
  lemma OneHopIff(net: Network, at: Place, n: string, bytes: seq<byte>)
    ensures !Run(net, at, SessionCall(SessionId(n, bytes)), 1).StillForwarding? <==>
              NextFor(net, at, n).None? || NextFor(net, net[NextFor(net, at, n).value], n).None?
  {
    OneHopRun(net, at, SessionCall(SessionId(n, bytes)));
    NextIsTaken(net, at, n, bytes);
    if NextFor(net, at, n).Some? {
      NextIsTaken(net, net[NextFor(net, at, n).value], n, bytes);
    }
  }

  ghost predicate GoesOn(net: Network, at: Place, c: Call) {
    Decide(at, c).Forward? && Decide(at, c).url in net
  }

  lemma OneHopRun(net: Network, at: Place, c: Call)
    ensures Run(net, at, c, 1).StillForwarding? <==> GoesOn(net, at, c) && GoesOn(net, net[Decide(at, c).url], c)
  {
  }

  lemma NextIsTaken(net: Network, at: Place, n: string, bytes: seq<byte>)
    ensures var d := Decide(at, SessionCall(SessionId(n, bytes)));
            if d.Forward? && d.url in net then NextFor(net, at, n) == Some(d.url) else NextFor(net, at, n).None?
  {
    assert SessionId(n, bytes)[0] == 's';
    OwnerIsChosen(at.nodes, n, bytes);
  }

  // ---- the registry's own methods ----

  function PlaceOf(r: Registry): Place {
    Place(r.selfId, r.nodes)
  }

  /** How a connect starts: look the named node up, and forward unless it is this one. */
  method RouteConnect(r: Registry, serverId: string) returns (d: Decision)
    ensures d == Decide(PlaceOf(r), ConnectCall(serverId))
    ensures d == Reject <==> forall j :: 0 <= j < |r.nodes| ==> r.nodes[j].id != serverId
    ensures forall i :: 0 <= i < |r.nodes| && r.nodes[i].id == serverId && FirstOfId(r.nodes, i) ==>
              d == if r.selfId == serverId then Answer
                   else if r.nodes[i].internalUrl == "" then NoUrl
                   else Forward(r.nodes[i].internalUrl)
  {
    FirstIsFound(r.nodes, serverId);
    var node := r.Lookup(serverId);
    if node.None? {
      return Reject;
    }
    if !r.IsSelf(node.value.id) {
      return ForwardTo(node.value);
    }
    return Answer;
  }

  /** How a disconnect or telemetry call starts: find the owner, and forward unless there is none or it is this node. */
  method RouteSession(r: Registry, sessionId: string, selfLoad: int) returns (d: Decision)
    ensures d == Decide(PlaceOf(r), SessionCall(sessionId))
    ensures (forall i :: 0 <= i < |r.nodes| ==> !FirstPrefixed(r.nodes, i, sessionId)) ==> d == Answer
    ensures forall i :: 0 <= i < |r.nodes| && FirstPrefixed(r.nodes, i, sessionId) ==>
              d == if r.selfId == r.nodes[i].id then Answer
                   else if r.nodes[i].internalUrl == "" then NoUrl
                   else Forward(r.nodes[i].internalUrl)
  {
    FirstIsOwner(r.nodes, sessionId);
    if sessionId == "" {
      return Answer;
    }
    var node := r.FindOwningNode(sessionId, selfLoad);
    if node.Some? && !r.IsSelf(node.value.id) {
      return ForwardTo(node.value);
    }
    return Answer;
  }

  // ---- related ids ----

  function Entry(id: string, url: string): Node {
    Node(id, false, 0, url)
  }

  /** Two nodes whose ids extend one another at an underscore, each listing the other one first. */
  function Loop(): Network {
    map["u" := Place("x", [Entry("x_y", "v"), Entry("x", "")]),
        "v" := Place("x_y", [Entry("x", "u"), Entry("x_y", "")])]
  }

  lemma LoopMatches(bytes: seq<byte>)
    ensures Matches("x", SessionId("x_y", bytes)) && Matches("x_y", SessionId("x_y", bytes))
  {
    assert Sanitize("x") == "x" by {
      SanitizeKeepsPlain("x");
    }
    assert Sanitize("x_y") == "x_y" by {
      SanitizeKeepsPlain("x_y");
    }
    assert Related("x", "x_y");
    RoutingExact("x", "x_y", bytes);
    RoutingExact("x_y", "x_y", bytes);
  }

  lemma LoopIsRight()
    ensures forall url :: url in Loop() ==> SelfListed(Loop()[url]) && WellAddressed(Loop(), Loop()[url])
  {
    assert Loop()["u"].nodes[1].id == "x" && Loop()["v"].nodes[1].id == "x_y";
  }

  lemma LoopForwards(bytes: seq<byte>)
    ensures Decide(Loop()["u"], SessionCall(SessionId("x_y", bytes))) == Forward("v")
    ensures Decide(Loop()["v"], SessionCall(SessionId("x_y", bytes))) == Forward("u")
  {
    LoopMatches(bytes);
  }

  lemma {:induction false} LoopsForEver(net: Network, c: Call, hops: nat)
    requires "u" in net && "v" in net && Decide(net["u"], c) == Forward("v") && Decide(net["v"], c) == Forward("u")
    ensures Run(net, net["u"], c, hops) == StillForwarding && Run(net, net["v"], c, hops) == StillForwarding
  {
    if hops > 0 {
      LoopsForEver(net, c, hops - 1);
    }
  }

  /** With related ids a session call can be forwarded for ever, although every URL is right and every node lists itself. */
  lemma RelatedIdsLoop(bytes: seq<byte>, hops: nat)
    ensures forall url :: url in Loop() ==> SelfListed(Loop()[url]) && WellAddressed(Loop(), Loop()[url])
    ensures Run(Loop(), Loop()["u"], SessionCall(SessionId("x_y", bytes)), hops) == StillForwarding
    ensures Run(Loop(), Loop()["v"], SessionCall(SessionId("x_y", bytes)), hops) == StillForwarding
  {
    LoopIsRight();
    LoopForwards(bytes);
    LoopsForEver(Loop(), SessionCall(SessionId("x_y", bytes)), hops);
  }
}

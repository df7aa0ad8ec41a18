/** Runs of the forward chain: what connection tracking remembers, and what it can never let through. */
module Firewall {
  import opened ForwardChain

  datatype Endpoint = Endpoint(family: Family, address: nat)

  datatype Event =
    | Forwarded(p: Packet, ct: CtState)
    | LocalTraffic(f: Flow)
    | Forget(f: Flow)

  function Reverse(f: Flow): Flow {
    Flow(f.family, f.proto, f.dst, f.dport, f.src, f.sport)
  }

  /** A tracked flow covers both directions. */
  predicate Tracked(table: set<Flow>, f: Flow) {
    f in table || Reverse(f) in table
  }

  /** One end is an address of this host, such as a tunnel's gateway. */
  predicate TouchesHost(host: set<Endpoint>, f: Flow) {
    Endpoint(f.family, f.src) in host || Endpoint(f.family, f.dst) in host
  }

  /** Established is a fact about the flow table; traffic of the host itself is tracked by other chains. */
  ghost predicate Possible(host: set<Endpoint>, table: set<Flow>, e: Event) {
    match e
    case Forwarded(p, ct) => ct == Established ==> Tracked(table, p.flow)
    case LocalTraffic(f) => TouchesHost(host, f)
    case Forget(f) => true
  }

  /** A flow enters the table with its first accepted packet, and leaves it on a timeout. */
  function After(cfg: Config, table: set<Flow>, e: Event): set<Flow> {
    match e
    case Forwarded(p, ct) => if ct != Established && Forward(cfg, p, ct) == Accept then table + {p.flow} else table
    case LocalTraffic(f) => table + {f}
    case Forget(f) => table - {f}
  }

  ghost predicate ValidRun(cfg: Config, host: set<Endpoint>, table: set<Flow>, es: seq<Event>)
    decreases |es|
  {
    es == [] || (Possible(host, table, es[0]) && ValidRun(cfg, host, After(cfg, table, es[0]), es[1..]))
  }

  ghost predicate Accepted(cfg: Config, e: Event) {
    e.Forwarded? && Forward(cfg, e.p, e.ct) == Accept
  }

  /** No helper opens related flows, and what is addressed to the host is not forwarded. */
  ghost predicate Plain(host: set<Endpoint>, e: Event) {
    e.Forwarded? ==> e.ct != Related && !TouchesHost(host, e.p.flow)
  }

  /** A packet on a tunnel interface has a tunnel address as its source: the tunnels pin their peers' addresses. */
  ghost predicate Honest(cfg: Config, e: Event) {
    e.Forwarded? && e.p.iif in cfg.tunnelIfaces ==> InTunnel(cfg, e.p.flow.family, e.p.flow.src)
  }

  ghost predicate Quiet(cfg: Config, host: set<Endpoint>, table: set<Flow>) {
    forall f :: f in table ==> TouchesHost(host, f) || !Crossing(cfg, f)
  }

  /**
   * Isolation: from any table without a client-to-client flow, in
   * particular the empty one, and without related packets, the only packets
   * between tunnel addresses that a run can forward have an address of the
   * host itself at one end, although tracked traffic is accepted before the
   * isolation rules are looked at. `HostAddressCrosses` says that these can
   * indeed be forwarded.
   */
  lemma {:induction false} OnlyHostFlowsCross(cfg: Config, host: set<Endpoint>, table: set<Flow>, es: seq<Event>)
    requires ValidRun(cfg, host, table, es) && Quiet(cfg, host, table)
    requires forall i :: 0 <= i < |es| && es[i].Forwarded? ==> es[i].ct != Related
    ensures forall i :: 0 <= i < |es| && Accepted(cfg, es[i]) && Crossing(cfg, es[i].p.flow) ==> TouchesHost(host, es[i].p.flow)
    decreases |es|
  {
    if es != [] {
      if es[0].Forwarded? {
        ForwardByParts(cfg, es[0].p, es[0].ct);
      }
      OnlyHostFlowsCross(cfg, host, After(cfg, table, es[0]), es[1..]);
    }
  }

  /** So where packets of the host are not forwarded, no client ever reaches another. */
  lemma ClientsStayIsolated(cfg: Config, host: set<Endpoint>, table: set<Flow>, es: seq<Event>)
    requires ValidRun(cfg, host, table, es) && Quiet(cfg, host, table)
    requires forall i :: 0 <= i < |es| ==> Plain(host, es[i])
    ensures forall i :: 0 <= i < |es| && Accepted(cfg, es[i]) ==> !Crossing(cfg, es[i].p.flow)
  {
    OnlyHostFlowsCross(cfg, host, table, es);
  }

  /**
   * The exact packets: a tunnel-to-tunnel packet is forwarded in some run
   * without related packets exactly when one end is the host's.
   */
  lemma CrossingExact(cfg: Config, host: set<Endpoint>, p: Packet)
    requires Crossing(cfg, p.flow)
    ensures CanCross(cfg, host, p) <==> TouchesHost(host, p.flow)
  {
    if TouchesHost(host, p.flow) {
      HostAddressCrosses(cfg, host, p);
      var es := [LocalTraffic(p.flow), Forwarded(p, Established)];
      assert CrossesIn(cfg, host, es, p) by {
        assert es[1] == Forwarded(p, Established);
      }
    }
    if CanCross(cfg, host, p) {
      var es :| CrossesIn(cfg, host, es, p);
      OnlyHostFlowsCross(cfg, host, {}, es);
    }
  }

  /** The run forwards the packet, and has no related packets. */
  ghost predicate CrossesIn(cfg: Config, host: set<Endpoint>, es: seq<Event>, p: Packet) {
    && ValidRun(cfg, host, {}, es)
    && (forall i :: 0 <= i < |es| && es[i].Forwarded? ==> es[i].ct != Related)
    && exists i :: 0 <= i < |es| && Accepted(cfg, es[i]) && es[i].p == p
  }

  ghost predicate CanCross(cfg: Config, host: set<Endpoint>, p: Packet) {
    exists es :: CrossesIn(cfg, host, es, p)
  }

  /** Besides local traffic, the table holds flows that clients opened to the outside, none of them DNS. */
  ghost predicate Outbound(cfg: Config, host: set<Endpoint>, table: set<Flow>) {
    forall f :: f in table ==>
      TouchesHost(host, f) || (InTunnel(cfg, f.family, f.src) && !Crossing(cfg, f) && !IsDns(f))
  }

  lemma ClientSourceIsTunnel(cfg: Config, e: Event)
    requires e.Forwarded? && Honest(cfg, e) && FromClient(cfg, e.p)
    ensures InTunnel(cfg, e.p.flow.family, e.p.flow.src)
  {
    if e.p.iif !in cfg.tunnelIfaces {
      var net :| net in {cfg.ikev2} && net.first <= e.p.flow.src <= net.last;
      assert net in Tunnels(cfg, V4);
    }
  }

  lemma DnsStep(cfg: Config, host: set<Endpoint>, table: set<Flow>, e: Event)
    requires Possible(host, table, e) && Outbound(cfg, host, table) && Plain(host, e) && Honest(cfg, e)
    ensures Outbound(cfg, host, After(cfg, table, e))
    ensures Accepted(cfg, e) && FromClient(cfg, e.p) ==> !IsDns(e.p.flow)
  {
    if e.Forwarded? {
      ForwardByParts(cfg, e.p, e.ct);
      if FromClient(cfg, e.p) {
        ClientSourceIsTunnel(cfg, e);
      }
    }
  }

  /** No DNS leak: in no such run does a client's packet to port 53 of some other resolver get through. */
  lemma {:induction false} DnsNeverLeaks(cfg: Config, host: set<Endpoint>, table: set<Flow>, es: seq<Event>)
    requires ValidRun(cfg, host, table, es) && Outbound(cfg, host, table)
    requires forall i :: 0 <= i < |es| ==> Plain(host, es[i]) && Honest(cfg, es[i])
    ensures forall i :: 0 <= i < |es| && Accepted(cfg, es[i]) && FromClient(cfg, es[i].p) ==> !IsDns(es[i].p.flow)
    decreases |es|
  {
    if es != [] {
      DnsStep(cfg, host, table, es[0]);
      DnsNeverLeaks(cfg, host, After(cfg, table, es[0]), es[1..]);
    }
  }

  // ---- in terms of the configured values alone ----

  /**
   * From an empty flow table, without related packets and without packets of
   * the host itself in the forward hook, no packet between two addresses of
   * the tunnel subnets is ever accepted, whatever was tracked before.
   */
  lemma NoClientReachesClient(cfg: Config, host: set<Endpoint>, es: seq<Event>, i: nat)
    requires ValidRun(cfg, host, {}, es) && i < |es| && es[i].Forwarded?
    requires forall j :: 0 <= j < |es| && es[j].Forwarded? ==> es[j].ct != Related && !TouchesHost(host, es[j].p.flow)
    requires var f := es[i].p.flow;
             if f.family == V4 then
               && (cfg.wireGuard.first <= f.src <= cfg.wireGuard.last || cfg.openVpn.first <= f.src <= cfg.openVpn.last
                   || cfg.ikev2.first <= f.src <= cfg.ikev2.last)
               && (cfg.wireGuard.first <= f.dst <= cfg.wireGuard.last || cfg.openVpn.first <= f.dst <= cfg.openVpn.last
                   || cfg.ikev2.first <= f.dst <= cfg.ikev2.last)
             else cfg.wireGuardV6.first <= f.src <= cfg.wireGuardV6.last && cfg.wireGuardV6.first <= f.dst <= cfg.wireGuardV6.last
    ensures Forward(cfg, es[i].p, es[i].ct) == Drop
  {
    InTunnelIs(cfg, es[i].p.flow.family, es[i].p.flow.src);
    InTunnelIs(cfg, es[i].p.flow.family, es[i].p.flow.dst);
    ClientsStayIsolated(cfg, host, {}, es);
    assert !Accepted(cfg, es[i]);
  }

  /**
   * And no packet to port 53 over UDP or TCP that comes over a tunnel
   * interface or from an IKEv2 address is ever accepted, provided packets on
   * tunnel interfaces carry addresses of the tunnel subnets.
   */
  lemma NoForeignDns(cfg: Config, host: set<Endpoint>, es: seq<Event>, i: nat)
    requires ValidRun(cfg, host, {}, es) && i < |es| && es[i].Forwarded?
    requires forall j :: 0 <= j < |es| && es[j].Forwarded? ==> es[j].ct != Related && !TouchesHost(host, es[j].p.flow)
    requires forall j :: 0 <= j < |es| && es[j].Forwarded? && es[j].p.iif in cfg.tunnelIfaces ==>
               var f := es[j].p.flow;
               if f.family == V4 then
                 || cfg.wireGuard.first <= f.src <= cfg.wireGuard.last || cfg.openVpn.first <= f.src <= cfg.openVpn.last
                 || cfg.ikev2.first <= f.src <= cfg.ikev2.last
               else cfg.wireGuardV6.first <= f.src <= cfg.wireGuardV6.last
    requires var p := es[i].p;
             && (p.flow.proto == Udp || p.flow.proto == Tcp) && p.flow.dport == 53
             && (p.iif in cfg.tunnelIfaces || (p.flow.family == V4 && cfg.ikev2.first <= p.flow.src <= cfg.ikev2.last))
    ensures Forward(cfg, es[i].p, es[i].ct) == Drop
  {
    forall j | 0 <= j < |es|
      ensures Plain(host, es[j]) && Honest(cfg, es[j])
    {
      if es[j].Forwarded? {
        InTunnelIs(cfg, es[j].p.flow.family, es[j].p.flow.src);
      }
    }
    FromClientIs(cfg, es[i].p);
    DnsNeverLeaks(cfg, host, {}, es);
    assert !Accepted(cfg, es[i]);
  }

  // ---- why the hypotheses are needed ----

  lemma OneEvent(cfg: Config, host: set<Endpoint>, table: set<Flow>, e: Event, es: seq<Event>)
    requires Possible(host, table, e) && ValidRun(cfg, host, After(cfg, table, e), es)
    ensures ValidRun(cfg, host, table, [e] + es)
  {
    assert ([e] + es)[1..] == es;
  }

  /** A related packet between two clients is accepted straight away. */
  lemma RelatedCrosses(cfg: Config, host: set<Endpoint>, p: Packet)
    requires Crossing(cfg, p.flow)
    ensures ValidRun(cfg, host, {}, [Forwarded(p, Related)]) && Accepted(cfg, Forwarded(p, Related))
  {
    OneEvent(cfg, host, {}, Forwarded(p, Related), []);
    assert [Forwarded(p, Related)] + [] == [Forwarded(p, Related)];
    ForwardByParts(cfg, p, Related);
  }

  /** A client's flow to its gateway address is tracked; were such a packet forwarded, it would be accepted. */
  lemma HostAddressCrosses(cfg: Config, host: set<Endpoint>, p: Packet)
    requires Crossing(cfg, p.flow) && TouchesHost(host, p.flow)
    ensures ValidRun(cfg, host, {}, [LocalTraffic(p.flow), Forwarded(p, Established)])
    ensures Accepted(cfg, Forwarded(p, Established))
  {
    OneEvent(cfg, host, {p.flow}, Forwarded(p, Established), []);
    assert {} + {p.flow} == {p.flow};
    OneEvent(cfg, host, {}, LocalTraffic(p.flow), [Forwarded(p, Established)] + []);
    assert [LocalTraffic(p.flow)] + ([Forwarded(p, Established)] + []) == [LocalTraffic(p.flow), Forwarded(p, Established)];
    ForwardByParts(cfg, p, Established);
  }

  /**
   * A spoofed packet from port 53 of an outside address, sent over a tunnel
   * interface to an IKEv2 client, opens the way for that client's DNS to it.
   */
  lemma SpoofedSourceLeaksDns(cfg: Config, host: set<Endpoint>, spoofed: Packet, answer: Packet)
    requires spoofed.flow.family == V4 && spoofed.flow.proto == Udp && spoofed.flow.sport == 53 && spoofed.flow.dport != 53
    requires spoofed.iif in cfg.tunnelIfaces && spoofed.oif == cfg.wan
    requires !InTunnel(cfg, V4, spoofed.flow.src) && InAny({cfg.ikev2}, spoofed.flow.dst)
    requires answer.flow == Reverse(spoofed.flow)
    ensures ValidRun(cfg, host, {}, [Forwarded(spoofed, New), Forwarded(answer, Established)])
    ensures Accepted(cfg, Forwarded(answer, Established)) && FromClient(cfg, answer) && IsDns(answer.flow)
  {
    ForwardByParts(cfg, spoofed, New);
    ForwardByParts(cfg, answer, Established);
    assert Reverse(answer.flow) == spoofed.flow;
    assert After(cfg, {}, Forwarded(spoofed, New)) == {spoofed.flow};
    OneEvent(cfg, host, {spoofed.flow}, Forwarded(answer, Established), []);
    OneEvent(cfg, host, {}, Forwarded(spoofed, New), [Forwarded(answer, Established)] + []);
    assert [Forwarded(spoofed, New)] + ([Forwarded(answer, Established)] + [])
        == [Forwarded(spoofed, New), Forwarded(answer, Established)];
  }
}

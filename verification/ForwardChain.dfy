/**
 * The firewall's forward chain as an ordered first-match rule list, and
 * connection tracking as state. Addresses are the ones the forward hook sees:
 * source translation happens after it, and undoing it before it.
 */
module ForwardChain {
  datatype Family = V4 | V6
  datatype Proto = Tcp | Udp | Other
  datatype CtState = New | Established | Related | Invalid
  datatype Verdict = Accept | Drop

  datatype Subnet = Subnet(first: nat, last: nat)

  datatype Flow = Flow(family: Family, proto: Proto, src: nat, sport: nat, dst: nat, dport: nat)

  datatype Packet = Packet(flow: Flow, iif: string, oif: string)

  datatype Config = Config(
    wan: string,
    tunnelIfaces: set<string>,
    wireGuard: Subnet,
    openVpn: Subnet,
    ikev2: Subnet,
    wireGuardV6: Subnet
  )

  datatype Cond =
    | Ct(states: set<CtState>)
    | Src(family: Family, nets: set<Subnet>)
    | Dst(family: Family, nets: set<Subnet>)
    | Iif(names: set<string>)
    | Oif(name: string)
    | Dport(proto: Proto, port: nat)
    | And(first: Cond, second: Cond)

  datatype Rule = Rule(when: Cond, verdict: Verdict)

  predicate InAny(nets: set<Subnet>, a: nat) {
    exists net :: net in nets && net.first <= a <= net.last
  }

  predicate Holds(c: Cond, p: Packet, ct: CtState) {
    match c
    case Ct(states) => ct in states
    case Src(family, nets) => p.flow.family == family && InAny(nets, p.flow.src)
    case Dst(family, nets) => p.flow.family == family && InAny(nets, p.flow.dst)
    case Iif(names) => p.iif in names
    case Oif(name) => p.oif == name
    case Dport(proto, port) => p.flow.proto == proto && p.flow.dport == port
    case And(first, second) => Holds(first, p, ct) && Holds(second, p, ct)
  }

  /** The first rule that hits decides; the chain's policy is drop. */
  function Eval(rules: seq<Rule>, p: Packet, ct: CtState): Verdict {
    if rules == [] then Drop
    else if Holds(rules[0].when, p, ct) then rules[0].verdict
    else Eval(rules[1..], p, ct)
  }

  function Tunnels(cfg: Config, family: Family): set<Subnet> {
    if family == V4 then {cfg.wireGuard, cfg.openVpn, cfg.ikev2} else {cfg.wireGuardV6}
  }

  function Chain(cfg: Config): seq<Rule> {
    [ Rule(Ct({Established, Related}), Accept),
      Rule(Ct({Invalid}), Drop),
      Rule(And(Src(V4, Tunnels(cfg, V4)), Dst(V4, Tunnels(cfg, V4))), Drop),
      Rule(And(Src(V6, Tunnels(cfg, V6)), Dst(V6, Tunnels(cfg, V6))), Drop),
      Rule(And(Iif(cfg.tunnelIfaces), Dport(Udp, 53)), Drop),
      Rule(And(Iif(cfg.tunnelIfaces), Dport(Tcp, 53)), Drop),
      Rule(And(Src(V4, {cfg.ikev2}), Dport(Udp, 53)), Drop),
      Rule(And(Src(V4, {cfg.ikev2}), Dport(Tcp, 53)), Drop),
      Rule(And(Iif(cfg.tunnelIfaces), Oif(cfg.wan)), Accept),
      Rule(And(Src(V4, {cfg.ikev2}), Oif(cfg.wan)), Accept)
    ]
  }

  function Forward(cfg: Config, p: Packet, ct: CtState): Verdict {
    Eval(Chain(cfg), p, ct)
  }

  // ---- what the chain means for one packet ----

  ghost predicate InTunnel(cfg: Config, family: Family, a: nat) {
    InAny(Tunnels(cfg, family), a)
  }

  /** Both ends are tunnel clients' addresses. */
  ghost predicate Crossing(cfg: Config, f: Flow) {
    InTunnel(cfg, f.family, f.src) && InTunnel(cfg, f.family, f.dst)
  }

  /** Sent by a tunnel client: over a tunnel interface, or by IKEv2, which has none. */
  ghost predicate FromClient(cfg: Config, p: Packet) {
    p.iif in cfg.tunnelIfaces || (p.flow.family == V4 && InAny({cfg.ikev2}, p.flow.src))
  }

  ghost predicate IsDns(f: Flow) {
    f.proto != Other && f.dport == 53
  }

  lemma EvalAt(rules: seq<Rule>, i: nat, p: Packet, ct: CtState)
    requires i < |rules|
    ensures Eval(rules[i..], p, ct) == if Holds(rules[i].when, p, ct) then rules[i].verdict else Eval(rules[i + 1..], p, ct)
  {
    assert rules[i..][1..] == rules[i + 1..];
  }

  lemma StateAndIsolationRules(cfg: Config, p: Packet, ct: CtState)
    ensures Forward(cfg, p, ct) ==
              if ct == Established || ct == Related then Accept
              else if ct == Invalid || Crossing(cfg, p.flow) then Drop
              else Eval(Chain(cfg)[4..], p, ct)
  {
    var rules := Chain(cfg);
    assert rules[0..] == rules;
    EvalAt(rules, 0, p, ct);
    EvalAt(rules, 1, p, ct);
    EvalAt(rules, 2, p, ct);
    EvalAt(rules, 3, p, ct);
  }

  lemma DnsRules(cfg: Config, p: Packet, ct: CtState)
    ensures Eval(Chain(cfg)[4..], p, ct) ==
              if FromClient(cfg, p) && IsDns(p.flow) then Drop else Eval(Chain(cfg)[8..], p, ct)
  {
    var rules := Chain(cfg);
    EvalAt(rules, 4, p, ct);
    EvalAt(rules, 5, p, ct);
    EvalAt(rules, 6, p, ct);
    EvalAt(rules, 7, p, ct);
  }

  lemma EgressRules(cfg: Config, p: Packet, ct: CtState)
    ensures Eval(Chain(cfg)[8..], p, ct) == if FromClient(cfg, p) && p.oif == cfg.wan then Accept else Drop
  {
    var rules := Chain(cfg);
    EvalAt(rules, 8, p, ct);
    EvalAt(rules, 9, p, ct);
    assert rules[10..] == [];
  }

  lemma ForwardByParts(cfg: Config, p: Packet, ct: CtState)
    ensures Forward(cfg, p, ct) == Accept <==>
              || ct == Established
              || ct == Related
              || (ct == New && !Crossing(cfg, p.flow) && FromClient(cfg, p) && !IsDns(p.flow) && p.oif == cfg.wan)
  {
    StateAndIsolationRules(cfg, p, ct);
    DnsRules(cfg, p, ct);
    EgressRules(cfg, p, ct);
  }

  // ---- in terms of the configured values alone ----

  /** A tunnel address is one of the three IPv4 subnets' or the IPv6 subnet's. */
  lemma InTunnelIs(cfg: Config, family: Family, a: nat)
    ensures InTunnel(cfg, family, a) <==>
              if family == V4 then
                || cfg.wireGuard.first <= a <= cfg.wireGuard.last
                || cfg.openVpn.first <= a <= cfg.openVpn.last
                || cfg.ikev2.first <= a <= cfg.ikev2.last
              else cfg.wireGuardV6.first <= a <= cfg.wireGuardV6.last
  {
    var nets := Tunnels(cfg, family);
    if family == V4 {
      assert cfg.wireGuard in nets && cfg.openVpn in nets && cfg.ikev2 in nets;
    } else {
      assert cfg.wireGuardV6 in nets;
    }
  }

  lemma FromClientIs(cfg: Config, p: Packet)
    ensures FromClient(cfg, p) <==>
              p.iif in cfg.tunnelIfaces || (p.flow.family == V4 && cfg.ikev2.first <= p.flow.src <= cfg.ikev2.last)
  {
    assert cfg.ikev2 in {cfg.ikev2};
  }

  /**
   * Which packets the ten rules let through: tracked and related ones, and
   * new ones that come over a tunnel interface or from an IKEv2 address,
   * leave over the WAN, are not bound for port 53 over UDP or TCP, and do not
   * go from one tunnel subnet to another.
   */
  lemma ForwardExact(cfg: Config, p: Packet, ct: CtState)
    ensures Forward(cfg, p, ct) == Accept <==>
              || ct == Established
              || ct == Related
              || (&& ct == New
                  && (p.iif in cfg.tunnelIfaces || (p.flow.family == V4 && cfg.ikev2.first <= p.flow.src <= cfg.ikev2.last))
                  && p.oif == cfg.wan
                  && !((p.flow.proto == Udp || p.flow.proto == Tcp) && p.flow.dport == 53)
                  && !(p.flow.family == V4
                       && (cfg.wireGuard.first <= p.flow.src <= cfg.wireGuard.last || cfg.openVpn.first <= p.flow.src <= cfg.openVpn.last
                           || cfg.ikev2.first <= p.flow.src <= cfg.ikev2.last)
                       && (cfg.wireGuard.first <= p.flow.dst <= cfg.wireGuard.last || cfg.openVpn.first <= p.flow.dst <= cfg.openVpn.last
                           || cfg.ikev2.first <= p.flow.dst <= cfg.ikev2.last))
                  && !(p.flow.family == V6
                       && cfg.wireGuardV6.first <= p.flow.src <= cfg.wireGuardV6.last
                       && cfg.wireGuardV6.first <= p.flow.dst <= cfg.wireGuardV6.last))
  {
    ForwardByParts(cfg, p, ct);
    FromClientIs(cfg, p);
    InTunnelIs(cfg, p.flow.family, p.flow.src);
    InTunnelIs(cfg, p.flow.family, p.flow.dst);
  }
}

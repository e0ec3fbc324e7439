/** What a datapath reconcile leaves on the host, said of the links, addresses, routes and packets themselves. */
module HostOutcome {
  import opened Text
  import opened Netfilter
  import opened HostPass
  import opened HostSteps
  import HostConvergence
  import N6Nat
  import N6Verdicts

  /** The declaration names something. */
  predicate Given(text: string) {
    text != "" && text != "null"
  }

  /** One of the exposed services carries the address. */
  ghost predicate IsIngress(services: seq<seq<string>>, ip: string) {
    ip != "" && exists i, j :: 0 <= i < |services| && 0 <= j < |services[i]| && services[i][j] == ip
  }

  lemma WantedIs(services: seq<seq<string>>, ip: string)
    ensures ip in Wanted(services) <==> IsIngress(services, ip)
  {
  }

  /** The addresses the steps can use are a.b.c.d with a, b, c and d below 256 and without leading zeros. */
  lemma UsableAddresses(ip: string)
    ensures IsQuad(ip) <==> exists a: nat, b: nat, c: nat, d: nat :: IsAddress(ip, a, b, c, d)
  {
    if IsQuad(ip) {
      var q := ScanQuad(ip);
      assert q[0] in q && q[1] in q && q[2] in q && q[3] in q;
      assert IsAddress(ip, q[0], q[1], q[2], q[3]);
    }
    if a: nat, b: nat, c: nat, d: nat :| IsAddress(ip, a, b, c, d) { QuadIsQuad(a, b, c, d); }
  }

  predicate IsAddress(ip: string, a: nat, b: nat, c: nat, d: nat) {
    a < 256 && b < 256 && c < 256 && d < 256 && ip == Print(a) + "." + Print(b) + "." + Print(c) + "." + Print(d)
  }

  // ----- step by step, whichever calls fail -----

  /** The step loses no link and takes none down; what it makes is named; on success all that are named are up. */
  predicate BridgesLeft(before: map<string, bool>, after: map<string, bool>, names: seq<string>, success: bool) {
    && (forall n | n in before :: n in after && (before[n] ==> after[n]))
    && (forall n | n in after && n !in before :: n in names && Given(n))
    && (success ==> forall n | n in names && Given(n) :: n in after && after[n])
  }

  lemma {:induction false} BridgesLeave(links: map<string, bool>, names: seq<string>, ok: HostOracle)
    ensures var (after, success) := Bridges(links, names, ok); BridgesLeft(links, after, names, success)
    decreases |names|
  {
    if |names| > 0 {
      assert names == [names[0]] + names[1..];
      if Unset(names[0]) {
        BridgesLeave(links, names[1..], ok);
      } else if (names[0] in links || ok(LinkAdd(names[0]))) && ok(LinkUp(names[0])) {
        BridgesLeave((if names[0] in links then links else links[names[0] := false])[names[0] := true], names[1..], ok);
      }
    }
  }

  predicate Carries(addrs: map<string, set<Addr>>, link: string, ip: string) {
    link in addrs && exists a | a in addrs[link] :: a.ip == ip
  }

  /** The step takes no address away; what it adds is a declared gateway as a /24; on success all are there. */
  predicate GatewaysLeft(before: map<string, set<Addr>>, after: map<string, set<Addr>>, pairs: seq<(string, string)>,
                         success: bool) {
    && (forall l | l in before :: l in after && before[l] <= after[l])
    && (forall l, a | l in after && a in after[l] ::
          (l in before && a in before[l]) || (a.bits == 24 && (l, a.ip) in pairs))
    && (success ==> forall q | q in pairs && Given(q.1) :: Carries(after, q.0, q.1))
  }

  lemma {:induction false} GatewaysLeave(addrs: map<string, set<Addr>>, links: map<string, bool>,
                                         pairs: seq<(string, string)>, ok: HostOracle)
    ensures var (after, success) := Gateways(addrs, links, pairs, ok); GatewaysLeft(addrs, after, pairs, success)
    decreases |pairs|
  {
    if |pairs| > 0 {
      assert pairs == [pairs[0]] + pairs[1..];
      var (next, success) := Gateway(addrs, links, pairs[0].0, pairs[0].1, ok);
      GatewayLeaves(addrs, links, pairs[0].0, pairs[0].1, ok);
      if success {
        GatewaysLeave(next, links, pairs[1..], ok);
        GatewaysOnTop(addrs, next, Gateways(next, links, pairs[1..], ok).0, pairs,
                      Gateways(next, links, pairs[1..], ok).1);
      } else {
        assert pairs[0] in pairs;
      }
    }
  }

  lemma GatewayLeaves(addrs: map<string, set<Addr>>, links: map<string, bool>, br: string, gw: string, ok: HostOracle)
    ensures var (next, success) := Gateway(addrs, links, br, gw, ok); GatewaysLeft(addrs, next, [(br, gw)], success)
  {
    var (next, success) := Gateway(addrs, links, br, gw, ok);
    assert (br, gw) in [(br, gw)];
    if success && Given(gw) && !HasIp(AddrsOf(addrs, br), gw) {
      GatewayAdded(addrs, br, gw);
    } else if success && Given(gw) {
      var a :| a in AddrsOf(addrs, br) && a.ip == gw;
      assert br in addrs;
    }
  }

  lemma GatewayAdded(addrs: map<string, set<Addr>>, br: string, gw: string)
    ensures GatewaysLeft(addrs, addrs[br := AddrsOf(addrs, br) + {Addr(gw, 24)}], [(br, gw)], true)
  {
    var next := addrs[br := AddrsOf(addrs, br) + {Addr(gw, 24)}];
    var pairs := [(br, gw)];
    assert pairs[0] == (br, gw) && forall q | q in pairs :: q == pairs[0];
    assert Addr(gw, 24) in next[br];
    forall l, a | l in next && a in next[l]
      ensures (l in addrs && a in addrs[l]) || (a.bits == 24 && (l, a.ip) in pairs)
    {
    }
  }

  lemma GatewaysOnTop(before: map<string, set<Addr>>, next: map<string, set<Addr>>, after: map<string, set<Addr>>,
                      pairs: seq<(string, string)>, success: bool)
    requires |pairs| > 0 && GatewaysLeft(before, next, [pairs[0]], true)
    requires GatewaysLeft(next, after, pairs[1..], success)
    ensures GatewaysLeft(before, after, pairs, success)
  {
    assert pairs == [pairs[0]] + pairs[1..];
    forall l, a | l in after && a in after[l]
      ensures (l in before && a in before[l]) || (a.bits == 24 && (l, a.ip) in pairs)
    {
      if l in next && a in next[l] && !(l in before && a in before[l]) {
        assert (l, a.ip) in [pairs[0]];
      }
    }
    if success {
      forall q | q in pairs && Given(q.1) ensures Carries(after, q.0, q.1) {
        if q == pairs[0] {
          assert q in [pairs[0]];
          var a :| a in next[q.0] && a.ip == q.1;
          assert a in after[q.0];
        }
      }
    }
  }

  /** Forwarding is on unless the write fails; the filters and offloads go off wherever their calls take effect. */
  predicate ForwardingLeft(h: HostState, after: HostState, s: Setting, ok: HostOracle, success: bool) {
    && (success <==> ok(WriteForwarding))
    && (success ==>
          && after.forwarding
          && after.rpOff == h.rpOff + (set k | k in {"all", s.coreBr, s.accBr} && ok(WriteRpFilter(k)))
          && after.offloadOff == h.offloadOff + (set k | k in {s.coreBr, s.accBr} && ok(OffloadOff(k))))
    && after == h.(forwarding := after.forwarding, rpOff := after.rpOff, offloadOff := after.offloadOff)
  }

  lemma ForwardingLeaves(h: HostState, s: Setting, ok: HostOracle)
    ensures ForwardingLeft(h, Forwarding(h, s, ok).0, s, ok, Forwarding(h, s, ok).1)
  {
    assert forall k :: k in ["all", s.coreBr, s.accBr] <==> k in {"all", s.coreBr, s.accBr};
    assert forall k :: k in [s.coreBr, s.accBr] <==> k in {s.coreBr, s.accBr};
  }

  /**
   * On success the pool is routed by the core bridge through the declared next hop, if one is declared; every other
   * route stays.
   */
  ghost predicate RouteLeft(before: map<Pool, Route>, after: map<Pool, Route>, s: Setting, success: bool) {
    if success && Given(s.coreNextHop) then
      && s.uePool.Net? && s.uePool.pool in after && after[s.uePool.pool].link == s.coreBr
      && after[s.uePool.pool].gateway == (if IsQuad(s.coreNextHop) then Some(s.coreNextHop) else None)
      && forall p | p != s.uePool.pool :: (p in after <==> p in before) && (p in before ==> after[p] == before[p])
    else after == before
  }

  lemma RouteLeaves(h: HostState, s: Setting, ok: HostOracle)
    ensures var (after, success) := SetRoute(h, s, ok);
      && RouteLeft(h.routes, after, s, success)
      && (success <==> !Given(s.coreNextHop) || (s.uePool.Net? && s.coreBr in h.links && ok(RouteReplace)))
  {
  }

  /**
   * On success every address of every service is on the NIC as a /32. What else is added is nothing, and what goes is
   * exactly the /32 ending in 240..254 that no service carries and whose deletion takes effect.
   */
  ghost predicate NicLeft(before: set<Addr>, after: set<Addr>, m: Meets) {
    forall a :: a in after <==>
      || (a.bits == 32 && IsIngress(m.services, a.ip) && IsQuad(a.ip))
      || (a in before && !(a.bits == 32 && !IsIngress(m.services, a.ip) && EndsInPool(a.ip) && m.ok(VipDelete(a.ip))))
  }

  predicate EndsInPool(ip: string) {
    |ScanQuad(ip)| == 4 && 240 <= ScanQuad(ip)[3] <= 254
  }

  /** The map the announcements are ranged over holds each address of each service. */
  ghost predicate RangesOver(m: Meets) {
    forall ip :: ip in m.order <==> IsIngress(m.services, ip)
  }

  function On(addrs: map<string, set<Addr>>, link: string): set<Addr> {
    if link in addrs then addrs[link] else {}
  }

  ghost predicate VipsLeft(h: HostState, after: map<string, set<Addr>>, nic: string, m: Meets, success: bool) {
    && (forall l | l != nic :: (l in after <==> l in h.addrs) && (l in after ==> after[l] == h.addrs[l]))
    && (nic == "" || !m.ok(ListServices) || nic !in h.links ==> after == h.addrs)
    && (success && nic != "" && m.ok(ListServices) ==>
          if nic in h.links then nic in after && NicLeft(On(h.addrs, nic), after[nic], m)
          else forall ip :: !IsIngress(m.services, ip))
  }

  lemma OrderIs(m: Meets)
    requires RangesOver(m)
    ensures Orders(m.order, Wanted(m.services))
  {
    forall ip ensures ip in m.order <==> ip in Wanted(m.services) { WantedIs(m.services, ip); }
  }

  lemma VipsLeave(h: HostState, nic: string, m: Meets)
    requires RangesOver(m)
    ensures var (after, success) := Vips(h, nic, m); VipsLeft(h, after, nic, m, success)
  {
    var (after, success) := Vips(h, nic, m);
    OrderIs(m);
    if success && nic != "" && m.ok(ListServices) {
      if nic in h.links {
        AnnounceAdds(AddrsOf(h.addrs, nic), m.order, m.ok);
        assert (set ip | ip in m.order) == Wanted(m.services);
        NicLeaves(On(h.addrs, nic), m);
      } else {
        forall ip ensures !IsIngress(m.services, ip) { WantedIs(m.services, ip); }
      }
    }
  }

  lemma NicLeaves(addrs: set<Addr>, m: Meets)
    ensures NicLeft(addrs, Withdraw(addrs + QuadAddrs(Wanted(m.services)), Wanted(m.services), m.ok), m)
  {
    forall a ensures a in QuadAddrs(Wanted(m.services)) <==>
      a.bits == 32 && IsIngress(m.services, a.ip) && IsQuad(a.ip)
    {
      WantedIs(m.services, a.ip);
      assert a.bits == 32 ==> a == Addr(a.ip, 32);
    }
    forall ip ensures ip in Wanted(m.services) <==> IsIngress(m.services, ip) { WantedIs(m.services, ip); }
  }

  /** Of one address on one device, exactly the entries not known to be reachable go. */
  ghost predicate NeighsLeft(links: map<string, bool>, before: map<string, seq<Neigh>>, after: map<string, seq<Neigh>>,
                             ip: string, dev: string, ok: HostOracle) {
    if Given(ip) && dev in links && dev in before then
      && after.Keys == before.Keys && (forall d | d in before && d != dev :: after[d] == before[d])
      && (forall n :: n in after[dev] <==>
            n in before[dev] && !(n.ip == ip && !n.reachable && ok(NeighDelete(dev, n))))
    else after == before
  }

  lemma NeighsLeave(links: map<string, bool>, neighs: map<string, seq<Neigh>>, ip: string, dev: string, ok: HostOracle)
    ensures NeighsLeft(links, neighs, Refresh(links, neighs, ip, dev, ok), ip, dev, ok)
  {
    if dev in neighs { ForgetFacts(neighs[dev], ip, dev, ok); }
  }

  // ----- the whole pass -----

  /**
   * What packets meet in one backend: in filter FORWARD the pool is accepted both ways, what comes in and leaves by the
   * access bridge is accepted where it got past all rules, and in nat POSTROUTING what the pool sends out by the egress
   * NIC is translated. Everything else keeps its verdict, in mangle FORWARD everything does.
   */
  ghost predicate FirewallLeft(f: N6Nat.Firewall, g: N6Nat.Firewall, pool: Pool, accBr: string, nic: string) {
    forall policy: Verdict, p: Packet, other: Foreign :: FirewallTreats(f, g, pool, accBr, nic, policy, p, other)
  }

  predicate FirewallTreats(f: N6Nat.Firewall, g: N6Nat.Firewall, pool: Pool, accBr: string, nic: string,
                           policy: Verdict, p: Packet, other: Foreign) {
    && ("FORWARD" in f.filterTable ==>
          ChainVerdict(g.filterTable, "FORWARD", policy, p, other) ==
            if pool.Holds(p.src) || pool.Holds(p.dst) then Accepted
            else if p.inIf == accBr && p.outIf == accBr
                    && N6Verdicts.FallsThrough(f.filterTable["FORWARD"], f.filterTable,
                                               f.filterTable.Keys - {"FORWARD"}, p, other)
            then Accepted
            else ChainVerdict(f.filterTable, "FORWARD", policy, p, other))
    && ("POSTROUTING" in f.natTable ==>
          ChainVerdict(g.natTable, "POSTROUTING", policy, p, other) ==
            if pool.Holds(p.src) && p.outIf == nic then Translated
            else ChainVerdict(f.natTable, "POSTROUTING", policy, p, other))
    && ChainVerdict(g.mangleTable, "FORWARD", policy, p, other) ==
         ChainVerdict(f.mangleTable, "FORWARD", policy, p, other)
  }

  lemma FirewallLeaves(f: N6Nat.Firewall, c: N6Nat.Config, ok: N6Nat.Oracle)
    requires N6Nat.AllOk(ok)
    ensures FirewallLeft(f, N6Nat.Pass(f, c, ok), c.pool, c.bridge, c.nic)
  {
    forall policy: Verdict, p: Packet, other: Foreign
      ensures FirewallTreats(f, N6Nat.Pass(f, c, ok), c.pool, c.bridge, c.nic, policy, p, other)
    {
      PacketTreated(f, c, ok, policy, p, other);
    }
  }

  lemma PacketTreated(f: N6Nat.Firewall, c: N6Nat.Config, ok: N6Nat.Oracle, policy: Verdict, p: Packet, other: Foreign)
    requires N6Nat.AllOk(ok)
    ensures FirewallTreats(f, N6Nat.Pass(f, c, ok), c.pool, c.bridge, c.nic, policy, p, other)
  {
    if "FORWARD" in f.filterTable { N6Verdicts.ForwardVerdict(f, c, ok, policy, p, other); }
    if "POSTROUTING" in f.natTable { N6Verdicts.PostroutingVerdict(f, c, ok, policy, p, other); }
    N6Verdicts.MangleKeepsVerdicts(f, c, ok, "FORWARD", policy, p, other);
  }

  /** Both backends, where they are present, and no other. */
  ghost predicate FirewallsLeft(before: map<string, N6Nat.Firewall>, after: map<string, N6Nat.Firewall>, s: Setting) {
    && after.Keys == before.Keys
    && (forall b | b in before && b != "iptables" && b != "iptables-legacy" :: after[b] == before[b])
    && (s.uePool.Net? && "iptables" in before ==>
          FirewallLeft(before["iptables"], after["iptables"], s.uePool.pool, s.accBr, s.nic))
    && (s.uePool.Net? && "iptables-legacy" in before ==>
          FirewallLeft(before["iptables-legacy"], after["iptables-legacy"], s.uePool.pool, s.accBr, s.nic))
  }

  lemma BackendLeaves(firewalls: map<string, N6Nat.Firewall>, s: Setting, ok: HostOracle, b: string)
    requires AllOk(ok) && s.nic != "" && s.uePool.Net? && b in BACKENDS && b in firewalls
    ensures b in Nat(firewalls, s, ok).0
    ensures FirewallLeft(firewalls[b], Nat(firewalls, s, ok).0[b], s.uePool.pool, s.accBr, s.nic)
  {
    NatEach(firewalls, s, ok);
    FirewallLeaves(firewalls[b], NatConfig(s), NatOracle(s, b, ok));
  }

  lemma BackendNames()
    ensures forall b :: b in BACKENDS <==> b == "iptables" || b == "iptables-legacy"
  {
  }

  lemma NatLeaves(firewalls: map<string, N6Nat.Firewall>, s: Setting, ok: HostOracle)
    ensures AllOk(ok) && s.nic != "" ==> FirewallsLeft(firewalls, Nat(firewalls, s, ok).0, s)
  {
    if AllOk(ok) && s.nic != "" {
      var after := Nat(firewalls, s, ok).0;
      NatEach(firewalls, s, ok);
      forall b | s.uePool.Net? && b in BACKENDS && b in firewalls
        ensures FirewallLeft(firewalls[b], after[b], s.uePool.pool, s.accBr, s.nic)
      {
        BackendLeaves(firewalls, s, ok, b);
      }
      FirewallsFrom(firewalls, after, s);
    }
  }

  lemma FirewallsFrom(before: map<string, N6Nat.Firewall>, after: map<string, N6Nat.Firewall>, s: Setting)
    requires after.Keys == before.Keys && forall b | b in before && b !in BACKENDS :: after[b] == before[b]
    requires forall b | s.uePool.Net? && b in BACKENDS && b in before ::
      FirewallLeft(before[b], after[b], s.uePool.pool, s.accBr, s.nic)
    ensures FirewallsLeft(before, after, s)
  {
    BackendNames();
  }

  /** The gateway is on its bridge, or that is the NIC and the gateway could be taken for a stale N2 address. */
  ghost predicate GatewayThere(after: HostState, s: Setting, m: Meets, br: string, gw: string) {
    Given(gw) ==>
      || Carries(after.addrs, br, gw)
      || (br == s.nic && EndsInPool(gw) && !IsIngress(m.services, gw))
  }

  /** No entry for the address on the device, except one known to be reachable. */
  predicate OnlyReachable(after: HostState, ip: string, dev: string) {
    Given(ip) && dev in after.links && dev in after.neighs ==>
      forall n | n in after.neighs[dev] :: n.ip == ip ==> n.reachable
  }

  /** The host after a reconcile all of whose calls took effect and all of whose steps succeeded. */
  ghost predicate HostLeft(h: HostState, after: HostState, s: Setting, m: Meets) {
    && BridgesLeft(h.links, after.links, [s.accBr, s.coreBr], true)
    && GatewayThere(after, s, m, s.accBr, s.accGw)
    && (s.coreBr != s.accBr ==> GatewayThere(after, s, m, s.coreBr, s.coreGw))
    && after.forwarding && {"all", s.coreBr, s.accBr} <= after.rpOff && {s.coreBr, s.accBr} <= after.offloadOff
    && RouteLeft(h.routes, after.routes, s, true)
    && FirewallsLeft(h.firewalls, after.firewalls, s)
    && (forall ip | IsIngress(m.services, ip) && IsQuad(ip) ::
          s.nic in after.addrs && Addr(ip, 32) in after.addrs[s.nic])
    && (s.nic in after.links && s.nic in after.addrs ==>
          forall a | a in after.addrs[s.nic] && a.bits == 32 && EndsInPool(a.ip) :: IsIngress(m.services, a.ip))
    && OnlyReachable(after, s.coreNextHop, s.coreBr)
    && (s.gnbIP != s.coreNextHop ==> OnlyReachable(after, s.gnbIP, s.accBr))
  }

  /** From any host: a reconcile whose calls take effect and whose steps succeed leaves exactly that. */
  lemma PassLeaves(h: HostState, s: Setting, m: Meets)
    requires AllOk(m.ok) && RangesOver(m) && Pass(h, s, m).1.All()
    ensures HostLeft(h, Pass(h, s, m).0, s, m)
  {
    OrderIs(m);
    PassParts(h, s, m);
    BridgesLeave(h.links, [s.accBr, s.coreBr], m.ok);
    GatewaysThere(h, s, m);
    HostConvergence.ForwardsReached(h, s, m);
    RouteOfPass(h, s, m);
    HostConvergence.NatSucceedsIff(h, s, m);
    NatLeaves(h.firewalls, s, m.ok);
    IngressesThere(h, s, m);
    HostConvergence.NeighsReached(h, s, m);
  }

  ghost predicate LeftOnSuccess(h: HostState, after: HostState, r: Results, s: Setting, m: Meets) {
    AllOk(m.ok) && RangesOver(m) && r.All() ==> HostLeft(h, after, s, m)
  }

  lemma SuccessLeaves(h: HostState, s: Setting, m: Meets)
    ensures LeftOnSuccess(h, Pass(h, s, m).0, Pass(h, s, m).1, s, m)
  {
    if AllOk(m.ok) && RangesOver(m) && Pass(h, s, m).1.All() { PassLeaves(h, s, m); }
  }

  lemma RouteOfPass(h: HostState, s: Setting, m: Meets)
    requires Pass(h, s, m).1.route
    ensures RouteLeft(h.routes, Pass(h, s, m).0.routes, s, true)
  {
  }

  lemma GatewaysThere(h: HostState, s: Setting, m: Meets)
    requires Orders(m.order, Wanted(m.services)) && Pass(h, s, m).1.gateways
    ensures GatewayThere(Pass(h, s, m).0, s, m, s.accBr, s.accGw)
    ensures s.coreBr != s.accBr ==> GatewayThere(Pass(h, s, m).0, s, m, s.coreBr, s.coreGw)
  {
    HostConvergence.OrderHolds(s, m.coreFirst);
    GatewayKeptIff(h, s, m, s.accBr, s.accGw);
    WantedIs(m.services, s.accGw);
    if s.coreBr != s.accBr {
      GatewayKeptIff(h, s, m, s.coreBr, s.coreGw);
      WantedIs(m.services, s.coreGw);
    }
  }

  lemma IngressesThere(h: HostState, s: Setting, m: Meets)
    requires AllOk(m.ok) && Orders(m.order, Wanted(m.services)) && Pass(h, s, m).1.vip && s.nic != ""
    ensures var after := Pass(h, s, m).0;
      && (forall ip | IsIngress(m.services, ip) && IsQuad(ip) ::
            s.nic in after.addrs && Addr(ip, 32) in after.addrs[s.nic])
      && (s.nic in after.links && s.nic in after.addrs ==>
            forall a | a in after.addrs[s.nic] && a.bits == 32 && EndsInPool(a.ip) :: IsIngress(m.services, a.ip))
  {
    var after := Pass(h, s, m).0;
    HostConvergence.VipsReached(h, s, m);
    forall ip | IsIngress(m.services, ip) && IsQuad(ip)
      ensures s.nic in after.addrs && Addr(ip, 32) in after.addrs[s.nic]
    {
      WantedIs(m.services, ip);
      assert Addr(ip, 32) in QuadAddrs(Wanted(m.services));
    }
    if s.nic in after.links && s.nic in after.addrs {
      forall a | a in after.addrs[s.nic] && a.bits == 32 && EndsInPool(a.ip) ensures IsIngress(m.services, a.ip) {
        WantedIs(m.services, a.ip);
      }
    }
  }
}

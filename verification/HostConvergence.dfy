/**
 * When a datapath reconcile succeeds, the state it reaches, and that this state is where it stops changing the host.
 */
module HostConvergence {
  import opened HostPass
  import opened HostSteps
  import N6Nat

  // ----- the declared state -----

  ghost predicate NeighsFresh(h: HostState, s: Setting) {
    && (!Unset(s.coreNextHop) && s.coreBr in h.links && s.coreBr in h.neighs ==>
          NoStale(h.neighs[s.coreBr], s.coreNextHop))
    && (!Unset(s.gnbIP) && s.gnbIP != s.coreNextHop && s.accBr in h.links && s.accBr in h.neighs ==>
          NoStale(h.neighs[s.accBr], s.gnbIP))
  }

  /** Every backend present holds the declared rules, each where it has to be. */
  predicate FirewallsProgrammed(h: HostState, s: Setting) {
    forall b | b in BACKENDS && b in h.firewalls :: N6Nat.Programmed(h.firewalls[b], NatConfig(s))
  }

  /** The wanted addresses are on the NIC and no stale one is. */
  predicate VipsExact(h: HostState, s: Setting, want: set<string>) {
    if s.nic in h.links then
      s.nic in h.addrs && QuadAddrs(want) <= h.addrs[s.nic] && forall a | a in h.addrs[s.nic] :: !Stale(a, want)
    else want == {}
  }

  predicate Forwards(h: HostState, s: Setting) {
    h.forwarding && {"all", s.coreBr, s.accBr} <= h.rpOff && {s.coreBr, s.accBr} <= h.offloadOff
  }

  /** Everything the datapath declares about the host, when the exposed services carry the addresses `want`. */
  ghost predicate Declared(h: HostState, s: Setting, want: set<string>) {
    && BridgesUp(h, s) && GatewaysPresent(h, s) && Forwards(h, s) && RouteSet(h, s)
    && FirewallsProgrammed(h, s) && VipsExact(h, s, want) && NeighsFresh(h, s)
  }

  // ----- when all steps succeed -----

  /** The links there are once the bridges have been made. */
  predicate Exists(h: HostState, s: Setting, l: string) {
    l in h.links || (!Unset(l) && (l == s.accBr || l == s.coreBr))
  }

  predicate GatewayUsable(h: HostState, s: Setting, br: string, gw: string) {
    Unset(gw) || (Exists(h, s, br) && IsQuad(gw))
  }

  predicate GatewaysUsable(h: HostState, s: Setting) {
    GatewayUsable(h, s, s.accBr, s.accGw) && (s.coreBr != s.accBr ==> GatewayUsable(h, s, s.coreBr, s.coreGw))
  }

  predicate RouteUsable(h: HostState, s: Setting) {
    Unset(s.coreNextHop) || (s.uePool.Net? && Exists(h, s, s.coreBr))
  }

  predicate NatUsable(h: HostState, s: Setting) {
    && s.nic != ""
    && ((forall b | b in BACKENDS :: b !in h.firewalls)
        || (s.uePool.Net?
            && exists b :: b in BACKENDS && b in h.firewalls && N6Nat.POSTROUTING in h.firewalls[b].natTable))
  }

  predicate VipsUsable(h: HostState, s: Setting, want: set<string>) {
    Exists(h, s, s.nic) || want == {}
  }

  lemma {:induction false} AllBridgesMade(links: map<string, bool>, names: seq<string>, ok: HostOracle)
    requires AllOk(ok)
    ensures Bridges(links, names, ok).1
    ensures Bridges(links, names, ok).0.Keys == links.Keys + set n | n in names && !Unset(n)
    decreases |names|
  {
    if |names| > 0 {
      assert names == [names[0]] + names[1..];
      if Unset(names[0]) {
        AllBridgesMade(links, names[1..], ok);
      } else {
        var added := if names[0] in links then links else links[names[0] := false];
        AllBridgesMade(added[names[0] := true], names[1..], ok);
      }
    }
  }

  lemma {:induction false} AllGatewaysIff(
      addrs: map<string, set<Addr>>, links: map<string, bool>, pairs: seq<(string, string)>, ok: HostOracle)
    requires AllOk(ok)
    ensures Gateways(addrs, links, pairs, ok).1 <==> forall q | q in pairs ::
      Unset(q.1) || (q.0 in links && IsQuad(q.1))
    decreases |pairs|
  {
    if |pairs| > 0 {
      assert pairs == [pairs[0]] + pairs[1..];
      AllGatewaysIff(Gateway(addrs, links, pairs[0].0, pairs[0].1, ok).0, links, pairs[1..], ok);
    }
  }

  lemma LinksMade(h: HostState, s: Setting, ok: HostOracle)
    requires AllOk(ok)
    ensures var (links, success) := Bridges(h.links, [s.accBr, s.coreBr], ok);
      success && forall l :: l in links <==> Exists(h, s, l)
  {
    AllBridgesMade(h.links, [s.accBr, s.coreBr], ok);
    assert forall l :: l in [s.accBr, s.coreBr] <==> l == s.accBr || l == s.coreBr;
  }

  lemma GatewaysSucceedIff(h: HostState, s: Setting, m: Meets)
    requires AllOk(m.ok)
    ensures Pass(h, s, m).1.bridges && (Pass(h, s, m).1.gateways <==> GatewaysUsable(h, s))
    ensures forall l :: l in Pass(h, s, m).0.links <==> Exists(h, s, l)
  {
    PassParts(h, s, m);
    LinksMade(h, s, m.ok);
    AllGatewaysIff(h.addrs, Pass(h, s, m).0.links, GatewayOrder(s, m.coreFirst), m.ok);
    OrderHolds(s, m.coreFirst);
  }

  lemma OrderHolds(s: Setting, coreFirst: bool)
    ensures forall q :: q in GatewayOrder(s, coreFirst) <==>
      q == (s.accBr, s.accGw) || (s.coreBr != s.accBr && q == (s.coreBr, s.coreGw))
  {
  }

  lemma NatSucceedsIff(h: HostState, s: Setting, m: Meets)
    requires AllOk(m.ok)
    ensures Pass(h, s, m).1.nat_ <==> NatUsable(h, s)
  {
    PassParts(h, s, m);
    if s.nic != "" { NatEach(h.firewalls, s, m.ok); }
    assert forall b :: Opened(b, h.firewalls, m.ok) <==> b in h.firewalls;
    forall b | b in h.firewalls
      ensures MasqApplied(s, b, h.firewalls, m.ok) <==> s.uePool.Net? && N6Nat.POSTROUTING in h.firewalls[b].natTable
    {
    }
  }

  lemma VipsSucceedIff(h: HostState, s: Setting, m: Meets)
    requires AllOk(m.ok) && s.nic != "" && Orders(m.order, Wanted(m.services))
    ensures Pass(h, s, m).1.vip <==> VipsUsable(h, s, Wanted(m.services))
  {
    PassParts(h, s, m);
    GatewaysSucceedIff(h, s, m);
    var links := Bridges(h.links, [s.accBr, s.coreBr], m.ok).0;
    var addrs := Gateways(h.addrs, links, GatewayOrder(s, m.coreFirst), m.ok).0;
    AnnounceSucceedsIff(AddrsOf(addrs, s.nic), m.order, m.ok);
  }

  lemma RouteSucceedsIff(h: HostState, s: Setting, m: Meets)
    requires AllOk(m.ok)
    ensures Pass(h, s, m).1.forwarding && (Pass(h, s, m).1.route <==> RouteUsable(h, s))
  {
    GatewaysSucceedIff(h, s, m);
    RouteParts(h, s, m);
  }

  lemma RouteParts(h: HostState, s: Setting, m: Meets)
    ensures Pass(h, s, m).1.forwarding == m.ok(WriteForwarding)
    ensures Pass(h, s, m).1.route <==>
      Unset(s.coreNextHop) || (s.uePool.Net? && s.coreBr in Pass(h, s, m).0.links && m.ok(RouteReplace))
  {
  }

  /** With all calls taking effect, every step succeeds exactly when what it is asked to do can be done on this host. */
  lemma AllSucceedIff(h: HostState, s: Setting, m: Meets)
    requires AllOk(m.ok) && Orders(m.order, Wanted(m.services))
    ensures Pass(h, s, m).1.All() <==>
      GatewaysUsable(h, s) && RouteUsable(h, s) && NatUsable(h, s) && VipsUsable(h, s, Wanted(m.services))
  {
    GatewaysSucceedIff(h, s, m);
    RouteSucceedsIff(h, s, m);
    NatSucceedsIff(h, s, m);
    if s.nic != "" { VipsSucceedIff(h, s, m); }
  }

  // ----- reaching the declared state -----

  lemma ForgetsAll(h: HostState, s: Setting, ok: HostOracle)
    requires AllOk(ok)
    ensures NeighsFresh(h.(neighs := RefreshAll(h, s, ok)), s)
  {
    forall dev: string, ip: string, n: seq<Neigh> ensures NoStale(Forget(n, ip, dev, ok), ip) {
      ForgetFacts(n, ip, dev, ok);
    }
    if s.gnbIP != s.coreNextHop && s.accBr == s.coreBr && s.accBr in h.neighs && s.accBr in h.links && !Unset(s.gnbIP) {
      var mid := Forget(h.neighs[s.accBr], s.gnbIP, s.accBr, ok);
      ForgetFacts(mid, s.coreNextHop, s.coreBr, ok);
    }
  }

  lemma NeighsReached(h: HostState, s: Setting, m: Meets)
    requires AllOk(m.ok)
    ensures NeighsFresh(Pass(h, s, m).0, s)
  {
    ForgetsAll(Pass(h, s, m).0.(neighs := h.neighs), s, m.ok);
  }

  lemma BackendReached(firewalls: map<string, N6Nat.Firewall>, s: Setting, ok: HostOracle, b: string)
    requires AllOk(ok) && s.nic != "" && b in BACKENDS && b in firewalls && s.uePool.Net?
    ensures b in Nat(firewalls, s, ok).0 && N6Nat.Programmed(Nat(firewalls, s, ok).0[b], NatConfig(s))
  {
    NatEach(firewalls, s, ok);
    N6Nat.PassPrograms(firewalls[b], NatConfig(s), NatOracle(s, b, ok));
  }

  lemma SameBackends(firewalls: map<string, N6Nat.Firewall>, s: Setting, ok: HostOracle)
    ensures Nat(firewalls, s, ok).0.Keys == firewalls.Keys
  {
    if s.nic != "" { NatEach(firewalls, s, ok); }
  }

  lemma FirewallsReached(h: HostState, s: Setting, m: Meets)
    requires AllOk(m.ok) && Pass(h, s, m).1.nat_
    ensures FirewallsProgrammed(Pass(h, s, m).0, s)
  {
    PassParts(h, s, m);
    NatSucceedsIff(h, s, m);
    SameBackends(h.firewalls, s, m.ok);
    forall b | b in BACKENDS && b in h.firewalls ensures N6Nat.Programmed(Nat(h.firewalls, s, m.ok).0[b],
      NatConfig(s)) {
      BackendReached(h.firewalls, s, m.ok, b);
    }
  }

  lemma VipsReached(h: HostState, s: Setting, m: Meets)
    requires Orders(m.order, Wanted(m.services)) && AllOk(m.ok) && Pass(h, s, m).1.vip && s.nic != ""
    ensures VipsExact(Pass(h, s, m).0, s, Wanted(m.services))
  {
    PassParts(h, s, m);
    var links := Bridges(h.links, [s.accBr, s.coreBr], m.ok).0;
    var addrs := Gateways(h.addrs, links, GatewayOrder(s, m.coreFirst), m.ok).0;
    VipsApart(links, addrs, s, m);
    VipsOnLink(links, addrs, s, m);
  }

  lemma VipsOnLink(links: map<string, bool>, addrs: map<string, set<Addr>>, s: Setting, m: Meets)
    requires s.nic != "" && m.ok(ListServices)
    ensures s.nic in links ==> s.nic in VipsFrom(links, addrs, s, m).0
    ensures s.nic !in links ==> (VipsFrom(links, addrs, s, m).1 <==> Wanted(m.services) == {})
  {
  }

  lemma ForwardsReached(h: HostState, s: Setting, m: Meets)
    requires AllOk(m.ok)
    ensures Forwards(Pass(h, s, m).0, s)
  {
    PassParts(h, s, m);
    RouteParts(h, s, m);
  }

  /** From any host: a pass whose calls take effect and whose steps succeed reaches the declared state. */
  lemma ReachesDeclared(h: HostState, s: Setting, m: Meets)
    requires Orders(m.order, Wanted(m.services)) && AllOk(m.ok) && !SomeGatewayWithdrawn(h, s, m)
    requires Pass(h, s, m).1.All()
    ensures Declared(Pass(h, s, m).0, s, Wanted(m.services))
  {
    NoStepUndone(h, s, m);
    ForwardsReached(h, s, m);
    FirewallsReached(h, s, m);
    VipsReached(h, s, m);
    NeighsReached(h, s, m);
  }

  // ----- staying there -----

  lemma LinksStable(h: HostState, s: Setting, ok: HostOracle)
    requires BridgesUp(h, s) && AllOk(ok)
    ensures Bridges(h.links, [s.accBr, s.coreBr], ok) == (h.links, true)
  {
    BridgesSettled(h.links, [s.accBr, s.coreBr], ok);
  }

  /** Present gateways are left alone, and an unusable one only ends the step. */
  lemma {:induction false} GatewaysLeftAlone(
      addrs: map<string, set<Addr>>, links: map<string, bool>, pairs: seq<(string, string)>, ok: HostOracle)
    requires forall q | q in pairs :: GatewayPresent(addrs, q.0, q.1)
    ensures Gateways(addrs, links, pairs, ok).0 == addrs
    decreases |pairs|
  {
    if |pairs| > 0 {
      assert pairs[0] in pairs;
      GatewaysLeftAlone(addrs, links, pairs[1..], ok);
    }
  }

  lemma RouteStable(h: HostState, s: Setting, ok: HostOracle)
    requires RouteSet(h, s)
    ensures SetRoute(h, s, ok).0 == h.routes
  {
  }

  /** The declared rules are a fixpoint of the program, also when the pool is unreadable and its rules are refused. */
  lemma BackendStable(f: N6Nat.Firewall, s: Setting, b: string, ok: HostOracle)
    requires AllOk(ok) && N6Nat.Programmed(f, NatConfig(s))
    ensures N6Nat.Pass(f, NatConfig(s), NatOracle(s, b, ok)) == f
  {
    if s.uePool.Net? { N6Nat.FixedIffProgrammed(f, NatConfig(s), NatOracle(s, b, ok)); }
  }

  lemma NatStable(h: HostState, s: Setting, ok: HostOracle)
    requires AllOk(ok) && FirewallsProgrammed(h, s)
    ensures Nat(h.firewalls, s, ok).0 == h.firewalls
  {
    if s.nic != "" {
      BackendsStable(h, s, ok);
      NatSame(h.firewalls, s, ok);
    }
  }

  lemma NatSame(firewalls: map<string, N6Nat.Firewall>, s: Setting, ok: HostOracle)
    requires s.nic != ""
    requires forall b | b in BACKENDS && b in firewalls ::
      N6Nat.Pass(firewalls[b], NatConfig(s), NatOracle(s, b, ok)) == firewalls[b]
    ensures Nat(firewalls, s, ok).0 == firewalls
  {
    NatEach(firewalls, s, ok);
  }

  lemma BackendsStable(h: HostState, s: Setting, ok: HostOracle)
    requires AllOk(ok) && FirewallsProgrammed(h, s)
    ensures forall b | b in BACKENDS && b in h.firewalls ::
      N6Nat.Pass(h.firewalls[b], NatConfig(s), NatOracle(s, b, ok)) == h.firewalls[b]
  {
    forall b | b in BACKENDS && b in h.firewalls
      ensures N6Nat.Pass(h.firewalls[b], NatConfig(s), NatOracle(s, b, ok)) == h.firewalls[b]
    {
      BackendStable(h.firewalls[b], s, b, ok);
    }
  }

  lemma NicStable(addrs: set<Addr>, want: set<string>, ok: HostOracle)
    requires QuadAddrs(want) <= addrs && forall a | a in addrs :: !Stale(a, want)
    ensures Withdraw(addrs + QuadAddrs(want), want, ok) == addrs
  {
    assert addrs + QuadAddrs(want) == addrs;
  }

  lemma VipsStable(h: HostState, s: Setting, m: Meets)
    requires VipsExact(h, s, Wanted(m.services)) && Orders(m.order, Wanted(m.services)) && AllOk(m.ok)
    ensures VipsFrom(h.links, h.addrs, s, m).0 == h.addrs
  {
    if s.nic != "" && s.nic in h.links {
      AnnounceAdds(h.addrs[s.nic], m.order, m.ok);
      AnnounceSucceedsIff(h.addrs[s.nic], m.order, m.ok);
      assert (set ip | ip in m.order) == Wanted(m.services);
      NicStable(h.addrs[s.nic], Wanted(m.services), m.ok);
    }
  }

  lemma NeighsStable(h: HostState, s: Setting, ok: HostOracle)
    requires NeighsFresh(h, s)
    ensures RefreshAll(h, s, ok) == h.neighs
  {
    if s.coreBr in h.neighs { ForgetFacts(h.neighs[s.coreBr], s.coreNextHop, s.coreBr, ok); }
    if s.accBr in h.neighs { ForgetFacts(h.neighs[s.accBr], s.gnbIP, s.accBr, ok); }
  }

  /** A pass over a declared host changes nothing, in whatever order its maps come out. */
  lemma DeclaredIsStable(h: HostState, s: Setting, m: Meets)
    requires Declared(h, s, Wanted(m.services)) && Orders(m.order, Wanted(m.services)) && AllOk(m.ok)
    ensures Pass(h, s, m).0 == h
  {
    LinksStable(h, s, m.ok);
    OrderHolds(s, m.coreFirst);
    GatewaysLeftAlone(h.addrs, h.links, GatewayOrder(s, m.coreFirst), m.ok);
    assert RpFilters(h, s, m.ok) == h.rpOff && Offloads(h, s, m.ok) == h.offloadOff;
    RouteStable(h, s, m.ok);
    NatStable(h, s, m.ok);
    VipsStable(h, s, m);
    NeighsStable(h, s, m.ok);
    PassAssembles(h, s, m);
  }

  lemma PassAssembles(h: HostState, s: Setting, m: Meets)
    requires Bridges(h.links, [s.accBr, s.coreBr], m.ok).0 == h.links
    requires Gateways(h.addrs, h.links, GatewayOrder(s, m.coreFirst), m.ok).0 == h.addrs
    requires h.forwarding && RpFilters(h, s, m.ok) == h.rpOff && Offloads(h, s, m.ok) == h.offloadOff
    requires SetRoute(h, s, m.ok).0 == h.routes && Nat(h.firewalls, s, m.ok).0 == h.firewalls
    requires VipsFrom(h.links, h.addrs, s, m).0 == h.addrs && RefreshAll(h, s, m.ok) == h.neighs
    ensures Pass(h, s, m).0 == h
  {
  }

  /** Where every step can succeed, the pass changes nothing exactly when the host is as declared. */
  lemma FixedIffDeclared(h: HostState, s: Setting, m: Meets)
    requires Orders(m.order, Wanted(m.services)) && AllOk(m.ok) && Pass(h, s, m).1.All()
    ensures Pass(h, s, m).0 == h <==> Declared(h, s, Wanted(m.services))
  {
    if Declared(h, s, Wanted(m.services)) {
      DeclaredIsStable(h, s, m);
    } else if Pass(h, s, m).0 == h {
      NothingWithdrawn(h, s, m);
      ReachesDeclared(h, s, m);
    }
  }

  /** A withdrawn gateway was there before, so the pass changed something. */
  lemma NothingWithdrawn(h: HostState, s: Setting, m: Meets)
    requires Orders(m.order, Wanted(m.services)) && Pass(h, s, m).1.gateways && Pass(h, s, m).0 == h
    ensures !SomeGatewayWithdrawn(h, s, m)
  {
    OrderHolds(s, m.coreFirst);
    GatewayKeptIff(h, s, m, s.accBr, s.accGw);
    if s.coreBr != s.accBr { GatewayKeptIff(h, s, m, s.coreBr, s.coreGw); }
  }

  /** A second pass straight after a successful one is the identity, whatever order its maps come out in. */
  lemma SecondPassIdentity(h: HostState, s: Setting, m: Meets, later: Meets)
    requires AllOk(m.ok) && AllOk(later.ok) && later.services == m.services && !SomeGatewayWithdrawn(h, s, m)
    requires Orders(m.order, Wanted(m.services)) && Orders(later.order, Wanted(m.services))
    requires Pass(h, s, m).1.All()
    ensures Pass(Pass(h, s, m).0, s, later).0 == Pass(h, s, m).0
  {
    ReachesDeclared(h, s, m);
    DeclaredIsStable(Pass(h, s, m).0, s, later);
  }
}

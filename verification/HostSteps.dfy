/** The steps of a datapath reconcile side by side: what each leaves behind, and exactly when a later one undoes it. */
module HostSteps {
  import opened Text
  import opened Netfilter
  import opened HostPass
  import N6Nat

  // ----- the postcondition of each step -----

  predicate BridgesUp(h: HostState, s: Setting) {
    (!Unset(s.accBr) ==> IsUp(h.links, s.accBr)) && (!Unset(s.coreBr) ==> IsUp(h.links, s.coreBr))
  }

  predicate GatewaysPresent(h: HostState, s: Setting) {
    GatewayPresent(h.addrs, s.accBr, s.accGw) && (s.coreBr != s.accBr ==> GatewayPresent(h.addrs, s.coreBr, s.coreGw))
  }

  predicate RouteSet(h: HostState, s: Setting) {
    !Unset(s.coreNextHop) ==> s.uePool.Net? && s.uePool.pool in h.routes && h.routes[s.uePool.pool] == RouteFor(s)
  }

  /** No backend could be opened at all, or the MASQUERADE heads the chain of one that was. */
  ghost predicate Translating(h: HostState, s: Setting, ok: HostOracle) {
    (forall b | b in BACKENDS :: !Opened(b, h.firewalls, ok))
    || exists b :: b in BACKENDS && Opened(b, h.firewalls, ok) && N6Nat.POSTROUTING in h.firewalls[b].natTable
                   && |h.firewalls[b].natTable[N6Nat.POSTROUTING]| > 0
                   && h.firewalls[b].natTable[N6Nat.POSTROUTING][0] == N6Nat.Masq(NatConfig(s))
  }

  /** The wanted addresses are announced; a stale one is left only where its deletion failed. */
  ghost predicate VipsAnnounced(h: HostState, s: Setting, m: Meets) {
    s.nic != "" && m.ok(ListServices) && s.nic in h.links ==>
      && QuadAddrs(Wanted(m.services)) <= AddrsOf(h.addrs, s.nic)
      && forall a | a in AddrsOf(h.addrs, s.nic) && Stale(a, Wanted(m.services)) :: !m.ok(VipDelete(a.ip))
  }

  /**
   * The address step takes this gateway away again: the egress NIC is its bridge, the step gets to withdrawing, the
   * gateway was there before the pass and only as a /32 ending in 240..254, it is not wanted, and its deletion takes
   * effect.
   */
  ghost predicate GatewayWithdrawn(h: HostState, s: Setting, m: Meets, br: string, gw: string) {
    && !Unset(gw) && br == s.nic && s.nic != "" && m.ok(ListServices)
    && (forall ip | ip in Wanted(m.services) && IsQuad(ip) :: m.ok(VipReplace(ip)))
    && HasIp(AddrsOf(h.addrs, br), gw) && OnlyAsHost(AddrsOf(h.addrs, br), gw)
    && IsRanVipCandidate(gw) && gw !in Wanted(m.services) && m.ok(VipDelete(gw))
  }

  ghost predicate OnlyAsHost(addrs: set<Addr>, ip: string) {
    forall a | a in addrs && a.ip == ip :: a.bits == 32
  }

  ghost predicate SomeGatewayWithdrawn(h: HostState, s: Setting, m: Meets) {
    || GatewayWithdrawn(h, s, m, s.accBr, s.accGw)
    || (s.coreBr != s.accBr && GatewayWithdrawn(h, s, m, s.coreBr, s.coreGw))
  }

  /**
   * Under any subset of failing calls, the postcondition of every step that reported success holds when the pass ends.
   * The one exception is a gateway that the address step withdraws, and the gateways are there exactly when it does
   * not.
   */
  lemma NoStepUndone(h: HostState, s: Setting, m: Meets)
    requires Orders(m.order, Wanted(m.services))
    ensures var (after, r) := Pass(h, s, m);
      && (r.bridges ==> BridgesUp(after, s))
      && (r.gateways ==> (GatewaysPresent(after, s) <==> !SomeGatewayWithdrawn(h, s, m)))
      && (r.forwarding ==> after.forwarding)
      && (r.route ==> RouteSet(after, s))
      && (r.nat_ ==> s.nic != "" && Translating(after, s, m.ok))
      && (r.vip ==> VipsAnnounced(after, s, m))
  {
    var (after, r) := Pass(h, s, m);
    PassParts(h, s, m);
    BridgesRaise(h.links, [s.accBr, s.coreBr], m.ok);
    assert s.accBr in [s.accBr, s.coreBr] && s.coreBr in [s.accBr, s.coreBr];
    VipsApart(after.links, Gateways(h.addrs, after.links, GatewayOrder(s, m.coreFirst), m.ok).0, s, m);
    if r.gateways { GatewaysKeptIff(h, s, m); }
    if r.nat_ { TranslatingBy(h.firewalls, after, s, m.ok); }
  }

  // ----- gateways against the address step -----

  lemma GatewaysKeptIff(h: HostState, s: Setting, m: Meets)
    requires Orders(m.order, Wanted(m.services)) && Pass(h, s, m).1.gateways
    ensures GatewaysPresent(Pass(h, s, m).0, s) <==> !SomeGatewayWithdrawn(h, s, m)
  {
    assert (s.accBr, s.accGw) in GatewayOrder(s, m.coreFirst);
    GatewayKeptIff(h, s, m, s.accBr, s.accGw);
    if s.coreBr != s.accBr {
      assert (s.coreBr, s.coreGw) in GatewayOrder(s, m.coreFirst);
      GatewayKeptIff(h, s, m, s.coreBr, s.coreGw);
    }
  }

  lemma GatewayHere(addrs: map<string, set<Addr>>, links: map<string, bool>, br: string, gw: string, ok: HostOracle)
    requires Gateway(addrs, links, br, gw, ok).1
    ensures var next := Gateway(addrs, links, br, gw, ok).0;
      && AddrsOf(next, br) == AfterGateway(AddrsOf(addrs, br), gw)
      && (!Unset(gw) ==> br in links && IsQuad(gw))
  {
  }

  /** A missing gateway is added as a /24. */
  function AfterGateway(addrs: set<Addr>, gw: string): set<Addr> {
    if Unset(gw) || HasIp(addrs, gw) then addrs else addrs + {Addr(gw, 24)}
  }

  lemma {:induction false} GatewaysApart(addrs: map<string, set<Addr>>, links: map<string, bool>,
                                         pairs: seq<(string, string)>,
                                         ok: HostOracle, l: string)
    requires forall q | q in pairs :: q.0 != l
    ensures AddrsOf(Gateways(addrs, links, pairs, ok).0, l) == AddrsOf(addrs, l)
    decreases |pairs|
  {
    if |pairs| > 0 {
      assert pairs[0] in pairs;
      GatewaysApart(Gateway(addrs, links, pairs[0].0, pairs[0].1, ok).0, links, pairs[1..], ok, l);
    }
  }

  lemma {:induction false} GatewaysEach(addrs: map<string, set<Addr>>, links: map<string, bool>,
                                        pairs: seq<(string, string)>,
                                        ok: HostOracle, q: (string, string))
    requires q in pairs && Gateways(addrs, links, pairs, ok).1
    requires forall i, j | 0 <= i < j < |pairs| :: pairs[i].0 != pairs[j].0
    ensures !Unset(q.1) ==> q.0 in links && IsQuad(q.1)
    ensures AddrsOf(Gateways(addrs, links, pairs, ok).0, q.0) == AfterGateway(AddrsOf(addrs, q.0), q.1)
    decreases |pairs|
  {
    var next := Gateway(addrs, links, pairs[0].0, pairs[0].1, ok).0;
    if q == pairs[0] {
      GatewayHere(addrs, links, q.0, q.1, ok);
      GatewaysApart(next, links, pairs[1..], ok, q.0);
    } else {
      var i :| 0 < i < |pairs| && pairs[i] == q;
      assert pairs[1..][i - 1] == q;
      GatewaysEach(next, links, pairs[1..], ok, q);
      GatewaysApart(addrs, links, [pairs[0]], ok, q.0);
      assert AddrsOf(next, q.0) == AddrsOf(addrs, q.0);
    }
  }

  /** The addresses with the gateway's text after announcing and withdrawing. */
  lemma WithdrawKeepsIff(addrs: set<Addr>, want: set<string>, gw: string, ok: HostOracle)
    requires HasIp(addrs, gw)
    ensures HasIp(Withdraw(addrs + QuadAddrs(want), want, ok), gw) <==>
      !(OnlyAsHost(addrs, gw) && IsRanVipCandidate(gw) && gw !in want && ok(VipDelete(gw)))
  {
    var a :| a in addrs && a.ip == gw;
    var left := Withdraw(addrs + QuadAddrs(want), want, ok);
    if !OnlyAsHost(addrs, gw) {
      var b :| b in addrs && b.ip == gw && b.bits != 32;
      assert b in left;
    } else if !(IsRanVipCandidate(gw) && gw !in want && ok(VipDelete(gw))) {
      assert a in left;
    }
  }

  lemma GatewayKeptIff(h: HostState, s: Setting, m: Meets, br: string, gw: string)
    requires Orders(m.order, Wanted(m.services)) && Pass(h, s, m).1.gateways && (br, gw) in GatewayOrder(s, m.coreFirst)
    ensures GatewayPresent(Pass(h, s, m).0.addrs, br, gw) <==> !GatewayWithdrawn(h, s, m, br, gw)
  {
    PassParts(h, s, m);
    var links := Bridges(h.links, [s.accBr, s.coreBr], m.ok).0;
    var addrs := Gateways(h.addrs, links, GatewayOrder(s, m.coreFirst), m.ok).0;
    GatewaysEach(h.addrs, links, GatewayOrder(s, m.coreFirst), m.ok, (br, gw));
    if !Unset(gw) {
      assert HasIp(AddrsOf(addrs, br), gw) by {
        if !HasIp(AddrsOf(h.addrs, br), gw) { assert Addr(gw, 24) in AddrsOf(addrs, br); }
      }
      VipsKeepIff(links, addrs, s, m, br, gw);
      OnlyAsHostBefore(AddrsOf(h.addrs, br), AddrsOf(addrs, br), gw);
    }
  }

  lemma OnlyAsHostBefore(before: set<Addr>, after: set<Addr>, gw: string)
    requires after == if HasIp(before, gw) then before else before + {Addr(gw, 24)}
    ensures OnlyAsHost(after, gw) <==> HasIp(before, gw) && OnlyAsHost(before, gw)
  {
    if !HasIp(before, gw) { assert Addr(gw, 24) in after; }
  }

  /** On the NIC the step announces, and withdraws if all announcements took effect. */
  lemma VipsOnNic(links: map<string, bool>, addrs: map<string, set<Addr>>, s: Setting, m: Meets)
    requires s.nic != "" && m.ok(ListServices) && s.nic in links && Orders(m.order, Wanted(m.services))
    ensures var (announced, success) := AnnounceAll(AddrsOf(addrs, s.nic), m.order, m.ok);
      && (success <==> forall ip | ip in Wanted(m.services) && IsQuad(ip) :: m.ok(VipReplace(ip)))
      && AddrsOf(VipsFrom(links, addrs, s, m).0, s.nic) ==
           if success then Withdraw(AddrsOf(addrs, s.nic) + QuadAddrs(Wanted(m.services)), Wanted(m.services), m.ok)
             else announced
  {
    AnnounceAdds(AddrsOf(addrs, s.nic), m.order, m.ok);
    AnnounceSucceedsIff(AddrsOf(addrs, s.nic), m.order, m.ok);
    assert (set ip | ip in m.order) == Wanted(m.services);
  }

  /** Everywhere else, and when it does not get to the NIC, it changes nothing. */
  lemma VipsElsewhere(links: map<string, bool>, addrs: map<string, set<Addr>>, s: Setting, m: Meets, l: string)
    requires l != s.nic || s.nic == "" || !m.ok(ListServices) || s.nic !in links
    ensures AddrsOf(VipsFrom(links, addrs, s, m).0, l) == AddrsOf(addrs, l)
  {
  }

  /** The step withdraws the text of an address that is on the link. */
  ghost predicate Withdraws(addrs: set<Addr>, s: Setting, m: Meets, br: string, gw: string) {
    && br == s.nic && s.nic != "" && m.ok(ListServices)
    && (forall ip | ip in Wanted(m.services) && IsQuad(ip) :: m.ok(VipReplace(ip)))
    && OnlyAsHost(addrs, gw) && IsRanVipCandidate(gw) && gw !in Wanted(m.services) && m.ok(VipDelete(gw))
  }

  /** An address text that is on a link before the address step is there after it, unless the step withdraws it. */
  lemma VipsKeepIff(links: map<string, bool>, addrs: map<string, set<Addr>>, s: Setting, m: Meets, br: string,
                    gw: string)
    requires Orders(m.order, Wanted(m.services)) && br in links && HasIp(AddrsOf(addrs, br), gw)
    ensures HasIp(AddrsOf(VipsFrom(links, addrs, s, m).0, br), gw) <==> !Withdraws(AddrsOf(addrs, br), s, m, br, gw)
  {
    if br != s.nic || s.nic == "" || !m.ok(ListServices) {
      VipsElsewhere(links, addrs, s, m, br);
    } else {
      VipsOnNic(links, addrs, s, m);
      WithdrawKeepsIff(AddrsOf(addrs, br), Wanted(m.services), gw, m.ok);
      AnnouncedStays(AddrsOf(addrs, br), m, gw);
    }
  }

  lemma AnnouncedStays(addrs: set<Addr>, m: Meets, gw: string)
    requires HasIp(addrs, gw)
    ensures HasIp(AnnounceAll(addrs, m.order, m.ok).0, gw)
  {
    AnnounceAdds(addrs, m.order, m.ok);
    var a :| a in addrs && a.ip == gw;
    assert a in AnnounceAll(addrs, m.order, m.ok).0;
  }

  /** The addresses after the last address step, seen from the state before it. */
  function VipsFrom(links: map<string, bool>, addrs: map<string, set<Addr>>, s: Setting, m: Meets)
    : (map<string, set<Addr>>, bool)
  {
    Vips(HostState(links, addrs, map[], map[], false, {}, {}, map[]), s.nic, m)
  }

  lemma PassParts(h: HostState, s: Setting, m: Meets)
    ensures var (after, r) := Pass(h, s, m);
      var (links, r1) := Bridges(h.links, [s.accBr, s.coreBr], m.ok);
      var (addrs, r2) := Gateways(h.addrs, links, GatewayOrder(s, m.coreFirst), m.ok);
      && after.links == links && (after.addrs, r.vip) == VipsFrom(links, addrs, s, m)
      && (after.firewalls, r.nat_) == Nat(h.firewalls, s, m.ok)
      && (r.forwarding ==>
            after.forwarding && RpFilters(h, s, m.ok) == after.rpOff && Offloads(h, s, m.ok) == after.offloadOff)
      && (r.route ==> RouteSet(after, s))
      && r.bridges == r1 && r.gateways == r2 && r.forwarding == m.ok(WriteForwarding)
  {
  }

  /** When it succeeds it leaves what `VipsAnnounced` says. */
  lemma VipsApart(links: map<string, bool>, addrs: map<string, set<Addr>>, s: Setting, m: Meets)
    requires Orders(m.order, Wanted(m.services))
    ensures var (after, success) := VipsFrom(links, addrs, s, m);
      success && s.nic != "" && m.ok(ListServices) && s.nic in links ==>
        && QuadAddrs(Wanted(m.services)) <= AddrsOf(after, s.nic)
        && forall a | a in AddrsOf(after, s.nic) && Stale(a, Wanted(m.services)) :: !m.ok(VipDelete(a.ip))
  {
    if s.nic != "" && m.ok(ListServices) && s.nic in links {
      VipsOnNic(links, addrs, s, m);
      WantedStay(AddrsOf(addrs, s.nic), Wanted(m.services), m.ok);
    }
  }

  lemma WantedStay(addrs: set<Addr>, want: set<string>, ok: HostOracle)
    ensures QuadAddrs(want) <= Withdraw(addrs + QuadAddrs(want), want, ok)
  {
    forall a | a in QuadAddrs(want) ensures a in Withdraw(addrs + QuadAddrs(want), want, ok) {
      assert a.ip in want;
    }
  }

  lemma NatTranslates(firewalls: map<string, N6Nat.Firewall>, s: Setting, ok: HostOracle)
    requires s.nic != ""
    ensures forall b | b in BACKENDS && Opened(b, firewalls, ok) && MasqApplied(s, b, firewalls, ok) ::
      var chain := Nat(firewalls, s, ok).0[b].natTable;
      N6Nat.POSTROUTING in chain && |chain[N6Nat.POSTROUTING]| > 0
        && chain[N6Nat.POSTROUTING][0] == N6Nat.Masq(NatConfig(s))
  {
    NatEach(firewalls, s, ok);
  }

  lemma TranslatingBy(firewalls: map<string, N6Nat.Firewall>, after: HostState, s: Setting, ok: HostOracle)
    requires s.nic != "" && Nat(firewalls, s, ok).1 && after.firewalls == Nat(firewalls, s, ok).0
    ensures Translating(after, s, ok)
  {
    NatEach(firewalls, s, ok);
    NatTranslates(firewalls, s, ok);
    assert forall b | b in BACKENDS :: Opened(b, after.firewalls, ok) == Opened(b, firewalls, ok);
    if b :| b in BACKENDS && Opened(b, firewalls, ok) && MasqApplied(s, b, firewalls, ok) {
      assert after.firewalls[b].natTable[N6Nat.POSTROUTING][0] == N6Nat.Masq(NatConfig(s));
    }
  }

  /**
   * What a pass does to packets on this host, in every backend that could be opened: pool packets are accepted in
   * FORWARD when the two insertions went through, and all other packets that are no hairpin keep their verdicts.
   */
  lemma HostVerdicts(h: HostState, s: Setting, m: Meets, b: string, chain: string, policy: Verdict, p: Packet,
                     other: Foreign)
    requires s.nic != "" && s.uePool.Net? && b in h.firewalls
    ensures var before, after := h.firewalls[b], Pass(h, s, m).0.firewalls;
      && b in after
      && (N6Nat.Outside(NatConfig(s), p) ==>
            ChainVerdict(after[b].filterTable, chain, policy, p, other) ==
              ChainVerdict(before.filterTable, chain, policy, p, other))
      && (b in BACKENDS && Opened(b, h.firewalls, m.ok) && N6Nat.FORWARD in before.filterTable
          && m.ok(Firewall(b, N6Nat.InsertRule(N6Nat.FORWARD, N6Nat.FromPool(NatConfig(s)))))
          && m.ok(Firewall(b, N6Nat.InsertRule(N6Nat.FORWARD, N6Nat.ToPool(NatConfig(s)))))
          && (s.uePool.pool.Holds(p.src) || s.uePool.pool.Holds(p.dst)) ==>
            ChainVerdict(after[b].filterTable, N6Nat.FORWARD, policy, p, other) == Accepted)
  {
    var c, ok := NatConfig(s), NatOracle(s, b, m.ok);
    PassParts(h, s, m);
    NatEach(h.firewalls, s, m.ok);
    if N6Nat.Outside(c, p) {
      N6Nat.OutsideUnchanged(h.firewalls[b], c, ok, chain, policy, p, other);
    }
    if N6Nat.FORWARD in h.firewalls[b].filterTable && ok(N6Nat.InsertRule(N6Nat.FORWARD, N6Nat.FromPool(c)))
       && ok(N6Nat.InsertRule(N6Nat.FORWARD, N6Nat.ToPool(c))) && (c.pool.Holds(p.src) || c.pool.Holds(p.dst)) {
      N6Nat.PoolAccepted(h.firewalls[b], c, ok, policy, p, other);
    }
  }

  /**
   * It does happen: with the core gateway already on the core bridge as a /32 whose last octet is 240..254, and that
   * bridge the egress NIC, the address step takes it for a stale address after the gateway step reported success.
   */
  lemma NicOnBridgeUndoes(m: Meets, h: HostState, s: Setting)
    requires AllOk(m.ok) && m.services == [] && m.order == []
    requires s.coreGw == PrintQuad(10, 201, 7, 250) && s.accBr == "acc" && s.coreBr == "core" && s.accGw == ""
      && s.nic == s.coreBr
    requires h.links == map[s.accBr := true, s.coreBr := true] && h.addrs == map[s.coreBr := {Addr(s.coreGw, 32)}]
    ensures Pass(h, s, m).1.gateways && !GatewaysPresent(Pass(h, s, m).0, s)
  {
    QuadIsQuad(10, 201, 7, 250);
    ExampleSucceeds(m, h, s);
    ExampleWithdrawn(m, h, s);
    GatewaysKeptIff(h, s, m);
  }

  lemma ExampleSucceeds(m: Meets, h: HostState, s: Setting)
    requires AllOk(m.ok) && IsQuad(s.coreGw) && s.accBr == "acc" && s.coreBr == "core" && s.accGw == ""
    requires h.links == map[s.accBr := true, s.coreBr := true] && h.addrs == map[s.coreBr := {Addr(s.coreGw, 32)}]
    ensures Pass(h, s, m).1.gateways
  {
    BridgesSettled(h.links, [s.accBr, s.coreBr], m.ok);
    ExampleGateways(m, h, s);
    PassParts(h, s, m);
  }

  lemma ExampleGateways(m: Meets, h: HostState, s: Setting)
    requires IsQuad(s.coreGw) && s.accBr == "acc" && s.coreBr == "core" && s.accGw == ""
    requires h.links == map[s.accBr := true, s.coreBr := true] && h.addrs == map[s.coreBr := {Addr(s.coreGw, 32)}]
    ensures Gateways(h.addrs, h.links, GatewayOrder(s, m.coreFirst), m.ok) == (h.addrs, true)
  {
    assert Addr(s.coreGw, 32) in AddrsOf(h.addrs, s.coreBr);
    GatewaysSettled(h.addrs, h.links, GatewayOrder(s, m.coreFirst), m.ok);
  }

  lemma ExampleWithdrawn(m: Meets, h: HostState, s: Setting)
    requires AllOk(m.ok) && m.services == [] && IsRanVipCandidate(s.coreGw) && IsDigit(s.coreGw[0])
    requires s.coreBr == "core" && s.nic == s.coreBr && h.addrs == map[s.coreBr := {Addr(s.coreGw, 32)}]
    ensures GatewayWithdrawn(h, s, m, s.coreBr, s.coreGw)
  {
    var on := AddrsOf(h.addrs, s.coreBr);
    assert on == {Addr(s.coreGw, 32)} && Addr(s.coreGw, 32) in on;
    assert Wanted(m.services) == {};
  }

  lemma QuadIsQuad(a: nat, b: nat, c: nat, d: nat)
    requires a < 256 && b < 256 && c < 256 && d < 256
    ensures IsQuad(PrintQuad(a, b, c, d))
    ensures IsRanVipCandidate(PrintQuad(a, b, c, d)) <==> 240 <= d <= 254
    ensures IsDigit(PrintQuad(a, b, c, d)[0])
  {
    ScanPrintedQuad(a, b, c, d, "");
    assert PrintQuad(a, b, c, d) + "" == PrintQuad(a, b, c, d);
    assert PrintQuad(a, b, c, d)[0] == Print(a)[0];
  }
}

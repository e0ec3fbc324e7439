/** What one datapath reconcile does to the host, step by step, whichever of its calls fail. */
module HostPass {
  import opened Text
  import opened Netfilter
  import N6Nat

  datatype Addr = Addr(ip: string, bits: nat)
  datatype Route = Route(gateway: Option<string>, link: string)
  datatype Neigh = Neigh(ip: string, mac: string, reachable: bool)

  /** The UE pool text: none, unreadable, or a network. */
  datatype UePool = Undeclared | Malformed | Net(pool: Pool)

  datatype HostState = HostState(
    links: map<string, bool>, addrs: map<string, set<Addr>>, routes: map<Pool, Route>, neighs: map<string, seq<Neigh>>,
    forwarding: bool, rpOff: set<string>, offloadOff: set<string>, firewalls: map<string, N6Nat.Firewall>)

  /** The declared datapath after defaults, with the egress NIC found on this node ("" when there is none). */
  datatype Setting = Setting(
    uePool: UePool, accBr: string, coreBr: string, accGw: string, coreGw: string,
    coreNextHop: string, gnbIP: string, nic: string)

  datatype HostCall =
    | LinkAdd(name: string) | LinkUp(name: string) | AddrAdd(link: string, ip: string)
    | WriteForwarding | WriteRpFilter(name: string) | OffloadOff(name: string) | RouteReplace
    | OpenBackend(backend: string) | Firewall(backend: string, call: N6Nat.FwCall)
    | ListServices | VipReplace(ip: string) | VipDelete(ip: string) | NeighDelete(dev: string, neigh: Neigh)

  /** Which calls of a pass take effect. */
  type HostOracle = HostCall -> bool

  /**
   * What a pass meets: its calls, the order in which the two maps it ranges over come out, and the exposed services.
   */
  datatype Meets = Meets(ok: HostOracle, coreFirst: bool, services: seq<seq<string>>, order: seq<string>)

  ghost predicate AllOk(ok: HostOracle) {
    forall call: HostCall :: ok(call)
  }

  const BACKENDS: seq<string> := ["iptables", "iptables-legacy"]

  predicate Unset(s: string) { s == "" || s == "null" }

  /** The canonical dotted quads, which is how the kernel prints an address. */
  predicate IsQuad(ip: string) {
    var q := ScanQuad(ip);
    |q| == 4 && (forall v | v in q :: 0 <= v < 256) && ip == PrintQuad(q[0], q[1], q[2], q[3])
  }

  function AddrsOf(addrs: map<string, set<Addr>>, link: string): set<Addr> {
    if link in addrs then addrs[link] else {}
  }

  // ----- bridges -----

  function Bridges(links: map<string, bool>, names: seq<string>, ok: HostOracle): (map<string, bool>, bool)
    decreases |names|
  {
    if |names| == 0 then (links, true)
    else if Unset(names[0]) then Bridges(links, names[1..], ok)
    else if names[0] !in links && !ok(LinkAdd(names[0])) then (links, false)
    else
      var added := if names[0] in links then links else links[names[0] := false];
      if ok(LinkUp(names[0])) then Bridges(added[names[0] := true], names[1..], ok) else (added, false)
  }

  predicate IsUp(links: map<string, bool>, name: string) { name in links && links[name] }

  lemma {:induction false} BridgesRaise(links: map<string, bool>, names: seq<string>, ok: HostOracle)
    ensures var (after, success) := Bridges(links, names, ok);
      && links.Keys <= after.Keys && (forall n | IsUp(links, n) :: IsUp(after, n))
      && (success ==> forall n | n in names && !Unset(n) :: IsUp(after, n))
      && (after.Keys <= links.Keys + set n | n in names)
    decreases |names|
  {
    if |names| > 0 {
      assert names == [names[0]] + names[1..];
      if Unset(names[0]) {
        BridgesRaise(links, names[1..], ok);
      } else if (names[0] in links || ok(LinkAdd(names[0]))) && ok(LinkUp(names[0])) {
        var added := if names[0] in links then links else links[names[0] := false];
        BridgesRaise(added[names[0] := true], names[1..], ok);
        assert IsUp(added[names[0] := true], names[0]);
      }
    }
  }

  lemma {:induction false} BridgesSettled(links: map<string, bool>, names: seq<string>, ok: HostOracle)
    requires forall n | n in names && !Unset(n) :: IsUp(links, n) && ok(LinkUp(n))
    ensures Bridges(links, names, ok) == (links, true)
    decreases |names|
  {
    if |names| > 0 {
      assert names == [names[0]] + names[1..];
      if !Unset(names[0]) { assert links[names[0] := true] == links; }
      BridgesSettled(links, names[1..], ok);
    }
  }

  // ----- gateways -----

  predicate HasIp(addrs: set<Addr>, ip: string) {
    exists a | a in addrs :: a.ip == ip
  }

  /** Puts one gateway address on one bridge. */
  function Gateway(addrs: map<string, set<Addr>>, links: map<string, bool>, br: string, gw: string, ok: HostOracle)
    : (map<string, set<Addr>>, bool)
  {
    if Unset(gw) then (addrs, true)
    else if br !in links || !IsQuad(gw) then (addrs, false)
    else if HasIp(AddrsOf(addrs, br), gw) then (addrs, true)
    else if ok(AddrAdd(br, gw)) then (addrs[br := AddrsOf(addrs, br) + {Addr(gw, 24)}], true)
    else (addrs, false)
  }

  /** The bridge-to-gateway map in the order it is ranged over; for one bridge the access gateway wins. */
  function GatewayOrder(s: Setting, coreFirst: bool): seq<(string, string)> {
    if s.accBr == s.coreBr then [(s.accBr, s.accGw)]
    else if coreFirst then [(s.coreBr, s.coreGw), (s.accBr, s.accGw)]
    else [(s.accBr, s.accGw), (s.coreBr, s.coreGw)]
  }

  function Gateways(addrs: map<string, set<Addr>>, links: map<string, bool>, pairs: seq<(string, string)>,
                    ok: HostOracle)
    : (map<string, set<Addr>>, bool)
    decreases |pairs|
  {
    if |pairs| == 0 then (addrs, true)
    else
      var (next, success) := Gateway(addrs, links, pairs[0].0, pairs[0].1, ok);
      if success then Gateways(next, links, pairs[1..], ok) else (next, false)
  }

  predicate GatewayPresent(addrs: map<string, set<Addr>>, br: string, gw: string) {
    !Unset(gw) ==> HasIp(AddrsOf(addrs, br), gw)
  }

  lemma {:induction false} GatewaysAdd(addrs: map<string, set<Addr>>, links: map<string, bool>,
                                       pairs: seq<(string, string)>, ok: HostOracle)
    ensures var (after, success) := Gateways(addrs, links, pairs, ok);
      && (forall l :: AddrsOf(addrs, l) <= AddrsOf(after, l))
      && (success ==> forall q | q in pairs :: GatewayPresent(after, q.0, q.1))
      && (success ==> forall q | q in pairs && !Unset(q.1) :: q.0 in links && IsQuad(q.1))
    decreases |pairs|
  {
    if |pairs| > 0 {
      assert pairs == [pairs[0]] + pairs[1..];
      var (next, success) := Gateway(addrs, links, pairs[0].0, pairs[0].1, ok);
      if success && !Unset(pairs[0].1) && !HasIp(AddrsOf(addrs, pairs[0].0), pairs[0].1) {
        assert Addr(pairs[0].1, 24) in AddrsOf(next, pairs[0].0);
      }
      assert forall l :: AddrsOf(addrs, l) <= AddrsOf(next, l);
      assert success ==> GatewayPresent(next, pairs[0].0, pairs[0].1);
      GatewaysAdd(next, links, pairs[1..], ok);
    }
  }

  lemma {:induction false} GatewaysSettled(addrs: map<string, set<Addr>>, links: map<string, bool>,
                                           pairs: seq<(string, string)>, ok: HostOracle)
    requires forall q | q in pairs :: GatewayPresent(addrs, q.0, q.1)
    requires forall q | q in pairs && !Unset(q.1) :: q.0 in links && IsQuad(q.1)
    ensures Gateways(addrs, links, pairs, ok) == (addrs, true)
    decreases |pairs|
  {
    if |pairs| > 0 {
      assert pairs == [pairs[0]] + pairs[1..];
      assert pairs[0] in pairs;
      GatewaysSettled(addrs, links, pairs[1..], ok);
    }
  }

  // ----- route -----

  function RouteFor(s: Setting): Route {
    Route(if IsQuad(s.coreNextHop) then Some(s.coreNextHop) else None, s.coreBr)
  }

  function SetRoute(h: HostState, s: Setting, ok: HostOracle): (map<Pool, Route>, bool) {
    if Unset(s.coreNextHop) then (h.routes, true)
    else if !s.uePool.Net? || s.coreBr !in h.links || !ok(RouteReplace) then (h.routes, false)
    else (h.routes[s.uePool.pool := RouteFor(s)], true)
  }

  // ----- N6 firewall -----

  /** The firewall configuration; an unreadable pool stands for no address at all. */
  function NatConfig(s: Setting): N6Nat.Config {
    N6Nat.Config(if s.uePool.Net? then s.uePool.pool else Pool(1, 0), s.nic, s.accBr)
  }

  /** The calls on one backend; with an unreadable pool every rule that names it is refused. */
  function NatOracle(s: Setting, backend: string, ok: HostOracle): N6Nat.Oracle {
    (call: N6Nat.FwCall) =>
      ok(Firewall(backend, call))
      && (s.uePool.Net? || call.SeeChain? || call == N6Nat.AppendRule(N6Nat.HairpinRule(NatConfig(s))))
  }

  predicate MasqApplied(s: Setting, backend: string, firewalls: map<string, N6Nat.Firewall>, ok: HostOracle) {
    && backend in firewalls && N6Nat.POSTROUTING in firewalls[backend].natTable
    && NatOracle(s, backend, ok)(N6Nat.InsertRule(N6Nat.POSTROUTING, N6Nat.Masq(NatConfig(s))))
  }

  function Opened(backend: string, firewalls: map<string, N6Nat.Firewall>, ok: HostOracle): bool {
    backend in firewalls && ok(OpenBackend(backend))
  }

  /** The firewalls after the backends have been gone through, how many took the MASQUERADE, and how many refused it. */
  function NatBackends(firewalls: map<string, N6Nat.Firewall>, s: Setting, backends: seq<string>, ok: HostOracle)
    : (map<string, N6Nat.Firewall>, nat, nat)
    decreases |backends|
  {
    if |backends| == 0 then (firewalls, 0, 0)
    else
      var b := backends[0];
      if !Opened(b, firewalls, ok) then NatBackends(firewalls, s, backends[1..], ok)
      else
        var next := firewalls[b := N6Nat.Pass(firewalls[b], NatConfig(s), NatOracle(s, b, ok))];
        var (rest, applied, errs) := NatBackends(next, s, backends[1..], ok);
        if MasqApplied(s, b, firewalls, ok) then (rest, applied + 1, errs) else (rest, applied, errs + 1)
  }

  function Nat(firewalls: map<string, N6Nat.Firewall>, s: Setting, ok: HostOracle): (map<string, N6Nat.Firewall>,
               bool) {
    if s.nic == "" then (firewalls, false)
    else
      var (after, applied, errs) := NatBackends(firewalls, s, BACKENDS, ok);
      (after, !(applied == 0 && errs > 0))
  }

  function Over(firewalls: map<string, N6Nat.Firewall>, s: Setting, b: string, ok: HostOracle): map<string,
                N6Nat.Firewall> {
    if Opened(b, firewalls, ok) then firewalls[b := N6Nat.Pass(firewalls[b], NatConfig(s), NatOracle(s, b, ok))]
      else firewalls
  }

  lemma OneBackend(firewalls: map<string, N6Nat.Firewall>, s: Setting, b: string, rest: seq<string>, ok: HostOracle)
    ensures var (after, applied, errs) := NatBackends(Over(firewalls, s, b, ok), s, rest, ok);
      NatBackends(firewalls, s, [b] + rest, ok) ==
        if !Opened(b, firewalls, ok) then (after, applied, errs)
        else if MasqApplied(s, b, firewalls, ok) then (after, applied + 1, errs) else (after, applied, errs + 1)
  {
    assert ([b] + rest)[1..] == rest;
  }

  lemma NatTwice(firewalls: map<string, N6Nat.Firewall>, s: Setting, ok: HostOracle)
    requires s.nic != ""
    ensures var (x, y) := (BACKENDS[0], BACKENDS[1]);
      var mid := Over(firewalls, s, x, ok);
      && Nat(firewalls, s, ok).0 == Over(mid, s, y, ok)
      && (Nat(firewalls, s, ok).1 <==>
            (!Opened(x, firewalls, ok) && !Opened(y, mid, ok))
            || (Opened(x, firewalls, ok) && MasqApplied(s, x, firewalls, ok))
                  || (Opened(y, mid, ok) && MasqApplied(s, y, mid, ok)))
  {
    var x, y := BACKENDS[0], BACKENDS[1];
    assert BACKENDS == [x] + ([y] + []);
    OneBackend(firewalls, s, x, [y] + [], ok);
    OneBackend(Over(firewalls, s, x, ok), s, y, [], ok);
  }

  lemma OverSecond(firewalls: map<string, N6Nat.Firewall>, s: Setting, ok: HostOracle)
    ensures var (x, y) := (BACKENDS[0], BACKENDS[1]);
      var mid := Over(firewalls, s, x, ok);
      && Opened(y, mid, ok) == Opened(y, firewalls, ok)
      && (Opened(y, mid, ok) ==>
            mid[y] == firewalls[y] && MasqApplied(s, y, mid, ok) == MasqApplied(s, y, firewalls, ok))
  {
    assert BACKENDS[0] != BACKENDS[1];
  }

  lemma TwoBackends()
    ensures BACKENDS[0] != BACKENDS[1] && forall b :: b in BACKENDS <==> b == BACKENDS[0] || b == BACKENDS[1]
  {
  }

  lemma NatFirewalls(firewalls: map<string, N6Nat.Firewall>, s: Setting, ok: HostOracle, x: string, y: string)
    requires x == BACKENDS[0] && y == BACKENDS[1]
    ensures var after := Over(Over(firewalls, s, x, ok), s, y, ok);
      && after.Keys == firewalls.Keys
      && (forall b | b in firewalls :: after[b] ==
            if (b == x || b == y) && ok(OpenBackend(b))
              then N6Nat.Pass(firewalls[b], NatConfig(s), NatOracle(s, b, ok)) else firewalls[b])
  {
    OverSecond(firewalls, s, ok);
  }

  /** Every backend is passed over on its own. */
  lemma NatEach(firewalls: map<string, N6Nat.Firewall>, s: Setting, ok: HostOracle)
    requires s.nic != ""
    ensures var after := Nat(firewalls, s, ok).0;
      && after.Keys == firewalls.Keys
      && (forall b | b in firewalls :: after[b] ==
            if b in BACKENDS && ok(OpenBackend(b)) then N6Nat.Pass(firewalls[b], NatConfig(s), NatOracle(s, b, ok))
              else firewalls[b])
    ensures Nat(firewalls, s, ok).1 <==>
      ((forall b | b in BACKENDS :: !Opened(b, firewalls, ok))
       || exists b :: b in BACKENDS && Opened(b, firewalls, ok) && MasqApplied(s, b, firewalls, ok))
  {
    var x, y := BACKENDS[0], BACKENDS[1];
    TwoBackends();
    NatTwice(firewalls, s, ok);
    NatFirewalls(firewalls, s, ok, x, y);
    OverSecond(firewalls, s, ok);
  }

  // ----- N2 addresses -----

  /** Does this address text look like a managed N2 address? */
  predicate IsRanVipCandidate(ip: string) {
    var q := ScanQuad(ip);
    |q| == 4 && 240 <= q[3] <= 254
  }

  function Wanted(services: seq<seq<string>>): set<string> {
    set i, j | 0 <= i < |services| && 0 <= j < |services[i]| && services[i][j] != "" :: services[i][j]
  }

  function AnnounceAll(addrs: set<Addr>, order: seq<string>, ok: HostOracle): (set<Addr>, bool)
    decreases |order|
  {
    if |order| == 0 then (addrs, true)
    else if !IsQuad(order[0]) then AnnounceAll(addrs, order[1..], ok)
    else if ok(VipReplace(order[0])) then AnnounceAll(addrs + {Addr(order[0], 32)}, order[1..], ok)
    else (addrs, false)
  }

  predicate Stale(a: Addr, want: set<string>) {
    a.bits == 32 && a.ip !in want && IsRanVipCandidate(a.ip)
  }

  function Withdraw(addrs: set<Addr>, want: set<string>, ok: HostOracle): set<Addr> {
    set a | a in addrs && !(Stale(a, want) && ok(VipDelete(a.ip)))
  }

  function Vips(h: HostState, nic: string, m: Meets): (map<string, set<Addr>>, bool) {
    var want := Wanted(m.services);
    if nic == "" || !m.ok(ListServices) then (h.addrs, true)
    else if nic !in h.links then (h.addrs, want == {})
    else
      var (announced, success) := AnnounceAll(AddrsOf(h.addrs, nic), m.order, m.ok);
      if success then (h.addrs[nic := Withdraw(announced, want, m.ok)], true) else (h.addrs[nic := announced], false)
  }

  function QuadAddrs(want: set<string>): set<Addr> {
    set ip | ip in want && IsQuad(ip) :: Addr(ip, 32)
  }

  ghost predicate Orders(order: seq<string>, want: set<string>) {
    forall ip :: ip in order <==> ip in want
  }

  lemma {:induction false} AnnounceAdds(addrs: set<Addr>, order: seq<string>, ok: HostOracle)
    ensures var (after, success) := AnnounceAll(addrs, order, ok);
      && addrs <= after <= addrs + QuadAddrs(set ip | ip in order)
      && (success ==> after == addrs + QuadAddrs(set ip | ip in order))
    decreases |order|
  {
    if |order| > 0 {
      assert order == [order[0]] + order[1..];
      if !IsQuad(order[0]) {
        AnnounceAdds(addrs, order[1..], ok);
        assert QuadAddrs(set ip | ip in order) == QuadAddrs(set ip | ip in order[1..]);
      } else {
        AnnounceAdds(addrs + {Addr(order[0], 32)}, order[1..], ok);
        assert QuadAddrs(set ip | ip in order) == QuadAddrs(set ip | ip in order[1..]) + {Addr(order[0], 32)};
      }
    }
  }

  /** Wanted texts that are no addresses are skipped; the first refused announcement ends the step. */
  lemma {:induction false} AnnounceSucceedsIff(addrs: set<Addr>, order: seq<string>, ok: HostOracle)
    ensures AnnounceAll(addrs, order, ok).1 <==> forall ip | ip in order && IsQuad(ip) :: ok(VipReplace(ip))
    decreases |order|
  {
    if |order| > 0 {
      assert order == [order[0]] + order[1..];
      AnnounceSucceedsIff(if IsQuad(order[0]) then addrs + {Addr(order[0], 32)} else addrs, order[1..], ok);
    }
  }

  /** The addresses a successful pass leaves on the NIC. */
  function VipSet(addrs: set<Addr>, want: set<string>): set<Addr> {
    (set a | a in addrs && !Stale(a, want)) + QuadAddrs(want)
  }

  lemma VipsSucceed(addrs: set<Addr>, want: set<string>, order: seq<string>, ok: HostOracle)
    requires Orders(order, want) && AnnounceAll(addrs, order, ok).1
    requires forall a | a in addrs && Stale(a, want) :: ok(VipDelete(a.ip))
    ensures Withdraw(AnnounceAll(addrs, order, ok).0, want, ok) == VipSet(addrs, want)
  {
    AnnounceAdds(addrs, order, ok);
    assert (set ip | ip in order) == want;
    assert forall a | a in QuadAddrs(want) :: a.ip in want;
  }

  lemma VipSetSettles(addrs: set<Addr>, want: set<string>)
    ensures VipSet(VipSet(addrs, want), want) == VipSet(addrs, want)
  {
  }

  // ----- neighbours -----

  function Forget(neighs: seq<Neigh>, ip: string, dev: string, ok: HostOracle): seq<Neigh> {
    if |neighs| == 0 then []
    else if Forgotten(neighs[0], ip, dev, ok) then Forget(neighs[1..], ip, dev, ok)
    else [neighs[0]] + Forget(neighs[1..], ip, dev, ok)
  }

  function Refresh(links: map<string, bool>, neighs: map<string, seq<Neigh>>, ip: string, dev: string, ok: HostOracle)
    : map<string, seq<Neigh>>
  {
    if Unset(ip) || dev !in links || dev !in neighs then neighs
    else neighs[dev := Forget(neighs[dev], ip, dev, ok)]
  }

  /** The address-to-device map of the step; one address has one device, the core bridge winning. */
  function RefreshAll(h: HostState, s: Setting, ok: HostOracle): map<string, seq<Neigh>> {
    if s.gnbIP == s.coreNextHop then Refresh(h.links, h.neighs, s.coreNextHop, s.coreBr, ok)
    else Refresh(h.links, Refresh(h.links, h.neighs, s.gnbIP, s.accBr, ok), s.coreNextHop, s.coreBr, ok)
  }

  /** The first list is the second with some entries left out. */
  predicate Sublist<T(==)>(a: seq<T>, b: seq<T>) {
    |a| == 0 || (|b| > 0 && if a[0] == b[0] then Sublist(a[1..], b[1..]) else Sublist(a, b[1..]))
  }

  predicate Forgotten(n: Neigh, ip: string, dev: string, ok: HostOracle) {
    n.ip == ip && !n.reachable && ok(NeighDelete(dev, n))
  }

  predicate NoStale(neighs: seq<Neigh>, ip: string) {
    forall n | n in neighs :: n.ip == ip ==> n.reachable
  }

  lemma {:induction false} ForgetFacts(neighs: seq<Neigh>, ip: string, dev: string, ok: HostOracle)
    ensures var after := Forget(neighs, ip, dev, ok);
      && Sublist(after, neighs) && (forall n :: n in after <==> n in neighs && !Forgotten(n, ip, dev, ok))
      && ((forall n :: ok(NeighDelete(dev, n))) ==> NoStale(after, ip))
      && (NoStale(neighs, ip) ==> after == neighs)
  {
    if |neighs| > 0 {
      assert neighs == [neighs[0]] + neighs[1..];
      ForgetFacts(neighs[1..], ip, dev, ok);
    }
  }

  // ----- the whole pass -----

  datatype Results = Results(bridges: bool, gateways: bool, forwarding: bool, route: bool, nat_: bool, vip: bool) {
    predicate All() { bridges && gateways && forwarding && route && nat_ && vip }
  }

  function RpFilters(h: HostState, s: Setting, ok: HostOracle): set<string> {
    h.rpOff + set k | k in ["all", s.coreBr, s.accBr] && ok(WriteRpFilter(k))
  }

  /** Bridges, then gateways. */
  function LayerTwo(h: HostState, s: Setting, m: Meets): (HostState, bool, bool) {
    var (links, bridges) := Bridges(h.links, [s.accBr, s.coreBr], m.ok);
    var (addrs, gateways) := Gateways(h.addrs, links, GatewayOrder(s, m.coreFirst), m.ok);
    (h.(links := links, addrs := addrs), bridges, gateways)
  }

  function Offloads(h: HostState, s: Setting, ok: HostOracle): set<string> {
    h.offloadOff + set k | k in [s.coreBr, s.accBr] && ok(OffloadOff(k))
  }

  function Forwarding(h: HostState, s: Setting, ok: HostOracle): (HostState, bool) {
    if ok(WriteForwarding)
    then (h.(forwarding := true, rpOff := RpFilters(h, s, ok), offloadOff := Offloads(h, s, ok)), true)
    else (h, false)
  }

  /** Forwarding, then route, then firewall. */
  function LayerThree(h: HostState, s: Setting, m: Meets): (HostState, bool, bool, bool) {
    var (h3, forwarding) := Forwarding(h, s, m.ok);
    var (routes, route) := SetRoute(h3, s, m.ok);
    var (firewalls, nat_) := Nat(h3.firewalls, s, m.ok);
    (h3.(routes := routes, firewalls := firewalls), forwarding, route, nat_)
  }

  /** Announced addresses, then neighbours. */
  function Edge(h: HostState, s: Setting, m: Meets): (HostState, bool) {
    var (vips, vip) := Vips(h, s.nic, m);
    (h.(addrs := vips, neighs := RefreshAll(h, s, m.ok)), vip)
  }

  /** Every step runs, whatever the ones before it returned. */
  function Pass(h: HostState, s: Setting, m: Meets): (HostState, Results) {
    var (h2, bridges, gateways) := LayerTwo(h, s, m);
    var (h5, forwarding, route, nat_) := LayerThree(h2, s, m);
    var (after, vip) := Edge(h5, s, m);
    (after, Results(bridges, gateways, forwarding, route, nat_, vip))
  }
}

/** The node agent as it runs: a host edited in place, step by step, each step tied to its part of `HostPass`. */
module DatapathAgent {
  import opened Text
  import opened Netfilter
  import opened HostPass
  import HostOutcome
  import N6Nat

  class Host {
    var links: map<string, bool>
    var addrs: map<string, set<Addr>>
    var routes: map<Pool, Route>
    var neighs: map<string, seq<Neigh>>
    var forwarding: bool
    var rpOff: set<string>
    var offloadOff: set<string>
    var firewalls: map<string, N6Nat.Firewall>

    ghost function View(): HostState
      reads this
    {
      HostState(links, addrs, routes, neighs, forwarding, rpOff, offloadOff, firewalls)
    }

    /** Creates the bridges that are missing and brings them up. */
    method EnsureBridge(names: seq<string>, ok: HostOracle) returns (success: bool)
      modifies `links
      ensures (links, success) == Bridges(old(links), names, ok)
      ensures HostOutcome.BridgesLeft(old(links), links, names, success)
    {
      HostOutcome.BridgesLeave(links, names, ok);
      for i := 0 to |names|
        invariant Bridges(old(links), names, ok) == Bridges(links, names[i..], ok)
      {
        var n := names[i];
        assert names[i..][1..] == names[i + 1..];
        if Unset(n) {
          continue;
        }
        if n !in links {
          if !ok(LinkAdd(n)) {
            return false;
          }
          links := links[n := false];
        }
        if !ok(LinkUp(n)) {
          return false;
        }
        links := links[n := true];
      }
      return true;
    }

    /** Puts the gateway addresses on their bridges. */
    method EnsureBridgeAddr(pairs: seq<(string, string)>, ok: HostOracle) returns (success: bool)
      modifies `addrs
      ensures (addrs, success) == Gateways(old(addrs), links, pairs, ok)
      ensures HostOutcome.GatewaysLeft(old(addrs), addrs, pairs, success)
    {
      HostOutcome.GatewaysLeave(addrs, links, pairs, ok);
      for i := 0 to |pairs|
        invariant Gateways(old(addrs), links, pairs, ok) == Gateways(addrs, links, pairs[i..], ok)
      {
        var br, gw := pairs[i].0, pairs[i].1;
        assert pairs[i..][1..] == pairs[i + 1..];
        if Unset(gw) {
          continue;
        }
        if br !in links || !IsQuad(gw) {
          return false;
        }
        var existing := AddrsOf(addrs, br);
        var found := HasAddress(existing, gw);
        if !found {
          if !ok(AddrAdd(br, gw)) {
            return false;
          }
          addrs := addrs[br := existing + {Addr(gw, 24)}];
        }
      }
      return true;
    }

    /** Turns forwarding on; the reverse-path filters and the bridges' checksum offload are best effort. */
    method EnsureForwarding(s: Setting, ok: HostOracle) returns (success: bool)
      modifies `forwarding, `rpOff, `offloadOff
      ensures (View(), success) == Forwarding(old(View()), s, ok)
      ensures HostOutcome.ForwardingLeft(old(View()), View(), s, ok, success)
    {
      HostOutcome.ForwardingLeaves(View(), s, ok);
      if !ok(WriteForwarding) {
        return false;
      }
      forwarding := true;
      FiltersOff(["all", s.coreBr, s.accBr], ok);
      OffloadsOff([s.coreBr, s.accBr], ok);
      return true;
    }

    method FiltersOff(names: seq<string>, ok: HostOracle)
      modifies `rpOff
      ensures rpOff == old(rpOff) + set k | k in names && ok(WriteRpFilter(k))
    {
      for i := 0 to |names|
        invariant rpOff == old(rpOff) + set k | k in names[..i] && ok(WriteRpFilter(k))
      {
        assert names[..i + 1] == names[..i] + [names[i]];
        if ok(WriteRpFilter(names[i])) {
          rpOff := rpOff + {names[i]};
        }
      }
      assert names[..|names|] == names;
    }

    method OffloadsOff(names: seq<string>, ok: HostOracle)
      modifies `offloadOff
      ensures offloadOff == old(offloadOff) + set k | k in names && ok(OffloadOff(k))
    {
      for i := 0 to |names|
        invariant offloadOff == old(offloadOff) + set k | k in names[..i] && ok(OffloadOff(k))
      {
        assert names[..i + 1] == names[..i] + [names[i]];
        if ok(OffloadOff(names[i])) {
          offloadOff := offloadOff + {names[i]};
        }
      }
      assert names[..|names|] == names;
    }

    /** Routes the UE pool through the UPF. */
    method EnsureRoute(s: Setting, ok: HostOracle) returns (success: bool)
      modifies `routes
      ensures (routes, success) == SetRoute(old(View()), s, ok)
      ensures HostOutcome.RouteLeft(old(routes), routes, s, success)
    {
      HostOutcome.RouteLeaves(View(), s, ok);
      if Unset(s.coreNextHop) {
        return true;
      }
      if !s.uePool.Net? || s.coreBr !in links || !ok(RouteReplace) {
        return false;
      }
      routes := routes[s.uePool.pool := Route(if IsQuad(s.coreNextHop) then Some(s.coreNextHop) else None, s.coreBr)];
      return true;
    }

    /** Programs the N6 breakout in every iptables backend that can be opened. */
    method EnsureN6Nat(s: Setting, ok: HostOracle) returns (success: bool)
      modifies `firewalls
      ensures (firewalls, success) == Nat(old(firewalls), s, ok)
      // What packets meet afterwards, when the calls take effect.
      ensures AllOk(ok) && s.nic != "" ==> HostOutcome.FirewallsLeft(old(firewalls), firewalls, s)
    {
      HostOutcome.NatLeaves(firewalls, s, ok);
      if s.nic == "" {
        return false;
      }
      var applied, errs := 0, 0;
      for i := 0 to |BACKENDS|
        invariant var (total, a, e) := NatBackends(old(firewalls), s, BACKENDS, ok);
                  var (rest, a', e') := NatBackends(firewalls, s, BACKENDS[i..], ok);
                  total == rest && a == applied + a' && e == errs + e'
      {
        var backend := BACKENDS[i];
        assert BACKENDS[i..][1..] == BACKENDS[i + 1..];
        if !Opened(backend, firewalls, ok) {
          continue;
        }
        if MasqApplied(s, backend, firewalls, ok) {
          applied := applied + 1;
        } else {
          errs := errs + 1;
        }
        ProgramBackend(backend, s, ok);
      }
      return !(applied == 0 && errs > 0);
    }

    /** The iptables calls on one backend, in order. */
    method ProgramBackend(backend: string, s: Setting, ok: HostOracle)
      requires backend in firewalls
      modifies `firewalls
      ensures firewalls == old(firewalls)[backend := N6Nat.Pass(old(firewalls)[backend], NatConfig(s),
        NatOracle(s, backend, ok))]
    {
      var c, o := NatConfig(s), NatOracle(s, backend, ok);
      var f := firewalls[backend];
      var masq := N6Nat.Masq(c);
      var natTable := N6Nat.DeleteIfExists(f.natTable, N6Nat.POSTROUTING, masq,
        o(N6Nat.DeleteRule(N6Nat.POSTROUTING, masq)));
      natTable := N6Nat.Insert(natTable, N6Nat.POSTROUTING, masq, o(N6Nat.InsertRule(N6Nat.POSTROUTING, masq)));
      var filter := N6Nat.Reinsert(f.filterTable, N6Nat.FORWARD, N6Nat.FromPool(c), o);
      filter := N6Nat.Reinsert(filter, N6Nat.FORWARD, N6Nat.ToPool(c), o);
      filter := N6Nat.Append(filter, N6Nat.FORWARD, N6Nat.HairpinRule(c), o(N6Nat.AppendRule(N6Nat.HairpinRule(c))));
      if o(N6Nat.SeeChain(N6Nat.DOCKER_USER)) && N6Nat.DOCKER_USER in filter {
        filter := N6Nat.Reinsert(filter, N6Nat.DOCKER_USER, N6Nat.FromPool(c), o);
        filter := N6Nat.Reinsert(filter, N6Nat.DOCKER_USER, N6Nat.ToPool(c), o);
      }
      var mangle := N6Nat.Append(f.mangleTable, N6Nat.FORWARD, N6Nat.ClampFrom(c),
        o(N6Nat.AppendRule(N6Nat.ClampFrom(c))));
      mangle := N6Nat.Append(mangle, N6Nat.FORWARD, N6Nat.ClampTo(c), o(N6Nat.AppendRule(N6Nat.ClampTo(c))));
      firewalls := firewalls[backend := N6Nat.Firewall(natTable, filter, mangle)];
    }

    /** The addresses the exposed services carry. */
    method WantedAddresses(services: seq<seq<string>>) returns (want: set<string>)
      ensures want == Wanted(services)
    {
      want := {};
      for i := 0 to |services|
        invariant want == Wanted(services[..i])
      {
        var svc := services[i];
        for j := 0 to |svc|
          invariant want == Wanted(services[..i]) + set k | 0 <= k < j && svc[k] != "" :: svc[k]
        {
          if svc[j] != "" {
            want := want + {svc[j]};
          }
        }
        WantedMore(services, i);
      }
      assert services[..|services|] == services;
    }

    /** Announces the wanted addresses on the NIC as /32 and withdraws stale ones. */
    method EnsureN2Vip(nic: string, m: Meets) returns (success: bool)
      modifies `addrs
      ensures (addrs, success) == Vips(old(View()), nic, m)
      ensures HostOutcome.RangesOver(m) ==> HostOutcome.VipsLeft(old(View()), addrs, nic, m, success)
    {
      if HostOutcome.RangesOver(m) { HostOutcome.VipsLeave(View(), nic, m); }
      if nic == "" || !m.ok(ListServices) {
        return true;
      }
      var want := WantedAddresses(m.services);
      if nic !in links {
        return want == {};
      }
      var current := AddrsOf(addrs, nic);
      for i := 0 to |m.order|
        invariant AnnounceAll(AddrsOf(old(addrs), nic), m.order, m.ok) == AnnounceAll(current, m.order[i..], m.ok)
        invariant addrs == old(addrs)
      {
        assert m.order[i..][1..] == m.order[i + 1..];
        if !IsQuad(m.order[i]) {
          continue;
        }
        if !m.ok(VipReplace(m.order[i])) {
          addrs := addrs[nic := current];
          return false;
        }
        current := current + {Addr(m.order[i], 32)};
      }
      var kept := WithdrawStale(current, want, m.ok);
      addrs := addrs[nic := kept];
      return true;
    }

    /** Forgets the neighbour entries of one address on one device that are not known to be reachable. */
    method RefreshNeigh(ip: string, dev: string, ok: HostOracle)
      modifies `neighs
      ensures neighs == Refresh(links, old(neighs), ip, dev, ok)
      ensures HostOutcome.NeighsLeft(links, old(neighs), neighs, ip, dev, ok)
    {
      if Unset(ip) || dev !in links || dev !in neighs {
        return;
      }
      var kept: seq<Neigh> := [];
      var listed := neighs[dev];
      for i := 0 to |listed|
        invariant Forget(listed, ip, dev, ok) == kept + Forget(listed[i..], ip, dev, ok)
        invariant neighs == old(neighs)
      {
        var n := listed[i];
        assert listed[i..][1..] == listed[i + 1..];
        if n.ip != ip || n.reachable || !ok(NeighDelete(dev, n)) {
          kept := kept + [n];
        }
      }
      assert listed[|listed|..] == [] && Forget(listed, ip, dev, ok) == kept;
      neighs := neighs[dev := kept];
      HostOutcome.NeighsLeave(links, old(neighs), ip, dev, ok);
    }

    /** The neighbour step over its address-to-device map. */
    method RefreshNeighs(s: Setting, ok: HostOracle)
      modifies `neighs
      ensures neighs == RefreshAll(old(View()), s, ok)
    {
      if s.gnbIP != s.coreNextHop {
        RefreshNeigh(s.gnbIP, s.accBr, ok);
      }
      RefreshNeigh(s.coreNextHop, s.coreBr, ok);
    }

    method ReconcileLayerTwo(s: Setting, m: Meets) returns (bridges: bool, gateways: bool)
      modifies `links, `addrs
      ensures (View(), bridges, gateways) == LayerTwo(old(View()), s, m)
    {
      bridges := EnsureBridge([s.accBr, s.coreBr], m.ok);
      gateways := EnsureBridgeAddr(GatewayOrder(s, m.coreFirst), m.ok);
    }

    method ReconcileLayerThree(s: Setting, m: Meets) returns (forward: bool, route: bool, nat_: bool)
      modifies `forwarding, `rpOff, `offloadOff, `routes, `firewalls
      ensures (View(), forward, route, nat_) == LayerThree(old(View()), s, m)
    {
      forward := EnsureForwarding(s, m.ok);
      route := EnsureRoute(s, m.ok);
      nat_ := EnsureN6Nat(s, m.ok);
    }

    method ReconcileEdge(s: Setting, m: Meets) returns (vip: bool)
      modifies `addrs, `neighs
      ensures (View(), vip) == Edge(old(View()), s, m)
    {
      vip := EnsureN2Vip(s.nic, m);
      RefreshNeighs(s, m.ok);
    }

    /** One reconcile: nothing without a UE pool; otherwise every host step runs, and failures are collected. */
    method Reconcile(s: Setting, m: Meets) returns (r: Option<Results>)
      modifies this
      ensures if s.uePool.Undeclared? then r == None && View() == old(View())
              else r.Some? && (View(), r.value) == HostPass.Pass(old(View()), s, m)
      // With all calls taking effect and all steps succeeding, the host is as declared.
      ensures r.Some? ==> HostOutcome.LeftOnSuccess(old(View()), View(), r.value, s, m)
    {
      if s.uePool.Undeclared? {
        return None;
      }
      HostOutcome.SuccessLeaves(View(), s, m);
      var results := ReconcileSteps(s, m);
      return Some(results);
    }

    /** Every step, whatever the ones before it returned. */
    method ReconcileSteps(s: Setting, m: Meets) returns (r: Results)
      modifies this
      ensures (View(), r) == HostPass.Pass(old(View()), s, m)
    {
      var bridges, gateways := ReconcileLayerTwo(s, m);
      var forward, route, nat_ := ReconcileLayerThree(s, m);
      var vip := ReconcileEdge(s, m);
      return Results(bridges, gateways, forward, route, nat_, vip);
    }
  }

  /** Goes through the addresses of a link until it meets the text. */
  method HasAddress(existing: set<Addr>, ip: string) returns (found: bool)
    ensures found == HasIp(existing, ip)
  {
    var rest := existing;
    while rest != {}
      invariant rest <= existing && forall a | a in existing - rest :: a.ip != ip
      decreases |rest|
    {
      var a :| a in rest;
      if a.ip == ip {
        return true;
      }
      rest := rest - {a};
    }
    return false;
  }

  lemma WantedMore(services: seq<seq<string>>, i: nat)
    requires i < |services|
    ensures Wanted(services[..i + 1]) ==
            Wanted(services[..i]) + set k | 0 <= k < |services[i]| && services[i][k] != "" :: services[i][k]
  {
    var front, more := services[..i], services[..i + 1];
    forall ip | ip in Wanted(more)
      ensures ip in Wanted(front) + set k | 0 <= k < |services[i]| && services[i][k] != "" :: services[i][k]
    {
      var a, b :| 0 <= a < |more| && 0 <= b < |more[a]| && more[a][b] != "" && more[a][b] == ip;
      if a < i { assert front[a][b] == ip; }
    }
    forall ip | ip in Wanted(front) ensures ip in Wanted(more) {
      var a, b :| 0 <= a < |front| && 0 <= b < |front[a]| && front[a][b] != "" && front[a][b] == ip;
      assert more[a][b] == ip;
    }
    forall k | 0 <= k < |services[i]| && services[i][k] != "" ensures services[i][k] in Wanted(more) {
      assert more[i][k] == services[i][k];
    }
  }

  /** Goes through the addresses of the NIC and drops the stale ones whose deletion takes effect. */
  method WithdrawStale(addrs: set<Addr>, want: set<string>, ok: HostOracle) returns (kept: set<Addr>)
    ensures kept == Withdraw(addrs, want, ok)
  {
    kept := addrs;
    var rest := addrs;
    while rest != {}
      invariant rest <= addrs
      invariant forall a | a in addrs :: a in kept <==> a in rest || !(Stale(a, want) && ok(VipDelete(a.ip)))
      invariant kept <= addrs
      decreases |rest|
    {
      var a :| a in rest;
      if a.bits == 32 && a.ip !in want && IsRanVipCandidate(a.ip) && ok(VipDelete(a.ip)) {
        kept := kept - {a};
      }
      rest := rest - {a};
    }
  }
}

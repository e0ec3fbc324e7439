/** What derivation leaves in the fields of a site: the texts, the ranges they denote, and how two sites compare. */
module DerivedAddresses {
  import opened Text
  import opened Sites
  import opened VipPool
  import opened EdgeSites
  import Addr = Addressing
  import SiteIndex

  // ----- the texts -----

  /** A field that was set is as before; one that was not holds the text. */
  predicate SetTo(before: string, after: string, text: string) {
    after == if before != "" then before else text
  }

  /** Pods and UEs, the slice and the egress NIC. */
  predicate NetworksPlanned(before: Spec, after: Spec, idx: nat) {
    && SetTo(before.podCIDR, after.podCIDR, "10." + Print(idx) + ".0.0/16")
    && SetTo(before.uePool, after.uePool, "172." + Print(idx) + ".0.0/16")
    && SetTo(before.sliceSD, after.sliceSD, "102030") && SetTo(before.egressNic, after.egressNic, "eth0")
  }

  /** N3 and N6. */
  predicate DatapathPlanned(before: Spec, after: Spec, idx: nat) {
    && SetTo(before.accessCIDR, after.accessCIDR, "10.200." + Print(idx) + ".10/24")
    && SetTo(before.coreCIDR, after.coreCIDR, "10.201." + Print(idx) + ".10/24")
    && SetTo(before.accessGw, after.accessGw, "10.200." + Print(idx) + ".1")
    && SetTo(before.coreGw, after.coreGw, "10.201." + Print(idx) + ".1")
    && SetTo(before.coreNextHop, after.coreNextHop, "10.201." + Print(idx) + ".10")
    && SetTo(before.gnbIP, after.gnbIP, "10.200." + Print(idx) + ".20")
  }

  /** The fields that depend on nothing but the name's index. */
  predicate FollowsPlan(before: Spec, after: Spec, idx: nat) {
    NetworksPlanned(before, after, idx) && DatapathPlanned(before, after, idx)
      && SetTo(before.ranNic, after.ranNic, "eth0")
  }

  lemma Digits()
    ensures Print(0) == "0" && Print(1) == "1" && Print(10) == "10" && Print(16) == "16" && Print(20) == "20"
    ensures Print(24) == "24" && Print(172) == "172" && Print(200) == "200" && Print(201) == "201"
  {
    assert PrintNat(17) == "17" && PrintNat(20) == "20";
    assert PrintNat(1) == "1" && PrintNat(2) == "2";
  }

  lemma NetworkTexts(idx: nat)
    ensures Addr.PodCidr(idx) == "10." + Print(idx) + ".0.0/16" && Addr.UePool(idx) == "172." + Print(idx) + ".0.0/16"
    ensures Addr.AccessCidr(idx) == "10.200." + Print(idx) + ".10/24"
    ensures Addr.CoreCidr(idx) == "10.201." + Print(idx) + ".10/24"
  {
    Digits();
    var i := Print(idx);
    assert "10" + "." + i + "." + "0" + "." + "0" + "/" + "16" == "10." + i + ".0.0/16";
    assert "172" + "." + i + "." + "0" + "." + "0" + "/" + "16" == "172." + i + ".0.0/16";
    assert "10" + "." + "200" + "." + i + "." + "10" + "/" + "24" == "10.200." + i + ".10/24";
    assert "10" + "." + "201" + "." + i + "." + "10" + "/" + "24" == "10.201." + i + ".10/24";
  }

  lemma HostTexts(idx: nat)
    ensures Addr.AccessGateway(idx) == "10.200." + Print(idx) + ".1"
    ensures Addr.CoreGateway(idx) == "10.201." + Print(idx) + ".1"
    ensures Addr.CoreNextHop(idx) == "10.201." + Print(idx) + ".10"
    ensures Addr.GnbAddress(idx) == "10.200." + Print(idx) + ".20"
  {
    Digits();
    var i := Print(idx);
    assert "10" + "." + "200" + "." + i + "." + "1" == "10.200." + i + ".1";
    assert "10" + "." + "201" + "." + i + "." + "1" == "10.201." + i + ".1";
    assert "10" + "." + "201" + "." + i + "." + "10" == "10.201." + i + ".10";
    assert "10" + "." + "200" + "." + i + "." + "20" == "10.200." + i + ".20";
  }

  lemma NetworksArePlanned(spec: Spec, idx: nat)
    ensures NetworksPlanned(spec, Networks(spec, idx), idx)
  {
    NetworkTexts(idx);
  }

  lemma DatapathIsPlanned(spec: Spec, idx: nat)
    ensures DatapathPlanned(spec, Datapath(spec, idx), idx)
  {
    NetworkTexts(idx);
    HostTexts(idx);
  }

  /** From whatever was set before, every field of the plan ends up with its text or with what it was set to. */
  lemma DerivedFollowsPlan(spec: Spec, name: string, sites: Store, listed: bool, nodeAddress: string)
    ensures FollowsPlan(spec, Derived(spec, name, sites, listed, nodeAddress), SiteIndex.Index(name))
  {
    NetworksArePlanned(spec, SiteIndex.Index(name));
    DatapathIsPlanned(Networks(spec, SiteIndex.Index(name)), SiteIndex.Index(name));
  }

  // ----- the ranges -----

  /** Nobody set an address of the plan by hand. */
  predicate Unplanned(spec: Spec) {
    && spec.podCIDR == "" && spec.uePool == "" && spec.accessCIDR == "" && spec.coreCIDR == ""
    && spec.accessGw == "" && spec.coreGw == "" && spec.coreNextHop == "" && spec.gnbIP == ""
  }

  lemma WideParses(text: string, a: nat, idx: nat)
    requires a < 256 && idx < 256 && text == Addr.Cidr(a, idx, 0, 0, 16)
    ensures Addr.ParseCidr(text) == Some(Addr.Range((a * 256 + idx) * 65536, 65536))
  {
    Addr.WideRange(a, idx);
  }

  lemma NarrowParses(text: string, b: nat, idx: nat)
    requires b < 256 && idx < 256 && text == Addr.Cidr(10, b, idx, 10, 24)
    ensures Addr.ParseCidr(text) == Some(Addr.Range((10 * 65536 + b * 256 + idx) * 256, 256))
  {
    Addr.NarrowRange(b, idx);
  }

  /** The four networks of a site: pods, UE pool, N3 and N6. */
  function NetField(spec: Spec, i: nat): string
    requires i < 4
  {
    if i == 0 then spec.podCIDR else if i == 1 then spec.uePool else if i == 2 then spec.accessCIDR else spec.coreCIDR
  }

  /** 10.x/16, 172.x/16, 10.200.x/24 and 10.201.x/24. */
  function PlannedRange(idx: nat, i: nat): Addr.Range
    requires i < 4
  {
    if i == 0 then Addr.Range((10 * 256 + idx) * 65536, 65536)
    else if i == 1 then Addr.Range((172 * 256 + idx) * 65536, 65536)
    else if i == 2 then Addr.Range((10 * 65536 + 200 * 256 + idx) * 256, 256)
    else Addr.Range((10 * 65536 + 201 * 256 + idx) * 256, 256)
  }

  lemma NetTexts(spec: Spec, name: string, sites: Store, listed: bool, nodeAddress: string, idx: nat, i: nat)
    requires Unplanned(spec) && idx == SiteIndex.Index(name) && i < 4
    ensures NetField(Derived(spec, name, sites, listed, nodeAddress), i) ==
      if i == 0 then Addr.Cidr(10, idx, 0, 0, 16) else if i == 1 then Addr.Cidr(172, idx, 0, 0, 16)
      else if i == 2 then Addr.Cidr(10, 200, idx, 10, 24) else Addr.Cidr(10, 201, idx, 10, 24)
  {
  }

  lemma TextParses(text: string, idx: nat, i: nat)
    requires idx < 256 && i < 4
    requires text == if i == 0 then Addr.Cidr(10, idx, 0, 0, 16) else if i == 1 then Addr.Cidr(172, idx, 0, 0, 16)
                     else if i == 2 then Addr.Cidr(10, 200, idx, 10, 24) else Addr.Cidr(10, 201, idx, 10, 24)
    ensures Addr.ParseCidr(text) == Some(PlannedRange(idx, i))
  {
    if i == 0 {
      WideParses(text, 10, idx);
    } else if i == 1 {
      WideParses(text, 172, idx);
    } else if i == 2 {
      NarrowParses(text, 200, idx);
    } else {
      NarrowParses(text, 201, idx);
    }
  }

  /** Each stored network of a derived site is that of its index. */
  lemma StoredNetwork(spec: Spec, name: string, sites: Store, listed: bool, nodeAddress: string, i: nat)
    requires Unplanned(spec) && i < 4
    ensures Addr.ParseCidr(NetField(Derived(spec, name, sites, listed, nodeAddress), i)) ==
      Some(PlannedRange(SiteIndex.Index(name), i))
  {
    NetTexts(spec, name, sites, listed, nodeAddress, SiteIndex.Index(name), i);
    TextParses(NetField(Derived(spec, name, sites, listed, nodeAddress), i), SiteIndex.Index(name), i);
  }

  /** The text is that host of the stored network. */
  predicate IsHost(text: string, network: string, host: nat) {
    var net := Addr.ParseCidr(network);
    net.Some? && net.value.size == 256 && Addr.ParseAddress(text) == Some(net.value.lo + host)
  }

  lemma HostIn(text: string, network: string, host: nat, lo: int)
    requires Addr.ParseAddress(text) == Some(lo + host) && Addr.ParseCidr(network) == Some(Addr.Range(lo, 256))
    ensures IsHost(text, network, host)
  {
  }

  lemma AddressReads(text: string, a: nat, b: nat, c: nat, d: nat, address: int)
    requires a < 256 && b < 256 && c < 256 && d < 256 && text == PrintQuad(a, b, c, d)
    requires address == Addr.Address(a, b, c, d)
    ensures Addr.ParseAddress(text) == Some(address)
  {
    Addr.AddressOfPrinted(a, b, c, d);
  }

  lemma HostTextsOf(spec: Spec, name: string, sites: Store, listed: bool, nodeAddress: string, idx: nat)
    requires Unplanned(spec) && idx == SiteIndex.Index(name)
    ensures var after := Derived(spec, name, sites, listed, nodeAddress);
      && after.accessGw == PrintQuad(10, 200, idx, 1) && after.gnbIP == PrintQuad(10, 200, idx, 20)
      && after.coreGw == PrintQuad(10, 201, idx, 1) && after.coreNextHop == PrintQuad(10, 201, idx, 10)
  {
  }

  lemma Flat(b: nat, idx: nat, host: nat)
    ensures Addr.Address(10, b, idx, host) == (10 * 65536 + b * 256 + idx) * 256 + host
  {
  }

  /** The stored N3 gateway is host 1 of the stored N3 network. */
  lemma AccessGatewayHost(spec: Spec, name: string, sites: Store, listed: bool, nodeAddress: string)
    requires Unplanned(spec)
    ensures var after := Derived(spec, name, sites, listed, nodeAddress); IsHost(after.accessGw, after.accessCIDR, 1)
  {
    var after, idx := Derived(spec, name, sites, listed, nodeAddress), SiteIndex.Index(name);
    var lo := PlannedRange(idx, 2).lo;
    StoredNetwork(spec, name, sites, listed, nodeAddress, 2);
    assert after.accessGw == PrintQuad(10, 200, idx, 1) by {
      HostTextsOf(spec, name, sites, listed, nodeAddress, idx);
    }
    assert lo + 1 == Addr.Address(10, 200, idx, 1) by { Flat(200, idx, 1); }
    AddressReads(after.accessGw, 10, 200, idx, 1, lo + 1);
    HostIn(after.accessGw, after.accessCIDR, 1, lo);
  }

  /** The stored address of the gNB is host 20 of it. */
  lemma GnbHost(spec: Spec, name: string, sites: Store, listed: bool, nodeAddress: string)
    requires Unplanned(spec)
    ensures var after := Derived(spec, name, sites, listed, nodeAddress); IsHost(after.gnbIP, after.accessCIDR, 20)
  {
    var after, idx := Derived(spec, name, sites, listed, nodeAddress), SiteIndex.Index(name);
    var lo := PlannedRange(idx, 2).lo;
    StoredNetwork(spec, name, sites, listed, nodeAddress, 2);
    assert after.gnbIP == PrintQuad(10, 200, idx, 20) by {
      HostTextsOf(spec, name, sites, listed, nodeAddress, idx);
    }
    assert lo + 20 == Addr.Address(10, 200, idx, 20) by { Flat(200, idx, 20); }
    AddressReads(after.gnbIP, 10, 200, idx, 20, lo + 20);
    HostIn(after.gnbIP, after.accessCIDR, 20, lo);
  }

  /** The stored N6 gateway is host 1 of the stored N6 network. */
  lemma CoreGatewayHost(spec: Spec, name: string, sites: Store, listed: bool, nodeAddress: string)
    requires Unplanned(spec)
    ensures var after := Derived(spec, name, sites, listed, nodeAddress); IsHost(after.coreGw, after.coreCIDR, 1)
  {
    var after, idx := Derived(spec, name, sites, listed, nodeAddress), SiteIndex.Index(name);
    var lo := PlannedRange(idx, 3).lo;
    StoredNetwork(spec, name, sites, listed, nodeAddress, 3);
    assert after.coreGw == PrintQuad(10, 201, idx, 1) by {
      HostTextsOf(spec, name, sites, listed, nodeAddress, idx);
    }
    assert lo + 1 == Addr.Address(10, 201, idx, 1) by { Flat(201, idx, 1); }
    AddressReads(after.coreGw, 10, 201, idx, 1, lo + 1);
    HostIn(after.coreGw, after.coreCIDR, 1, lo);
  }

  /** The stored next hop is host 10 of it. */
  lemma NextHopHost(spec: Spec, name: string, sites: Store, listed: bool, nodeAddress: string)
    requires Unplanned(spec)
    ensures var after := Derived(spec, name, sites, listed, nodeAddress); IsHost(after.coreNextHop, after.coreCIDR, 10)
  {
    var after, idx := Derived(spec, name, sites, listed, nodeAddress), SiteIndex.Index(name);
    var lo := PlannedRange(idx, 3).lo;
    StoredNetwork(spec, name, sites, listed, nodeAddress, 3);
    assert after.coreNextHop == PrintQuad(10, 201, idx, 10) by {
      HostTextsOf(spec, name, sites, listed, nodeAddress, idx);
    }
    assert lo + 10 == Addr.Address(10, 201, idx, 10) by { Flat(201, idx, 10); }
    AddressReads(after.coreNextHop, 10, 201, idx, 10, lo + 10);
    HostIn(after.coreNextHop, after.coreCIDR, 10, lo);
  }

  /** Network `i` of the one site and network `j` of the other have an address in common. */
  predicate Meet(a: Spec, i: nat, b: Spec, j: nat)
    requires i < 4 && j < 4
  {
    var x, y := Addr.ParseCidr(NetField(a, i)), Addr.ParseCidr(NetField(b, j));
    x.Some? && y.Some? && x.value.Overlaps(y.value)
  }

  lemma MeetOf(a: Spec, i: nat, b: Spec, j: nat, m: nat, n: nat)
    requires i < 4 && j < 4 && 2 <= m <= 198 && 2 <= n <= 198
    requires Addr.ParseCidr(NetField(a, i)) == Some(PlannedRange(m, i))
    requires Addr.ParseCidr(NetField(b, j)) == Some(PlannedRange(n, j))
    ensures Meet(a, i, b, j) <==> i == j && m == n
  {
  }

  /** Two networks of derived sites have an address in common exactly when they are of one kind and index. */
  lemma StoredMeetIff(spec: Spec, name: string, sites: Store, listed: bool, nodeAddress: string, i: nat,
                      spec': Spec, name': string, sites': Store, listed': bool, nodeAddress': string, j: nat)
    requires Unplanned(spec) && Unplanned(spec') && i < 4 && j < 4
    ensures Meet(Derived(spec, name, sites, listed, nodeAddress), i,
                 Derived(spec', name', sites', listed', nodeAddress'), j)
       <==> i == j && SiteIndex.Index(name) == SiteIndex.Index(name')
  {
    StoredNetwork(spec, name, sites, listed, nodeAddress, i);
    StoredNetwork(spec', name', sites', listed', nodeAddress', j);
    MeetOf(Derived(spec, name, sites, listed, nodeAddress), i, Derived(spec', name', sites', listed', nodeAddress'), j,
           SiteIndex.Index(name), SiteIndex.Index(name'));
  }

  /** The hardware address that goes with the gNB's address: 02:00:0a:c8, the index in two hex digits, 14. */
  lemma GnbHardwareAddress(address: string, idx: nat)
    requires idx < 256 && address == "10.200." + Print(idx) + ".20"
    ensures var hex := "0123456789abcdef";
      Addr.GnbMac(address) == "02:00:0a:c8:" + [hex[idx / 16], hex[idx % 16]] + ":14"
  {
    FixedHex();
    assert address == Addr.GnbAddress(idx) by { HostTexts(idx); }
    HardwareAddress(address, 10, 200, idx, 20, "0a", "c8", Addr.Hex2(idx), "14");
    HardwareText(Addr.Hex2(idx));
  }

  lemma HardwareText(i: string)
    ensures "02:00:" + "0a" + ":" + "c8" + ":" + i + ":" + "14" == "02:00:0a:c8:" + i + ":14"
  {
  }

  lemma HardwareAddress(address: string, a: nat, b: nat, c: nat, d: nat, x: string, y: string, z: string, w: string)
    requires a < 256 && b < 256 && c < 256 && d < 256 && address == PrintQuad(a, b, c, d)
    requires Addr.Hex2(a) == x && Addr.Hex2(b) == y && Addr.Hex2(c) == z && Addr.Hex2(d) == w
    ensures Addr.GnbMac(address) == "02:00:" + x + ":" + y + ":" + z + ":" + w
  {
    Addr.MacOfPrinted(a, b, c, d);
  }

  lemma FixedHex()
    ensures Addr.Hex2(10) == "0a" && Addr.Hex2(200) == "c8" && Addr.Hex2(20) == "14"
  {
  }

  // ----- the RAN side -----

  /** The first three numbers of an address text; the lab's network when there are not that many. */
  function FirstThree(address: string): string {
    var q := ScanQuad(address);
    if |q| >= 3 then Print(q[0]) + "." + Print(q[1]) + "." + Print(q[2]) else "192.168.4"
  }

  /**
   * The RAN subnet of a site that has none is .240/28 of the network of its node, if it is colocated and the node is
   * known, and else of its server.
   */
  lemma SubnetFollowsServer(spec: Spec, name: string, sites: Store, listed: bool, nodeAddress: string)
    requires spec.ranSubnet == ""
    ensures Derived(spec, name, sites, listed, nodeAddress).ranSubnet ==
      FirstThree(if spec.colocated && nodeAddress != "" then nodeAddress else spec.server) + ".240/28"
  {
    assert ScanQuad("") == [];
    NetBaseOrNone(if spec.colocated && nodeAddress != "" then nodeAddress else spec.server);
  }

  lemma NetBaseOrNone(address: string)
    ensures NetBase(address) == if |ScanQuad(address)| >= 3 then FirstThree(address) else ""
    ensures |FirstThree(address)| > 0
  {
  }

  /** A server a.b.c.d gives the subnet a.b.c.240/28. */
  lemma SubnetOfQuad(spec: Spec, name: string, sites: Store, listed: bool, a: int, b: int, c: int, d: int)
    requires FitsInt64(a) && FitsInt64(b) && FitsInt64(c) && FitsInt64(d) && spec.ranSubnet == ""
    requires spec.server == Print(a) + "." + Print(b) + "." + Print(c) + "." + Print(d)
    ensures Derived(spec, name, sites, listed, "").ranSubnet == Print(a) + "." + Print(b) + "." + Print(c) + ".240/28"
  {
    ScanPrintedQuad(a, b, c, d, "");
    assert PrintQuad(a, b, c, d) + "" == PrintQuad(a, b, c, d);
    SubnetFollowsServer(spec, name, sites, listed, "");
  }

  /** The network that N2 addresses are taken from: that of the subnet, if it can be read. */
  function RanNetwork(spec: Spec, nodeAddress: string): string {
    if |ScanQuad(spec.ranSubnet)| >= 3 then FirstThree(spec.ranSubnet)
    else FirstThree(if spec.colocated && nodeAddress != "" then nodeAddress else spec.server)
  }

  lemma BaseIs(spec: Spec, nodeAddress: string)
    ensures RanBase(spec, nodeAddress) == RanNetwork(spec, nodeAddress)
  {
    NetBaseOrNone(spec.ranSubnet);
    NetBaseOrNone(if spec.colocated && nodeAddress != "" then nodeAddress else spec.server);
  }

  /** A colocated core gets host 240 of that network. */
  lemma ColocatedAddress(spec: Spec, name: string, sites: Store, listed: bool, nodeAddress: string)
    requires spec.colocated && spec.n2VIP == ""
    ensures Derived(spec, name, sites, listed, nodeAddress).n2VIP == RanNetwork(spec, nodeAddress) + ".240"
  {
    BaseIs(spec, nodeAddress);
    ReservedText();
    assert RanNetwork(spec, nodeAddress) + "." + "240" == RanNetwork(spec, nodeAddress) + ".240";
  }

  /** Another site's address ends in that number. */
  ghost predicate HeldByOther(sites: Store, name: string, octet: int) {
    exists k :: k in sites && k.name != name
                && |ScanQuad(sites[k].body.spec.n2VIP)| == 4 && ScanQuad(sites[k].body.spec.n2VIP)[3] == octet
  }

  lemma TakenIs(sites: Store, name: string, octet: int)
    requires 241 <= octet <= 254
    ensures Taken(sites, true, name, octet) <==> HeldByOther(sites, name, octet)
  {
    assert ScanQuad("") == [];
    forall k | k in sites
      ensures Blocks(k, sites[k], name, octet) <==>
        k.name != name && |ScanQuad(sites[k].body.spec.n2VIP)| == 4 && ScanQuad(sites[k].body.spec.n2VIP)[3] == octet
    {
    }
  }

  /** The host of the pool that is tried after `j` others. */
  function Tried(idx: nat, j: nat): int {
    241 + (idx + j) % 14
  }

  /** All hosts tried before are held by others, and this one is not. */
  ghost predicate FirstOfOwn(sites: Store, name: string, idx: nat, k: nat) {
    !HeldByOther(sites, name, Tried(idx, k)) && forall j: nat | j < k :: HeldByOther(sites, name, Tried(idx, j))
  }

  /**
   * The first host of that network that no other site holds, counting from 241 on from the name's index, once around up
   * to 254; host 254 when all fourteen are held.
   */
  ghost predicate FirstOwnAddress(vip: string, network: string, name: string, sites: Store) {
    var idx := SiteIndex.Index(name);
    || (exists k: nat :: k < 14 && FirstOfOwn(sites, name, idx, k) && vip == network + "." + Print(Tried(idx, k)))
    || (vip == network + "." + Print(254) && forall octet | 241 <= octet <= 254 :: HeldByOther(sites, name, octet))
  }

  /** A core of its own gets the first host of its network that is free. */
  lemma StandaloneAddress(spec: Spec, name: string, sites: Store, nodeAddress: string)
    requires !spec.colocated && spec.n2VIP == ""
    ensures FirstOwnAddress(Derived(spec, name, sites, true, nodeAddress).n2VIP, RanNetwork(spec, nodeAddress), name,
                            sites)
  {
    var idx := SiteIndex.Index(name);
    var base := RanBase(spec, nodeAddress);
    BaseIs(spec, nodeAddress);
    AllocateMeets(sites, true, name, "", base);
    var r :| IsFirstFree(sites, true, name, idx % SLOTS, r)
      && Allocate(sites, true, name, "", base) == Vip(base, if r.Some? then r.value else LAST);
    if r.Some? {
      var k := FreeAt(sites, name, idx, r.value);
      assert Vip(base, r.value) == RanNetwork(spec, nodeAddress) + "." + Print(Tried(idx, k));
    } else {
      forall octet | 241 <= octet <= 254 ensures HeldByOther(sites, name, octet) { TakenIs(sites, name, octet); }
    }
  }

  /** When the sites cannot be listed, it gets the first one tried, whoever holds it. */
  lemma BlindAddress(spec: Spec, name: string, sites: Store, nodeAddress: string)
    requires !spec.colocated && spec.n2VIP == ""
    ensures Derived(spec, name, sites, false, nodeAddress).n2VIP ==
      RanNetwork(spec, nodeAddress) + "." + Print(241 + SiteIndex.Index(name) % 14)
  {
    BaseIs(spec, nodeAddress);
    AllocateMeets(sites, false, name, "", RanBase(spec, nodeAddress));
    BlindAllocation(sites, name, RanBase(spec, nodeAddress), Derived(spec, name, sites, false, nodeAddress).n2VIP);
  }

  /** What derivation leaves on the RAN side of a site. */
  ghost predicate RanPlanned(before: Spec, after: Spec, name: string, sites: Store, listed: bool, nodeAddress: string) {
    && SetTo(before.ranSubnet, after.ranSubnet,
             FirstThree(if before.colocated && nodeAddress != "" then nodeAddress else before.server) + ".240/28")
    && (before.n2VIP != "" ==> after.n2VIP == before.n2VIP)
    && (before.n2VIP == "" && before.colocated ==> after.n2VIP == RanNetwork(before, nodeAddress) + ".240")
    && (before.n2VIP == "" && !before.colocated && listed ==>
          FirstOwnAddress(after.n2VIP, RanNetwork(before, nodeAddress), name, sites))
    && (before.n2VIP == "" && !before.colocated && !listed ==>
          after.n2VIP == RanNetwork(before, nodeAddress) + "." + Print(241 + SiteIndex.Index(name) % 14))
    && SetTo(before.ranNic, after.ranNic, "eth0")
  }

  lemma RanIsPlanned(spec: Spec, name: string, sites: Store, listed: bool, nodeAddress: string)
    ensures RanPlanned(spec, Derived(spec, name, sites, listed, nodeAddress), name, sites, listed, nodeAddress)
  {
    if spec.ranSubnet == "" { SubnetFollowsServer(spec, name, sites, listed, nodeAddress); }
    if spec.n2VIP == "" && spec.colocated { ColocatedAddress(spec, name, sites, listed, nodeAddress); }
    if spec.n2VIP == "" && !spec.colocated {
      if listed {
        StandaloneAddress(spec, name, sites, nodeAddress);
      } else {
        BlindAddress(spec, name, sites, nodeAddress);
      }
    }
  }

  lemma FreeAt(sites: Store, name: string, idx: nat, octet: int) returns (k: nat)
    requires IsFirstFree(sites, true, name, idx % SLOTS, Some(octet))
    ensures k < 14 && FirstOfOwn(sites, name, idx, k) && octet == Tried(idx, k)
  {
    k :| 0 <= k < SLOTS && octet == Slot(idx % SLOTS, k) && forall j | 0 <= j < k ::
      Taken(sites, true, name, Slot(idx % SLOTS, j));
    SlotFrom(idx, k);
    TakenIs(sites, name, octet);
    forall j: nat | j < k ensures HeldByOther(sites, name, Tried(idx, j)) {
      SlotFrom(idx, j);
      TakenIs(sites, name, Slot(idx % SLOTS, j));
    }
  }

  lemma SlotFrom(idx: nat, j: nat)
    ensures Slot(idx % SLOTS, j) == Tried(idx, j)
  {
  }
}

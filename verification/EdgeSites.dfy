/** Address derivation for one EdgeSite: the RAN base, and the set-if-empty plan. */
module EdgeSites {
  import opened Text
  import opened Sites
  import opened VipPool
  import opened Addr = Addressing
  import SiteIndex

  const DEFAULT_BASE := "192.168.4"

  /** "A.B.C" of "A.B.C.D" or "A.B.C"; "" when fewer than three numbers scan. */
  function NetBase(s: string): string {
    var q := ScanQuad(s);
    if |q| >= 3 then Triple(q[0], q[1], q[2]).Text() else ""
  }

  /** The RAN network of a site: the explicit subnet, else the mgmt node for a colocated core, else the server. */
  function RanBase(spec: Spec, nodeAddress: string): string {
    Prefer(NetBase(spec.ranSubnet), Prefer(NetBase(SiteAddress(spec, nodeAddress)), DEFAULT_BASE))
  }

  function SiteAddress(spec: Spec, nodeAddress: string): string {
    if spec.colocated && nodeAddress != "" then nodeAddress else spec.server
  }

  function Prefer(first: string, second: string): string {
    if first != "" then first else second
  }

  function Fill(current: string, v: string): string {
    if current == "" then v else current
  }

  function Networks(spec: Spec, idx: nat): Spec {
    spec.(podCIDR := Fill(spec.podCIDR, PodCidr(idx)),
          uePool := Fill(spec.uePool, Addr.UePool(idx)),
          sliceSD := Fill(spec.sliceSD, "102030"),
          egressNic := Fill(spec.egressNic, "eth0"))
  }

  function Datapath(spec: Spec, idx: nat): Spec {
    spec.(accessCIDR := Fill(spec.accessCIDR, AccessCidr(idx)),
          coreCIDR := Fill(spec.coreCIDR, CoreCidr(idx)),
          accessGw := Fill(spec.accessGw, AccessGateway(idx)),
          coreGw := Fill(spec.coreGw, CoreGateway(idx)),
          coreNextHop := Fill(spec.coreNextHop, Addr.CoreNextHop(idx)),
          gnbIP := Fill(spec.gnbIP, GnbAddress(idx)))
  }

  function Ran(spec: Spec, base: string, vip: string): Spec {
    spec.(ranSubnet := Fill(spec.ranSubnet, base + ".240/28"),
          n2VIP := Fill(spec.n2VIP, vip),
          ranNic := Fill(spec.ranNic, "eth0"))
  }

  /** The spec after derivation, when `vip` is the address chosen for it. */
  function Filled(spec: Spec, name: string, base: string, vip: string): Spec {
    Ran(Datapath(Networks(spec, SiteIndex.Index(name)), SiteIndex.Index(name)), base, vip)
  }

  ghost function ChosenVip(spec: Spec, name: string, sites: Store, listed: bool, base: string): string {
    if spec.colocated then Vip(base, RESERVED) else Allocate(sites, listed, name, spec.n2VIP, base)
  }

  ghost function Derived(spec: Spec, name: string, sites: Store, listed: bool, nodeAddress: string): Spec {
    var base := RanBase(spec, nodeAddress);
    Filled(spec, name, base, ChosenVip(spec, name, sites, listed, base))
  }

  /**
   * The base and the address do not depend on the fields filled before them; a stage that changes nothing filled
   * nothing.
   */
  lemma FilledInStages(spec: Spec, name: string, sites: Store, listed: bool, nodeAddress: string)
    ensures var idx := SiteIndex.Index(name);
      var staged := Datapath(Networks(spec, idx), idx);
      var base := RanBase(staged, nodeAddress);
      && Derived(spec, name, sites, listed, nodeAddress) ==
         Ran(staged, base, ChosenVip(staged, name, sites, listed, base))
      && (Derived(spec, name, sites, listed, nodeAddress) == spec <==>
          Networks(spec, idx) == spec && staged == Networks(spec, idx)
          && Derived(spec, name, sites, listed, nodeAddress) == staged)
  {
  }

  // ----- the base -----

  lemma NetBaseShape(s: string)
    ensures NetBase(s) != "" ==> IsBase(NetBase(s))
  {
    var q := ScanQuad(s);
    if |q| >= 3 {
      assert q[0] in q && q[1] in q && q[2] in q;
      assert Triple(q[0], q[1], q[2]).Fits();
    }
  }

  lemma DefaultBaseShape()
    ensures IsBase(DEFAULT_BASE)
  {
    assert Print(192) == "192" && Print(168) == "168" && Print(4) == "4";
    assert DEFAULT_BASE == Triple(192, 168, 4).Text();
  }

  lemma RanBaseShape(spec: Spec, nodeAddress: string)
    ensures IsBase(RanBase(spec, nodeAddress))
  {
    NetBaseShape(spec.ranSubnet);
    NetBaseShape(SiteAddress(spec, nodeAddress));
    DefaultBaseShape();
    PreferShape(NetBase(SiteAddress(spec, nodeAddress)), DEFAULT_BASE);
    PreferShape(NetBase(spec.ranSubnet), Prefer(NetBase(SiteAddress(spec, nodeAddress)), DEFAULT_BASE));
  }

  lemma PreferShape(first: string, second: string)
    requires (first != "" ==> IsBase(first)) && IsBase(second)
    ensures IsBase(Prefer(first, second))
  {
  }

  lemma SubnetText(a: string, b: string, c: string)
    ensures a + "." + b + "." + c + ".240/28" == a + "." + b + "." + c + "." + "240" + "/28"
  {
  }

  lemma BaseOfQuad(s: string, a: int, b: int, c: int, d: int)
    requires ScanQuad(s) == [a, b, c, d]
    ensures NetBase(s) == Triple(a, b, c).Text()
  {
  }

  /** Re-reading the persisted subnet gives the base back. */
  lemma BaseOfSubnet(base: string)
    requires IsBase(base)
    ensures NetBase(base + ".240/28") == base
  {
    var t: Triple :| t.Fits() && base == t.Text();
    ScanPrintedQuad(t.a, t.b, t.c, RESERVED, "/28");
    ReservedText();
    SubnetText(Print(t.a), Print(t.b), Print(t.c));
    BaseOfQuad(base + ".240/28", t.a, t.b, t.c, RESERVED);
  }

  lemma ReservedText()
    ensures Print(RESERVED) == "240"
  {
    assert PrintNat(24) == "24";
  }

  /**
   * Once derived, the base no longer depends on the server or the node, and it is the base of the first derivation:
   * exactly when the subnet was unset or readable to begin with.
   */
  lemma BaseSettles(spec: Spec, name: string, vip: string, nodeAddress: string)
    ensures var base := RanBase(spec, nodeAddress);
      NetBase(Filled(spec, name, base, vip).ranSubnet) == base <==>
        (spec.ranSubnet == "" || NetBase(spec.ranSubnet) != "")
  {
    RanBaseShape(spec, nodeAddress);
    BaseOfSubnet(RanBase(spec, nodeAddress));
    BaseNotEmpty(RanBase(spec, nodeAddress));
    assert ScanQuad("") == [];
  }

  lemma BaseNotEmpty(base: string)
    requires IsBase(base)
    ensures |base| > 0
  {
  }

  // ----- the fixpoint -----

  ghost predicate FullyAddressed(spec: Spec) {
    forall f | f in Addressing(spec) :: f != ""
  }

  /** Every field that was set is kept, and nothing declared changes. */
  ghost predicate Keeps(before: Spec, after: Spec) {
    && |Addressing(before)| == |Addressing(after)|
    && forall i | 0 <= i < |Addressing(before)| :: Addressing(before)[i] != "" ==>
       Addressing(after)[i] == Addressing(before)[i]
  }

  ghost predicate SameDeclared(before: Spec, after: Spec) {
    && before.server == after.server && before.user == after.user && before.role == after.role
    && before.ran == after.ran && before.colocated == after.colocated
  }

  lemma FilledFields(spec: Spec, name: string, base: string, vip: string)
    requires vip != ""
    ensures Keeps(spec, Filled(spec, name, base, vip)) && SameDeclared(spec, Filled(spec, name, base, vip))
    ensures FullyAddressed(Filled(spec, name, base, vip))
  {
    FillKeeps(spec, name, base, vip);
    FillAddresses(spec, name, base, vip);
  }

  lemma FillKeeps(spec: Spec, name: string, base: string, vip: string)
    ensures Keeps(spec, Filled(spec, name, base, vip)) && SameDeclared(spec, Filled(spec, name, base, vip))
  {
    var idx := SiteIndex.Index(name);
    var one := Networks(spec, idx);
    var two := Datapath(one, idx);
    NetworksKeep(spec, idx);
    DatapathKeeps(one, idx);
    RanKeeps(two, base, vip);
    KeepsTransitive(spec, one, two);
    KeepsTransitive(spec, two, Ran(two, base, vip));
  }

  lemma NetworksKeep(spec: Spec, idx: nat)
    ensures Keeps(spec, Networks(spec, idx)) && SameDeclared(spec, Networks(spec, idx))
  {
  }

  lemma DatapathKeeps(spec: Spec, idx: nat)
    ensures Keeps(spec, Datapath(spec, idx)) && SameDeclared(spec, Datapath(spec, idx))
  {
  }

  lemma RanKeeps(spec: Spec, base: string, vip: string)
    ensures Keeps(spec, Ran(spec, base, vip)) && SameDeclared(spec, Ran(spec, base, vip))
  {
  }

  lemma KeepsTransitive(a: Spec, b: Spec, c: Spec)
    requires Keeps(a, b) && Keeps(b, c)
    ensures Keeps(a, c)
  {
  }

  lemma DerivedTexts(idx: nat, base: string)
    ensures PodCidr(idx) != "" && Addr.UePool(idx) != "" && AccessCidr(idx) != "" && CoreCidr(idx) != ""
    ensures AccessGateway(idx) != "" && CoreGateway(idx) != "" && Addr.CoreNextHop(idx) != "" && GnbAddress(idx) != ""
    ensures base + ".240/28" != ""
  {
    assert |PodCidr(idx)| > 0 && |Addr.UePool(idx)| > 0 && |AccessCidr(idx)| > 0 && |CoreCidr(idx)| > 0;
    assert |AccessGateway(idx)| > 0 && |CoreGateway(idx)| > 0 && |Addr.CoreNextHop(idx)| > 0 && |GnbAddress(idx)| > 0;
    assert |base + ".240/28"| > 0;
  }

  lemma FillAddresses(spec: Spec, name: string, base: string, vip: string)
    requires vip != ""
    ensures FullyAddressed(Filled(spec, name, base, vip))
  {
    DerivedTexts(SiteIndex.Index(name), base);
  }

  lemma FullyAddressedIsFixed(spec: Spec, name: string, base: string, vip: string)
    requires FullyAddressed(spec)
    ensures Filled(spec, name, base, vip) == spec
  {
    var s := Addressing(spec);
    assert s[0] in s && s[1] in s && s[2] in s && s[3] in s && s[4] in s && s[5] in s && s[6] in s
        && s[7] in s && s[8] in s && s[9] in s && s[10] in s && s[11] in s && s[12] in s;
  }

  lemma ChosenVipNotEmpty(spec: Spec, name: string, sites: Store, listed: bool, base: string)
    ensures ChosenVip(spec, name, sites, listed, base) != ""
  {
  }

  /**
   * One pass fills every field, keeps what was set, and is a fixpoint: any later pass, in any cluster state, changes
   * nothing.
   */
  lemma OnePassSettles(spec: Spec, name: string, sites: Store, listed: bool, nodeAddress: string,
                       laterSites: Store, laterListed: bool, laterNode: string)
    ensures var after := Derived(spec, name, sites, listed, nodeAddress);
      && Keeps(spec, after) && SameDeclared(spec, after) && FullyAddressed(after)
      && Derived(after, name, laterSites, laterListed, laterNode) == after
  {
    var base := RanBase(spec, nodeAddress);
    var vip := ChosenVip(spec, name, sites, listed, base);
    ChosenVipNotEmpty(spec, name, sites, listed, base);
    FilledFields(spec, name, base, vip);
    var after := Filled(spec, name, base, vip);
    var laterBase := RanBase(after, laterNode);
    FullyAddressedIsFixed(after, name, laterBase, ChosenVip(after, name, laterSites, laterListed, laterBase));
  }

  // ----- which address a site ends up with -----

  /** The mgmt core gets the reserved octet. */
  lemma ColocatedVip(spec: Spec, name: string, sites: Store, listed: bool, nodeAddress: string)
    requires spec.colocated && spec.n2VIP == ""
    ensures OctetOf(Derived(spec, name, sites, listed, nodeAddress).n2VIP) == Some(RESERVED)
  {
    RanBaseShape(spec, nodeAddress);
    OctetOfVip(RanBase(spec, nodeAddress), RESERVED);
  }

  /** A core of its own gets a pool octet, and one that no other site holds unless the whole pool is taken. */
  lemma StandaloneVip(spec: Spec, name: string, sites: Store, nodeAddress: string)
    requires !spec.colocated && spec.n2VIP == ""
    ensures var vip := Derived(spec, name, sites, true, nodeAddress).n2VIP;
      && vip != "" && OctetOf(vip).Some? && InPool(OctetOf(vip).value)
      && ((exists k :: k in sites && Blocks(k, sites[k], name, OctetOf(vip).value))
          <==> forall octet | InPool(octet) :: Taken(sites, true, name, octet))
  {
    var base := RanBase(spec, nodeAddress);
    RanBaseShape(spec, nodeAddress);
    AllocateMeets(sites, true, name, "", base);
    RepeatsIffFull(sites, name, base, Allocate(sites, true, name, "", base));
    ChosenVipNotEmpty(spec, name, sites, true, base);
  }

  /** The address put on the site's N2 service. */
  ghost function ExposedVip(spec: Spec, nodeAddress: string): string {
    if spec.n2VIP == "" then Vip(RanBase(spec, nodeAddress), RESERVED) else spec.n2VIP
  }

  /**
   * What is exposed after derivation is what was persisted, whatever becomes of the node; for the mgmt core it is so
   * even before.
   */
  lemma ExposedIsPersisted(spec: Spec, name: string, sites: Store, listed: bool, nodeAddress: string, laterNode: string)
    ensures var after := Derived(spec, name, sites, listed, nodeAddress);
      && ExposedVip(after, laterNode) == after.n2VIP
      && (spec.colocated ==> ExposedVip(spec, nodeAddress) == after.n2VIP)
  {
    ChosenVipNotEmpty(spec, name, sites, listed, RanBase(spec, nodeAddress));
  }
}

/**
 * The two site controllers as they run: a stored cluster that is read and written call by call. Each method is proved
 * against the events of `SiteRuns`, so the run theorems hold of what the methods do.
 */
module SiteControllers {
  import opened Text
  import opened Calls
  import opened Sites
  import opened VipPool
  import opened EdgeSites
  import opened SiteRuns
  import opened DerivedAddresses
  import Addr = Addressing
  import SiteIndex

  datatype Item = Item(key: Key, site: Site)

  /** `items` lists every stored object once, and nothing else. */
  ghost predicate Lists(items: seq<Item>, sites: Store) {
    && (forall i, j | 0 <= i < j < |items| :: items[i].key != items[j].key)
    && (forall i | 0 <= i < |items| :: items[i].key in sites && items[i].site == sites[items[i].key])
    && (forall k | k in sites :: Item(k, sites[k]) in items)
  }

  /** The in-memory copy of an object that a reconcile works on. */
  class EdgeSite {
    const key: Key
    const rev: nat
    const read: Body
    var spec: Spec

    constructor (key: Key, site: Site)
      ensures this.key == key && rev == site.rev && read == site.body && spec == site.body.spec
    {
      this.key := key;
      rev := site.rev;
      read := site.body;
      spec := site.body.spec;
    }
  }

  class ApiServer {
    var sites: Store
    var clock: nat

    ghost function View(): World
      reads this
    {
      World(sites, clock, None)
    }

    method List() returns (items: seq<Item>)
      ensures Lists(items, sites)
    {
      items := [];
      var rest := sites.Keys;
      while rest != {}
        invariant rest <= sites.Keys
        invariant forall i, j | 0 <= i < j < |items| :: items[i].key != items[j].key
        invariant forall i | 0 <= i < |items| :: items[i].key !in rest
        invariant forall i | 0 <= i < |items| :: items[i].key in sites && items[i].site == sites[items[i].key]
        invariant forall k | k in sites && k !in rest :: Item(k, sites[k]) in items
        decreases |rest|
      {
        var k :| k in rest;
        items := items + [Item(k, sites[k])];
        rest := rest - {k};
      }
    }

    /** Creates or rewrites an object; identical content is left as it is. */
    method Write(k: Key, body: Body, call: Outcome) returns (ok: bool)
      modifies this
      ensures ok == call.Done?
      ensures View() == if call.Effective() then Stored(old(View()), k, body) else old(View())
    {
      if call.Effective() && !(k in sites && sites[k].body == body) {
        sites := if k in sites then sites[k := Site(sites[k].uid, clock, body)]
          else sites[k := Site(clock, clock, body)];
        clock := clock + 1;
      }
      return call.Done?;
    }

    /** An update of a copy read earlier; refused when the object has changed since. */
    method Update(k: Key, rev: nat, body: Body, call: Outcome) returns (ok: bool)
      modifies this
      ensures ok == (call.Done? && k in old(sites) && old(sites)[k].rev == rev)
      ensures View() == if call.Effective() && k in old(sites) && old(sites)[k].rev == rev
                        then Stored(old(View()), k, body) else old(View())
    {
      if k in sites && sites[k].rev == rev {
        ok := Write(k, body, call);
      } else {
        ok := false;
      }
    }

    method Remove(k: Key, call: Outcome) returns (ok: bool)
      modifies this
      ensures ok == (call.Done? || k !in old(sites))
      ensures View() == Step(old(View()), Delete(k, call))
    {
      if k !in sites {
        return true;
      }
      if call.Effective() {
        if sites[k].body.held {
          var _ := Write(k, sites[k].body.(deleting := true), Done);
        } else {
          sites := Removed(sites, k);
        }
      }
      return call.Done?;
    }
  }

  // ----- EdgeSite -----

  /** One of the first `n` listed sites holds the octet. */
  ghost predicate HeldAmong(items: seq<Item>, n: nat, name: string, d: int)
    requires n <= |items|
  {
    exists j :: 0 <= j < n && Blocks(items[j].key, items[j].site, name, d)
  }

  ghost predicate Collected(items: seq<Item>, n: nat, name: string, taken: set<int>)
    requires n <= |items|
  {
    forall d :: d in taken <==> d == RESERVED || HeldAmong(items, n, name, d)
  }

  lemma CollectedMore(items: seq<Item>, n: nat, name: string, taken: set<int>, more: set<int>)
    requires n < |items| && Collected(items, n, name, taken)
    requires forall d :: d in more <==> Blocks(items[n].key, items[n].site, name, d)
    ensures Collected(items, n + 1, name, taken + more)
  {
    forall d ensures HeldAmong(items, n + 1, name, d) <==> HeldAmong(items, n, name, d) || d in more {
      if d in more { assert Blocks(items[n].key, items[n].site, name, d); }
    }
  }

  /** The octets other sites hold, read back from their stored address texts. */
  method TakenOctets(items: seq<Item>, listed: bool, name: string, ghost sites: Store) returns (taken: set<int>)
    requires Lists(items, sites)
    ensures forall d :: d in taken <==> Taken(sites, listed, name, d)
  {
    taken := {RESERVED};
    if listed {
      for i := 0 to |items|
        invariant Collected(items, i, name, taken)
      {
        var more := {};
        if items[i].key.name != name && items[i].site.body.spec.n2VIP != "" {
          var q := ScanQuad(items[i].site.body.spec.n2VIP);
          if |q| == 4 { more := {q[3]}; }
        }
        CollectedMore(items, i, name, taken, more);
        taken := taken + more;
      }
    }
    TakenMeans(items, sites, listed, name, taken);
  }

  /** The address of a standalone core: its own pool address, else the first free slot from its start. */
  method AllocateRanVip(items: seq<Item>, listed: bool, name: string, current: string, base: string, ghost sites: Store)
    returns (vip: string)
    requires Lists(items, sites)
    ensures vip == Allocate(sites, listed, name, current, base)
  {
    if current != "" {
      var q := ScanQuad(current);
      if |q| == 4 && FIRST <= q[3] <= LAST {
        return current;
      }
    }
    var taken := TakenOctets(items, listed, name, sites);
    var idx := SiteIndex.Compute(name);
    var free := Probe(taken, idx % SLOTS, sites, listed, name);
    ChosenBy(sites, listed, name, current, base, free);
    FallbackText(base);
    vip := if free.Some? then Vip(base, free.value) else base + ".254";
  }

  /** Linear probing from a start slot, once around. */
  method Probe(taken: set<int>, start: nat, ghost sites: Store, ghost listed: bool,
               ghost name: string) returns (free: Option<int>)
    requires forall d :: d in taken <==> Taken(sites, listed, name, d)
    ensures IsFirstFree(sites, listed, name, start, free)
  {
    for k := 0 to SLOTS
      invariant forall j | 0 <= j < k :: Taken(sites, listed, name, Slot(start, j))
    {
      var i := FIRST + (start + k) % SLOTS;
      if i !in taken {
        FreeSlot(sites, listed, name, start, k);
        return Some(i);
      }
    }
    AllSlots(sites, listed, name, start);
    return None;
  }

  lemma ChosenBy(sites: Store, listed: bool, name: string, current: string, base: string, r: Option<int>)
    requires !(current != "" && OctetOf(current).Some? && InPool(OctetOf(current).value))
    requires IsFirstFree(sites, listed, name, SiteIndex.Index(name) % SLOTS, r)
    ensures Allocate(sites, listed, name, current, base) == Vip(base, if r.Some? then r.value else LAST)
  {
    AllocateMeets(sites, listed, name, current, base);
    AllocationUnique(sites, listed, name, current, base, Vip(base, if r.Some? then r.value else LAST),
                     Allocate(sites, listed, name, current, base));
  }

  lemma FallbackText(base: string)
    ensures base + ".254" == Vip(base, LAST)
  {
    assert PrintNat(25) == "25";
    assert Print(LAST) == "254";
    assert base + ".254" == base + "." + "254";
  }

  lemma ReservedVip(base: string)
    ensures base + ".240" == Vip(base, RESERVED)
  {
    ReservedText();
    assert base + ".240" == base + "." + "240";
  }

  lemma TakenMeans(items: seq<Item>, sites: Store, listed: bool, name: string, taken: set<int>)
    requires Lists(items, sites) && Collected(items, if listed then |items| else 0, name, taken)
    ensures forall d :: d in taken <==> Taken(sites, listed, name, d)
  {
    forall d ensures d in taken <==> Taken(sites, listed, name, d) {
      HeldAmongAll(items, sites, name, d);
    }
  }

  lemma HeldAmongAll(items: seq<Item>, sites: Store, name: string, d: int)
    requires Lists(items, sites)
    ensures HeldAmong(items, |items|, name, d) <==> exists k :: k in sites && Blocks(k, sites[k], name, d)
  {
    if HeldAmong(items, |items|, name, d) {
      var j :| 0 <= j < |items| && Blocks(items[j].key, items[j].site, name, d);
      assert Blocks(items[j].key, sites[items[j].key], name, d);
    }
    if k :| k in sites && Blocks(k, sites[k], name, d) {
      var j :| 0 <= j < |items| && items[j] == Item(k, sites[k]);
      assert Blocks(items[j].key, items[j].site, name, d);
    }
  }

  /** The networks of a site: pods, UE pool, slice, egress. */
  method FillNetworks(es: EdgeSite, idx: nat) returns (changed: bool)
    modifies es
    ensures es.spec == Networks(old(es.spec), idx) && changed == (es.spec != old(es.spec))
    ensures NetworksPlanned(old(es.spec), es.spec, idx)
  {
    NetworksArePlanned(es.spec, idx);
    changed := false;
    if es.spec.podCIDR == "" { es.spec, changed := es.spec.(podCIDR := Addr.PodCidr(idx)), true; }
    if es.spec.uePool == "" { es.spec, changed := es.spec.(uePool := Addr.UePool(idx)), true; }
    if es.spec.sliceSD == "" { es.spec, changed := es.spec.(sliceSD := "102030"), true; }
    if es.spec.egressNic == "" { es.spec, changed := es.spec.(egressNic := "eth0"), true; }
  }

  /** The N3/N6 datapath of a site. */
  method FillDatapath(es: EdgeSite, idx: nat) returns (changed: bool)
    modifies es
    ensures es.spec == Datapath(old(es.spec), idx) && changed == (es.spec != old(es.spec))
    ensures DatapathPlanned(old(es.spec), es.spec, idx)
  {
    DatapathIsPlanned(es.spec, idx);
    changed := false;
    if es.spec.accessCIDR == "" { es.spec, changed := es.spec.(accessCIDR := Addr.AccessCidr(idx)), true; }
    if es.spec.coreCIDR == "" { es.spec, changed := es.spec.(coreCIDR := Addr.CoreCidr(idx)), true; }
    if es.spec.accessGw == "" { es.spec, changed := es.spec.(accessGw := Addr.AccessGateway(idx)), true; }
    if es.spec.coreGw == "" { es.spec, changed := es.spec.(coreGw := Addr.CoreGateway(idx)), true; }
    if es.spec.coreNextHop == "" { es.spec, changed := es.spec.(coreNextHop := Addr.CoreNextHop(idx)), true; }
    if es.spec.gnbIP == "" { es.spec, changed := es.spec.(gnbIP := Addr.GnbAddress(idx)), true; }
  }

  /** The RAN-facing fields of a site. */
  method FillRan(es: EdgeSite, api: ApiServer, nodeAddress: string, listed: bool) returns (changed: bool)
    modifies es
    ensures var base := RanBase(old(es.spec), nodeAddress);
      es.spec == Ran(old(es.spec), base, ChosenVip(old(es.spec), es.key.name, api.sites, listed, base))
    ensures changed == (es.spec != old(es.spec))
  {
    changed := false;
    var base := RanBase(es.spec, nodeAddress);
    if es.spec.ranSubnet == "" { es.spec, changed := es.spec.(ranSubnet := base + ".240/28"), true; }
    var vip := base + ".240";
    ReservedVip(base);
    if !es.spec.colocated {
      var items := api.List();
      vip := AllocateRanVip(items, listed, es.key.name, es.spec.n2VIP, base, api.sites);
    }
    ChosenVipNotEmpty(es.spec, es.key.name, api.sites, listed, base);
    if es.spec.n2VIP == "" { es.spec, changed := es.spec.(n2VIP := vip), true; }
    if es.spec.ranNic == "" { es.spec, changed := es.spec.(ranNic := "eth0"), true; }
  }

  /** Fills the unset addressing fields of a freshly read copy and writes it back when one was unset. */
  method DeriveAddressing(es: EdgeSite, api: ApiServer, nodeAddress: string, listed: bool,
                          write: Outcome) returns (ok: bool)
    requires es.key in api.sites && api.sites[es.key] == Site(api.sites[es.key].uid, es.rev, es.read)
    requires es.spec == es.read.spec
    modifies es, api
    ensures es.spec == Derived(old(es.spec), es.key.name, old(api.sites), listed, nodeAddress)
    ensures api.View() == Run(old(api.View()), [BeginDerive(es.key, listed, nodeAddress), CommitDerive(write)])
    ensures ok == (write.Done? || es.spec == old(es.spec))
    ensures FollowsPlan(old(es.spec), es.spec, SiteIndex.Index(es.key.name))
    ensures RanPlanned(old(es.spec), es.spec, es.key.name, old(api.sites), listed, nodeAddress)
  {
    ghost var before := es.spec;
    ghost var world := api.View();
    DerivedFollowsPlan(before, es.key.name, api.sites, listed, nodeAddress);
    RanIsPlanned(before, es.key.name, api.sites, listed, nodeAddress);
    var idx := SiteIndex.Compute(es.key.name);
    var networks := FillNetworks(es, idx);
    var datapath := FillDatapath(es, idx);
    var ran := FillRan(es, api, nodeAddress, listed);
    FilledInStages(before, es.key.name, api.sites, listed, nodeAddress);
    ok := true;
    if networks || datapath || ran {
      ok := api.Update(es.key, es.rev, es.read.(spec := es.spec), write);
    }
    DerivationRun(world, es.key, listed, nodeAddress, write);
  }

  lemma DerivationRun(w: World, k: Key, listed: bool, nodeAddress: string, write: Outcome)
    requires k in w.sites && w.pending == None
    ensures var body := w.sites[k].body;
      var next := Derived(body.spec, k.name, w.sites, listed, nodeAddress);
      Run(w, [BeginDerive(k, listed, nodeAddress), CommitDerive(write)]) ==
      if write.Effective() then Stored(w, k, body.(spec := next)) else w
  {
    var begun := Step(w, BeginDerive(k, listed, nodeAddress));
    TwoSteps(w, BeginDerive(k, listed, nodeAddress), CommitDerive(write));
    CommitOf(begun, write);
    assert begun.(pending := None) == w;
  }

  lemma TwoSteps(w: World, first: Event, second: Event)
    ensures Run(w, [first, second]) == Step(Step(w, first), second)
  {
    assert [first, second][1..] == [second];
    assert Run(Step(w, first), [second]) == Run(Step(Step(w, first), second), []);
  }

  lemma CommitOf(w: World, write: Outcome)
    requires w.pending.Some? && Commits(w, w.pending.value)
    ensures var d := w.pending.value;
      Step(w, CommitDerive(write)) ==
      if write.Effective() then Stored(w.(pending := None), d.key, d.read.(spec := d.next)) else w.(pending := None)
  {
  }
}

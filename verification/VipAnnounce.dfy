/** N2 addresses across nodes: who announces what once every node has run its address step. */
module VipAnnounce {
  import opened Text
  import opened Calls
  import opened HostPass
  import opened HostSteps
  import opened Sites
  import opened VipPool
  import EdgeSites
  import opened SiteRuns
  import SiteIndex
  import opened Collections

  type Node = string
  /** The addresses on the RAN NIC of each node. */
  type Nics = map<Node, set<Addr>>

  /** One node runs its address step, all its calls succeeding. */
  function Step(nics: Nics, wants: map<Node, set<string>>, n: Node): Nics
    requires wants.Keys == nics.Keys
  {
    if n in nics then nics[n := VipSet(nics[n], wants[n])] else nics
  }

  function Run(nics: Nics, wants: map<Node, set<string>>, passes: seq<Node>): Nics
    requires wants.Keys == nics.Keys
    decreases |passes|
  {
    if |passes| == 0 then nics else Run(Step(nics, wants, passes[0]), wants, passes[1..])
  }

  /** Whatever the order and however often others run, a node that has run at least once is settled. */
  lemma {:induction false} RunSettles(nics: Nics, wants: map<Node, set<string>>, passes: seq<Node>, n: Node)
    requires wants.Keys == nics.Keys && n in nics
    ensures n in Run(nics, wants, passes)
    ensures Run(nics, wants, passes)[n] == if n in passes then VipSet(nics[n], wants[n]) else nics[n]
    decreases |passes|
  {
    if |passes| > 0 {
      assert passes == [passes[0]] + passes[1..];
      RunSettles(Step(nics, wants, passes[0]), wants, passes[1..], n);
      VipSetSettles(nics[n], wants[n]);
    }
  }

  /** The managed addresses of a node: /32, last octet 240..254. */
  function Managed(addrs: set<Addr>): set<string> {
    set a | a in addrs && a.bits == 32 && IsRanVipCandidate(a.ip) :: a.ip
  }

  predicate IsManaged(a: Addr) {
    a.bits == 32 && IsRanVipCandidate(a.ip)
  }

  /** Every address the allocator hands out, and the reserved one, is one the cleanup recognises. */
  lemma AllocatedIsRecognised(spec: Spec)
    requires VipShape(spec) && spec.n2VIP != ""
    ensures IsRanVipCandidate(spec.n2VIP)
  {
  }

  /**
   * Once every node has run since the last change: the managed addresses of each node are exactly its wanted ones, and
   * every other address on it is untouched.
   */
  lemma NodesExact(nics: Nics, wants: map<Node, set<string>>, passes: seq<Node>, n: Node)
    requires wants.Keys == nics.Keys && n in nics && n in passes
    requires forall ip | ip in wants[n] :: IsQuad(ip) && IsRanVipCandidate(ip)
    ensures n in Run(nics, wants, passes)
    ensures var after := Run(nics, wants, passes)[n];
      Managed(after) == wants[n] && forall a | !IsManaged(a) :: a in after <==> a in nics[n]
  {
    RunSettles(nics, wants, passes, n);
    var after := Run(nics, wants, passes)[n];
    forall ip | ip in wants[n] ensures ip in Managed(after) {
      assert Addr(ip, 32) in QuadAddrs(wants[n]);
    }
  }

  /** Each node wants the address of the site its cluster serves. */
  ghost predicate Serves(w: World, nics: Nics, wants: map<Node, set<string>>, home: map<Node, Key>) {
    && home.Keys == nics.Keys == wants.Keys
    && forall n | n in nics ::
         && home[n] in w.sites && w.sites[home[n]].body.spec.n2VIP != "" && IsQuad(w.sites[home[n]].body.spec.n2VIP)
         && wants[n] == {w.sites[home[n]].body.spec.n2VIP}
  }

  /**
   * From any run of the site controllers and any leftovers on the NICs: once every node has run its address step, two
   * nodes hold a common managed address exactly when they serve the same site. So with one node per cluster no address
   * is on two nodes.
   */
  lemma NoAddressTwice(events: seq<Event>, nics: Nics, wants: map<Node, set<string>>, home: map<Node, Key>,
                       passes: seq<Node>,
                       m: Node, n: Node)
    requires AllAllowed(EMPTY, events) && Serves(SiteRuns.Run(EMPTY, events), nics, wants, home)
    requires m in nics && n in nics && m in passes && n in passes
    requires var w := SiteRuns.Run(EMPTY, events);
      home[m] != home[n] ==> !(w.sites[home[m]].body.spec.colocated && w.sites[home[n]].body.spec.colocated)
    ensures m in Run(nics, wants, passes) && n in Run(nics, wants, passes)
    ensures Managed(Run(nics, wants, passes)[m]) * Managed(Run(nics, wants, passes)[n]) != {} <==> home[m] == home[n]
  {
    var w := SiteRuns.Run(EMPTY, events);
    RunKeeps(EMPTY, events);
    if home[m] != home[n] { DifferentVips(events, home[m], home[n]); }
    SharedIff(w, nics, wants, home, passes, m, n);
  }

  lemma SharedIff(w: World, nics: Nics, wants: map<Node, set<string>>, home: map<Node, Key>, passes: seq<Node>,
                  m: Node, n: Node)
    requires Invariant(w) && Serves(w, nics, wants, home)
    requires m in nics && n in nics && m in passes && n in passes
    requires home[m] != home[n] ==> w.sites[home[m]].body.spec.n2VIP != w.sites[home[n]].body.spec.n2VIP
    ensures m in Run(nics, wants, passes) && n in Run(nics, wants, passes)
    ensures Managed(Run(nics, wants, passes)[m]) * Managed(Run(nics, wants, passes)[n]) != {} <==> home[m] == home[n]
  {
    OnNode(w, nics, wants, home, passes, m);
    OnNode(w, nics, wants, home, passes, n);
    Singletons(w.sites[home[m]].body.spec.n2VIP, w.sites[home[n]].body.spec.n2VIP);
  }

  /** A settled node holds exactly the address of the site it serves. */
  lemma OnNode(w: World, nics: Nics, wants: map<Node, set<string>>, home: map<Node, Key>, passes: seq<Node>, n: Node)
    requires Invariant(w) && Serves(w, nics, wants, home) && n in nics && n in passes
    ensures n in Run(nics, wants, passes)
    ensures Managed(Run(nics, wants, passes)[n]) == {w.sites[home[n]].body.spec.n2VIP}
  {
    WantedIsManaged(w, home[n]);
    NodesExact(nics, wants, passes, n);
  }

  lemma WantedIsManaged(w: World, k: Key)
    requires Invariant(w) && k in w.sites && w.sites[k].body.spec.n2VIP != ""
    ensures IsRanVipCandidate(w.sites[k].body.spec.n2VIP)
  {
    assert VipShape(w.sites[k].body.spec);
    AllocatedIsRecognised(w.sites[k].body.spec);
  }

  lemma DifferentVips(events: seq<Event>, j: Key, k: Key)
    requires AllAllowed(EMPTY, events) && j != k
    requires var w := SiteRuns.Run(EMPTY, events);
      j in w.sites && k in w.sites && w.sites[j].body.spec.n2VIP != "" && w.sites[k].body.spec.n2VIP != ""
      && !(w.sites[j].body.spec.colocated && w.sites[k].body.spec.colocated)
    ensures var w := SiteRuns.Run(EMPTY, events); w.sites[j].body.spec.n2VIP != w.sites[k].body.spec.n2VIP
  {
    VipsNeverCollide(events, j, k);
  }

  lemma Singletons(x: string, y: string)
    ensures {x} * {y} != {} <==> x == y
  {
    if x == y { assert x in {x} * {y}; }
  }

  // ----- such clusters exist -----

  lemma NetBaseOfQuad(a: nat, b: nat, c: nat, d: nat)
    requires a < 256 && b < 256 && c < 256 && d < 256
    ensures EdgeSites.NetBase(PrintQuad(a, b, c, d)) == Triple(a, b, c).Text()
  {
    ScanPrintedQuad(a, b, c, d, "");
    assert PrintQuad(a, b, c, d) + "" == PrintQuad(a, b, c, d);
    EdgeSites.BaseOfQuad(PrintQuad(a, b, c, d), a, b, c, d);
  }

  lemma NewQuad(a: nat, b: nat, c: nat, octet: nat)
    requires a < 256 && b < 256 && c < 256 && octet < 256
    ensures Vip(Triple(a, b, c).Text(), octet) == PrintQuad(a, b, c, octet) && IsQuad(PrintQuad(a, b, c, octet))
  {
    QuadIsQuad(a, b, c, octet);
  }

  /** A standalone site with a proper server address gets a proper N2 address. */
  lemma DerivesQuad(spec: Spec, name: string, sites: Store, a: nat, b: nat, c: nat, d: nat)
    requires a < 256 && b < 256 && c < 256 && d < 256
    requires spec.server == PrintQuad(a, b, c, d) && !spec.colocated && spec.n2VIP == "" && spec.ranSubnet == ""
    ensures var vip := EdgeSites.Derived(spec, name, sites, true, "").n2VIP; vip != "" && IsQuad(vip)
  {
    NetBaseOfQuad(a, b, c, d);
    var base := Triple(a, b, c).Text();
    assert ScanQuad("") == [];
    assert EdgeSites.NetBase("") == "" && EdgeSites.RanBase(spec, "") == base;
    AllocateMeets(sites, true, name, "", base);
    var r :| IsFirstFree(sites, true, name, SiteIndex.Index(name) % SLOTS, r)
      && Allocate(sites, true, name, "", base) == Vip(base, Ending(r));
    NewQuad(a, b, c, Ending(r));
  }

  /** The run that creates one site and derives its addressing. */
  function OneSite(k: Key, spec: Spec): seq<Event> {
    [Create(k, false, spec), BeginDerive(k, true, ""), CommitDerive(Done)]
  }

  lemma RunFirst(w: World, e: Event, rest: seq<Event>)
    ensures SiteRuns.Run(w, [e] + rest) == SiteRuns.Run(SiteRuns.Step(w, e), rest)
    ensures AllAllowed(w, [e] + rest) <==> Allowed(w, e) && AllAllowed(SiteRuns.Step(w, e), rest)
  {
    assert ([e] + rest)[1..] == rest;
  }

  function FreshBody(spec: Spec): Body { Body(None, false, false, spec) }

  function FreshSites(k: Key, spec: Spec): Store {
    map[k := Site(0, 0, FreshBody(spec))]
  }

  lemma Creates(k: Key, spec: Spec)
    requires spec.n2VIP == ""
    ensures Allowed(EMPTY, Create(k, false, spec))
    ensures SiteRuns.Step(EMPTY, Create(k, false, spec)) == World(FreshSites(k, spec), 1, None)
  {
  }

  lemma Begins(k: Key, spec: Spec)
    requires !spec.colocated
    ensures Allowed(World(FreshSites(k, spec), 1, None), BeginDerive(k, true, ""))
    ensures SiteRuns.Step(World(FreshSites(k, spec), 1, None), BeginDerive(k, true, "")) ==
      World(FreshSites(k, spec), 1, Some(Derivation(k, 0, FreshBody(spec),
                                                    EdgeSites.Derived(spec, k.name, FreshSites(k, spec), true, ""))))
  {
    assert NonColocated(FreshSites(k, spec)) <= {k};
    SubsetNoLarger(NonColocated(FreshSites(k, spec)), {k});
  }

  lemma Commits(k: Key, spec: Spec, next: Spec)
    ensures var w := SiteRuns.Step(World(FreshSites(k, spec), 1, Some(Derivation(k, 0, FreshBody(spec), next))),
      CommitDerive(Done));
      k in w.sites && w.sites[k].body.spec == next
  {
  }

  lemma OneSiteRuns(k: Key, spec: Spec)
    requires !spec.colocated && spec.n2VIP == ""
    ensures AllAllowed(EMPTY, OneSite(k, spec))
    ensures var w := SiteRuns.Run(EMPTY, OneSite(k, spec));
      k in w.sites && w.sites[k].body.spec == EdgeSites.Derived(spec, k.name, FreshSites(k, spec), true, "")
  {
    var next := EdgeSites.Derived(spec, k.name, FreshSites(k, spec), true, "");
    assert OneSite(k, spec) == [Create(k, false, spec)] + ([BeginDerive(k, true, "")] + ([CommitDerive(Done)] + []));
    RunFirst(EMPTY, Create(k, false, spec), [BeginDerive(k, true, "")] + ([CommitDerive(Done)] + []));
    Creates(k, spec);
    var w1 := World(FreshSites(k, spec), 1, None);
    RunFirst(w1, BeginDerive(k, true, ""), [CommitDerive(Done)] + []);
    Begins(k, spec);
    var w2 := World(FreshSites(k, spec), 1, Some(Derivation(k, 0, FreshBody(spec), next)));
    RunFirst(w2, CommitDerive(Done), []);
    Commits(k, spec, next);
  }

  /** So there are runs and nodes that the result above speaks of. */
  lemma SomeNodeServes(k: Key, spec: Spec, a: nat, b: nat, c: nat, d: nat, node: Node, leftovers: set<Addr>)
    requires a < 256 && b < 256 && c < 256 && d < 256
    requires spec.server == PrintQuad(a, b, c, d) && !spec.colocated && spec.n2VIP == "" && spec.ranSubnet == ""
    ensures AllAllowed(EMPTY, OneSite(k, spec))
    ensures var w := SiteRuns.Run(EMPTY, OneSite(k, spec));
      k in w.sites && Serves(w, map[node := leftovers], map[node := {w.sites[k].body.spec.n2VIP}], map[node := k])
  {
    OneSiteRuns(k, spec);
    DerivesQuad(spec, k.name, FreshSites(k, spec), a, b, c, d);
  }
}

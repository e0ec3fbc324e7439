/** The child objects an EdgeSite reconcile emits: their names, their contents, and who has one in common. */
module Children {
  import opened Text
  import opened Sites

  datatype Config = Config(blueprints: string, mgmt: string)

  /** What a reconcile reads of its site. */
  datatype Intent = Intent(colocated: bool, role: string, ran: bool, controlPlane: string, sliceSD: string,
                           uePool: string)

  datatype Kind = PackageVariant | IPClaim | MeshLink | NetworkSlice {
    /** Children without a Go type are compared before they are rewritten. */
    predicate Compared() { PackageVariant? || IPClaim? }
  }

  datatype ChildKey = ChildKey(kind: Kind, ns: string, name: string)

  datatype Content =
    | Package(repo: string, package: string, downRepo: string, downPackage: string, injected: Option<string>)
    | Claim(claimKind: string, prefixLength: int)
    | Mesh(edge: string, controlPlane: string, upf: string)
    | Slice(sd: string, uePool: string, upf: string, gnb: string)

  datatype Child = Child(key: ChildKey, content: Content)

  function Cluster(site: Key): string { "cluster-" + site.name }

  function DeployRepo(site: Key, i: Intent, c: Config): string {
    if i.colocated then c.mgmt else Cluster(site)
  }

  function Variant(site: Key, name: string, package: string, downRepo: string, c: Config, inject: bool): Child {
    Child(ChildKey(PackageVariant, site.ns, name),
          Package(c.blueprints, package, downRepo, name, if inject then Some(site.name) else None))
  }

  function ClaimOf(site: Key, suffix: string, kind: string): Child {
    var name := site.name + "-" + suffix;
    Child(ChildKey(IPClaim, site.ns, name), Claim(kind, if kind == "pool" || name == site.name + "-pod" then 16
      else 24))
  }

  function ClusterVariant(site: Key, c: Config): Child {
    Variant(site, Cluster(site), "cluster-ck8s-byoh", c.mgmt, c, true)
  }

  function CpVariant(site: Key, i: Intent, c: Config): Child {
    Variant(site, "cp-" + site.name, "sdcore-cp", DeployRepo(site, i, c), c, true)
  }

  function UpfVariant(site: Key, i: Intent, c: Config): Child {
    Variant(site, "upf-" + site.name, "edge-site", DeployRepo(site, i, c), c, true)
  }

  function MultusVariant(site: Key, i: Intent, c: Config): Child {
    Variant(site, "multus-" + DeployRepo(site, i, c), "multus", DeployRepo(site, i, c), c, false)
  }

  function DatapathVariant(site: Key, i: Intent, c: Config): Child {
    Variant(site, "datapath-" + DeployRepo(site, i, c), "datapath-actuator", DeployRepo(site, i, c), c, false)
  }

  function MeshLinkOf(site: Key, i: Intent): Child {
    Child(ChildKey(MeshLink, site.ns, site.name),
          Mesh(site.name, if i.controlPlane == "" then "mgmt" else i.controlPlane, "upf-" + site.name))
  }

  function SliceOf(site: Key, i: Intent): Child {
    Child(ChildKey(NetworkSlice, site.ns, site.name), Slice(i.sliceSD, i.uePool, "upf-" + site.name, "gnb-"
      + site.name))
  }

  /** Other: address derivation and the deliveries to Git, which may fail but write no child. */
  datatype Task = Other | Emit(child: Child)

  /** A cluster of its own unless the site is colocated. */
  function ClusterSteps(site: Key, i: Intent, c: Config): seq<Task> {
    if i.colocated then [] else [Emit(ClusterVariant(site, c))]
  }

  function CoreSteps(site: Key, i: Intent, c: Config): seq<Task> {
    if i.role == "cp+upf" then [Emit(CpVariant(site, i, c)), Other, Other] + (if i.ran then [Other] else []) else []
  }

  function ClaimSteps(site: Key): seq<Task> {
    [Emit(ClaimOf(site, "pod", "network")), Emit(ClaimOf(site, "access", "network")),
     Emit(ClaimOf(site, "core", "network")), Emit(ClaimOf(site, "uepool", "pool"))]
  }

  function NfSteps(site: Key, i: Intent, c: Config): seq<Task> {
    [Emit(MultusVariant(site, i, c)), Emit(UpfVariant(site, i, c)), Emit(DatapathVariant(site, i, c))]
  }

  function MeshSteps(site: Key, i: Intent): seq<Task> {
    if i.role == "upf-only" then [Emit(MeshLinkOf(site, i)), Emit(SliceOf(site, i))] else []
  }

  /** The steps of a reconcile in their order. */
  function Steps(site: Key, i: Intent, c: Config): seq<Task> {
    [Other] + ClusterSteps(site, i, c)
    + (ClaimSteps(site) + (CoreSteps(site, i, c) + (NfSteps(site, i, c) + MeshSteps(site, i))))
  }

  // ----- names -----

  predicate Emits(site: Key, i: Intent, c: Config, x: Child) {
    || (!i.colocated && x == ClusterVariant(site, c))
    || x == ClaimOf(site, "pod", "network") || x == ClaimOf(site, "access", "network")
    || x == ClaimOf(site, "core", "network") || x == ClaimOf(site, "uepool", "pool")
    || (i.role == "cp+upf" && x == CpVariant(site, i, c))
    || x == MultusVariant(site, i, c) || x == UpfVariant(site, i, c) || x == DatapathVariant(site, i, c)
    || (i.role == "upf-only" && (x == MeshLinkOf(site, i) || x == SliceOf(site, i)))
  }

  lemma ClaimStepsEmit(site: Key, x: Child)
    ensures Emit(x) in ClaimSteps(site) <==>
      x == ClaimOf(site, "pod", "network") || x == ClaimOf(site, "access", "network")
      || x == ClaimOf(site, "core", "network") || x == ClaimOf(site, "uepool", "pool")
  {
    var steps := ClaimSteps(site);
    assert forall e :: e in steps <==> e == steps[0] || e == steps[1] || e == steps[2] || e == steps[3];
  }

  lemma CoreStepsEmit(site: Key, i: Intent, c: Config, x: Child)
    ensures Emit(x) in CoreSteps(site, i, c) <==> i.role == "cp+upf" && x == CpVariant(site, i, c)
  {
  }

  lemma NfStepsEmit(site: Key, i: Intent, c: Config, x: Child)
    ensures Emit(x) in NfSteps(site, i, c) <==>
      x == MultusVariant(site, i, c) || x == UpfVariant(site, i, c) || x == DatapathVariant(site, i, c)
  {
    var steps := NfSteps(site, i, c);
    assert forall e :: e in steps <==> e == steps[0] || e == steps[1] || e == steps[2];
  }

  lemma MeshStepsEmit(site: Key, i: Intent, x: Child)
    ensures Emit(x) in MeshSteps(site, i) <==>
      i.role == "upf-only" && (x == MeshLinkOf(site, i) || x == SliceOf(site, i))
  {
  }

  lemma StepsEmit(site: Key, i: Intent, c: Config, x: Child)
    ensures Emit(x) in Steps(site, i, c) <==> Emits(site, i, c, x)
  {
    ClaimStepsEmit(site, x);
    CoreStepsEmit(site, i, c, x);
    NfStepsEmit(site, i, c, x);
    MeshStepsEmit(site, i, x);
  }

  /** The last letters of a claim's name and the first letters of a package's name tell which one it is. */
  predicate Claims(site: Key, x: Child, suffix: string, kind: string) {
    x == ClaimOf(site, suffix, kind) && |suffix| > 0 && x.key.name[|x.key.name| - 1] == suffix[|suffix| - 1]
  }

  lemma ClaimCases(site: Key, i: Intent, c: Config, x: Child)
    requires Emits(site, i, c, x) && x.key.kind.IPClaim?
    ensures Claims(site, x, "pod", "network") || Claims(site, x, "access", "network")
      || Claims(site, x, "core", "network")
         || Claims(site, x, "uepool", "pool")
  {
  }

  /**
   * A package's name is a prefix that its first two letters decide, followed by the site's name or the repository's.
   */
  predicate Named(x: Child, prefix: string, tail: string) {
    x.key.name == prefix + tail && |prefix| >= 2 && x.key.name[0] == prefix[0] && x.key.name[1] == prefix[1]
  }

  lemma VariantCases(site: Key, i: Intent, c: Config, x: Child)
    requires Emits(site, i, c, x) && x.key.kind.PackageVariant?
    ensures || (Named(x, "cluster-", site.name) && x == ClusterVariant(site, c))
            || (Named(x, "cp-", site.name) && x == CpVariant(site, i, c))
            || (Named(x, "upf-", site.name) && x == UpfVariant(site, i, c))
            || (Named(x, "multus-", DeployRepo(site, i, c)) && x == MultusVariant(site, i, c))
            || (Named(x, "datapath-", DeployRepo(site, i, c)) && x == DatapathVariant(site, i, c))
  {
  }

  lemma SameTail(prefix: string, a: string, b: string)
    ensures prefix + a == prefix + b ==> a == b
    ensures a + prefix == b + prefix ==> a == b
  {
    assert (prefix + a)[|prefix|..] == a && (prefix + b)[|prefix|..] == b;
    assert (a + prefix)[..|a|] == a && (b + prefix)[..|b|] == b;
  }

  lemma SameClaim(a: Key, x: Child, b: Key, y: Child, suffix: string, kind: string)
    requires x == ClaimOf(a, suffix, kind) && y == ClaimOf(b, suffix, kind) && x.key == y.key
    ensures a == b
  {
    assert a.name + "-" + suffix == a.name + ("-" + suffix);
    assert b.name + "-" + suffix == b.name + ("-" + suffix);
    SameTail("-" + suffix, a.name, b.name);
  }

  lemma ClaimsDecode(a: Key, i: Intent, x: Child, b: Key, j: Intent, y: Child, c: Config)
    requires Emits(a, i, c, x) && Emits(b, j, c, y) && x.key == y.key && x.key.kind.IPClaim?
    ensures a == b && x == y
  {
    ClaimCases(a, i, c, x);
    ClaimCases(b, j, c, y);
    if Claims(a, x, "pod", "network") {
      SameClaim(a, x, b, y, "pod", "network");
    } else if Claims(a, x, "access", "network") {
      SameClaim(a, x, b, y, "access", "network");
    } else if Claims(a, x, "core", "network") {
      SameClaim(a, x, b, y, "core", "network");
    } else {
      SameClaim(a, x, b, y, "uepool", "pool");
    }
  }

  /** The package of a site, or that of a repository. */
  predicate OfRepo(site: Key, i: Intent, c: Config, x: Child) {
    x == MultusVariant(site, i, c) || x == DatapathVariant(site, i, c)
  }

  /** The package of a site that its name's first two letters single out. */
  function ByLetters(site: Key, i: Intent, c: Config, name: string): Child
    requires |name| >= 2
  {
    if name[0] == 'c' then if name[1] == 'l' then ClusterVariant(site, c) else CpVariant(site, i, c)
    else if name[0] == 'u' then UpfVariant(site, i, c)
    else if name[0] == 'm' then MultusVariant(site, i, c)
    else DatapathVariant(site, i, c)
  }

  lemma LettersDecide(site: Key, i: Intent, c: Config, x: Child)
    requires Emits(site, i, c, x) && x.key.kind.PackageVariant?
    ensures |x.key.name| >= 2 && x == ByLetters(site, i, c, x.key.name)
  {
    VariantCases(site, i, c, x);
  }

  predicate SameHome(a: Key, i: Intent, x: Child, b: Key, j: Intent, y: Child, c: Config) {
    && a.ns == b.ns && (a == b || (OfRepo(a, i, c, x) && DeployRepo(a, i, c) == DeployRepo(b, j, c)))
    && ((a == b ==> i.colocated == j.colocated) ==> x.content == y.content)
  }

  lemma SiteVariants(a: Key, i: Intent, x: Child, b: Key, j: Intent, y: Child, c: Config)
    requires x.key == y.key
    requires || (x == ClusterVariant(a, c) && y == ClusterVariant(b, c))
             || (x == CpVariant(a, i, c) && y == CpVariant(b, j, c))
             || (x == UpfVariant(a, i, c) && y == UpfVariant(b, j, c))
    ensures SameHome(a, i, x, b, j, y, c)
  {
    SameTail("cluster-", a.name, b.name);
    SameTail("cp-", a.name, b.name);
    SameTail("upf-", a.name, b.name);
  }

  lemma RepoVariants(a: Key, i: Intent, x: Child, b: Key, j: Intent, y: Child, c: Config)
    requires x.key == y.key
    requires || (x == MultusVariant(a, i, c) && y == MultusVariant(b, j, c))
             || (x == DatapathVariant(a, i, c) && y == DatapathVariant(b, j, c))
    ensures SameHome(a, i, x, b, j, y, c)
  {
    SameTail("multus-", DeployRepo(a, i, c), DeployRepo(b, j, c));
    SameTail("datapath-", DeployRepo(a, i, c), DeployRepo(b, j, c));
  }

  /** A package found under one name by two sites is one site's, or one repository's, and means the same to both. */
  lemma VariantsDecode(a: Key, i: Intent, x: Child, b: Key, j: Intent, y: Child, c: Config)
    requires Emits(a, i, c, x) && Emits(b, j, c, y) && x.key == y.key && x.key.kind.PackageVariant?
    ensures SameHome(a, i, x, b, j, y, c)
  {
    LettersDecide(a, i, c, x);
    LettersDecide(b, j, c, y);
    if x.key.name[0] == 'c' || x.key.name[0] == 'u' {
      SiteVariants(a, i, x, b, j, y, c);
    } else {
      RepoVariants(a, i, x, b, j, y, c);
    }
  }

  /** Whoever emits a compared child emits the same content, as long as no site moves between repositories. */
  lemma SameKeySameContent(a: Key, i: Intent, x: Child, b: Key, j: Intent, y: Child, c: Config)
    requires Emits(a, i, c, x) && Emits(b, j, c, y) && x.key == y.key && x.key.kind.Compared()
    requires a == b ==> i.colocated == j.colocated
    ensures x.content == y.content
  {
    if x.key.kind.IPClaim? { ClaimsDecode(a, i, x, b, j, y, c); } else { VariantsDecode(a, i, x, b, j, y, c); }
  }

  ghost predicate HasChild(site: Key, i: Intent, c: Config, k: ChildKey) {
    exists x :: Emits(site, i, c, x) && x.key == k
  }

  ghost predicate Share(a: Key, i: Intent, b: Key, j: Intent, c: Config) {
    exists k :: HasChild(a, i, c, k) && HasChild(b, j, c, k)
  }

  lemma SharedClaim(a: Key, i: Intent, x: Child, b: Key, j: Intent, y: Child, c: Config)
    requires a != b && Emits(a, i, c, x) && Emits(b, j, c, y) && x.key == y.key
    ensures !x.key.kind.IPClaim?
  {
    if x.key.kind.IPClaim? { ClaimsDecode(a, i, x, b, j, y, c); }
  }

  /** Links and slices are named after their site. */
  lemma SharedTyped(a: Key, i: Intent, x: Child, b: Key, j: Intent, y: Child, c: Config)
    requires a != b && Emits(a, i, c, x) && Emits(b, j, c, y) && x.key == y.key
    ensures x.key.kind.Compared()
  {
  }

  lemma SharedVariant(a: Key, i: Intent, x: Child, b: Key, j: Intent, y: Child, c: Config)
    requires a != b && Emits(a, i, c, x) && Emits(b, j, c, y) && x.key == y.key
    ensures a.ns == b.ns && DeployRepo(a, i, c) == DeployRepo(b, j, c)
  {
    SharedClaim(a, i, x, b, j, y, c);
    SharedTyped(a, i, x, b, j, y, c);
    VariantsDecode(a, i, x, b, j, y, c);
  }

  lemma SameRepoShares(a: Key, i: Intent, b: Key, j: Intent, c: Config)
    requires a.ns == b.ns && DeployRepo(a, i, c) == DeployRepo(b, j, c)
    ensures Share(a, i, b, j, c)
  {
    var x, y := MultusVariant(a, i, c), MultusVariant(b, j, c);
    assert Emits(a, i, c, x) && Emits(b, j, c, y) && x.key == y.key;
    assert HasChild(a, i, c, x.key) && HasChild(b, j, c, x.key);
  }

  /** Two sites have a child in common exactly when they are in one namespace and deploy to one repository. */
  lemma ShareIff(a: Key, i: Intent, b: Key, j: Intent, c: Config)
    requires a != b
    ensures Share(a, i, b, j, c) <==> a.ns == b.ns && DeployRepo(a, i, c) == DeployRepo(b, j, c)
  {
    if Share(a, i, b, j, c) {
      var k :| HasChild(a, i, c, k) && HasChild(b, j, c, k);
      var x :| Emits(a, i, c, x) && x.key == k;
      var y :| Emits(b, j, c, y) && y.key == k;
      SharedVariant(a, i, x, b, j, y, c);
    }
    if a.ns == b.ns && DeployRepo(a, i, c) == DeployRepo(b, j, c) { SameRepoShares(a, i, b, j, c); }
  }

  /** Sites on clusters of their own never share a child. */
  lemma OwnClustersShareNothing(a: Key, i: Intent, b: Key, j: Intent, c: Config)
    requires a != b && !i.colocated && !j.colocated
    ensures !Share(a, i, b, j, c)
  {
    ShareIff(a, i, b, j, c);
    SameTail("cluster-", a.name, b.name);
  }

  /**
   * A claim asks for as wide a prefix as derivation writes: /16 for pods and UEs, /24 for the two datapath networks.
   */
  lemma ClaimPrefixes(site: Key, i: Intent, c: Config, x: Child)
    requires Emits(site, i, c, x) && x.key.kind.IPClaim?
    ensures x.content.prefixLength == if x.key.name == site.name + "-pod" || x.key.name == site.name + "-uepool"
      then 16 else 24
  {
    ClaimCases(site, i, c, x);
    assert site.name + "-" + "pod" == site.name + "-pod" && site.name + "-" + "uepool" == site.name + "-uepool";
  }

  // ----- no child is emitted twice -----

  /** Where in a reconcile the child comes, told from its name. */
  function Rank(k: ChildKey): nat {
    match k.kind
    case MeshLink => 10
    case NetworkSlice => 11
    case IPClaim =>
      if |k.name| == 0 then 0
      else
        var last := k.name[|k.name| - 1];
        if last == 'd' then 2 else if last == 's' then 3 else if last == 'e' then 4 else 5
    case PackageVariant =>
      if |k.name| < 2 then 0
      else if k.name[0] == 'c' then if k.name[1] == 'l' then 1 else 6
      else if k.name[0] == 'm' then 7 else if k.name[0] == 'u' then 8 else 9
  }

  /** The children come in the order of their ranks, which lie between the two numbers. */
  predicate Ranked(steps: seq<Task>, low: nat, high: nat) {
    && (forall i | 0 <= i < |steps| && steps[i].Emit? :: low <= Rank(steps[i].child.key) < high)
    && forall i, j | 0 <= i < j < |steps| && steps[i].Emit? && steps[j].Emit? ::
         Rank(steps[i].child.key) < Rank(steps[j].child.key)
  }

  lemma RankedJoin(a: seq<Task>, b: seq<Task>, low: nat, mid: nat, high: nat)
    requires low <= mid <= high && Ranked(a, low, mid) && Ranked(b, mid, high)
    ensures Ranked(a + b, low, high)
  {
  }

  lemma ClaimRank(site: Key, suffix: string, kind: string)
    requires |suffix| > 0
    ensures var k := ClaimOf(site, suffix, kind).key;
      k.kind.IPClaim? && |k.name| > 0 && k.name[|k.name| - 1] == suffix[|suffix| - 1]
  {
  }

  lemma ClaimsRanked(site: Key)
    ensures Ranked(ClaimSteps(site), 2, 6)
  {
    ClaimRank(site, "pod", "network");
    ClaimRank(site, "access", "network");
    ClaimRank(site, "core", "network");
    ClaimRank(site, "uepool", "pool");
  }

  lemma ClusterRanked(site: Key, i: Intent, c: Config)
    ensures Ranked([Other] + ClusterSteps(site, i, c), 0, 2)
  {
    assert Cluster(site)[1] == 'l';
  }

  lemma CoreRanked(site: Key, i: Intent, c: Config)
    ensures Ranked(CoreSteps(site, i, c), 6, 7)
  {
    assert CpVariant(site, i, c).key.name[..2] == "cp";
  }

  lemma NfsRanked(site: Key, i: Intent, c: Config)
    ensures Ranked(NfSteps(site, i, c), 7, 10)
  {
    assert MultusVariant(site, i, c).key.name[0] == 'm' && UpfVariant(site, i, c).key.name[0] == 'u';
    assert DatapathVariant(site, i, c).key.name[0] == 'd';
  }

  lemma MeshRanked(site: Key, i: Intent)
    ensures Ranked(MeshSteps(site, i), 10, 12)
  {
  }

  lemma StepsRanked(site: Key, i: Intent, c: Config)
    ensures Ranked(Steps(site, i, c), 0, 12)
  {
    ClusterRanked(site, i, c);
    ClaimsRanked(site);
    CoreRanked(site, i, c);
    NfsRanked(site, i, c);
    MeshRanked(site, i);
    JoinAll([Other] + ClusterSteps(site, i, c), ClaimSteps(site), CoreSteps(site, i, c), NfSteps(site, i, c),
            MeshSteps(site, i));
  }

  lemma JoinAll(clusters: seq<Task>, claims: seq<Task>, core: seq<Task>, nfs: seq<Task>, mesh: seq<Task>)
    requires Ranked(clusters, 0, 2) && Ranked(claims, 2, 6) && Ranked(core, 6, 7) && Ranked(nfs, 7, 10)
    requires Ranked(mesh, 10, 12)
    ensures Ranked(clusters + (claims + (core + (nfs + mesh))), 0, 12)
  {
    RankedJoin(nfs, mesh, 7, 10, 12);
    RankedJoin(core, nfs + mesh, 6, 7, 12);
    RankedJoin(claims, core + (nfs + mesh), 2, 6, 12);
    RankedJoin(clusters, claims + (core + (nfs + mesh)), 0, 2, 12);
  }

  /** A reconcile emits no child twice. */
  lemma EmittedOnce(site: Key, i: Intent, c: Config, m: nat, n: nat)
    requires m < n < |Steps(site, i, c)| && Steps(site, i, c)[m].Emit? && Steps(site, i, c)[n].Emit?
    ensures Steps(site, i, c)[m].child.key != Steps(site, i, c)[n].child.key
  {
    StepsRanked(site, i, c);
  }
}

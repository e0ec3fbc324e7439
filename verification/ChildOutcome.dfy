/** What an undisturbed reconcile of a site leaves, package by package and claim by claim. */
module ChildOutcome {
  import opened Text
  import opened Sites
  import opened Children
  import opened ChildRuns
  import opened ChildCompletion

  /** The repository of the site's own cluster, or that of the management cluster. */
  function Repo(site: Key, i: Intent, c: Config): string {
    if i.colocated then c.mgmt else "cluster-" + site.name
  }

  /** A package of that name out of the blueprints goes to the repository under the child's own name. */
  predicate IsPackage(k: ChildKey, content: Content, name: string, package: string, repo: string,
                      injected: Option<string>, c: Config) {
    k.kind == PackageVariant && k.name == name && content == Package(c.blueprints, package, repo, name, injected)
  }

  predicate IsClaim(k: ChildKey, content: Content, name: string, claimKind: string, prefixLength: int) {
    k.kind == IPClaim && k.name == name && content == Claim(claimKind, prefixLength)
  }

  /** The package that makes the site's cluster; a colocated site has none. */
  predicate OfCluster(site: Key, i: Intent, c: Config, k: ChildKey, content: Content) {
    !i.colocated
    && IsPackage(k, content, "cluster-" + site.name, "cluster-ck8s-byoh", c.mgmt, Some(site.name), c)
  }

  predicate OfClaims(site: Key, k: ChildKey, content: Content) {
    || IsClaim(k, content, site.name + "-pod", "network", 16)
    || IsClaim(k, content, site.name + "-access", "network", 24)
    || IsClaim(k, content, site.name + "-core", "network", 24)
    || IsClaim(k, content, site.name + "-uepool", "pool", 16)
  }

  /** The control plane of a core, its user plane, and what its cluster needs for both. */
  predicate OfFunctions(site: Key, i: Intent, c: Config, k: ChildKey, content: Content) {
    || (i.role == "cp+upf"
        && IsPackage(k, content, "cp-" + site.name, "sdcore-cp", Repo(site, i, c), Some(site.name), c))
    || IsPackage(k, content, "upf-" + site.name, "edge-site", Repo(site, i, c), Some(site.name), c)
    || IsPackage(k, content, "multus-" + Repo(site, i, c), "multus", Repo(site, i, c), None, c)
    || IsPackage(k, content, "datapath-" + Repo(site, i, c), "datapath-actuator", Repo(site, i, c), None, c)
  }

  /** The link of an edge to its control plane, "mgmt" unless it names one, and the slice it serves. */
  predicate OfMesh(site: Key, i: Intent, k: ChildKey, content: Content) {
    i.role == "upf-only" && k.name == site.name && match k.kind
    case MeshLink =>
      content == Mesh(site.name, if i.controlPlane != "" then i.controlPlane else "mgmt", "upf-" + site.name)
    case NetworkSlice => content == Slice(i.sliceSD, i.uePool, "upf-" + site.name, "gnb-" + site.name)
    case _ => false
  }

  predicate Wants(site: Key, i: Intent, c: Config, k: ChildKey, content: Content) {
    && k.ns == site.ns
    && (OfCluster(site, i, c, k, content) || OfClaims(site, k, content) || OfFunctions(site, i, c, k, content)
        || OfMesh(site, i, k, content))
  }

  lemma ClaimIs(site: Key, suffix: string, kind: string, name: string)
    requires name == site.name + "-" + suffix && |suffix| > 0
    ensures ClaimOf(site, suffix, kind).key == ChildKey(IPClaim, site.ns, name)
    ensures ClaimOf(site, suffix, kind).content == Claim(kind, if kind == "pool" || suffix == "pod" then 16 else 24)
  {
    SameTail(site.name + "-", suffix, "pod");
    assert site.name + "-" + "pod" == site.name + "-pod";
  }

  lemma ClaimsAre(site: Key, k: ChildKey, content: Content)
    ensures k.ns == site.ns && OfClaims(site, k, content) <==>
      || Child(k, content) == ClaimOf(site, "pod", "network") || Child(k, content) == ClaimOf(site, "access", "network")
      || Child(k, content) == ClaimOf(site, "core", "network") || Child(k, content) == ClaimOf(site, "uepool", "pool")
  {
    ClaimIs(site, "pod", "network", site.name + "-pod");
    ClaimIs(site, "access", "network", site.name + "-access");
    ClaimIs(site, "core", "network", site.name + "-core");
    ClaimIs(site, "uepool", "pool", site.name + "-uepool");
  }

  /** Exactly the wanted children are emitted. */
  lemma EmitsIffWants(site: Key, i: Intent, c: Config, k: ChildKey, content: Content)
    ensures Emits(site, i, c, Child(k, content)) <==> Wants(site, i, c, k, content)
  {
    ClaimsAre(site, k, content);
  }

  /** The child is being deleted and not compared, or not as wanted: the operator replaces it, and with that it goes. */
  predicate Replaced(s: State, k: ChildKey, content: Content) {
    k in s.objects && s.objects[k].deleting
    && (k.kind == MeshLink || k.kind == NetworkSlice || s.objects[k].content != content)
  }

  /**
   * After a reconcile all of whose calls end well, with nothing in between, each wanted child is there. A package or
   * claim that had its content is as it was; every other is the site's own, with its content and no finalizers, except
   * one that was being deleted and is gone. No other child has changed.
   */
  lemma ReconcileLeaves(s: State, site: Key, uid: nat, i: Intent, c: Config, k: ChildKey, content: Content)
    requires Invariant(s, c) && site !in s.flights
    ensures var t := Finished(Step(s, Begin(site, uid, i), c), site, c);
      Wants(site, i, c, k, content) ==>
        if Replaced(s, k, content) then k !in t.objects
        else if k in s.objects && s.objects[k].content == content && k.kind != MeshLink && k.kind != NetworkSlice
        then k in t.objects && t.objects[k] == s.objects[k].(rev := t.objects[k].rev)
        else k in t.objects && t.objects[k] == Stored(uid, content, t.objects[k].rev, {}, false)
    ensures var t := Finished(Step(s, Begin(site, uid, i), c), site, c);
      (forall wanted :: !Wants(site, i, c, k, wanted)) ==>
        (k in t.objects <==> k in s.objects) && (k in s.objects ==> t.objects[k] == s.objects[k])
  {
    if Wants(site, i, c, k, content) {
      EmitsIffWants(site, i, c, k, content);
      ReconcileCompletesIff(s, site, uid, i, c, Child(k, content));
    }
    if forall wanted :: !Wants(site, i, c, k, wanted) {
      Undisturbed(s, site, uid, i, c);
      forall x: Child | Emit(x) in Steps(site, i, c) ensures x.key != k {
        StepsEmit(site, i, c, x);
        EmitsIffWants(site, i, c, x.key, x.content);
      }
      NotAmong(s, uid, Steps(site, i, c), k);
    }
  }
}

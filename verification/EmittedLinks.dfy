/** The MeshLinks that sites emit: when they converge together, and what a site's write does to its link. */
module EmittedLinks {
  import opened Calls
  import opened Text
  import opened Sites
  import opened MeshLink
  import opened MeshConvergence
  import C = Children
  import R = ChildRuns

  function SpecOf(content: C.Content): LinkSpec
    requires content.Mesh?
  {
    LinkSpec(content.edge, content.controlPlane, content.upf)
  }

  /** Every link is the one its site, of some intent, emits under its own name. */
  ghost predicate FromSites(links: map<string, Link>, ns: string) {
    forall k | k in links :: exists i: C.Intent :: links[k].spec == SpecOf(C.MeshLinkOf(Key(ns, k), i).content)
  }

  lemma UpfNames(a: string, b: string)
    ensures "upf-" + a != AMF
    ensures "upf-" + a == "upf-" + b ==> a == b
  {
    assert ("upf-" + a)[0] == 'u';
    assert ("upf-" + a)[4..] == a && ("upf-" + b)[4..] == b;
  }

  lemma EmittedUpf(links: map<string, Link>, ns: string, k: string)
    requires FromSites(links, ns) && k in links
    ensures links[k].spec.edge == k && UpfName(links[k].spec) == "upf-" + k
  {
  }

  /**
   * Emitted links ask for different things of different places exactly when no site is another site's control plane.
   */
  lemma EmittedCompatible(links: map<string, Link>, ns: string)
    requires FromSites(links, ns)
    ensures Compatible(links) <==>
      forall j, k | j in links && k in links :: ClusterOf(links[j].spec.controlPlane) != ClusterOf(links[k].spec.edge)
  {
    forall k | k in links ensures UpfName(links[k].spec) != AMF {
      EmittedUpf(links, ns, k);
      UpfNames(k, k);
    }
    forall j, k | j in links && k in links && j != k ensures CpUpf(links[j].spec) != CpUpf(links[k].spec) {
      EmittedUpf(links, ns, j);
      EmittedUpf(links, ns, k);
      UpfNames(j, k);
    }
  }

  /** The slice of a site names the very N4 service that its link puts on the control plane. */
  lemma SliceNamesService(site: Key, i: C.Intent)
    ensures CpUpf(SpecOf(C.MeshLinkOf(site, i).content)).name == C.SliceOf(site, i).content.upf
  {
  }

  // ----- the site's write of its link -----

  const CLEANUP := "sdcore.nephio.io/meshlink-cleanup"

  /** The link in the object that a site has stored, up to its revision. */
  predicate Shows(o: R.Stored, l: Link) {
    o.content.Mesh? && l.(rev := 0) ==
      Link(0, CLEANUP in o.finalizers, o.finalizers - {CLEANUP} != {}, o.deleting, SpecOf(o.content))
  }

  /** The site's link is stored as the link protocol sees it. */
  ghost predicate Tracks(s: R.State, site: Key, m: State) {
    var k := C.ChildKey(C.MeshLink, site.ns, site.name);
    (k in s.objects <==> site.name in m.links) && (k in s.objects ==> Shows(s.objects[k], m.links[site.name]))
  }

  /** Bare after the write, or gone if it was being deleted. */
  lemma AppliedLink(m: State, name: string, spec: LinkSpec)
    requires name in m.links && m.links[name].deleting ==> m.links[name].finalizer || m.links[name].others
    ensures var links := SiteApplied(m, name, spec).links;
      if name in m.links && m.links[name].deleting then name !in links
      else name in links && links[name].(rev := 0) == Link(0, false, false, false, spec)
  {
  }

  lemma WrittenObject(s: R.State, owner: nat, x: C.Child)
    requires x.key in s.objects ==> R.Held(s.objects[x.key])
    ensures var objects := R.Written(s, owner, x).objects;
      if x.key in s.objects && s.objects[x.key].deleting then x.key !in objects
      else x.key in objects && objects[x.key].(rev := 0) == R.Stored(owner, x.content, 0, {}, false)
  {
  }

  lemma WriteIsSiteApplies(s: R.State, site: Key, i: C.Intent, owner: nat, m: State)
    requires Tracks(s, site, m) && forall k | k in s.objects :: R.Held(s.objects[k])
    ensures var x := C.MeshLinkOf(site, i);
      Tracks(R.Written(s, owner, x), site, SiteApplied(m, site.name, SpecOf(x.content)))
  {
    var x := C.MeshLinkOf(site, i);
    WrittenObject(s, owner, x);
    AppliedLink(m, site.name, SpecOf(x.content));
  }

  /**
   * A site's reconcile does to its link what the link protocol calls SiteApplies, if its write finds the object as it
   * read it and takes effect, and otherwise nothing.
   */
  lemma SiteWritesLink(s: R.State, site: Key, i: C.Intent, f: R.Flight, read: Option<nat>, rest: seq<R.Call>,
                       o: Outcome, m: State)
    requires Tracks(s, site, m) && forall k | k in s.objects :: R.Held(s.objects[k])
    ensures var x := C.MeshLinkOf(site, i);
      Tracks(R.Performed(s, site, f, R.Put(x, read), rest, o), site,
             if R.Fits(s, x.key, read) && o.Effective() then Step(m, SiteApplies(site.name, SpecOf(x.content))) else m)
  {
    WriteIsSiteApplies(s, site, i, f.uid, m);
  }
}

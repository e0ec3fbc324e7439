/** Where things are once the mesh has converged, cluster by cluster and name by name. */
module MeshOutcome {
  import opened Calls
  import opened MeshLink
  import opened MeshSafety
  import opened MeshScript
  import opened MeshConvergence
  import opened MeshUnion

  /** One service of that name, with that content, in that cluster. */
  predicate Runs(t: State, cluster: string, name: string, content: Content) {
    Place(cluster, name) in t.services && t.services[Place(cluster, name)].content == content
  }

  lemma ServedIs(t: State, spec: LinkSpec, ip: string)
    requires Served(t, spec, ip)
    ensures var edge := if spec.edge == "" then "mgmt" else spec.edge;
      var cp := if spec.controlPlane == "" then "mgmt" else spec.controlPlane;
      var upf := if spec.upfName == "" then "upf-" + spec.edge else spec.upfName;
      && Runs(t, cp, "amf-cp", AmfGlobal(true)) && Runs(t, edge, "amf-cp", AmfGlobal(false))
      && Runs(t, cp, upf, N4Port)
      && Place(cp, upf + "-x") in t.slices && t.slices[Place(cp, upf + "-x")] == ip
  {
  }

  /**
   * After convergence every link has, on its control-plane cluster, the exported amf-cp, the N4 service of the edge's
   * UPF and its slice, and on its edge cluster the consumed amf-cp.
   */
  lemma ConvergedServices(history: seq<Event>, events: seq<Event>, courses: map<string, Course>, k: string)
    requires Settled(Run(EMPTY, history)) && AllQuiet(events) && Compatible(Run(Run(EMPTY, history), events).links)
    requires forall j | j in Run(Run(EMPTY, history), events).links ::
      j in courses && courses[j].All(j) == events && Completes(Run(EMPTY, history), courses[j], j)
    requires k in Run(Run(EMPTY, history), events).links
    ensures var s := Run(EMPTY, history);
      var t := Run(s, events);
      var spec := t.links[k].spec;
      var edge := if spec.edge == "" then "mgmt" else spec.edge;
      var cp := if spec.controlPlane == "" then "mgmt" else spec.controlPlane;
      var upf := if spec.upfName == "" then "upf-" + spec.edge else spec.upfName;
      && Runs(t, cp, "amf-cp", AmfGlobal(true)) && Runs(t, edge, "amf-cp", AmfGlobal(false))
      && Runs(t, cp, upf, N4Port)
      && Place(cp, upf + "-x") in t.slices && t.slices[Place(cp, upf + "-x")] == LastSlice(s, events, k)
  {
    Converges(history, events, courses);
    var s := Run(EMPTY, history);
    var t := Run(s, events);
    ServedIs(t, t.links[k].spec, LastSlice(s, events, k));
  }

  /** The link puts a service of that name on that cluster. */
  predicate Asks(spec: LinkSpec, cluster: string, name: string) {
    var edge := if spec.edge == "" then "mgmt" else spec.edge;
    var cp := if spec.controlPlane == "" then "mgmt" else spec.controlPlane;
    var upf := if spec.upfName == "" then "upf-" + spec.edge else spec.upfName;
    (cluster == cp && name == "amf-cp") || (cluster == edge && name == "amf-cp") || (cluster == cp && name == upf)
  }

  predicate AsksSlice(spec: LinkSpec, cluster: string, name: string) {
    && cluster == (if spec.controlPlane == "" then "mgmt" else spec.controlPlane)
    && name == (if spec.upfName == "" then "upf-" + spec.edge else spec.upfName) + "-x"
  }

  lemma AsksIs(spec: LinkSpec, cluster: string, name: string)
    ensures Asks(spec, cluster, name) <==> Place(cluster, name) in ServicePlaces(spec)
    ensures AsksSlice(spec, cluster, name) <==> Place(cluster, name) == CpSlice(spec)
  {
  }

  lemma UnionAt(history: seq<Event>, events: seq<Event>, courses: map<string, Course>, p: Place)
    requires CarefulRun(EMPTY, history)
    requires Settled(Run(EMPTY, history)) && AllQuiet(events) && Compatible(Run(Run(EMPTY, history), events).links)
    requires forall j | j in Run(Run(EMPTY, history), events).links ::
      j in courses && courses[j].All(j) == events && Completes(Run(EMPTY, history), courses[j], j)
    ensures var t := Run(Run(EMPTY, history), events);
      (p in t.services <==> WantedService(t, p)) && (p in t.slices <==> WantedSlice(t, p))
  {
    ExactUnion(history, events, courses);
  }

  /** After a careful history the services and slices of every cluster are exactly those some link asks for there. */
  lemma ConvergedExactly(history: seq<Event>, events: seq<Event>, courses: map<string, Course>, cluster: string,
                         name: string)
    requires CarefulRun(EMPTY, history)
    requires Settled(Run(EMPTY, history)) && AllQuiet(events) && Compatible(Run(Run(EMPTY, history), events).links)
    requires forall j | j in Run(Run(EMPTY, history), events).links ::
      j in courses && courses[j].All(j) == events && Completes(Run(EMPTY, history), courses[j], j)
    ensures var t := Run(Run(EMPTY, history), events);
      && (Place(cluster, name) in t.services <==> exists k :: k in t.links && Asks(t.links[k].spec, cluster, name))
      && (Place(cluster, name) in t.slices <==> exists k :: k in t.links && AsksSlice(t.links[k].spec, cluster, name))
  {
    UnionAt(history, events, courses, Place(cluster, name));
    WantsIs(Run(Run(EMPTY, history), events), cluster, name);
  }

  lemma WantsIs(t: State, cluster: string, name: string)
    ensures WantedService(t, Place(cluster, name)) <==> exists k :: k in t.links && Asks(t.links[k].spec, cluster, name)
    ensures WantedSlice(t, Place(cluster, name)) <==>
      exists k :: k in t.links && AsksSlice(t.links[k].spec, cluster, name)
  {
    forall k | k in t.links
      ensures Asks(t.links[k].spec, cluster, name) <==> Place(cluster, name) in ServicePlaces(t.links[k].spec)
      ensures AsksSlice(t.links[k].spec, cluster, name) <==> Place(cluster, name) == CpSlice(t.links[k].spec)
    {
      AsksIs(t.links[k].spec, cluster, name);
    }
  }

  /** So the N4 service and the slice of a UPF that one link serves are on that link's control plane alone. */
  lemma OnControlPlaneAlone(history: seq<Event>, events: seq<Event>, courses: map<string, Course>, k: string,
                            cluster: string, upf: string)
    requires CarefulRun(EMPTY, history)
    requires Settled(Run(EMPTY, history)) && AllQuiet(events) && Compatible(Run(Run(EMPTY, history), events).links)
    requires forall j | j in Run(Run(EMPTY, history), events).links ::
      j in courses && courses[j].All(j) == events && Completes(Run(EMPTY, history), courses[j], j)
    requires var links := Run(Run(EMPTY, history), events).links;
      && k in links
      && upf == (if links[k].spec.upfName == "" then "upf-" + links[k].spec.edge else links[k].spec.upfName)
      && forall j | j in links && j != k ::
           upf != if links[j].spec.upfName == "" then "upf-" + links[j].spec.edge else links[j].spec.upfName
    ensures var t := Run(Run(EMPTY, history), events);
      var cp := if t.links[k].spec.controlPlane == "" then "mgmt" else t.links[k].spec.controlPlane;
      && (Place(cluster, upf) in t.services <==> cluster == cp)
      && (Place(cluster, upf + "-x") in t.slices <==> cluster == cp)
  {
    var t := Run(Run(EMPTY, history), events);
    ConvergedExactly(history, events, courses, cluster, upf);
    ConvergedExactly(history, events, courses, cluster, upf + "-x");
    assert upf != "amf-cp";
    assert Asks(t.links[k].spec, cluster, upf) <==>
      cluster == if t.links[k].spec.controlPlane == "" then "mgmt" else t.links[k].spec.controlPlane;
    forall j | j in t.links && AsksSlice(t.links[j].spec, cluster, upf + "-x") ensures j == k {
      var other := if t.links[j].spec.upfName == "" then "upf-" + t.links[j].spec.edge else t.links[j].spec.upfName;
      SuffixTells(upf, other);
    }
  }

  lemma SuffixTells(a: string, b: string)
    requires a + "-x" == b + "-x"
    ensures a == b
  {
    assert (a + "-x")[..|a|] == a && (b + "-x")[..|b|] == b;
  }

  /** The slice holds the address that the edge cluster's pod had when the last completed reconcile read it. */
  lemma SliceHoldsEdgeAddress(s: State, c: Course, k: string)
    requires Settled(s) && AllQuiet(c.All(k)) && Completes(s, c, k) && k in Run(s, c.All(k)).links
    requires Compatible(Run(s, c.All(k)).links)
    requires LastSlice(Run(Wiring(s, c, k), c.second), c.after, k) == ""
    ensures var t, reading := Run(s, c.All(k)), Reading(s, c);
      var spec := t.links[k].spec;
      var edge := if spec.edge == "" then "mgmt" else spec.edge;
      var cp := if spec.controlPlane == "" then "mgmt" else spec.controlPlane;
      var upf := if spec.upfName == "" then "upf-" + spec.edge else spec.upfName;
      && edge in reading.pods && reading.pods[edge] != ""
      && Place(cp, upf + "-x") in t.slices && t.slices[Place(cp, upf + "-x")] == reading.pods[edge]
  {
    CourseServes(s, c, k);
    CourseSpec(s, c, k);
    SliceIsWhatWasRead(s, c, k);
    ServedIs(Run(s, c.All(k)), Run(s, c.All(k)).links[k].spec, LastSlice(s, c.All(k), k));
  }

  /** The link's three services and its slice are there, each on its cluster; no others have been touched. */
  predicate LeavesWired(s: State, t: State, k: string, edge: string, cp: string, upf: string) {
    && Runs(t, cp, "amf-cp", AmfGlobal(true)) && Runs(t, edge, "amf-cp", AmfGlobal(false)) && Runs(t, cp, upf, N4Port)
    && edge in s.pods && t.slices == s.slices[Place(cp, upf + "-x") := s.pods[edge]]
    && k in t.links && t.links[k].finalizer
    && (forall p | p in t.services && p != Place(cp, "amf-cp") && p != Place(edge, "amf-cp") && p != Place(cp, upf) ::
          p in s.services && t.services[p] == s.services[p])
    && forall p | p in s.services :: p in t.services
  }

  /** One undisturbed reconcile of any link leaves these three services and the slice, and touches no others. */
  lemma ScriptLeaves(s: State, k: string, n: nat, edge: string, cp: string, upf: string)
    requires n >= 14 && k in s.links && k !in s.flights && !s.links[k].deleting
    requires edge == (if s.links[k].spec.edge == "" then "mgmt" else s.links[k].spec.edge)
    requires cp == (if s.links[k].spec.controlPlane == "" then "mgmt" else s.links[k].spec.controlPlane)
    requires upf == (if s.links[k].spec.upfName == "" then "upf-" + s.links[k].spec.edge else s.links[k].spec.upfName)
    requires edge != cp && upf != "amf-cp" && edge in s.pods && s.pods[edge] != ""
    ensures LeavesWired(s, Run(s, Script(k, n)), k, edge, cp, upf)
  {
    var spec := s.links[k].spec;
    ScriptWires(s, k, n);
    GuardedIs(s, k);
    WiredIs(Guarded(s, k), k, spec, s.pods[edge], edge, cp, upf);
  }

  lemma GuardedIs(s: State, k: string)
    requires k in s.links && !s.links[k].deleting
    ensures var g := Guarded(s, k);
      k in g.links && g.links[k].finalizer && g.services == s.services && g.slices == s.slices
  {
  }

  lemma WiredIs(s: State, k: string, spec: LinkSpec, ip: string, edge: string, cp: string, upf: string)
    requires edge == ClusterOf(spec.edge) && cp == ClusterOf(spec.controlPlane) && upf == UpfName(spec)
    requires edge != cp && upf != "amf-cp"
    ensures var t := Wired(s, k, spec, ip);
      && t.links == s.links
      && Runs(t, cp, "amf-cp", AmfGlobal(true)) && Runs(t, edge, "amf-cp", AmfGlobal(false)) && Runs(t, cp, upf, N4Port)
      && t.slices == s.slices[Place(cp, upf + "-x") := ip]
      && forall p | p != Place(cp, "amf-cp") && p != Place(edge, "amf-cp") && p != Place(cp, upf) ::
           (p in t.services <==> p in s.services) && (p in s.services ==> t.services[p] == s.services[p])
  {
  }

  // ----- an undisturbed deletion -----

  function Leaving(s: State, k: string, read: Link, todo: seq<Call>): State {
    s.(flights := s.flights[k := Cleaning(read, todo)])
  }

  lemma GoingOn(s: State, k: string, read: Link, todo: seq<Call>, next: seq<Call>)
    requires next != []
    ensures Continue(Leaving(s, k, read, todo), k, Cleaning(read, todo), next) == Leaving(s, k, read, next)
  {
    assert s.flights[k := Cleaning(read, todo)][k := Cleaning(read, next)] == s.flights[k := Cleaning(read, next)];
  }

  function ServiceGone(s: State, p: Place): State {
    s.(services := Without(s.services, p), lostServices := Forgiven(s.lostServices, p))
  }

  function SliceGone(s: State, p: Place): State {
    s.(slices := Without(s.slices, p), lostSlices := Forgiven(s.lostSlices, p))
  }

  lemma ReachedStep(f: State -> State, s: State, k: string, read: Link, cluster: string, skips: nat, rest: seq<Call>)
    requires EndsWell(f, k) && rest != []
    ensures f(Leaving(s, k, read, [CleanupClient(cluster, skips)] + rest)) == Leaving(s, k, read, rest)
  {
    var todo := [CleanupClient(cluster, skips)] + rest;
    assert f(Leaving(s, k, read, todo)) == Step(Leaving(s, k, read, todo), CallEnd(k, Done));
    assert todo[1..] == rest;
    GoingOn(s, k, read, todo, rest);
  }

  lemma ServiceStep(f: State -> State, s: State, k: string, read: Link, p: Place, rest: seq<Call>)
    requires EndsWell(f, k) && rest != []
    ensures f(Leaving(s, k, read, [DeleteService(p)] + rest)) == Leaving(ServiceGone(s, p), k, read, rest)
  {
    var todo := [DeleteService(p)] + rest;
    assert f(Leaving(s, k, read, todo)) == Step(Leaving(s, k, read, todo), CallEnd(k, Done));
    assert todo[1..] == rest;
    GoingOn(ServiceGone(s, p), k, read, todo, rest);
  }

  lemma SliceStep(f: State -> State, s: State, k: string, read: Link, p: Place, rest: seq<Call>)
    requires EndsWell(f, k) && rest != []
    ensures f(Leaving(s, k, read, [DeleteSlice(p)] + rest)) == Leaving(SliceGone(s, p), k, read, rest)
  {
    var todo := [DeleteSlice(p)] + rest;
    assert f(Leaving(s, k, read, todo)) == Step(Leaving(s, k, read, todo), CallEnd(k, Done));
    assert todo[1..] == rest;
    GoingOn(SliceGone(s, p), k, read, todo, rest);
  }

  /** The update goes through: the object is gone unless somebody else's finalizer holds it. */
  lemma ReleaseStep(f: State -> State, s: State, k: string, read: Link)
    requires EndsWell(f, k) && k in s.links && s.links[k] == read && read.deleting && k !in s.flights
    ensures var t := f(Leaving(s, k, read, [ReleaseFinalizer]));
      && t.flights == s.flights && t.services == s.services && t.slices == s.slices
      && if read.others then k in t.links && !t.links[k].finalizer else k !in t.links
  {
    var x := Leaving(s, k, read, [ReleaseFinalizer]);
    assert f(x) == Step(x, CallEnd(k, Done));
    assert Without(x.flights, k) == s.flights;
  }

  /** After the two clusters have been cleaned. */
  function Cleaned(s: State, spec: LinkSpec): State {
    ServiceGone(ServiceGone(SliceGone(ServiceGone(s, CpUpf(spec)), CpSlice(spec)), CpAmf(spec)), EdgeAmf(spec))
  }

  lemma ControlPlaneCleaned(f: State -> State, s: State, k: string, read: Link, rest: seq<Call>, n: nat)
    requires EndsWell(f, k) && rest != [] && n >= 4
    ensures var spec := read.spec;
      Iterate(f, Leaving(s, k, read, [CleanupClient(ClusterOf(spec.controlPlane), 3)] + ([DeleteService(CpUpf(spec))]
              + ([DeleteSlice(CpSlice(spec))] + ([DeleteService(CpAmf(spec))] + rest)))), n) ==
      Iterate(f, Leaving(ServiceGone(SliceGone(ServiceGone(s, CpUpf(spec)), CpSlice(spec)), CpAmf(spec)), k, read,
                         rest), n - 4)
  {
    var spec := read.spec;
    var amf := [DeleteService(CpAmf(spec))] + rest;
    var slice := [DeleteSlice(CpSlice(spec))] + amf;
    ReachedStep(f, s, k, read, ClusterOf(spec.controlPlane), 3, [DeleteService(CpUpf(spec))] + slice);
    ServiceStep(f, s, k, read, CpUpf(spec), slice);
    SliceStep(f, ServiceGone(s, CpUpf(spec)), k, read, CpSlice(spec), amf);
    ServiceStep(f, SliceGone(ServiceGone(s, CpUpf(spec)), CpSlice(spec)), k, read, CpAmf(spec), rest);
    FourSteps(f, Leaving(s, k, read, [CleanupClient(ClusterOf(spec.controlPlane), 3)]
      + ([DeleteService(CpUpf(spec))] + slice)), n);
  }

  lemma FourSteps(f: State -> State, s: State, n: nat)
    requires n >= 4
    ensures Iterate(f, s, n) == Iterate(f, f(f(f(f(s)))), n - 4)
  {
    assert Iterate(f, s, n) == Iterate(f, f(s), n - 1);
    assert Iterate(f, f(s), n - 1) == Iterate(f, f(f(s)), n - 2);
    assert Iterate(f, f(f(s)), n - 2) == Iterate(f, f(f(f(s))), n - 3);
  }

  lemma ThreeSteps(f: State -> State, s: State, n: nat)
    requires n >= 3
    ensures Iterate(f, s, n) == Iterate(f, f(f(f(s))), n - 3)
  {
    assert Iterate(f, s, n) == Iterate(f, f(s), n - 1);
    assert Iterate(f, f(s), n - 1) == Iterate(f, f(f(s)), n - 2);
  }

  lemma EdgeCleaned(f: State -> State, s: State, k: string, read: Link, n: nat)
    requires EndsWell(f, k) && n >= 3 && k in s.links && s.links[k] == read && read.deleting && k !in s.flights
    ensures var spec := read.spec;
      var t := Iterate(f, Leaving(s, k, read, [CleanupClient(ClusterOf(spec.edge), 1)]
                                  + ([DeleteService(EdgeAmf(spec))] + [ReleaseFinalizer])), n);
      && t.flights == s.flights && t.services == ServiceGone(s, EdgeAmf(spec)).services && t.slices == s.slices
      && if read.others then k in t.links && !t.links[k].finalizer else k !in t.links
  {
    var spec := read.spec;
    var x := Leaving(s, k, read, [CleanupClient(ClusterOf(spec.edge), 1)]
      + ([DeleteService(EdgeAmf(spec))] + [ReleaseFinalizer]));
    ReachedStep(f, s, k, read, ClusterOf(spec.edge), 1, [DeleteService(EdgeAmf(spec))] + [ReleaseFinalizer]);
    ServiceStep(f, s, k, read, EdgeAmf(spec), [ReleaseFinalizer]);
    ReleaseStep(f, ServiceGone(s, EdgeAmf(spec)), k, read);
    ThreeSteps(f, x, n);
    IterateIdle(f, f(f(f(x))), k, n - 3);
  }

  /** The link's three services and its slice are gone from their clusters, and so is the link unless it is held. */
  predicate LeavesRemoved(s: State, t: State, k: string, edge: string, cp: string, upf: string) {
    && (forall p | p in t.services :: p in s.services)
    && (forall p | p in s.services ::
          p in t.services <==> p != Place(cp, upf) && p != Place(cp, "amf-cp") && p != Place(edge, "amf-cp"))
    && (forall p | p in t.slices :: p in s.slices)
    && (forall p | p in s.slices :: p in t.slices <==> p != Place(cp, upf + "-x"))
    && k in s.links && if s.links[k].others then k in t.links && !t.links[k].finalizer else k !in t.links
  }

  /**
   * An undisturbed deletion of any link takes exactly its three services and its slice away, each from its cluster, and
   * then the object goes unless somebody else holds it.
   */
  lemma DeletionRemoves(s: State, k: string, n: nat, edge: string, cp: string, upf: string)
    requires n >= 7 && k in s.links && k !in s.flights && s.links[k].deleting && s.links[k].finalizer
    requires edge == (if s.links[k].spec.edge == "" then "mgmt" else s.links[k].spec.edge)
    requires cp == (if s.links[k].spec.controlPlane == "" then "mgmt" else s.links[k].spec.controlPlane)
    requires upf == (if s.links[k].spec.upfName == "" then "upf-" + s.links[k].spec.edge else s.links[k].spec.upfName)
    ensures LeavesRemoved(s, Run(s, Script(k, n)), k, edge, cp, upf)
  {
    DeletionRuns(s, k, n);
    CleanedIs(s, s.links[k].spec, edge, cp, upf);
  }

  /** The calls of that deletion. */
  lemma DeletionRuns(s: State, k: string, n: nat)
    requires n >= 7 && k in s.links && k !in s.flights && s.links[k].deleting && s.links[k].finalizer
    ensures var t, u := Run(s, Script(k, n)), Cleaned(s, s.links[k].spec);
      && t.services == u.services && t.slices == u.slices
      && if s.links[k].others then k in t.links && !t.links[k].finalizer else k !in t.links
  {
    var l, spec := s.links[k], s.links[k].spec;
    var f := (x: State) => Step(x, CallEnd(k, Done));
    assert Script(k, n)[1..] == CallEnds(k, seq(n, _ => Done));
    RunIterates(f, Started(s, k), k, n);
    assert Started(s, k) == Leaving(s, k, l, CleanupProgram(spec));
    var last := [CleanupClient(ClusterOf(spec.edge), 1)] + ([DeleteService(EdgeAmf(spec))] + [ReleaseFinalizer]);
    assert CleanupProgram(spec) == [CleanupClient(ClusterOf(spec.controlPlane), 3)] + ([DeleteService(CpUpf(spec))]
                                   + ([DeleteSlice(CpSlice(spec))] + ([DeleteService(CpAmf(spec))] + last)));
    ControlPlaneCleaned(f, s, k, l, last, n);
    var mid := ServiceGone(SliceGone(ServiceGone(s, CpUpf(spec)), CpSlice(spec)), CpAmf(spec));
    EdgeCleaned(f, mid, k, l, n - 4);
  }

  /** The client of the control plane cannot be had: what the cleanup goes on with, and what it gives up on. */
  lemma ClientRefused(s: State, k: string, read: Link, last: seq<Call>)
    requires |last| > 0
    ensures var spec := read.spec;
      var deletions := [DeleteService(CpUpf(spec))] + ([DeleteSlice(CpSlice(spec))]
                       + ([DeleteService(CpAmf(spec))] + last));
      var t := Step(Leaving(s, k, read, [CleanupClient(ClusterOf(spec.controlPlane), 3)] + deletions),
                    CallEnd(k, Refused));
      t == Leaving(s.(lostServices := t.lostServices, lostSlices := t.lostSlices), k, read, last)
  {
    var spec := read.spec;
    var deletions := [DeleteService(CpUpf(spec))] + ([DeleteSlice(CpSlice(spec))]
                     + ([DeleteService(CpAmf(spec))] + last));
    var todo := [CleanupClient(ClusterOf(spec.controlPlane), 3)] + deletions;
    var t := Step(Leaving(s, k, read, todo), CallEnd(k, Refused));
    assert todo[1..] == deletions && Drop(deletions, 3) == last;
    GoingOn(s.(lostServices := t.lostServices, lostSlices := t.lostSlices), k, read, todo, last);
  }

  /**
   * Where the control plane's cluster is out of reach, a deletion that otherwise goes well still takes amf-cp off the
   * edge's cluster and lets the link go; on the control plane everything stays.
   */
  lemma DeletionWithoutControlPlane(s: State, k: string, n: nat, edge: string)
    requires n >= 3 && k in s.links && k !in s.flights && s.links[k].deleting && s.links[k].finalizer
    requires edge == (if s.links[k].spec.edge == "" then "mgmt" else s.links[k].spec.edge)
    ensures var t := Run(s, [Begin(k)] + ([CallEnd(k, Refused)] + CallEnds(k, seq(n, _ => Done))));
      && (forall p :: p in t.services <==> p in s.services && p != Place(edge, "amf-cp"))
      && t.slices == s.slices
      && if s.links[k].others then k in t.links && !t.links[k].finalizer else k !in t.links
  {
    var l, spec := s.links[k], s.links[k].spec;
    var f := (x: State) => Step(x, CallEnd(k, Done));
    var ends := CallEnds(k, seq(n, _ => Done));
    var last := [CleanupClient(ClusterOf(spec.edge), 1)] + ([DeleteService(EdgeAmf(spec))] + [ReleaseFinalizer]);
    var program := [CleanupClient(ClusterOf(spec.controlPlane), 3)] + ([DeleteService(CpUpf(spec))]
      + ([DeleteSlice(CpSlice(spec))] + ([DeleteService(CpAmf(spec))] + last)));
    assert CleanupProgram(spec) == program;
    assert Started(s, k) == Leaving(s, k, l, program);
    ClientRefused(s, k, l, last);
    var t := Step(Leaving(s, k, l, program), CallEnd(k, Refused));
    RunTwoMore(s, k, ends);
    RunIterates(f, t, k, n);
    EdgeCleaned(f, s.(lostServices := t.lostServices, lostSlices := t.lostSlices), k, l, n);
  }

  lemma RunTwoMore(s: State, k: string, ends: seq<Event>)
    ensures Run(s, [Begin(k)] + ([CallEnd(k, Refused)] + ends)) ==
      Run(Step(Step(s, Begin(k)), CallEnd(k, Refused)), ends)
  {
    var events := [Begin(k)] + ([CallEnd(k, Refused)] + ends);
    assert events[1..] == [CallEnd(k, Refused)] + ends && events[1..][1..] == ends;
    assert Run(s, events) == Run(Step(s, Begin(k)), events[1..]);
    assert Run(Step(s, Begin(k)), events[1..]) == Run(Step(Step(s, Begin(k)), CallEnd(k, Refused)), events[1..][1..]);
  }

  lemma CleanedIs(s: State, spec: LinkSpec, edge: string, cp: string, upf: string)
    requires edge == ClusterOf(spec.edge) && cp == ClusterOf(spec.controlPlane) && upf == UpfName(spec)
    ensures var t := Cleaned(s, spec);
      && (forall p :: p in t.services <==>
            p in s.services && p != Place(cp, upf) && p != Place(cp, "amf-cp") && p != Place(edge, "amf-cp"))
      && (forall p :: p in t.slices <==> p in s.slices && p != Place(cp, upf + "-x"))
  {
  }

  // ----- a reconcile as it comes -----

  /** What an undisturbed reconcile of the link leaves, whether it wires or cleans up. */
  predicate LeavesAsAsked(s: State, t: State, k: string) {
    k in s.links ==>
      var spec := s.links[k].spec;
      var edge := if spec.edge == "" then "mgmt" else spec.edge;
      var cp := if spec.controlPlane == "" then "mgmt" else spec.controlPlane;
      var upf := if spec.upfName == "" then "upf-" + spec.edge else spec.upfName;
      && (!s.links[k].deleting && edge != cp && upf != "amf-cp" && edge in s.pods && s.pods[edge] != "" ==>
            LeavesWired(s, t, k, edge, cp, upf))
      && (s.links[k].deleting && s.links[k].finalizer ==> LeavesRemoved(s, t, k, edge, cp, upf))
  }

  lemma {:induction false} IterateMore(f: State -> State, s: State, m: nat, n: nat)
    ensures Iterate(f, s, m + n) == Iterate(f, Iterate(f, s, m), n)
    decreases m
  {
    if m > 0 { IterateMore(f, f(s), m - 1, n); }
  }

  lemma EndsOfScript(s: State, k: string, n: nat, f: State -> State)
    requires EndsWell(f, k) && k !in s.flights
    ensures Run(s, Script(k, n)) == Iterate(f, Started(s, k), n)
  {
    assert Script(k, n)[1..] == CallEnds(k, seq(n, _ => Done));
    RunIterates(f, Started(s, k), k, n);
  }

  /** Once its calls are over, further ones add nothing. */
  lemma EnoughEnds(s: State, k: string, m: nat, n: nat)
    requires k !in s.flights && k !in Run(s, Script(k, m)).flights
    ensures Run(s, Script(k, m + n)) == Run(s, Script(k, m))
  {
    var f := (x: State) => Step(x, CallEnd(k, Done));
    EndsOfScript(s, k, m, f);
    EndsOfScript(s, k, m + n, f);
    IterateMore(f, Started(s, k), m, n);
    IterateIdle(f, Run(s, Script(k, m)), k, n);
  }

  lemma UndisturbedLeaves(s: State, k: string, m: nat)
    requires k !in s.flights && k !in Run(s, Script(k, m)).flights
    ensures LeavesAsAsked(s, Run(s, Script(k, m)), k)
  {
    EnoughEnds(s, k, m, 14);
    if k in s.links {
      var spec := s.links[k].spec;
      var edge := if spec.edge == "" then "mgmt" else spec.edge;
      var cp := if spec.controlPlane == "" then "mgmt" else spec.controlPlane;
      var upf := if spec.upfName == "" then "upf-" + spec.edge else spec.upfName;
      if s.links[k].deleting {
        if s.links[k].finalizer { DeletionRemoves(s, k, m + 14, edge, cp, upf); }
      } else if edge != cp && upf != "amf-cp" && edge in s.pods && s.pods[edge] != "" {
        ScriptLeaves(s, k, m + 14, edge, cp, upf);
      }
    }
  }
}

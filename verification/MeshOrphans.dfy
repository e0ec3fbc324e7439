/**
 * What it takes for a remote object to outlive all its links although no cleanup call failed and nobody pointed a link
 * elsewhere: the site's rewrite of a link takes its finalizer off, and a link that goes before it has it back is not
 * cleaned up.
 */
module MeshOrphans {
  import opened Calls
  import opened MeshLink
  import opened MeshSafety
  import opened MeshScript

  /** The spec with which link `k` is stored or goes when the event happens. */
  function SpecThen(s: State, e: Event, k: string): LinkSpec
    requires k in s.links
  {
    if (e.SiteApplies? || e.EditLink?) && e.key == k then e.spec else s.links[k].spec
  }

  /** Link `k` goes at this event, its finalizer being off since its site rewrote it. */
  predicate GoesStripped(s: State, e: Event, k: string) {
    k in s.links && k !in Step(s, e).links && k in Step(s, e).stripped
  }

  /** The event is a write of a reconcile whose link has gone. */
  predicate WritesLate(s: State, e: Event, p: Place) {
    && e.CallEnd? && e.key in s.flights && e.key !in s.links && |s.flights[e.key].todo| > 0 && e.outcome.Effective()
    && var call := s.flights[e.key].todo[0];
       call.WriteService? && call.place == p && call.create == (p !in s.services)
  }

  predicate WritesSliceLate(s: State, e: Event, p: Place) {
    && e.CallEnd? && e.key in s.flights && e.key !in s.links && |s.flights[e.key].todo| > 0 && e.outcome.Effective()
    && var call := s.flights[e.key].todo[0];
       call.WriteSlice? && call.place == p && call.create == (p !in s.slices)
  }

  /** A rewritten link that wants the service goes, or a reconcile that outlived its link writes it. */
  ghost predicate Leaves(s: State, e: Event, p: Place) {
    || (exists k :: GoesStripped(s, e, k) && p in s.services && p in ServicePlaces(SpecThen(s, e, k)))
    || WritesLate(s, e, p)
  }

  ghost predicate LeavesSlice(s: State, e: Event, p: Place) {
    (exists k :: GoesStripped(s, e, k) && p in s.slices && p == CpSlice(SpecThen(s, e, k))) || WritesSliceLate(s, e, p)
  }

  /** After the event there is an orphan exactly when the event made it, or one stayed. */
  ghost predicate OrphansExact(s: State, e: Event, p: Place) {
    var t := Step(s, e);
    && (Orphaned(t.lostServices, p) <==> Leaves(s, e, p) || (Orphaned(s.lostServices, p) && p in t.services))
    && (Orphaned(t.lostSlices, p) <==> LeavesSlice(s, e, p) || (Orphaned(s.lostSlices, p) && p in t.slices))
  }

  // ----- one event -----

  /** Storing a link adds an orphan exactly when the link goes and is a rewritten one. */
  lemma StoreOrphans(s: State, k: string, l: Link, p: Place)
    requires k in s.links
    ensures var t := StoreLink(s, k, l);
      && (Orphaned(t.lostServices, p) <==>
            Orphaned(s.lostServices, p)
            || (k !in t.links && k in s.stripped && p in ServicePlaces(l.spec) && p in s.services))
      && (Orphaned(t.lostSlices, p) <==>
            Orphaned(s.lostSlices, p) || (k !in t.links && k in s.stripped && p == CpSlice(l.spec) && p in s.slices))
  {
    var t := StoreLink(s, k, l);
    if k !in t.links && k in s.stripped {
      if p in ServicePlaces(l.spec) && p in s.services { assert Excuse(k, p, Stripped) in t.lostServices; }
      if p == CpSlice(l.spec) && p in s.slices { assert Excuse(k, p, Stripped) in t.lostSlices; }
    }
    assert forall x | x in s.lostServices :: x in t.lostServices;
    assert forall x | x in s.lostSlices :: x in t.lostSlices;
  }

  lemma RepointOrphans(s: State, k: string, spec: LinkSpec, l: Link, p: Place)
    requires k in s.links
    ensures var t, u := Repoint(s, k, spec, l), StoreLink(s, k, l);
      && (Orphaned(t.lostServices, p) <==> Orphaned(u.lostServices, p))
      && (Orphaned(t.lostSlices, p) <==> Orphaned(u.lostSlices, p))
      && t.links == u.links && t.services == s.services && t.slices == s.slices && t.stripped == s.stripped
  {
    var t, u := Repoint(s, k, spec, l), StoreLink(s, k, l);
    assert forall x | x in t.lostServices && x !in u.lostServices :: x.cause == Repointed;
    assert forall x | x in t.lostSlices && x !in u.lostSlices :: x.cause == Repointed;
    assert u.lostServices <= t.lostServices && u.lostSlices <= t.lostSlices;
  }

  /** A change of the stored link adds exactly the orphans of a rewritten link that goes. */
  ghost predicate StoresOrphans(s: State, t: State, k: string, spec: LinkSpec, p: Place) {
    && t.services == s.services && t.slices == s.slices
    && (Orphaned(t.lostServices, p) <==>
          Orphaned(s.lostServices, p)
          || (k in s.links && k !in t.links && k in t.stripped && p in ServicePlaces(spec) && p in s.services))
    && (Orphaned(t.lostSlices, p) <==>
          Orphaned(s.lostSlices, p)
          || (k in s.links && k !in t.links && k in t.stripped && p == CpSlice(spec) && p in s.slices))
  }

  lemma SiteOrphans(s: State, k: string, spec: LinkSpec, p: Place)
    ensures StoresOrphans(s, SiteApplied(s, k, spec), k, spec, p)
  {
    if k in s.links {
      var l := s.links[k].(finalizer := false, others := false, spec := spec);
      var u := s.(stripped := if s.links[k].finalizer then s.stripped + {k} else s.stripped);
      RepointOrphans(u, k, spec, l, p);
      StoreOrphans(u, k, l, p);
    }
  }

  lemma EditOrphans(s: State, k: string, spec: LinkSpec, p: Place)
    requires k in s.links
    ensures StoresOrphans(s, Step(s, EditLink(k, spec)), k, spec, p)
  {
    var l := s.links[k].(spec := spec);
    RepointOrphans(s, k, spec, l, p);
    StoreOrphans(s, k, l, p);
  }

  lemma StoredOrphans(s: State, k: string, l: Link, p: Place)
    requires k in s.links
    ensures StoresOrphans(s, StoreLink(s, k, l), k, l.spec, p)
  {
    StoreOrphans(s, k, l, p);
  }

  /** The event is about the object of a link. */
  predicate OnLink(e: Event) {
    e.DeleteLink? || e.OthersRelease? || e.EditLink? || e.SiteApplies? || e.SiteRepeats?
  }

  lemma StoredStays(s: State, k: string, l: Link, j: string)
    requires j in s.links && j != k
    ensures j in StoreLink(s, k, l).links
  {
  }

  lemma SiteStays(s: State, k: string, spec: LinkSpec, j: string)
    requires j in s.links && j != k
    ensures j in SiteApplied(s, k, spec).links
  {
    if k in s.links {
      var l := s.links[k].(finalizer := false, others := false, spec := spec);
      StoredStays(s.(stripped := if s.links[k].finalizer then s.stripped + {k} else s.stripped), k, l, j);
    }
  }

  /** Links other than the one the event is about stay. */
  lemma OnlyKeyGoes(s: State, e: Event, j: string)
    requires OnLink(e) && j in s.links && j != e.key
    ensures j in Step(s, e).links
  {
    match e
    case SiteApplies(k, spec) => SiteStays(s, k, spec, j);
    case SiteRepeats(k) => if k in s.links { SiteStays(s, k, s.links[k].spec, j); }
    case EditLink(k, spec) => if k in s.links { StoredStays(s, k, s.links[k].(spec := spec), j); }
    case DeleteLink(k) => if k in s.links { StoredStays(s, k, s.links[k].(deleting := true), j); }
    case OthersRelease(k) => if k in s.links { StoredStays(s, k, s.links[k].(others := false), j); }
  }

  lemma LinkOrphans(s: State, e: Event, p: Place)
    requires OnLink(e) && e.key in s.links
    ensures StoresOrphans(s, Step(s, e), e.key, SpecThen(s, e, e.key), p)
  {
    var k := e.key;
    match e
    case DeleteLink(_) => StoredOrphans(s, k, s.links[k].(deleting := true), p);
    case OthersRelease(_) => StoredOrphans(s, k, s.links[k].(others := false), p);
    case EditLink(_, spec) => EditOrphans(s, k, spec, p);
    case SiteApplies(_, spec) => SiteOrphans(s, k, spec, p);
    case SiteRepeats(_) => SiteOrphans(s, k, s.links[k].spec, p);
  }

  /** Only the event's own link can go. */
  lemma LeavesByKey(s: State, e: Event, p: Place)
    requires OnLink(e)
    ensures Leaves(s, e, p) <==>
      GoesStripped(s, e, e.key) && p in s.services && p in ServicePlaces(SpecThen(s, e, e.key))
    ensures LeavesSlice(s, e, p) <==>
      GoesStripped(s, e, e.key) && p in s.slices && p == CpSlice(SpecThen(s, e, e.key))
  {
    forall j | GoesStripped(s, e, j) ensures j == e.key {
      if j != e.key { OnlyKeyGoes(s, e, j); }
    }
  }

  lemma LinkStep(s: State, e: Event, p: Place)
    requires ExcusesReal(s) && OnLink(e)
    ensures OrphansExact(s, e, p)
  {
    LeavesByKey(s, e, p);
    if e.key in s.links { LinkOrphans(s, e, p); }
  }

  lemma AfterFinalizer(s: State, k: string, f: Flight, call: Call, rest: seq<Call>, o: Outcome)
    requires call.AddFinalizer? || call.ReleaseFinalizer?
    ensures var t := PerformCall(s, k, f, call, rest, o);
      if !Unchanged(s, k, f.read) || !o.Effective() then t == Abort(s, k)
      else
        var u := StoreLink(s, k, s.links[k].(finalizer := call.AddFinalizer?));
        && t.links == u.links && t.services == s.services && t.slices == s.slices
        && t.lostServices == u.lostServices && t.lostSlices == u.lostSlices
        && t.stripped == if call.AddFinalizer? then s.stripped - {k} else s.stripped
  {
  }

  /** Calls that store the link. */
  lemma FinalizerStep(s: State, e: Event, f: Flight, call: Call, p: Place)
    requires ExcusesReal(s) && e.CallEnd? && e.key in s.flights && s.flights[e.key] == f
    requires |f.todo| > 0 && f.todo[0] == call && (call.AddFinalizer? || call.ReleaseFinalizer?)
    ensures OrphansExact(s, e, p)
  {
    var k, t := e.key, Step(s, e);
    AfterFinalizer(s, k, f, call, f.todo[1..], e.outcome);
    if Unchanged(s, k, f.read) && e.outcome.Effective() {
      FinalizerOrphans(s, e, s.links[k].(finalizer := call.AddFinalizer?), t, p);
    } else {
      assert t.links == s.links;
    }
  }

  lemma FinalizerOrphans(s: State, e: Event, l: Link, t: State, p: Place)
    requires e.CallEnd? && e.key in s.links && l.spec == s.links[e.key].spec && t == Step(s, e) && ExcusesReal(s)
    requires !WritesLate(s, e, p) && !WritesSliceLate(s, e, p)
    requires var u := StoreLink(s, e.key, l);
      && t.links == u.links && t.services == s.services && t.slices == s.slices
      && t.lostServices == u.lostServices && t.lostSlices == u.lostSlices
      && t.stripped == if l.finalizer then s.stripped - {e.key} else s.stripped
    ensures OrphansExact(s, e, p)
  {
    var k := e.key;
    StoredOrphans(s, k, l, p);
    forall j | GoesStripped(s, e, j) ensures j == k {
      if j != k { StoredStays(s, k, l, j); }
    }
    assert k !in t.links ==> !l.finalizer;
    assert GoesStripped(s, e, k) <==> k !in t.links && k in s.stripped;
    assert Leaves(s, e, p) <==> GoesStripped(s, e, k) && p in s.services && p in ServicePlaces(l.spec);
    assert LeavesSlice(s, e, p) <==> GoesStripped(s, e, k) && p in s.slices && p == CpSlice(l.spec);
  }

  lemma WritesUntouched(s: State, k: string, f: Flight, call: Call, rest: seq<Call>, o: Outcome)
    requires call.WriteService? || call.WriteSlice?
    ensures PerformCall(s, k, f, call, rest, o).links == s.links
  {
    if call.WriteService? {
      ServiceResult(s, k, f, call.place, call.content, call.create, rest, o);
    } else {
      SliceResult(s, k, f, call.place, call.ip, call.create, rest, o);
    }
  }

  lemma LinksUntouched(s: State, k: string, f: Flight, call: Call, rest: seq<Call>, o: Outcome)
    requires !call.AddFinalizer? && !call.ReleaseFinalizer?
    ensures PerformCall(s, k, f, call, rest, o).links == s.links
  {
    if call.WriteService? || call.WriteSlice? { WritesUntouched(s, k, f, call, rest, o); }
  }

  /** Calls to the clusters. */
  lemma RemoteStep(s: State, e: Event, f: Flight, call: Call, p: Place)
    requires ExcusesReal(s) && e.CallEnd? && e.key in s.flights && s.flights[e.key] == f
    requires |f.todo| > 0 && f.todo[0] == call && !call.AddFinalizer? && !call.ReleaseFinalizer?
    ensures OrphansExact(s, e, p)
  {
    LinksUntouched(s, e.key, f, call, f.todo[1..], e.outcome);
    if call.WriteService? {
      LateService(s, e.key, f, call, f.todo[1..], e.outcome, p);
    } else if call.WriteSlice? {
      LateSlice(s, e.key, f, call, f.todo[1..], e.outcome, p);
    } else {
      RemoteOrphans(s, e.key, f, call, f.todo[1..], e.outcome, p);
    }
  }

  lemma AstrayOrphans(s: State, k: string, p: Place, q: Place, places: LinkSpec -> set<Place>, lost: set<Excuse>)
    ensures Orphaned(lost + Astray(s, k, q, places), p) <==> Orphaned(lost, p) || (k !in s.links && p == q)
  {
    var all := lost + Astray(s, k, q, places);
    if k !in s.links { assert Excuse(k, q, Stripped) in all; }
    if Orphaned(lost, p) {
      var x :| x in lost && x.place == p && x.cause == Stripped;
      assert x in all;
    }
  }

  lemma ServiceResult(
      s: State, k: string, f: Flight, p: Place, content: Content, create: bool, rest: seq<Call>, o: Outcome)
    ensures var t := PerformCall(s, k, f, WriteService(p, content, create), rest, o);
      var u := if create == (p !in s.services) && o.Effective() then Applied(s, k, p, content) else s;
      && t.services == u.services && t.lostServices == u.lostServices && t.links == s.links
      && t.slices == s.slices && t.lostSlices == s.lostSlices
  {
  }

  lemma SliceResult(s: State, k: string, f: Flight, p: Place, ip: string, create: bool, rest: seq<Call>, o: Outcome)
    ensures var t := PerformCall(s, k, f, WriteSlice(p, ip, create), rest, o);
      var u := if create == (p !in s.slices) && o.Effective() then Sliced(s, k, p, ip) else s;
      && t.slices == u.slices && t.lostSlices == u.lostSlices && t.links == s.links
      && t.services == s.services && t.lostServices == s.lostServices
  {
  }

  lemma LateService(s: State, k: string, f: Flight, call: Call, rest: seq<Call>, o: Outcome, p: Place)
    requires call.WriteService?
    ensures var t := PerformCall(s, k, f, call, rest, o);
      && (p in s.services ==> p in t.services) && t.slices == s.slices && t.lostSlices == s.lostSlices
      && (Orphaned(t.lostServices, p) <==>
            (Orphaned(s.lostServices, p)
             || (k !in s.links && call.place == p && o.Effective() && call.create == (p !in s.services))))
  {
    ServiceResult(s, k, f, call.place, call.content, call.create, rest, o);
    AstrayOrphans(s, k, p, call.place, ServicePlaces, s.lostServices);
  }

  lemma LateSlice(s: State, k: string, f: Flight, call: Call, rest: seq<Call>, o: Outcome, p: Place)
    requires call.WriteSlice?
    ensures var t := PerformCall(s, k, f, call, rest, o);
      && (p in s.slices ==> p in t.slices) && t.services == s.services && t.lostServices == s.lostServices
      && (Orphaned(t.lostSlices, p) <==>
            (Orphaned(s.lostSlices, p)
             || (k !in s.links && call.place == p && o.Effective() && call.create == (p !in s.slices))))
  {
    SliceResult(s, k, f, call.place, call.ip, call.create, rest, o);
    AstrayOrphans(s, k, p, call.place, SlicePlaces, s.lostSlices);
  }

  lemma RemoteOrphans(s: State, k: string, f: Flight, call: Call, rest: seq<Call>, o: Outcome, p: Place)
    requires ExcusesReal(s)
    requires !call.AddFinalizer? && !call.ReleaseFinalizer? && !call.WriteService? && !call.WriteSlice?
    ensures var t := PerformCall(s, k, f, call, rest, o);
      && (Orphaned(t.lostServices, p) <==> Orphaned(s.lostServices, p) && p in t.services)
      && (Orphaned(t.lostSlices, p) <==> Orphaned(s.lostSlices, p) && p in t.slices)
  {
  }

  lemma OrphanStep(s: State, e: Event, p: Place)
    requires ExcusesReal(s)
    ensures OrphansExact(s, e, p)
  {
    if OnLink(e) {
      LinkStep(s, e, p);
    } else if e.CallEnd? && e.key in s.flights && |s.flights[e.key].todo| > 0 {
      var f := s.flights[e.key];
      if f.todo[0].AddFinalizer? || f.todo[0].ReleaseFinalizer? {
        FinalizerStep(s, e, f, f.todo[0], p);
      } else {
        RemoteStep(s, e, f, f.todo[0], p);
      }
    } else {
      PlainStep(s, e, p);
    }
  }

  lemma ForgivenOrphans(lost: set<Excuse>, p: Place, q: Place)
    ensures Orphaned(Forgiven(lost, q), p) <==> Orphaned(lost, p) && p != q
  {
    if Orphaned(lost, p) && p != q {
      var x :| x in lost && x.place == p && x.cause == Stripped;
      assert x in Forgiven(lost, q);
    }
  }

  lemma PlainStep(s: State, e: Event, p: Place)
    requires ExcusesReal(s) && !OnLink(e) && !(e.CallEnd? && e.key in s.flights && |s.flights[e.key].todo| > 0)
    ensures OrphansExact(s, e, p)
  {
    if e.ForeignDelete? {
      ForgivenOrphans(s.lostServices, p, e.place);
      ForgivenOrphans(s.lostSlices, p, e.place);
    } else {
      NothingRemote(s, e);
    }
    NoLinkGoes(s, e);
  }

  lemma NothingRemote(s: State, e: Event)
    requires !OnLink(e) && !e.ForeignDelete? && !(e.CallEnd? && e.key in s.flights && |s.flights[e.key].todo| > 0)
    ensures var t := Step(s, e);
      && t.services == s.services && t.slices == s.slices
      && t.lostServices == s.lostServices && t.lostSlices == s.lostSlices
  {
  }

  lemma NoLinkGoes(s: State, e: Event)
    requires !OnLink(e) && !(e.CallEnd? && e.key in s.flights && |s.flights[e.key].todo| > 0)
    ensures forall k :: !GoesStripped(s, e, k)
  {
  }

  // ----- whole runs -----

  lemma {:induction false} RunOne(s: State, events: seq<Event>, e: Event)
    ensures Run(s, events + [e]) == Step(Run(s, events), e)
  {
    RunAppend(s, events, [e]);
    assert [e][1..] == [];
  }

  /** Some event of the run left the service, and it has been there ever since. */
  ghost predicate LeftSince(s: State, events: seq<Event>, p: Place)
    decreases |events|
  {
    |events| > 0 && p in Run(s, events).services
    && var front, e := events[..|events| - 1], events[|events| - 1];
       Leaves(Run(s, front), e, p) || LeftSince(s, front, p)
  }

  ghost predicate SliceLeftSince(s: State, events: seq<Event>, p: Place)
    decreases |events|
  {
    |events| > 0 && p in Run(s, events).slices
    && var front, e := events[..|events| - 1], events[|events| - 1];
       LeavesSlice(Run(s, front), e, p) || SliceLeftSince(s, front, p)
  }

  lemma Leaving(s: State, e: Event, p: Place)
    requires Invariant(s)
    ensures Leaves(s, e, p) ==> p in Step(s, e).services
    ensures LeavesSlice(s, e, p) ==> p in Step(s, e).slices
  {
    StepKeeps(s, e);
    OrphanStep(s, e, p);
  }

  /** In every run: an orphan is there exactly when some event left it and it has been there ever since. */
  lemma {:induction false} OrphanedIff(events: seq<Event>, p: Place)
    ensures Orphaned(Run(EMPTY, events).lostServices, p) <==> LeftSince(EMPTY, events, p)
    ensures Orphaned(Run(EMPTY, events).lostSlices, p) <==> SliceLeftSince(EMPTY, events, p)
    decreases |events|
  {
    if |events| > 0 {
      var front, e := events[..|events| - 1], events[|events| - 1];
      assert events == front + [e];
      OrphanedIff(front, p);
      RunKeeps(EMPTY, front);
      RunOne(EMPTY, front, e);
      OrphanStep(Run(EMPTY, front), e, p);
      Leaving(Run(EMPTY, front), e, p);
    }
  }

  // ----- outliving all links -----

  /** There, wanted by no link, and no link gave up on it. */
  ghost predicate Outlives(s: State, p: Place) {
    p in s.services && !WantedService(s, p) && !GivenUp(s.lostServices, p)
  }

  ghost predicate SliceOutlives(s: State, p: Place) {
    p in s.slices && !WantedSlice(s, p) && !GivenUp(s.lostSlices, p)
  }

  /**
   * In every run: something outlives all its links with nobody having given up on it exactly when a link that wanted it
   * went while its site's rewrite had its finalizer off, or a reconcile of such a link wrote it afterwards, and it has
   * been there ever since.
   */
  lemma OutlivesIff(events: seq<Event>, p: Place)
    ensures var s := Run(EMPTY, events);
      && (Outlives(s, p) <==>
            (!WantedService(s, p) && !GivenUp(s.lostServices, p) && LeftSince(EMPTY, events, p)))
      && (SliceOutlives(s, p) <==>
            (!WantedSlice(s, p) && !GivenUp(s.lostSlices, p) && SliceLeftSince(EMPTY, events, p)))
  {
    OrphanedIff(events, p);
    RunKeeps(EMPTY, events);
    NothingUnexplained(events, p);
    ExcusesSplit(Run(EMPTY, events).lostServices, p);
    ExcusesSplit(Run(EMPTY, events).lostSlices, p);
  }

  /**
   * At the moment the last link that wants it goes, with nobody having given up on it or left it before: that link is a
   * rewritten one, so it is never a link that holds its finalizer. Unless the link was pointed elsewhere in going, the
   * service outlives it.
   */
  lemma LastLinkGoes(s: State, e: Event, k: string, p: Place)
    requires Invariant(s) && p in s.services && !Excused(s.lostServices, p)
    requires k in s.links && k !in Step(s, e).links && p in ServicePlaces(s.links[k].spec)
    requires forall j | j in s.links && j != k :: p !in ServicePlaces(s.links[j].spec)
    ensures k in Step(s, e).stripped
    ensures p in ServicePlaces(SpecThen(s, e, k)) ==> Orphaned(Step(s, e).lostServices, p)
  {
    var j :| Answers(s, j, p);
    GoesOnlyBare(s, e, k, p);
    OrphanStep(s, e, p);
    assert p in ServicePlaces(SpecThen(s, e, k)) ==> (GoesStripped(s, e, k) ==> Leaves(s, e, p));
  }

  /** A link that answers for something goes only rewritten: by release it goes when it answers for nothing any more. */
  lemma GoesOnlyBare(s: State, e: Event, k: string, p: Place)
    requires Invariant(s) && Answers(s, k, p) && k !in Step(s, e).links
    ensures k in Step(s, e).stripped
  {
    if e.CallEnd? && e.key in s.flights && |s.flights[e.key].todo| > 0 {
      NotByCall(s, e, k, p);
    } else if OnLink(e) {
      if k != e.key { OnlyKeyGoes(s, e, k); }
      ByEvent(s, e, p);
    }
  }

  /** An event about a link takes it away only if the finalizer is off. */
  lemma ByEvent(s: State, e: Event, p: Place)
    requires StrippedBare(s) && OnLink(e) && Answers(s, e.key, p) && e.key !in Step(s, e).links
    ensures e.key in Step(s, e).stripped
  {
    var k := e.key;
    match e
    case DeleteLink(_) => StoredBare(s, k, s.links[k].(deleting := true));
    case OthersRelease(_) => StoredBare(s, k, s.links[k].(others := false));
    case EditLink(_, spec) => RepointedBare(s, k, spec, s.links[k].(spec := spec));
    case SiteApplies(_, spec) => SiteBare(s, k, spec);
    case SiteRepeats(_) => SiteBare(s, k, s.links[k].spec);
  }

  lemma StoredBare(s: State, k: string, l: Link)
    requires Answerable(s, k) && k !in StoreLink(s, k, l).links && l.finalizer == s.links[k].finalizer
    ensures k in StoreLink(s, k, l).stripped
  {
  }

  lemma RepointedBare(s: State, k: string, spec: LinkSpec, l: Link)
    requires Answerable(s, k) && k !in Repoint(s, k, spec, l).links && l.finalizer == s.links[k].finalizer
    ensures k in Repoint(s, k, spec, l).stripped
  {
  }

  lemma SiteBare(s: State, k: string, spec: LinkSpec)
    requires Answerable(s, k) && k !in SiteApplied(s, k, spec).links
    ensures k in SiteApplied(s, k, spec).stripped
  {
  }

  lemma NotByCall(s: State, e: Event, k: string, p: Place)
    requires Invariant(s) && Answers(s, k, p)
    requires e.CallEnd? && e.key in s.flights && |s.flights[e.key].todo| > 0
    ensures k in Step(s, e).links
  {
    var f := s.flights[e.key];
    assert FlightFits(s, e.key, f);
    if f.todo[0].ReleaseFinalizer? {
      AtRelease(s, e.key, f);
      AnswersNothing(s, e.key, f);
      assert k != e.key;
      ReleaseTouchesOne(s, e.key, f, f.todo[1..], e.outcome, k);
    } else if f.todo[0].AddFinalizer? {
      GuardKeepsAll(s, e.key, f, f.todo[1..], e.outcome, k);
    } else {
      LinksUntouched(s, e.key, f, f.todo[0], f.todo[1..], e.outcome);
    }
  }

  lemma ReleaseTouchesOne(s: State, j: string, f: Flight, rest: seq<Call>, o: Outcome, k: string)
    requires k in s.links && k != j
    ensures k in PerformCall(s, j, f, ReleaseFinalizer, rest, o).links
  {
  }

  lemma GuardKeepsAll(s: State, j: string, f: Flight, rest: seq<Call>, o: Outcome, k: string)
    requires k in s.links
    ensures k in PerformCall(s, j, f, AddFinalizer, rest, o).links
  {
  }

  lemma AtRelease(s: State, k: string, f: Flight)
    requires FlightFits(s, k, f) && |f.todo| > 0 && f.todo[0].ReleaseFinalizer?
    ensures f.Cleaning? && f.todo == From(f.read.spec, 6)
  {
    if f.Cleaning? {
      var n: nat :| n < 7 && f.todo == From(f.read.spec, n);
      CleanupSteps(f.read.spec, n);
      if n < 6 { NthCall(f.read.spec, n); }
    }
  }

  // ----- a run that orphans -----

  /** A site creates its link, the link is wired up, the site rewrites it as it is, and the link is deleted. */
  function OrphanRun(k: string, spec: LinkSpec, ip: string, n: nat): seq<Event> {
    [SetPod(ClusterOf(spec.edge), ip), SiteApplies(k, spec)] + (Script(k, n) + [SiteRepeats(k), DeleteLink(k)])
  }

  lemma RunTwo(s: State, a: Event, b: Event)
    ensures Run(s, [a, b]) == Step(Step(s, a), b)
  {
    assert [a, b][1..] == [b];
    assert [b][1..] == [];
    assert Run(s, [a, b]) == Run(Step(s, a), [b]) == Run(Step(Step(s, a), b), []);
  }

  /** Everything that is there is an orphan of a link that went rewritten. */
  ghost predicate AllOrphaned(s: State, spec: LinkSpec) {
    && s.links == map[] && s.flights == map[]
    && s.services.Keys == ServicePlaces(spec) && s.slices.Keys == SlicePlaces(spec)
    && (forall p | p in s.services :: Outlives(s, p)) && (forall p | p in s.slices :: SliceOutlives(s, p))
  }

  ghost predicate WiredAlone(s: State, k: string, spec: LinkSpec) {
    && s.links.Keys == {k} && s.links[k].finalizer && !s.links[k].deleting && s.links[k].spec == spec
    && s.flights == map[] && s.lostServices == {} && s.lostSlices == {}
    && s.services.Keys == ServicePlaces(spec) && s.slices.Keys == SlicePlaces(spec)
  }

  /** The rewritten link stays, without its finalizer. */
  lemma RewrittenBare(s: State, k: string, spec: LinkSpec)
    requires WiredAlone(s, k, spec)
    ensures var t := Step(s, SiteRepeats(k));
      && t.links.Keys == {k} && t.links[k] == Link(s.clock, false, false, false, spec) && k in t.stripped
      && t.services == s.services && t.slices == s.slices && t.flights == s.flights
      && t.lostServices == {} && t.lostSlices == {}
  {
    var bare := s.links[k].(finalizer := false, others := false);
    assert s.links[k] != bare;
  }

  /** It goes as soon as it is deleted, and nothing else changes. */
  lemma GoesUncleaned(s: State, k: string, spec: LinkSpec)
    requires WiredAlone(s, k, spec)
    ensures AllOrphaned(Step(Step(s, SiteRepeats(k)), DeleteLink(k)), spec)
  {
    RewrittenBare(s, k, spec);
    var u := Step(s, SiteRepeats(k));
    var t := Step(u, DeleteLink(k));
    assert t == StoreLink(u, k, u.links[k].(deleting := true));
    assert t.links == map[];
    assert forall x | x in t.lostServices || x in t.lostSlices :: x.cause == Stripped;
  }

  lemma WiredFacts(s: State, k: string, l: Link, ip: string)
    requires s.links == map[k := l] && !l.finalizer && !l.deleting && s.services == map[] && s.slices == map[]
    requires s.lostServices == {} && s.lostSlices == {} && s.flights == map[]
    ensures WiredAlone(Wired(Guarded(s, k), k, l.spec, ip), k, l.spec)
  {
    var g := Guarded(s, k);
    ExportedFacts(g, k, l.spec);
    EndpointFacts(Exported(g, k, l.spec), k, l.spec, ip);
  }

  lemma ExportedFacts(s: State, k: string, spec: LinkSpec)
    requires s.links.Keys == {k} && s.links[k].spec == spec && s.services == map[] && s.lostServices == {}
    ensures var t := Exported(s, k, spec);
      && t.links == s.links && t.flights == s.flights && t.services.Keys == {CpAmf(spec), EdgeAmf(spec)}
      && t.slices == s.slices && t.lostServices == {} && t.lostSlices == s.lostSlices
  {
  }

  lemma EndpointFacts(s: State, k: string, spec: LinkSpec, ip: string)
    requires s.links.Keys == {k} && s.links[k].spec == spec && s.slices == map[] && s.lostSlices == {}
    requires s.services.Keys == {CpAmf(spec), EdgeAmf(spec)} && s.lostServices == {}
    ensures var t := Sliced(Applied(s, k, CpUpf(spec), N4Port), k, CpSlice(spec), ip);
      && t.links == s.links && t.flights == s.flights && t.services.Keys == ServicePlaces(spec)
      && t.slices.Keys == SlicePlaces(spec) && t.lostServices == {} && t.lostSlices == {}
  {
  }

  /** The site's bare link and its pod. */
  function Begun(k: string, spec: LinkSpec, ip: string): State {
    EMPTY.(links := map[k := Link(0, false, false, false, spec)], pods := map[ClusterOf(spec.edge) := ip], clock := 1)
  }

  lemma Begins(k: string, spec: LinkSpec, ip: string)
    ensures Step(Step(EMPTY, SetPod(ClusterOf(spec.edge), ip)), SiteApplies(k, spec)) == Begun(k, spec, ip)
  {
  }

  lemma OrphanRunParts(k: string, spec: LinkSpec, ip: string, n: nat)
    requires ip != "" && n >= 14
    ensures var wired := Run(Begun(k, spec, ip), Script(k, n));
      && Run(EMPTY, OrphanRun(k, spec, ip, n)) == Step(Step(wired, SiteRepeats(k)), DeleteLink(k))
      && WiredAlone(wired, k, spec)
  {
    var pod, applied, last := SetPod(ClusterOf(spec.edge), ip), SiteApplies(k, spec), [SiteRepeats(k), DeleteLink(k)];
    var begun := Begun(k, spec, ip);
    Begins(k, spec, ip);
    RunTwo(EMPTY, pod, applied);
    RunAppend(EMPTY, [pod, applied], Script(k, n) + last);
    RunAppend(begun, Script(k, n), last);
    ScriptWires(begun, k, n);
    WiredFacts(begun, k, begun.links[k], ip);
    RunTwo(Run(begun, Script(k, n)), SiteRepeats(k), DeleteLink(k));
  }

  /**
   * Whatever the link and its spec: in a run in which every call is done and nobody edits anything, the three services
   * and the slice that the link was wired up with all outlive it.
   */
  lemma OrphanRunOrphans(k: string, spec: LinkSpec, ip: string, n: nat)
    requires ip != "" && n >= 14
    ensures forall e | e in OrphanRun(k, spec, ip, n) :: (e.CallEnd? ==> e.outcome == Done) && !e.EditLink? && !e.Crash?
    ensures AllOrphaned(Run(EMPTY, OrphanRun(k, spec, ip, n)), spec)
  {
    OrphanRunParts(k, spec, ip, n);
    GoesUncleaned(Run(Begun(k, spec, ip), Script(k, n)), k, spec);
  }
}

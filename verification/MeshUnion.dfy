/**
 * Careful histories: every cleanup call reaches its peer, nobody points a link elsewhere, and no link goes before it
 * has back the finalizer that its site's rewrite took. They leave nothing behind, so that the clusters come to hold
 * exactly the union of what the links want.
 */
module MeshUnion {
  import opened Calls
  import opened MeshLink
  import opened MeshSafety
  import opened MeshOrphans
  import opened MeshConvergence

  ghost predicate Careful(s: State, e: Event) {
    && !e.EditLink?
    && (e.SiteApplies? && e.key in s.links ==> e.spec == s.links[e.key].spec)
    && (e.CallEnd? && e.key in s.flights && s.flights[e.key].Cleaning? ==> e.outcome == Done)
    && forall k :: !GoesStripped(s, e, k)
  }

  ghost predicate CarefulRun(s: State, events: seq<Event>)
    decreases |events|
  {
    |events| > 0 ==> Careful(s, events[0]) && CarefulRun(Step(s, events[0]), events[1..])
  }

  /** A reconcile that has its finalizer in place serves its link as it is. */
  ghost predicate FlightServes(s: State, k: string) {
    k in s.flights && s.flights[k].Creating? && !(|s.flights[k].todo| > 0 && s.flights[k].todo[0].AddFinalizer?) ==>
      k in s.links && s.links[k].spec == s.flights[k].read.spec
  }

  ghost predicate Tidy(s: State) {
    && s.lostServices == {} && s.lostSlices == {} && s.stripped <= s.links.Keys && forall k :: FlightServes(s, k)
  }

  // ----- nothing is left behind -----

  lemma NoneGivenUp(s: State, e: Event, x: Excuse)
    requires Invariant(s) && Tidy(s) && Careful(s, e)
    ensures NewExcuse(s, Step(s, e), x) ==> x.cause == Stripped
  {
    if NewExcuse(s, Step(s, e), x) && x.cause != Stripped {
      assert FlightServes(s, x.link);
      GivenUpOnlyWhen(s, e, x);
    }
  }

  /** A reconcile that writes has a link. */
  lemma WriterHasLink(s: State, e: Event)
    requires Invariant(s) && Tidy(s) && e.CallEnd? && e.key in s.flights && |s.flights[e.key].todo| > 0
    requires s.flights[e.key].todo[0].WriteService? || s.flights[e.key].todo[0].WriteSlice?
    ensures e.key in s.links
  {
    var f := s.flights[e.key];
    assert FlightFits(s, e.key, f) && FlightServes(s, e.key);
    HeadFits(s, e.key, f);
  }

  lemma NoneLeft(s: State, e: Event, p: Place)
    requires Invariant(s) && Tidy(s) && Careful(s, e)
    ensures !Leaves(s, e, p) && !LeavesSlice(s, e, p)
  {
    if WritesLate(s, e, p) || WritesSliceLate(s, e, p) { WriterHasLink(s, e); }
  }

  lemma NothingNew(s: State, e: Event)
    requires Invariant(s) && Tidy(s) && Careful(s, e)
    ensures Step(s, e).lostServices == {} && Step(s, e).lostSlices == {}
  {
    var t := Step(s, e);
    forall x | x in t.lostServices || x in t.lostSlices ensures false {
      NoneGivenUp(s, e, x);
      OrphanStep(s, e, x.place);
      NoneLeft(s, e, x.place);
    }
  }

  // ----- links and flights -----

  /** What stays of links and flights when link `k` is stored without changing its spec. */
  ghost predicate LinkKept(s: State, t: State, k: string) {
    && t.flights == s.flights && s.links.Keys - {k} <= t.links.Keys
    && (k in s.stripped && k in s.links ==> k in t.links)
    && (k in t.flights && k in s.links && !NeedsFinalizer(t.flights[k]) ==> k in t.links)
    && (t.stripped <= s.stripped + (if k in t.links then {k} else {}))
    && (forall j | j in s.links && j in t.links :: t.links[j].spec == s.links[j].spec)
  }

  predicate NeedsFinalizer(f: Flight) {
    f.Cleaning? || (|f.todo| > 0 && f.todo[0].AddFinalizer?)
  }

  lemma KeptTidy(s: State, t: State, k: string)
    requires Tidy(s) && LinkKept(s, t, k) && t.lostServices == {} && t.lostSlices == {}
    ensures Tidy(t)
  {
    forall j ensures FlightServes(t, j) { assert FlightServes(s, j); }
  }

  /** A link that flies with its finalizer in place goes only rewritten. */
  lemma StoredKept(s: State, k: string, l: Link)
    requires Invariant(s) && k in s.links && l.spec == s.links[k].spec && l.finalizer == s.links[k].finalizer
    requires k in s.stripped ==> k in StoreLink(s, k, l).links
    ensures LinkKept(s, StoreLink(s, k, l), k)
  {
    if k in s.flights { assert FlightFits(s, k, s.flights[k]); }
  }

  /** What the site's rewrite does to the links. */
  lemma RewriteIs(s: State, k: string, l: Link, t: State)
    requires k in s.links && s.links[k] == l && t == SiteApplied(s, k, l.spec)
    ensures t.flights == s.flights
    ensures t.stripped == (if l.finalizer then s.stripped + {k} else s.stripped)
    ensures t.links == s.links || t.links == Without(s.links, k)
      || t.links == s.links[k := l.(finalizer := false, others := false, rev := s.clock)]
  {
    var u := s.(stripped := if l.finalizer then s.stripped + {k} else s.stripped);
    var bare := l.(finalizer := false, others := false);
    if l != bare { assert t.links == StoreLink(u, k, bare).links; }
  }

  lemma RepeatKept(s: State, k: string, l: Link, t: State)
    requires Invariant(s) && k in s.links && s.links[k] == l && t == SiteApplied(s, k, l.spec)
    requires k !in t.links ==> k !in t.stripped
    ensures LinkKept(s, t, k)
  {
    RewriteIs(s, k, l, t);
    if k in s.flights { assert FlightFits(s, k, s.flights[k]); }
  }

  lemma OnLinkTidy(s: State, e: Event)
    requires Invariant(s) && Tidy(s) && Careful(s, e) && OnLink(e) && e.key in s.links
    ensures Tidy(Step(s, e))
  {
    var k := e.key;
    NothingNew(s, e);
    assert !GoesStripped(s, e, k);
    match e
    case DeleteLink(_) =>
      StoredKept(s, k, s.links[k].(deleting := true));
      KeptTidy(s, Step(s, e), k);
    case OthersRelease(_) =>
      StoredKept(s, k, s.links[k].(others := false));
      KeptTidy(s, Step(s, e), k);
    case SiteApplies(_, _) =>
      assert Step(s, e) == Step(s, SiteRepeats(k));
      RepeatKept(s, k, s.links[k], Step(s, e));
      KeptTidy(s, Step(s, e), k);
    case SiteRepeats(_) =>
      RepeatKept(s, k, s.links[k], Step(s, e));
      KeptTidy(s, Step(s, e), k);
  }

  /** Flights of other links and their links are not touched by a call. */
  ghost predicate CallKeeps(s: State, t: State, k: string) {
    && (forall j | j != k && j in t.flights :: j in s.flights && t.flights[j] == s.flights[j])
    && (forall j | j in s.links && (j != k || k in t.flights) :: j in t.links && t.links[j].spec == s.links[j].spec)
    && s.links.Keys - {k} <= t.links.Keys
    && t.stripped <= s.stripped && (k in t.stripped ==> k in t.links || k !in s.links)
  }

  lemma CallTidy(s: State, t: State, k: string)
    requires Tidy(s) && CallKeeps(s, t, k) && FlightServes(t, k) && t.lostServices == {} && t.lostSlices == {}
    ensures Tidy(t)
  {
    forall j ensures FlightServes(t, j) { assert FlightServes(s, j); }
  }

  /** The flight is over, or goes on for the link it read. */
  predicate GoesOn(s: State, t: State, k: string, f: Flight) {
    && t.links == s.links && t.stripped == s.stripped
    && (t.flights == Without(s.flights, k)
        || (k in t.flights && t.flights == s.flights[k := t.flights[k]]
            && t.flights[k].read == f.read && t.flights[k].Creating? == f.Creating?))
  }

  lemma ContinueGoesOn(s: State, t: State, k: string, f: Flight, todo: seq<Call>)
    requires t.links == s.links && t.stripped == s.stripped && t.flights == s.flights
    ensures GoesOn(s, Continue(t, k, f, todo), k, f) && GoesOn(s, Abort(t, k), k, f)
  {
  }

  lemma WriteGoesOn(s: State, k: string, f: Flight, call: Call, rest: seq<Call>, o: Outcome)
    requires call.WriteService? || call.WriteSlice?
    ensures GoesOn(s, PerformCall(s, k, f, call, rest, o), k, f)
  {
    if call.WriteService? {
      ContinueGoesOn(s, Applied(s, k, call.place, call.content), k, f, rest);
    } else {
      ContinueGoesOn(s, Sliced(s, k, call.place, call.ip), k, f, rest);
    }
    ContinueGoesOn(s, s, k, f, rest);
  }

  lemma CleanupGoesOn(s: State, k: string, f: Flight, call: Call, rest: seq<Call>, o: Outcome)
    requires call.CleanupClient? || call.DeleteService? || call.DeleteSlice?
    ensures GoesOn(s, PerformCall(s, k, f, call, rest, o), k, f)
  {
  }

  lemma CallGoesOn(s: State, k: string, f: Flight, call: Call, rest: seq<Call>, o: Outcome)
    requires !call.AddFinalizer? && !call.ReleaseFinalizer?
    ensures GoesOn(s, PerformCall(s, k, f, call, rest, o), k, f)
  {
    if call.WriteService? || call.WriteSlice? {
      WriteGoesOn(s, k, f, call, rest, o);
    } else if call.CleanupClient? || call.DeleteService? || call.DeleteSlice? {
      CleanupGoesOn(s, k, f, call, rest, o);
    }
  }

  lemma GuardTidy(s: State, k: string, f: Flight, rest: seq<Call>, o: Outcome)
    requires Tidy(s) && k in s.flights && f.Creating? && (Unchanged(s, k, f.read) ==> s.links[k] == f.read)
    ensures var t := PerformCall(s, k, f, AddFinalizer, rest, o); CallKeeps(s, t, k) && FlightServes(t, k)
  {
    if Unchanged(s, k, f.read) {
      assert Guard(s, k).links == s.links[k := f.read.(finalizer := true, rev := s.clock)];
    }
  }

  lemma ReleaseTidy(s: State, k: string, f: Flight, rest: seq<Call>, o: Outcome)
    requires Tidy(s) && StrippedBare(s) && f.read.finalizer && (Unchanged(s, k, f.read) ==> s.links[k] == f.read)
    ensures var t := PerformCall(s, k, f, ReleaseFinalizer, rest, o); CallKeeps(s, t, k) && FlightServes(t, k)
  {
    if Unchanged(s, k, f.read) { assert k !in s.stripped; }
  }

  /** Which flights update the finalizer. */
  lemma UpdateFits(s: State, k: string, f: Flight)
    requires FlightFits(s, k, f) && |f.todo| > 0 && (f.todo[0].AddFinalizer? || f.todo[0].ReleaseFinalizer?)
    ensures f.Creating? <==> f.todo[0].AddFinalizer?
    ensures Unchanged(s, k, f.read) ==> s.links[k] == f.read
    ensures f.Cleaning? ==> f.read.finalizer
  {
    if f.Cleaning? {
      var n: nat :| n < 7 && f.todo == From(f.read.spec, n);
      CleanupSteps(f.read.spec, n);
      if n < 6 { NthCall(f.read.spec, n); }
    }
  }

  lemma CallStepTidy(s: State, e: Event, f: Flight)
    requires Invariant(s) && Tidy(s) && Careful(s, e)
    requires e.CallEnd? && e.key in s.flights && s.flights[e.key] == f && |f.todo| > 0
    ensures Tidy(Step(s, e))
  {
    var k, t := e.key, Step(s, e);
    assert FlightFits(s, k, f) && FlightServes(s, k);
    NothingNew(s, e);
    if f.todo[0].AddFinalizer? {
      UpdateFits(s, k, f);
      GuardTidy(s, k, f, f.todo[1..], e.outcome);
    } else if f.todo[0].ReleaseFinalizer? {
      UpdateFits(s, k, f);
      ReleaseTidy(s, k, f, f.todo[1..], e.outcome);
    } else {
      CallGoesOn(s, k, f, f.todo[0], f.todo[1..], e.outcome);
    }
    CallTidy(s, t, k);
  }

  lemma CarefulStep(s: State, e: Event)
    requires Invariant(s) && Tidy(s) && Careful(s, e)
    ensures Tidy(Step(s, e))
  {
    if e.CallEnd? && e.key in s.flights && |s.flights[e.key].todo| > 0 {
      CallStepTidy(s, e, s.flights[e.key]);
    } else if OnLink(e) {
      if e.key in s.links { OnLinkTidy(s, e); } else { AbsentTidy(s, e); }
    } else {
      PlainTidy(s, e);
    }
  }

  lemma AbsentTidy(s: State, e: Event)
    requires Tidy(s) && OnLink(e) && e.key !in s.links
    ensures Tidy(Step(s, e))
  {
    forall j ensures FlightServes(Step(s, e), j) { assert FlightServes(s, j) && FlightServes(s, e.key); }
  }

  lemma PlainTidy(s: State, e: Event)
    requires Invariant(s) && Tidy(s) && Careful(s, e) && !OnLink(e)
    requires !(e.CallEnd? && e.key in s.flights && |s.flights[e.key].todo| > 0)
    ensures Tidy(Step(s, e))
  {
    NothingNew(s, e);
    LinksLast(s, e);
    forall j ensures FlightServes(Step(s, e), j) { assert FlightServes(s, j); }
  }

  /** Links stay as they are, and only flights that serve them begin. */
  ghost predicate LinksUndisturbed(s: State, t: State) {
    && t.stripped == s.stripped && (forall j | j in s.links :: j in t.links && t.links[j] == s.links[j])
    && (forall j | j in t.flights :: (j in s.flights && t.flights[j] == s.flights[j])
                                     || (j in s.links && t.flights[j].read == s.links[j]))
  }

  lemma BeginLast(s: State, k: string)
    ensures LinksUndisturbed(s, Started(s, k))
  {
  }

  lemma EmptyLast(s: State, k: string, o: Outcome)
    requires !(k in s.flights && |s.flights[k].todo| > 0)
    ensures LinksUndisturbed(s, Step(s, CallEnd(k, o)))
  {
  }

  lemma LinksLast(s: State, e: Event)
    requires !OnLink(e) && !(e.CallEnd? && e.key in s.flights && |s.flights[e.key].todo| > 0)
    ensures LinksUndisturbed(s, Step(s, e))
  {
    match e
    case Begin(k) => BeginLast(s, k);
    case CallEnd(k, o) => EmptyLast(s, k, o);
    case Crash =>
    case CreateLink(_, _, _) =>
    case SetPod(_, _) =>
    case ForeignDelete(_) =>
  }

  lemma {:induction false} CarefulTidies(s: State, events: seq<Event>)
    requires Invariant(s) && Tidy(s) && CarefulRun(s, events)
    ensures Tidy(Run(s, events))
    decreases |events|
  {
    if |events| > 0 {
      StepKeeps(s, events[0]);
      CarefulStep(s, events[0]);
      CarefulTidies(Step(s, events[0]), events[1..]);
    }
  }

  /** A careful history has given up on nothing and orphaned nothing. */
  lemma CarefulLosesNothing(history: seq<Event>)
    requires CarefulRun(EMPTY, history)
    ensures Run(EMPTY, history).lostServices == {} && Run(EMPTY, history).lostSlices == {}
  {
    CarefulTidies(EMPTY, history);
  }

  // ----- the exact union -----

  lemma ServedThere(t: State, spec: LinkSpec, ip: string)
    requires Served(t, spec, ip)
    ensures ServicePlaces(spec) <= t.services.Keys && CpSlice(spec) in t.slices
  {
  }

  /**
   * After a careful history, however many links came and went in it, a quiet run in which every link completes leaves
   * the clusters with exactly the union of what the links want. `Converges` gives each its content.
   */
  lemma ExactUnion(history: seq<Event>, events: seq<Event>, courses: map<string, Course>)
    requires CarefulRun(EMPTY, history)
    requires Settled(Run(EMPTY, history)) && AllQuiet(events) && Compatible(Run(Run(EMPTY, history), events).links)
    requires forall k | k in Run(Run(EMPTY, history), events).links ::
      k in courses && courses[k].All(k) == events && Completes(Run(EMPTY, history), courses[k], k)
    ensures var t := Run(Run(EMPTY, history), events);
      && (forall p :: p in t.services <==> WantedService(t, p)) && (forall p :: p in t.slices <==> WantedSlice(t, p))
  {
    var s := Run(EMPTY, history);
    var t := Run(s, events);
    CarefulLosesNothing(history);
    Converges(history, events, courses);
    forall p | WantedService(t, p) ensures p in t.services {
      var k :| k in t.links && p in ServicePlaces(t.links[k].spec);
      ServedThere(t, t.links[k].spec, LastSlice(s, events, k));
    }
    forall p | WantedSlice(t, p) ensures p in t.slices {
      var k :| k in t.links && p == CpSlice(t.links[k].spec);
      ServedThere(t, t.links[k].spec, LastSlice(s, events, k));
    }
  }
}

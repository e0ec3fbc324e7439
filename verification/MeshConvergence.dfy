/**
 * Where the mesh ends up. From any moment on at which no link is being deleted, let anything happen but edits and
 * deletions: reconciles of different links interleave call by call, calls fail, the process crashes, pods move, sites
 * rewrite their links as they are. Once every link has completed a reconcile that found its pod, the clusters hold what
 * the links want, and nothing else but what had been given up on or orphaned before.
 */
module MeshConvergence {
  import opened Calls
  import opened MeshLink
  import opened MeshSafety
  import opened MeshScript

  /** A site that writes its link's spec as it is does not disturb. */
  predicate Quiet(e: Event) {
    !e.EditLink? && !e.DeleteLink? && !e.ForeignDelete? && !e.SiteApplies?
  }

  predicate AllQuiet(events: seq<Event>) {
    forall e | e in events :: Quiet(e)
  }

  // ----- what a link may write -----

  predicate Owns(spec: LinkSpec, p: Place, c: Content) {
    (p == CpAmf(spec) && c == AmfGlobal(true)) || (p == EdgeAmf(spec) && c == AmfGlobal(false))
      || (p == CpUpf(spec) && c == N4Port)
  }

  /** The call writes, or will lead to a write of, what the link owns. */
  predicate OwnCall(call: Call, spec: LinkSpec) {
    match call
    case LookService(p, c) => Owns(spec, p, c)
    case WriteService(p, c, _) => Owns(spec, p, c)
    case LookSlice(p, ip) => p == CpSlice(spec) && ip != ""
    case WriteSlice(p, ip, _) => p == CpSlice(spec) && ip != ""
    case CleanupClient(_, _) => false
    case DeleteService(_) => false
    case DeleteSlice(_) => false
    case ReleaseFinalizer => false
    case _ => true
  }

  predicate OwnCalls(todo: seq<Call>, spec: LinkSpec) {
    forall call | call in todo :: OwnCall(call, spec)
  }

  ghost predicate FlightOwns(s: State, k: string) {
    k in s.flights ==> k in s.links && s.flights[k].Creating? && s.flights[k].read.spec == s.links[k].spec
                       && OwnCalls(s.flights[k].todo, s.links[k].spec)
  }

  /** No link is being deleted, and whatever is in flight serves its link as it is now. */
  ghost predicate Settled(s: State) {
    (forall k | k in s.links :: !s.links[k].deleting) && forall k :: FlightOwns(s, k)
  }

  /** Links stay, with their specs. */
  ghost predicate LinksStay(s: State, t: State) {
    forall k | k in s.links :: k in t.links && t.links[k].spec == s.links[k].spec
  }

  lemma ProgramOwn(l: Link)
    ensures OwnCalls(CreateProgram(l), l.spec)
  {
    var tail := CreateTail(l.spec);
    forall i | 0 <= i < |tail| ensures OwnCall(tail[i], l.spec) {
      TailOwn(l.spec, i);
    }
  }

  lemma TailOwn(spec: LinkSpec, i: nat)
    requires i < 7
    ensures OwnCall(CreateTail(spec)[i], spec)
  {
    var tail := CreateTail(spec);
    if i == 3 {
      assert tail[i] == LookService(CpAmf(spec), AmfGlobal(true));
    } else if i == 4 {
      assert tail[i] == LookService(EdgeAmf(spec), AmfGlobal(false));
    }
  }

  lemma BeginSettled(s: State, k: string)
    requires Settled(s)
    ensures Settled(Started(s, k)) && LinksStay(s, Started(s, k))
  {
    var t := Started(s, k);
    if k in s.links && k !in s.flights {
      ProgramOwn(s.links[k]);
      forall j ensures FlightOwns(t, j) {
        if j != k { assert FlightOwns(s, j); }
      }
    }
  }

  lemma Others(s: State, t: State, k: string)
    requires Settled(s) && (forall j | j != k :: j in t.flights <==> j in s.flights)
    requires forall j | j != k && j in t.flights :: t.flights[j] == s.flights[j]
    requires LinksStay(s, t) && (forall j | j in t.links :: !t.links[j].deleting) && FlightOwns(t, k)
    ensures Settled(t)
  {
    forall j ensures FlightOwns(t, j) {
      assert FlightOwns(s, j);
    }
  }

  lemma StoredSettled(s: State, k: string, l: Link)
    requires Settled(s) && !l.deleting && (k in s.links ==> l.spec == s.links[k].spec)
    ensures Settled(StoreLink(s, k, l)) && LinksStay(s, StoreLink(s, k, l))
  {
    var t := StoreLink(s, k, l);
    forall j ensures FlightOwns(t, j) {
      assert FlightOwns(s, j);
    }
  }

  /** The site repeats its link: the finalizers go, the link stays. */
  lemma RepeatIs(s: State, k: string, l: Link)
    requires k in s.links && s.links[k] == l && !l.deleting
    ensures var t := SiteApplied(s, k, l.spec);
      && t.links.Keys == s.links.Keys && (forall j | j in s.links && j != k :: t.links[j] == s.links[j])
      && t.links[k].spec == l.spec && !t.links[k].deleting
      && t.flights == s.flights && t.services == s.services && t.slices == s.slices
      && t.lostServices == s.lostServices && t.lostSlices == s.lostSlices
  {
  }

  lemma RepeatSettled(s: State, k: string)
    requires Settled(s) && k in s.links
    ensures var t := SiteApplied(s, k, s.links[k].spec); Settled(t) && LinksStay(s, t)
  {
    RepeatIs(s, k, s.links[k]);
    var t := SiteApplied(s, k, s.links[k].spec);
    forall j ensures FlightOwns(t, j) {
      assert FlightOwns(s, j);
    }
  }

  lemma MovedOn(s: State, t: State, k: string, f: Flight, todo: seq<Call>)
    requires Settled(s) && k in s.flights && s.flights[k] == f && k in s.links && OwnCalls(todo, s.links[k].spec)
    requires t.flights == s.flights && LinksStay(s, t) && forall j | j in t.links :: !t.links[j].deleting
    ensures Settled(Continue(t, k, f, todo)) && LinksStay(s, Continue(t, k, f, todo))
    ensures Settled(Abort(t, k)) && LinksStay(s, Abort(t, k))
  {
    assert FlightOwns(s, k);
    Others(s, Continue(t, k, f, todo), k);
    Others(s, Abort(t, k), k);
  }

  /** A call that leads to other calls, or changes nothing. */
  lemma LookSettled(s: State, k: string, f: Flight, call: Call, rest: seq<Call>, o: Outcome)
    requires Settled(s) && k in s.flights && s.flights[k] == f && f.todo == [call] + rest
    requires !call.AddFinalizer? && !call.WriteService? && !call.WriteSlice?
    ensures var t := PerformCall(s, k, f, call, rest, o); Settled(t) && LinksStay(s, t)
  {
    assert FlightOwns(s, k);
    var spec := s.links[k].spec;
    assert call in f.todo && OwnCall(call, spec) && OwnCalls(rest, spec);
    MovedOn(s, s, k, f, rest);
    match call {
      case LookService(p, c) => MovedOn(s, s, k, f, [WriteService(p, c, o.Done? && p !in s.services)] + rest);
      case ReadPod =>
        var ip := PodOf(s, spec);
        if ip != "" { MovedOn(s, s, k, f, Endpoint(spec, ip) + rest); }
      case LookSlice(p, ip) => MovedOn(s, s, k, f, [WriteSlice(p, ip, o.Done? && p !in s.slices)] + rest);
      case _ =>
    }
  }

  lemma WriteSettled(s: State, k: string, f: Flight, call: Call, rest: seq<Call>, o: Outcome)
    requires Settled(s) && k in s.flights && s.flights[k] == f && f.todo == [call] + rest
    requires call.AddFinalizer? || call.WriteService? || call.WriteSlice?
    ensures var t := PerformCall(s, k, f, call, rest, o); Settled(t) && LinksStay(s, t)
  {
    assert FlightOwns(s, k);
    var spec := s.links[k].spec;
    assert OwnCalls(rest, spec);
    MovedOn(s, s, k, f, rest);
    if call.AddFinalizer? {
      StoredSettled(s, k, s.links[k].(finalizer := true));
      MovedOn(s, Guard(s, k), k, f, rest);
    } else if call.WriteService? {
      MovedOn(s, Applied(s, k, call.place, call.content), k, f, rest);
    } else {
      MovedOn(s, Sliced(s, k, call.place, call.ip), k, f, rest);
    }
  }

  lemma CallSettled(s: State, k: string, f: Flight, o: Outcome)
    requires Settled(s) && k in s.flights && s.flights[k] == f && |f.todo| > 0
    ensures var t := PerformCall(s, k, f, f.todo[0], f.todo[1..], o); Settled(t) && LinksStay(s, t)
  {
    var call, rest := f.todo[0], f.todo[1..];
    assert f.todo == [call] + rest;
    if call.AddFinalizer? || call.WriteService? || call.WriteSlice? {
      WriteSettled(s, k, f, call, rest, o);
    } else {
      LookSettled(s, k, f, call, rest, o);
    }
  }

  lemma SettledStep(s: State, e: Event)
    requires Settled(s) && Quiet(e)
    ensures Settled(Step(s, e)) && LinksStay(s, Step(s, e))
  {
    match e {
      case Begin(k) => BeginSettled(s, k);
      case CallEnd(k, o) =>
        if k in s.flights {
          assert FlightOwns(s, k);
          if s.flights[k].todo == [] { MovedOn(s, s, k, s.flights[k], []); }
            else { CallSettled(s, k, s.flights[k], o); }
        }
      case CreateLink(k, others, spec) =>
        if k !in s.links {
          assert FlightOwns(s, k);
          forall j ensures FlightOwns(Step(s, e), j) { assert FlightOwns(s, j); }
        }
      case OthersRelease(k) => if k in s.links { StoredSettled(s, k, s.links[k].(others := false)); }
      case SiteRepeats(k) => if k in s.links { RepeatSettled(s, k); }
      case SetPod(_, _) =>
        forall j ensures FlightOwns(Step(s, e), j) { assert FlightOwns(s, j); }
      case Crash =>
    }
  }

  lemma {:induction false} SettledRun(s: State, events: seq<Event>)
    requires Settled(s) && AllQuiet(events)
    ensures Settled(Run(s, events)) && LinksStay(s, Run(s, events))
    decreases |events|
  {
    if |events| > 0 {
      assert events[0] in events && forall e | e in events[1..] :: e in events;
      SettledStep(s, events[0]);
      SettledRun(Step(s, events[0]), events[1..]);
    }
  }

  // ----- what is written stays -----

  /** Different links do not want different things of one place. */
  ghost predicate Compatible(links: map<string, Link>) {
    && (forall k | k in links :: UpfName(links[k].spec) != AMF)
    && (forall j, k | j in links && k in links ::
          ClusterOf(links[j].spec.controlPlane) != ClusterOf(links[k].spec.edge))
    && (forall j, k | j in links && k in links && j != k :: CpUpf(links[j].spec) != CpUpf(links[k].spec))
  }

  predicate Holds(s: State, p: Place, c: Content) {
    p in s.services && s.services[p].content == c
  }

  predicate HoldsSlice(s: State, p: Place, ip: string) {
    p in s.slices && s.slices[p] == ip
  }

  /** A call that puts a service, or a slice with its address, in place. */
  predicate Writes(s: State, e: Event, k: string, p: Place) {
    && e.CallEnd? && e.key == k && e.outcome.Effective() && k in s.flights && |s.flights[k].todo| > 0
    && s.flights[k].todo[0].WriteService? && s.flights[k].todo[0].place == p
    && s.flights[k].todo[0].create == (p !in s.services)
  }

  predicate WritesSlice(s: State, e: Event, k: string) {
    && e.CallEnd? && e.key == k && e.outcome.Effective() && k in s.flights && |s.flights[k].todo| > 0
    && s.flights[k].todo[0].WriteSlice? && s.flights[k].todo[0].create == (s.flights[k].todo[0].place !in s.slices)
  }

  lemma SlicesApart(a: LinkSpec, b: LinkSpec)
    requires CpUpf(a) != CpUpf(b)
    ensures CpSlice(a) != CpSlice(b)
  {
    if CpSlice(a).name == CpSlice(b).name {
      assert CpSlice(a).name[..|UpfName(a)|] == UpfName(a);
      assert CpSlice(b).name[..|UpfName(b)|] == UpfName(b);
      assert |UpfName(a)| == |UpfName(b)|;
    }
  }

  lemma OwnersAgree(links: map<string, Link>, j: string, k: string, p: Place, c: Content, d: Content)
    requires Compatible(links) && j in links && k in links
    requires Owns(links[j].spec, p, c) && Owns(links[k].spec, p, d)
    ensures c == d
  {
  }

  /** Only a service write or a quiet event happened, so a service differs only if it was just written. */
  lemma ServiceChange(s: State, e: Event, p: Place)
    requires Settled(s) && Quiet(e) && p in s.services
    ensures p in Step(s, e).services
    ensures Step(s, e).services[p] == s.services[p]
      || (e.CallEnd? && Writes(s, e, e.key, p) && Step(s, e).services[p].content == s.flights[e.key].todo[0].content)
  {
    if e.CallEnd? && e.key in s.flights {
      assert FlightOwns(s, e.key);
      var f := s.flights[e.key];
      if |f.todo| > 0 {
        assert f.todo[0] in f.todo;
        CallChange(s, e.key, f, f.todo[0], f.todo[1..], e.outcome, p);
      }
    }
  }

  lemma CallChange(s: State, k: string, f: Flight, call: Call, rest: seq<Call>, o: Outcome, p: Place)
    requires OwnCall(call, f.read.spec) && p in s.services
    ensures var t := PerformCall(s, k, f, call, rest, o);
      && p in t.services
      && (t.services[p] == s.services[p]
          || (call.WriteService? && call.place == p && o.Effective() && !call.create
                && t.services[p].content == call.content))
  {
  }

  lemma Written(s: State, e: Event, k: string, p: Place)
    requires Writes(s, e, k, p)
    ensures Holds(Step(s, e), p, s.flights[k].todo[0].content)
  {
  }

  /** A service in place stays in place: nobody deletes it, and whoever rewrites it wants the same. */
  lemma ServiceStays(s: State, e: Event, k: string, p: Place, c: Content)
    requires Settled(s) && Quiet(e) && Compatible(s.links) && k in s.links && Owns(s.links[k].spec, p, c)
      && Holds(s, p, c)
    ensures Holds(Step(s, e), p, c)
  {
    ServiceChange(s, e, p);
    if e.CallEnd? && Writes(s, e, e.key, p) {
      var call := s.flights[e.key].todo[0];
      assert FlightOwns(s, e.key) && call in s.flights[e.key].todo;
      OwnersAgree(s.links, e.key, k, p, call.content, c);
    }
  }

  lemma CompatibleBefore(s: State, t: State)
    requires LinksStay(s, t) && Compatible(t.links)
    ensures Compatible(s.links)
  {
  }

  lemma {:induction false} ServiceStaysOn(s: State, events: seq<Event>, k: string, p: Place, c: Content)
    requires Settled(s) && AllQuiet(events) && Compatible(Run(s, events).links)
    requires k in s.links && Owns(s.links[k].spec, p, c) && Holds(s, p, c)
    ensures Holds(Run(s, events), p, c)
    decreases |events|
  {
    if |events| > 0 {
      assert events[0] in events && forall e | e in events[1..] :: e in events;
      SettledRun(s, events);
      CompatibleBefore(s, Run(s, events));
      SettledStep(s, events[0]);
      ServiceStays(s, events[0], k, p, c);
      ServiceStaysOn(Step(s, events[0]), events[1..], k, p, c);
    }
  }

  /** Link `k` put a service there in the course of the run. */
  predicate Wrote(s: State, events: seq<Event>, k: string, p: Place)
    decreases |events|
  {
    |events| > 0 && (Writes(s, events[0], k, p) || Wrote(Step(s, events[0]), events[1..], k, p))
  }

  lemma {:induction false} WroteHolds(s: State, events: seq<Event>, k: string, p: Place, c: Content)
    requires Settled(s) && AllQuiet(events) && Compatible(Run(s, events).links) && Wrote(s, events, k, p)
    requires k in Run(s, events).links && Owns(Run(s, events).links[k].spec, p, c)
    ensures Holds(Run(s, events), p, c)
    decreases |events|
  {
    var e := events[0];
    assert e in events && forall d | d in events[1..] :: d in events;
    SettledStep(s, e);
    SettledRun(Step(s, e), events[1..]);
    if Writes(s, e, k, p) {
      assert FlightOwns(s, k) && s.flights[k].todo[0] in s.flights[k].todo;
      OwnersAgree(Run(s, events).links, k, k, p, s.flights[k].todo[0].content, c);
      Written(s, e, k, p);
      ServiceStaysOn(Step(s, e), events[1..], k, p, c);
    } else {
      WroteHolds(Step(s, e), events[1..], k, p, c);
    }
  }

  // ----- the slice holds what was written last -----

  /** The address in the last slice write of link `k`. */
  function LastSlice(s: State, events: seq<Event>, k: string): string
    decreases |events|
  {
    if |events| == 0 then ""
    else
      var later := LastSlice(Step(s, events[0]), events[1..], k);
      if later != "" then later else if WritesSlice(s, events[0], k) then s.flights[k].todo[0].ip else ""
  }

  lemma SliceChange(s: State, e: Event, p: Place)
    requires Settled(s) && Quiet(e) && p in s.slices
    ensures p in Step(s, e).slices
    ensures Step(s, e).slices[p] == s.slices[p]
      || (e.CallEnd? && WritesSlice(s, e, e.key) && p == CpSlice(s.flights[e.key].read.spec))
  {
    if e.CallEnd? && e.key in s.flights {
      assert FlightOwns(s, e.key);
      var f := s.flights[e.key];
      if |f.todo| > 0 {
        assert f.todo[0] in f.todo;
        CallSliceChange(s, e.key, f, f.todo[0], f.todo[1..], e.outcome, p);
      }
    }
  }

  lemma CallSliceChange(s: State, k: string, f: Flight, call: Call, rest: seq<Call>, o: Outcome, p: Place)
    requires OwnCall(call, f.read.spec) && p in s.slices
    ensures var t := PerformCall(s, k, f, call, rest, o);
      && p in t.slices
      && (t.slices[p] == s.slices[p] || (call.WriteSlice? && call.place == p && o.Effective() && !call.create))
  {
  }

  /** Nobody but link `k` writes its slice. */
  lemma SliceStays(s: State, e: Event, k: string, ip: string)
    requires Settled(s) && Quiet(e) && Compatible(s.links) && k in s.links && !WritesSlice(s, e, k)
    requires HoldsSlice(s, CpSlice(s.links[k].spec), ip)
    ensures HoldsSlice(Step(s, e), CpSlice(s.links[k].spec), ip)
  {
    SliceChange(s, e, CpSlice(s.links[k].spec));
    if e.CallEnd? && e.key != k && e.key in s.flights {
      assert FlightOwns(s, e.key);
      SlicesApart(s.links[e.key].spec, s.links[k].spec);
    }
  }

  lemma {:induction false} SliceStaysOn(s: State, events: seq<Event>, k: string, ip: string)
    requires Settled(s) && AllQuiet(events) && Compatible(Run(s, events).links) && k in s.links
    requires HoldsSlice(s, CpSlice(s.links[k].spec), ip)
    ensures var last := LastSlice(s, events, k);
      HoldsSlice(Run(s, events), CpSlice(s.links[k].spec), if last == "" then ip else last)
    decreases |events|
  {
    if |events| > 0 {
      var e := events[0];
      assert e in events && forall d | d in events[1..] :: d in events;
      SettledRun(s, events);
      CompatibleBefore(s, Run(s, events));
      SettledStep(s, e);
      if WritesSlice(s, e, k) {
        SliceWritten(s, e, k);
        SliceStaysOn(Step(s, e), events[1..], k, s.flights[k].todo[0].ip);
      } else {
        SliceStays(s, e, k, ip);
        SliceStaysOn(Step(s, e), events[1..], k, ip);
      }
    }
  }

  lemma SliceWritten(s: State, e: Event, k: string)
    requires Settled(s) && WritesSlice(s, e, k)
    ensures k in s.links && HoldsSlice(Step(s, e), CpSlice(s.links[k].spec), s.flights[k].todo[0].ip)
    ensures s.flights[k].todo[0].ip != ""
  {
    assert FlightOwns(s, k) && s.flights[k].todo[0] in s.flights[k].todo;
  }

  /** Whatever address link `k` wrote last is in its slice. */
  lemma {:induction false} LastSliceHolds(s: State, events: seq<Event>, k: string)
    requires Settled(s) && AllQuiet(events) && Compatible(Run(s, events).links)
    requires k in Run(s, events).links && LastSlice(s, events, k) != ""
    ensures HoldsSlice(Run(s, events), CpSlice(Run(s, events).links[k].spec), LastSlice(s, events, k))
    decreases |events|
  {
    var e := events[0];
    assert e in events && forall d | d in events[1..] :: d in events;
    SettledStep(s, e);
    SettledRun(Step(s, e), events[1..]);
    if LastSlice(Step(s, e), events[1..], k) != "" {
      LastSliceHolds(Step(s, e), events[1..], k);
    } else {
      SliceWritten(s, e, k);
      SliceStaysOn(Step(s, e), events[1..], k, s.flights[k].todo[0].ip);
    }
  }

  // ----- a reconcile that completes -----

  /** Link `k` stays in flight throughout. */
  predicate InFlight(s: State, events: seq<Event>, k: string)
    decreases |events|
  {
    k in s.flights && (|events| > 0 ==> InFlight(Step(s, events[0]), events[1..], k))
  }

  lemma OtherStore(s: State, j: string, f: Flight, call: Call, rest: seq<Call>, o: Outcome, k: string)
    requires j != k && k in s.flights && (call.AddFinalizer? || call.ReleaseFinalizer?)
    ensures var t := PerformCall(s, j, f, call, rest, o); k in t.flights && t.flights[k] == s.flights[k]
  {
  }

  lemma OtherWrite(s: State, j: string, f: Flight, call: Call, rest: seq<Call>, o: Outcome, k: string)
    requires j != k && k in s.flights && (call.WriteService? || call.WriteSlice?)
    ensures var t := PerformCall(s, j, f, call, rest, o); k in t.flights && t.flights[k] == s.flights[k]
  {
  }

  /** A call of one link does not touch the flight of another. */
  lemma OtherCall(s: State, j: string, f: Flight, call: Call, rest: seq<Call>, o: Outcome, k: string)
    requires j != k && k in s.flights
    ensures var t := PerformCall(s, j, f, call, rest, o); k in t.flights && t.flights[k] == s.flights[k]
  {
    if call.WriteService? || call.WriteSlice? {
      OtherWrite(s, j, f, call, rest, o, k);
    } else if call.AddFinalizer? || call.ReleaseFinalizer? {
      OtherStore(s, j, f, call, rest, o, k);
    }
  }

  predicate IsCallOf(s: State, e: Event, k: string) {
    e.CallEnd? && e.key == k && k in s.flights && |s.flights[k].todo| > 0
  }

  /** While a flight lasts, only its own calls move it on. */
  lemma FlightMoves(s: State, e: Event, k: string)
    requires k in s.flights && k in Step(s, e).flights && !IsCallOf(s, e, k)
    ensures Step(s, e).flights[k] == s.flights[k]
  {
    match e
    case CallEnd(j, o) =>
      if j != k && j in s.flights && |s.flights[j].todo| > 0 {
        OtherCall(s, j, s.flights[j], s.flights[j].todo[0], s.flights[j].todo[1..], o, k);
      }
    case Begin(_) =>
    case SiteApplies(j, spec) => SiteMoves(s, j, spec);
    case SiteRepeats(j) => if j in s.links { SiteMoves(s, j, s.links[j].spec); }
    case _ =>
  }

  lemma SiteMoves(s: State, j: string, spec: LinkSpec)
    ensures SiteApplied(s, j, spec).flights == s.flights
  {
  }

  predicate ServiceDue(todo: seq<Call>, p: Place) {
    exists call | call in todo :: (call.LookService? || call.WriteService?) && call.place == p
  }

  predicate SliceDue(todo: seq<Call>) {
    exists call | call in todo :: call.LookSlice? || call.WriteSlice?
  }

  /** One call: a due service is still due or was written. */
  lemma CallDue(s: State, k: string, f: Flight, call: Call, rest: seq<Call>, o: Outcome, p: Place)
    requires f.Creating? && OwnCall(call, f.read.spec) && ServiceDue(f.todo, p)
    requires var t := PerformCall(s, k, f, call, rest, o); k in t.flights && t.flights[k].Creating?
    requires f.todo == [call] + rest && s.flights == s.flights[k := f]
    ensures ServiceDue(PerformCall(s, k, f, call, rest, o).flights[k].todo, p)
      || (call.WriteService? && call.place == p && o.Done? && call.create == (p !in s.services))
  {
    var after := PerformCall(s, k, f, call, rest, o).flights[k].todo;
    RestStays(s, k, f, call, rest, o);
    if call.LookService? {
      assert WriteService(call.place, call.content, o.Done? && call.place !in s.services) in after;
    }
  }

  /** One call: a due slice is still due or was written. */
  lemma CallSliceDue(s: State, k: string, f: Flight, call: Call, rest: seq<Call>, o: Outcome)
    requires f.Creating? && OwnCall(call, f.read.spec) && SliceDue(f.todo)
    requires var t := PerformCall(s, k, f, call, rest, o); k in t.flights && t.flights[k].Creating?
    requires f.todo == [call] + rest && s.flights == s.flights[k := f]
    ensures SliceDue(PerformCall(s, k, f, call, rest, o).flights[k].todo)
      || (call.WriteSlice? && o.Done? && call.create == (call.place !in s.slices))
  {
    var after := PerformCall(s, k, f, call, rest, o).flights[k].todo;
    RestStays(s, k, f, call, rest, o);
    if call.LookSlice? { assert WriteSlice(call.place, call.ip, o.Done? && call.place !in s.slices) in after; }
  }

  /** As long as the flight lasts, the calls behind the head stay to be made. */
  lemma RestStays(s: State, k: string, f: Flight, call: Call, rest: seq<Call>, o: Outcome)
    requires f.Creating? && OwnCall(call, f.read.spec)
    requires var t := PerformCall(s, k, f, call, rest, o); k in t.flights && t.flights[k].Creating?
    requires s.flights == s.flights[k := f]
    ensures forall c | c in rest :: c in PerformCall(s, k, f, call, rest, o).flights[k].todo
  {
  }

  /** One event: a due write stays due, or it is made. */
  lemma StepDue(s: State, e: Event, k: string, p: Place)
    requires Settled(s) && k in s.flights && k in Step(s, e).flights && Settled(Step(s, e))
    ensures var (before, after) := (s.flights[k].todo, Step(s, e).flights[k].todo);
      && (ServiceDue(before, p) ==> ServiceDue(after, p) || Writes(s, e, k, p))
      && (SliceDue(before) ==> SliceDue(after) || WritesSlice(s, e, k))
  {
    if IsCallOf(s, e, k) {
      var f := s.flights[k];
      assert FlightOwns(s, k) && FlightOwns(Step(s, e), k) && f.todo[0] in f.todo;
      assert f.todo == [f.todo[0]] + f.todo[1..] && s.flights == s.flights[k := f];
      if ServiceDue(f.todo, p) { CallDue(s, k, f, f.todo[0], f.todo[1..], e.outcome, p); }
      if SliceDue(f.todo) { CallSliceDue(s, k, f, f.todo[0], f.todo[1..], e.outcome); }
    } else {
      FlightMoves(s, e, k);
    }
  }

  lemma {:induction false} DueIsWritten(s: State, events: seq<Event>, k: string, p: Place)
    requires Settled(s) && AllQuiet(events) && InFlight(s, events, k)
    requires k in Run(s, events).flights && ServiceDue(s.flights[k].todo, p)
      && !ServiceDue(Run(s, events).flights[k].todo, p)
    ensures Wrote(s, events, k, p)
    decreases |events|
  {
    assert |events| > 0;
    var e := events[0];
    assert e in events && forall d | d in events[1..] :: d in events;
    SettledStep(s, e);
    StepDue(s, e, k, p);
    if !Writes(s, e, k, p) { DueIsWritten(Step(s, e), events[1..], k, p); }
  }

  lemma {:induction false} DueSliceIsWritten(s: State, events: seq<Event>, k: string)
    requires Settled(s) && AllQuiet(events) && InFlight(s, events, k)
    requires k in Run(s, events).flights && SliceDue(s.flights[k].todo) && !SliceDue(Run(s, events).flights[k].todo)
    ensures LastSlice(s, events, k) != ""
    decreases |events|
  {
    assert |events| > 0;
    var e := events[0];
    assert e in events && forall d | d in events[1..] :: d in events;
    SettledStep(s, e);
    StepDue(s, e, k, Place("", ""));
    if WritesSlice(s, e, k) {
      SliceWritten(s, e, k);
    } else {
      DueSliceIsWritten(Step(s, e), events[1..], k);
    }
  }

  /**
   * The course of one reconcile in a run: what came before it, the part until it reads its pod, the part until it is
   * about to report, and what came after.
   */
  datatype Course = Course(before: seq<Event>, first: seq<Event>, second: seq<Event>, after: seq<Event>) {
    function All(k: string): seq<Event> {
      before + (first + ([CallEnd(k, Done)] + (second + after)))
    }
  }

  /** Link `k` makes all calls of a reconcile from its begin, finds its pod, and gets to its status. */
  predicate Completes(s: State, c: Course, k: string) {
    var begun := Run(s, c.before);
    var reading := Run(begun, c.first);
    var wiring := Step(reading, CallEnd(k, Done));
    var done := Run(wiring, c.second);
    && InFlight(begun, c.first, k) && begun.flights[k].todo == CreateProgram(begun.flights[k].read)
    && k in reading.flights && reading.flights[k].todo == [ReadPod, WriteStatus]
    && PodOf(reading, reading.flights[k].read.spec) != ""
    && InFlight(wiring, c.second, k) && k in done.flights && done.flights[k].todo == [WriteStatus]
  }

  lemma {:induction false} WroteWithin(s: State, before: seq<Event>, part: seq<Event>, after: seq<Event>, k: string,
                                       p: Place)
    requires Wrote(Run(s, before), part, k, p)
    ensures Wrote(s, before + (part + after), k, p)
    decreases |before| + |part|
  {
    if |before| > 0 {
      assert (before + (part + after))[1..] == before[1..] + (part + after);
      WroteWithin(Step(s, before[0]), before[1..], part, after, k, p);
    } else {
      assert before + (part + after) == part + after;
      assert (part + after)[1..] == part[1..] + after;
      if !Writes(s, part[0], k, p) {
        WroteWithin(Step(s, part[0]), [], part[1..], after, k, p);
        assert [] + (part[1..] + after) == part[1..] + after;
      }
    }
  }

  lemma {:induction false} LastOfTwo(s: State, a: seq<Event>, b: seq<Event>, k: string)
    ensures LastSlice(s, a + b, k) == if LastSlice(Run(s, a), b, k) != "" then LastSlice(Run(s, a), b, k)
      else LastSlice(s, a, k)
    decreases |a|
  {
    if |a| == 0 {
      assert a + b == b;
    } else {
      assert (a + b)[1..] == a[1..] + b;
      LastOfTwo(Step(s, a[0]), a[1..], b, k);
    }
  }

  lemma SliceWithin(s: State, before: seq<Event>, part: seq<Event>, after: seq<Event>, k: string)
    requires LastSlice(Run(s, before), part, k) != ""
    ensures LastSlice(s, before + (part + after), k) != ""
  {
    LastOfTwo(s, before, part + after, k);
    LastOfTwo(Run(s, before), part, after, k);
  }

  /** The state in which the course reads its pod. */
  function Reading(s: State, c: Course): State {
    Run(Run(s, c.before), c.first)
  }

  lemma CourseParts(s: State, c: Course, k: string)
    ensures c.All(k) == (c.before + (c.first + [CallEnd(k, Done)])) + (c.second + c.after)
    ensures Run(s, c.before + (c.first + [CallEnd(k, Done)])) == Step(Reading(s, c), CallEnd(k, Done))
    ensures Run(s, c.All(k)) == Run(Run(Step(Reading(s, c), CallEnd(k, Done)), c.second), c.after)
  {
    var ended := [CallEnd(k, Done)];
    assert c.All(k) == (c.before + (c.first + ended)) + (c.second + c.after);
    RunAppend(s, c.before, c.first + ended);
    RunAppend(Run(s, c.before), c.first, ended);
    assert ended[1..] == [];
    RunAppend(s, c.before + (c.first + ended), c.second + c.after);
    RunAppend(Step(Reading(s, c), CallEnd(k, Done)), c.second, c.after);
  }

  lemma QuietParts(c: Course, k: string)
    requires AllQuiet(c.All(k))
    ensures AllQuiet(c.before) && AllQuiet(c.first) && AllQuiet(c.second) && AllQuiet(c.after)
  {
    var all := c.All(k);
    assert forall e | e in c.before || e in c.first || e in c.second || e in c.after :: e in all;
  }

  lemma CourseSettled(s: State, c: Course, k: string)
    requires Settled(s) && AllQuiet(c.All(k)) && Completes(s, c, k)
    ensures var begun, reading := Run(s, c.before), Reading(s, c);
      var wiring := Step(reading, CallEnd(k, Done));
      && Settled(begun) && Settled(reading) && Settled(wiring) && Settled(Run(wiring, c.second))
      && LinksStay(s, begun) && LinksStay(begun, reading) && LinksStay(reading, wiring)
         && LinksStay(wiring, Run(s, c.All(k)))
  {
    var begun, reading := Run(s, c.before), Reading(s, c);
    var wiring := Step(reading, CallEnd(k, Done));
    QuietParts(c, k);
    SettledRun(s, c.before);
    SettledRun(begun, c.first);
    SettledStep(reading, CallEnd(k, Done));
    SettledRun(wiring, c.second);
    SettledRun(Run(wiring, c.second), c.after);
    CourseParts(s, c, k);
  }

  lemma ProgramDue(l: Link)
    ensures ServiceDue(CreateProgram(l), CpAmf(l.spec)) && ServiceDue(CreateProgram(l), EdgeAmf(l.spec))
  {
    var p := CreateProgram(l);
    assert LookService(CpAmf(l.spec), AmfGlobal(true)) in p && LookService(EdgeAmf(l.spec), AmfGlobal(false)) in p;
  }

  lemma EndpointDue(spec: LinkSpec, ip: string)
    ensures ServiceDue(Endpoint(spec, ip) + [WriteStatus], CpUpf(spec)) && SliceDue(Endpoint(spec, ip) + [WriteStatus])
  {
    var todo := Endpoint(spec, ip) + [WriteStatus];
    assert LookService(CpUpf(spec), N4Port) in todo && LookSlice(CpSlice(spec), ip) in todo;
  }

  /** The first part of the course writes the two amf-cp services. */
  lemma FirstWrites(s: State, c: Course, k: string, p: Place)
    requires Settled(s) && AllQuiet(c.All(k)) && Completes(s, c, k)
    requires var spec := Run(s, c.before).flights[k].read.spec; p == CpAmf(spec) || p == EdgeAmf(spec)
    ensures Wrote(s, c.All(k), k, p)
  {
    var begun := Run(s, c.before);
    CourseSettled(s, c, k);
    QuietParts(c, k);
    ProgramDue(begun.flights[k].read);
    DueIsWritten(begun, c.first, k, p);
    WroteWithin(s, c.before, c.first, [CallEnd(k, Done)] + (c.second + c.after), k, p);
  }

  lemma FoundPod(s: State, k: string)
    requires Settled(s) && k in s.flights && s.flights[k].todo == [ReadPod, WriteStatus]
      && PodOf(s, s.flights[k].read.spec) != ""
    ensures var read, t := s.flights[k].read, Step(s, CallEnd(k, Done));
      k in t.flights && t.flights[k] == Creating(read, Endpoint(read.spec, PodOf(s, read.spec)) + [WriteStatus])
  {
    assert FlightOwns(s, k);
    assert s.flights[k].todo[1..] == [WriteStatus];
  }

  lemma SecondPart(wiring: State, second: seq<Event>, k: string, read: Link, ip: string)
    requires Settled(wiring) && AllQuiet(second) && InFlight(wiring, second, k)
    requires wiring.flights[k] == Creating(read, Endpoint(read.spec, ip) + [WriteStatus])
    requires k in Run(wiring, second).flights && Run(wiring, second).flights[k].todo == [WriteStatus]
    ensures Wrote(wiring, second, k, CpUpf(read.spec)) && LastSlice(wiring, second, k) == ip && ip != ""
  {
    EndpointDue(read.spec, ip);
    DueIsWritten(wiring, second, k, CpUpf(read.spec));
    DueSliceIsWritten(wiring, second, k);
    OnlyThisAddress(wiring, second, k, ip);
  }

  /** The second part writes the N4 service and the slice. */
  lemma SecondWrites(s: State, c: Course, k: string)
    requires Settled(s) && AllQuiet(c.All(k)) && Completes(s, c, k)
    ensures var reading := Reading(s, c);
      && Wrote(s, c.All(k), k, CpUpf(reading.flights[k].read.spec))
      && LastSlice(s, c.All(k), k) != ""
      && LastSlice(Step(reading, CallEnd(k, Done)), c.second, k) == PodOf(reading, reading.flights[k].read.spec)
  {
    var reading := Reading(s, c);
    var read, early := reading.flights[k].read, c.before + (c.first + [CallEnd(k, Done)]);
    CourseSettled(s, c, k);
    CourseParts(s, c, k);
    QuietParts(c, k);
    FoundPod(reading, k);
    SecondPart(Step(reading, CallEnd(k, Done)), c.second, k, read, PodOf(reading, read.spec));
    WroteWithin(s, early, c.second, c.after, k, CpUpf(read.spec));
    SliceWithin(s, early, c.second, c.after, k);
  }

  /** No further address will be read, and all slice calls carry this one. */
  predicate Carries(todo: seq<Call>, ip: string) {
    forall call | call in todo :: !call.ReadPod? && ((call.LookSlice? || call.WriteSlice?) ==> call.ip == ip)
  }

  lemma CarriesOn(s: State, k: string, f: Flight, call: Call, rest: seq<Call>, o: Outcome, ip: string)
    requires f.Creating? && OwnCall(call, f.read.spec) && Carries(f.todo, ip) && f.todo == [call] + rest
      && s.flights == s.flights[k := f]
    requires var t := PerformCall(s, k, f, call, rest, o); k in t.flights && t.flights[k].Creating?
    ensures Carries(PerformCall(s, k, f, call, rest, o).flights[k].todo, ip)
  {
    assert call in f.todo && forall c | c in rest :: c in f.todo;
  }

  lemma {:induction false} OnlyThisAddress(s: State, events: seq<Event>, k: string, ip: string)
    requires Settled(s) && AllQuiet(events) && InFlight(s, events, k) && Carries(s.flights[k].todo, ip)
    ensures LastSlice(s, events, k) == "" || LastSlice(s, events, k) == ip
    decreases |events|
  {
    if |events| > 0 {
      var e, f := events[0], s.flights[k];
      assert e in events && forall d | d in events[1..] :: d in events;
      SettledStep(s, e);
      assert FlightOwns(s, k) && FlightOwns(Step(s, e), k);
      if IsCallOf(s, e, k) {
        assert f.todo == [f.todo[0]] + f.todo[1..] && f.todo[0] in f.todo && s.flights == s.flights[k := f];
        CarriesOn(s, k, f, f.todo[0], f.todo[1..], e.outcome, ip);
      } else {
        FlightMoves(s, e, k);
      }
      OnlyThisAddress(Step(s, e), events[1..], k, ip);
    }
  }

  // ----- the union of what the links want -----

  /** Everything a link wants is there. */
  predicate Served(s: State, spec: LinkSpec, ip: string) {
    && Holds(s, CpAmf(spec), AmfGlobal(true)) && Holds(s, EdgeAmf(spec), AmfGlobal(false))
    && Holds(s, CpUpf(spec), N4Port) && HoldsSlice(s, CpSlice(spec), ip)
  }

  /** Nothing is there that no link wants, except what had been given up on or orphaned. */
  ghost predicate NothingElse(s: State, lostServices: set<Excuse>, lostSlices: set<Excuse>) {
    && (forall p | p in s.services :: WantedService(s, p) || Excused(lostServices, p))
    && (forall p | p in s.slices :: WantedSlice(s, p) || Excused(lostSlices, p))
  }

  /** The link's spec is the same all along. */
  lemma CourseSpec(s: State, c: Course, k: string)
    requires Settled(s) && AllQuiet(c.All(k)) && Completes(s, c, k) && k in Run(s, c.All(k)).links
    ensures var spec := Run(s, c.All(k)).links[k].spec;
      Run(s, c.before).flights[k].read.spec == spec && Reading(s, c).flights[k].read.spec == spec
  {
    CourseSettled(s, c, k);
    assert FlightOwns(Run(s, c.before), k) && FlightOwns(Reading(s, c), k);
  }

  lemma CourseServices(s: State, c: Course, k: string, events: seq<Event>, spec: LinkSpec)
    requires events == c.All(k) && Settled(s) && AllQuiet(events) && Completes(s, c, k)
    requires Compatible(Run(s, events).links) && k in Run(s, events).links && Run(s, events).links[k].spec == spec
    ensures var t := Run(s, events);
      Holds(t, CpAmf(spec), AmfGlobal(true)) && Holds(t, EdgeAmf(spec), AmfGlobal(false))
        && Holds(t, CpUpf(spec), N4Port)
  {
    CourseSpec(s, c, k);
    FirstWrites(s, c, k, CpAmf(spec));
    WroteHolds(s, events, k, CpAmf(spec), AmfGlobal(true));
    FirstWrites(s, c, k, EdgeAmf(spec));
    WroteHolds(s, events, k, EdgeAmf(spec), AmfGlobal(false));
    SecondWrites(s, c, k);
    WroteHolds(s, events, k, CpUpf(spec), N4Port);
  }

  /** A link that completed is served, and its slice holds what its last completed reconcile read. */
  lemma CourseServes(s: State, c: Course, k: string)
    requires Settled(s) && AllQuiet(c.All(k)) && Completes(s, c, k)
    requires Compatible(Run(s, c.All(k)).links) && k in Run(s, c.All(k)).links
    ensures var t := Run(s, c.All(k)); Served(t, t.links[k].spec, LastSlice(s, c.All(k), k))
  {
    var events := c.All(k);
    CourseServices(s, c, k, events, Run(s, events).links[k].spec);
    SecondWrites(s, c, k);
    LastSliceHolds(s, events, k);
  }

  /** What follows the reading of the pod in the course, up to the status. */
  function Wiring(s: State, c: Course, k: string): State {
    Step(Reading(s, c), CallEnd(k, Done))
  }

  /** When no later reconcile of the link wrote its slice, the slice holds the address this one read. */
  lemma SliceIsWhatWasRead(s: State, c: Course, k: string)
    requires Settled(s) && AllQuiet(c.All(k)) && Completes(s, c, k)
    requires LastSlice(Run(Wiring(s, c, k), c.second), c.after, k) == ""
    ensures LastSlice(s, c.All(k), k) == PodOf(Reading(s, c), Reading(s, c).flights[k].read.spec)
  {
    SecondWrites(s, c, k);
    CourseParts(s, c, k);
    LastOfParts(s, c.before + (c.first + [CallEnd(k, Done)]), c.second, c.after, k);
  }

  lemma LastOfParts(s: State, a: seq<Event>, b: seq<Event>, c: seq<Event>, k: string)
    requires LastSlice(Run(s, a), b, k) != "" && LastSlice(Run(Run(s, a), b), c, k) == ""
    ensures LastSlice(s, a + (b + c), k) == LastSlice(Run(s, a), b, k)
  {
    LastOfTwo(s, a, b + c, k);
    LastOfTwo(Run(s, a), b, c, k);
  }

  /** A settled mesh gives up on nothing. */
  lemma NothingLost(s: State, e: Event)
    requires Settled(s) && Quiet(e)
    ensures Step(s, e).lostServices == s.lostServices && Step(s, e).lostSlices == s.lostSlices
  {
    if e.CallEnd? && e.key in s.flights && |s.flights[e.key].todo| > 0 {
      var f := s.flights[e.key];
      assert FlightOwns(s, e.key) && f.todo[0] in f.todo;
      CallLosesNothing(s, e.key, f, f.todo[0], f.todo[1..], e.outcome);
    } else if e.SiteRepeats? && e.key in s.links {
      RepeatIs(s, e.key, s.links[e.key]);
    }
  }

  lemma WriteLosesNothing(s: State, k: string, f: Flight, call: Call, rest: seq<Call>, o: Outcome)
    requires k in s.links && f.read.spec == s.links[k].spec && OwnCall(call, f.read.spec)
    requires call.WriteService? || call.WriteSlice?
    ensures var t := PerformCall(s, k, f, call, rest, o);
      t.lostServices == s.lostServices && t.lostSlices == s.lostSlices
  {
    assert call.WriteService? ==> Astray(s, k, call.place, ServicePlaces) == {};
    assert call.WriteSlice? ==> Astray(s, k, call.place, SlicePlaces) == {};
  }

  lemma GuardLosesNothing(s: State, k: string, f: Flight, rest: seq<Call>, o: Outcome)
    ensures var t := PerformCall(s, k, f, AddFinalizer, rest, o);
      t.lostServices == s.lostServices && t.lostSlices == s.lostSlices
  {
  }

  lemma CallLosesNothing(s: State, k: string, f: Flight, call: Call, rest: seq<Call>, o: Outcome)
    requires k in s.links && f.read.spec == s.links[k].spec && OwnCall(call, f.read.spec)
    ensures var t := PerformCall(s, k, f, call, rest, o);
      t.lostServices == s.lostServices && t.lostSlices == s.lostSlices
  {
    if call.WriteService? || call.WriteSlice? {
      WriteLosesNothing(s, k, f, call, rest, o);
    } else if call.AddFinalizer? {
      GuardLosesNothing(s, k, f, rest, o);
    } else {
      QuietCalls(s, k, f, call, rest, o);
    }
  }

  lemma {:induction false} NothingLostRun(s: State, events: seq<Event>)
    requires Settled(s) && AllQuiet(events)
    ensures Run(s, events).lostServices == s.lostServices && Run(s, events).lostSlices == s.lostSlices
    decreases |events|
  {
    if |events| > 0 {
      assert events[0] in events && forall e | e in events[1..] :: e in events;
      SettledStep(s, events[0]);
      NothingLost(s, events[0]);
      NothingLostRun(Step(s, events[0]), events[1..]);
    }
  }

  lemma HeldIsWanted(t: State)
    requires Invariant(t)
    ensures NothingElse(t, t.lostServices, t.lostSlices)
  {
    forall p | p in t.services && !Excused(t.lostServices, p) ensures WantedService(t, p) {
      var k :| Answers(t, k, p);
    }
    forall p | p in t.slices && !Excused(t.lostSlices, p) ensures WantedSlice(t, p) {
      var k :| AnswersSlice(t, k, p);
    }
  }

  /**
   * From any reachable moment at which the mesh is settled, over any run without edits and deletions in which every
   * link completes a reconcile: every link is served, its slice holds the address it wrote last, which is the one its
   * last completed reconcile read, and nothing else is there but what had been given up on before. In particular an
   * amf-cp that one link's cleanup deleted is back for the others.
   */
  lemma Converges(history: seq<Event>, events: seq<Event>, courses: map<string, Course>)
    requires Settled(Run(EMPTY, history)) && AllQuiet(events) && Compatible(Run(Run(EMPTY, history), events).links)
    requires forall k | k in Run(Run(EMPTY, history), events).links ::
      k in courses && courses[k].All(k) == events && Completes(Run(EMPTY, history), courses[k], k)
    ensures var s := Run(EMPTY, history);
      var t := Run(s, events);
      && (forall k | k in t.links :: Served(t, t.links[k].spec, LastSlice(s, events, k)))
      && NothingElse(t, s.lostServices, s.lostSlices)
  {
    var s := Run(EMPTY, history);
    var t := Run(s, events);
    forall k | k in t.links ensures Served(t, t.links[k].spec, LastSlice(s, events, k)) {
      CourseServes(s, courses[k], k);
    }
    NothingLostRun(s, events);
    RunAppend(EMPTY, history, events);
    RunKeeps(EMPTY, history + events);
    HeldIsWanted(t);
  }
}

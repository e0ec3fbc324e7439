/**
 * The MeshLink reconciler as it runs: one reconcile after another, each a straight line of calls that other parties'
 * actions may come between and a crash may cut short. Every state it passes through is a state of the machine.
 */
module MeshReconciler {
  import opened Calls
  import opened MeshLink
  import MeshOutcome
  import MeshSafety
  import MeshScript

  /** What users, sites, pods and other tools do. */
  predicate Foreign(e: Event) {
    e.CreateLink? || e.DeleteLink? || e.EditLink? || e.SiteApplies? || e.SiteRepeats? || e.OthersRelease? || e.SetPod?
      || e.ForeignDelete?
  }

  type Outside = e: Event | Foreign(e) witness OthersRelease("")

  /** What happens before one call of the reconciler, and how that call ends. */
  datatype Beat = Beat(others: seq<Outside>, outcome: Outcome)

  lemma RunOne(history: seq<Event>, e: Event)
    ensures Run(EMPTY, history + [e]) == Step(Run(EMPTY, history), e)
  {
    RunAppend(EMPTY, history, [e]);
    assert [e][1..] == [];
  }

  /** Nobody comes between the calls, and each ends well. */
  predicate Calm(beats: seq<Beat>) {
    forall i | 0 <= i < |beats| :: beats[i] == Beat([], Done)
  }

  lemma CalmOn(beats: seq<Beat>)
    requires |beats| > 0 && Calm(beats)
    ensures beats[0].others == [] && beats[0].outcome == Done && Calm(beats[1..])
  {
  }

  predicate Own(k: string, e: Event, calm: bool) {
    if calm then e == CallEnd(k, Done) else Foreign(e) || e == Crash || (e.CallEnd? && e.key == k)
  }

  /** The events of one reconcile of link `k`, after its Begin; of a calm one, calls that end well. */
  predicate OfReconcile(k: string, events: seq<Event>, start: nat, calm: bool) {
    forall i | start <= i < |events| :: Own(k, events[i], calm)
  }

  /** The flight after its first call ended well. */
  function Rest(f: Flight): Flight
    requires |f.todo| > 0
  {
    if f.Creating? then Creating(f.read, f.todo[1..]) else Cleaning(f.read, f.todo[1..])
  }

  function Alone(k: string, f: Flight): map<string, Flight> {
    if f.todo == [] then map[] else map[k := f]
  }

  /** What is still to do once the pod's address is known. */
  function Following(s: LinkSpec, ip: string): seq<Call> {
    if ip == "" then [] else Endpoint(s, ip)
  }

  lemma OneFlight(s: State, k: string, f: Flight, todo: seq<Call>)
    requires s.flights == map[k := f]
    ensures Continue(s, k, f, todo).flights == Alone(k, if f.Creating? then Creating(f.read, todo)
      else Cleaning(f.read, todo))
    ensures Abort(s, k).flights == map[]
  {
  }

  /** What an update of the finalizer does, when the object is still as it was read. */
  lemma FinalizerCall(s: State, k: string, f: Flight, o: Outcome)
    requires s.flights == map[k := f] && |f.todo| > 0
    requires (f.todo[0].AddFinalizer? && f.Creating?) || (f.todo[0].ReleaseFinalizer? && f.Cleaning?)
    ensures var t := Step(s, CallEnd(k, o));
      var fits := Unchanged(s, k, f.read);
      var u := if !fits || !o.Effective() then s
               else if f.todo[0].AddFinalizer? then Guard(s, k)
               else StoreLink(s, k, s.links[k].(finalizer := false));
      && t == u.(flights := if f.Creating? && fits && o.Done? then Alone(k, Rest(f)) else map[])
  {
    var u := if !Unchanged(s, k, f.read) || !o.Effective() then s
             else if f.todo[0].AddFinalizer? then Guard(s, k)
             else StoreLink(s, k, s.links[k].(finalizer := false));
    OneFlight(u, k, f, f.todo[1..]);
  }

  ghost predicate ClustersKept(s: State, t: State) {
    t.services == s.services && t.slices == s.slices && t.pods == s.pods && t.flights == s.flights
  }

  lemma StoreOnlyLinks(s: State, k: string, l: Link)
    ensures ClustersKept(s, StoreLink(s, k, l))
  {
  }

  lemma RepointOnlyLinks(s: State, k: string, spec: LinkSpec, l: Link)
    requires k in s.links
    ensures ClustersKept(s, Repoint(s, k, spec, l))
  {
  }

  lemma SiteOnlyLinks(s: State, k: string, spec: LinkSpec)
    ensures ClustersKept(s, SiteApplied(s, k, spec))
  {
  }

  /** Events about links touch neither clusters nor flights. */
  lemma OnlyLinks(s: State, e: Event)
    requires Foreign(e) && !e.SetPod? && !e.ForeignDelete?
    ensures ClustersKept(s, Step(s, e))
  {
    match e
    case CreateLink(_, _, _) =>
    case DeleteLink(k) => if k in s.links { StoreOnlyLinks(s, k, s.links[k].(deleting := true)); }
    case EditLink(k, spec) => if k in s.links { RepointOnlyLinks(s, k, spec, s.links[k].(spec := spec)); }
    case SiteApplies(k, spec) => SiteOnlyLinks(s, k, spec);
    case SiteRepeats(k) => if k in s.links { SiteOnlyLinks(s, k, s.links[k].spec); }
    case OthersRelease(k) => if k in s.links { StoreOnlyLinks(s, k, s.links[k].(others := false)); }
  }

  lemma CalmScript(k: string, before: seq<Event>, now: seq<Event>)
    requires before + [Begin(k)] <= now && OfReconcile(k, now, |before| + 1, true)
    ensures now == before + MeshScript.Script(k, |now| - |before| - 1)
  {
    var n := |now| - |before| - 1;
    var rest := now[|before| + 1..];
    assert forall i | 0 <= i < n :: rest[i] == CallEnd(k, Done);
    assert rest == MeshSafety.CallEnds(k, seq(n, _ => Done));
    assert now == now[..|before| + 1] + rest && now[..|before| + 1] == before + [Begin(k)];
  }

  /** What a reconcile that nothing disturbs comes to. */
  lemma CalmOutcome(k: string, before: seq<Event>, now: seq<Event>)
    requires before + [Begin(k)] <= now && OfReconcile(k, now, |before| + 1, true)
    requires Run(EMPTY, before).flights == map[] && Run(EMPTY, now).flights == map[]
    ensures MeshOutcome.LeavesAsAsked(Run(EMPTY, before), Run(EMPTY, now), k)
  {
    var n := |now| - |before| - 1;
    CalmScript(k, before, now);
    RunAppend(EMPTY, before, MeshScript.Script(k, n));
    MeshOutcome.UndisturbedLeaves(Run(EMPTY, before), k, n);
  }

  class Reconciler {
    var links: map<string, Link>
    var services: map<Place, Service>
    var slices: map<Place, string>
    var pods: map<string, string>
    var clock: nat
    /** How the coming calls will go; the process dies when it runs out. */
    var beats: seq<Beat>
    ghost var flights: map<string, Flight>
    ghost var lostServices: set<Excuse>
    ghost var lostSlices: set<Excuse>
    ghost var stripped: set<string>
    ghost var history: seq<Event>

    ghost function View(): State
      reads this
    {
      State(links, services, slices, pods, flights, clock, lostServices, lostSlices, stripped)
    }

    /** The fields are exactly what the machine holds after everything that has happened. */
    ghost predicate Valid()
      reads this
    {
      View() == Run(EMPTY, history)
    }

    ghost predicate Facing(k: string, f: Flight, call: Call)
      reads this
    {
      flights == map[k := f] && |f.todo| > 0 && f.todo[0] == call
    }

    constructor ()
      ensures Valid() && history == [] && flights == map[]
    {
      links, services, slices, pods, clock, beats := map[], map[], map[], map[], 0, [];
      flights, lostServices, lostSlices, stripped, history := map[], {}, {}, {}, [];
    }

    ghost method Note(e: Event, was: State)
      requires was == Run(EMPTY, history) && View() == Step(was, e)
      modifies this`history
      ensures Valid() && history == old(history) + [e]
    {
      RunOne(history, e);
      history := history + [e];
    }

    /** An object goes away once it is being deleted and nothing holds it. */
    method Store(k: string, l: Link)
      modifies this`links, this`clock
      ensures links == StoreLink(old(View()), k, l).links && clock == StoreLink(old(View()), k, l).clock
    {
      if l.deleting && !l.finalizer && !l.others {
        links := Without(links, k);
      } else {
        links := links[k := l.(rev := clock)];
        clock := clock + 1;
      }
    }

    /** The link's site writes it: a bare link if there is none, otherwise the stored one without its finalizers. */
    method SiteWrites(k: string, spec: LinkSpec)
      modifies this`links, this`clock
      ensures links == SiteApplied(old(View()), k, spec).links && clock == SiteApplied(old(View()), k, spec).clock
    {
      if k !in links {
        links := links[k := Link(clock, false, false, false, spec)];
        clock := clock + 1;
      } else {
        var l := links[k].(finalizer := false, others := false, spec := spec);
        if l != links[k] { Store(k, l); }
      }
    }

    /** A user creates, deletes or edits a link or drops another finalizer of it, or its site writes it. */
    method LinkChanges(e: Outside)
      requires !e.SetPod? && !e.ForeignDelete?
      modifies this`links, this`clock
      ensures links == Step(old(View()), e).links && clock == Step(old(View()), e).clock
    {
      match e
      case CreateLink(k, others, spec) =>
        if k !in links {
          links := links[k := Link(clock, false, others, false, spec)];
          clock := clock + 1;
        }
      case DeleteLink(k) => if k in links { Store(k, links[k].(deleting := true)); }
      case EditLink(k, spec) => if k in links { Store(k, links[k].(spec := spec)); }
      case SiteApplies(k, spec) => SiteWrites(k, spec);
      case SiteRepeats(k) => if k in links { SiteWrites(k, links[k].spec); }
      case OthersRelease(k) => if k in links { Store(k, links[k].(others := false)); }
    }

    method UserActs(e: Outside)
      requires Valid() && !e.SetPod? && !e.ForeignDelete?
      modifies this`links, this`clock, this`lostServices, this`lostSlices, this`stripped, this`history
      ensures Valid() && history == old(history) + [e]
    {
      ghost var was := View();
      LinkChanges(e);
      ghost var t := Step(was, e);
      lostServices, lostSlices, stripped := t.lostServices, t.lostSlices, t.stripped;
      OnlyLinks(was, e);
      Note(e, was);
    }

    method Happen(e: Outside)
      requires Valid()
      modifies this
      ensures Valid() && history == old(history) + [e] && flights == old(flights) && beats == old(beats)
    {
      ghost var was := View();
      if e.SetPod? {
        pods := pods[e.cluster := e.ip];
        Note(e, was);
      } else if e.ForeignDelete? {
        services, slices := Without(services, e.place), Without(slices, e.place);
        lostServices, lostSlices := Forgiven(lostServices, e.place), Forgiven(lostSlices, e.place);
        Note(e, was);
      } else {
        UserActs(e);
      }
    }

    /** Others act, then either the process dies or the call is told how it ends. */
    method Await(k: string) returns (r: Progress<Outcome>)
      requires Valid()
      modifies this
      ensures Valid() && old(history) <= history
      ensures OfReconcile(k, history, |old(history)|, Calm(old(beats)) && r.Returned?)
      ensures Calm(old(beats)) && r.Returned? ==> Calm(beats)
      ensures if r.Crashed? then flights == map[] && beats == [] else flights == old(flights)
      ensures Calm(old(beats)) && r.Returned? ==> r.value == Done
    {
      if |beats| == 0 {
        ghost var was := View();
        flights := map[];
        Note(Crash, was);
        return Crashed;
      }
      var beat := beats[0];
      ghost var calm := Calm(beats);
      if calm { CalmOn(beats); }
      beats := beats[1..];
      for i := 0 to |beat.others|
        invariant Valid() && flights == old(flights) && old(history) <= history && beats == old(beats)[1..]
        invariant OfReconcile(k, history, |old(history)|, false) && (i == 0 ==> history == old(history))
      {
        Happen(beat.others[i]);
      }
      return Returned(beat.outcome);
    }

    /** The call at the head of a flight has ended: the ghost state follows the machine. */
    ghost method Ended(k: string, o: Outcome, t: State, start: nat, calm: bool)
      requires t == Run(EMPTY, history + [CallEnd(k, o)])
      requires start <= |history| && OfReconcile(k, history, start, calm) && (calm ==> o.Done?)
      requires links == t.links && services == t.services && slices == t.slices && pods == t.pods && clock == t.clock
      modifies this`flights, this`lostServices, this`lostSlices, this`stripped, this`history
      ensures Valid() && history == old(history) + [CallEnd(k, o)] && View() == t
      ensures OfReconcile(k, history, start, calm)
    {
      flights, history := t.flights, history + [CallEnd(k, o)];
      lostServices, lostSlices, stripped := t.lostServices, t.lostSlices, t.stripped;
    }

    ghost predicate Onward(r: Progress<bool>, k: string, f: Flight)
      requires |f.todo| > 0
      reads this
    {
      Valid() && (if r.Crashed? then flights == map[] && beats == [] else flights == if r.value then Alone(k, Rest(f))
        else map[])
    }

    /** Find the credentials of a cluster, or set the mesh up: calls that change nothing modelled here. */
    method Attempt(k: string, call: Call, ghost f: Flight) returns (r: Progress<bool>)
      requires Valid() && Facing(k, f, call) && (call.Client? || call.EnsureMesh?)
      modifies this
      ensures Onward(r, k, f) && old(history) <= history
      ensures OfReconcile(k, history, |old(history)|, Calm(old(beats)) && r.Returned?)
      ensures Calm(old(beats)) && r.Returned? ==> Calm(beats)
    {
      var o :- Await(k);
      ghost var was := View();
      RunOne(history, CallEnd(k, o));
      OneFlight(was, k, f, f.todo[1..]);
      Ended(k, o, Step(was, CallEnd(k, o)), |old(history)|, Calm(old(beats)));
      return Returned(o.Done?);
    }

    /** Is the service to be created? A read that fails otherwise is followed by an update. */
    method LookUp(k: string, p: Place, content: Content, ghost f: Flight) returns (r: Progress<bool>)
      requires Valid() && Facing(k, f, LookService(p, content)) && f.Creating?
      modifies this
      ensures Valid() && old(history) <= history
      ensures OfReconcile(k, history, |old(history)|, Calm(old(beats)) && r.Returned?)
      ensures Calm(old(beats)) && r.Returned? ==> Calm(beats)
      ensures if r.Crashed? then flights == map[] && beats == []
              else flights == map[k := Creating(f.read, [WriteService(p, content, r.value)] + f.todo[1..])]
    {
      var o :- Await(k);
      ghost var was := View();
      var create := o.Done? && p !in services;
      RunOne(history, CallEnd(k, o));
      OneFlight(was, k, f, [WriteService(p, content, create)] + f.todo[1..]);
      Ended(k, o, Step(was, CallEnd(k, o)), |old(history)|, Calm(old(beats)));
      return Returned(create);
    }

    method StoreService(k: string, p: Place, content: Content)
      modifies this`services, this`clock
      ensures services == Applied(old(View()), k, p, content).services
      ensures clock == Applied(old(View()), k, p, content).clock
    {
      if p !in services {
        services := services[p := Service(content, clock)];
      } else {
        services := services[p := services[p].(content := content)];
      }
      clock := clock + 1;
    }

    /** Creating needs the service to be absent, updating needs it to be there; an update keeps its cluster address. */
    method Put(k: string, p: Place, content: Content, create: bool, ghost f: Flight) returns (r: Progress<bool>)
      requires Valid() && Facing(k, f, WriteService(p, content, create)) && f.Creating?
      modifies this
      ensures Onward(r, k, f) && old(history) <= history
      ensures OfReconcile(k, history, |old(history)|, Calm(old(beats)) && r.Returned?)
      ensures Calm(old(beats)) && r.Returned? ==> Calm(beats)
    {
      var o :- Await(k);
      ghost var was := View();
      var fits := create == (p !in services);
      if fits && o.Effective() { StoreService(k, p, content); }
      RunOne(history, CallEnd(k, o));
      OneFlight(if fits && o.Effective() then Applied(was, k, p, content) else was, k, f, f.todo[1..]);
      Ended(k, o, Step(was, CallEnd(k, o)), |old(history)|, Calm(old(beats)));
      return Returned(fits && o.Done?);
    }

    method Apply(k: string, p: Place, content: Content, ghost f: Flight) returns (r: Progress<bool>)
      requires Valid() && Facing(k, f, LookService(p, content)) && f.Creating?
      modifies this
      ensures Onward(r, k, f) && old(history) <= history
      ensures OfReconcile(k, history, |old(history)|, Calm(old(beats)) && r.Returned?)
      ensures Calm(old(beats)) && r.Returned? ==> Calm(beats)
    {
      var create :- LookUp(k, p, content, f);
      ghost var g := Creating(f.read, [WriteService(p, content, create)] + f.todo[1..]);
      assert g.todo[1..] == f.todo[1..];
      r := Put(k, p, content, create, g);
    }

    method LookUpSlice(k: string, p: Place, ip: string, ghost f: Flight) returns (r: Progress<bool>)
      requires Valid() && Facing(k, f, LookSlice(p, ip)) && f.Creating?
      modifies this
      ensures Valid() && old(history) <= history
      ensures OfReconcile(k, history, |old(history)|, Calm(old(beats)) && r.Returned?)
      ensures Calm(old(beats)) && r.Returned? ==> Calm(beats)
      ensures if r.Crashed? then flights == map[] && beats == []
              else flights == map[k := Creating(f.read, [WriteSlice(p, ip, r.value)] + f.todo[1..])]
    {
      var o :- Await(k);
      ghost var was := View();
      var create := o.Done? && p !in slices;
      RunOne(history, CallEnd(k, o));
      OneFlight(was, k, f, [WriteSlice(p, ip, create)] + f.todo[1..]);
      Ended(k, o, Step(was, CallEnd(k, o)), |old(history)|, Calm(old(beats)));
      return Returned(create);
    }

    method PutSlice(k: string, p: Place, ip: string, create: bool, ghost f: Flight) returns (r: Progress<bool>)
      requires Valid() && Facing(k, f, WriteSlice(p, ip, create)) && f.Creating?
      modifies this
      ensures Onward(r, k, f) && old(history) <= history
      ensures OfReconcile(k, history, |old(history)|, Calm(old(beats)) && r.Returned?)
      ensures Calm(old(beats)) && r.Returned? ==> Calm(beats)
    {
      var o :- Await(k);
      ghost var was := View();
      var fits := create == (p !in slices);
      if fits && o.Effective() { slices := slices[p := ip]; }
      RunOne(history, CallEnd(k, o));
      OneFlight(if fits && o.Effective() then Sliced(was, k, p, ip) else was, k, f, f.todo[1..]);
      Ended(k, o, Step(was, CallEnd(k, o)), |old(history)|, Calm(old(beats)));
      return Returned(fits && o.Done?);
    }

    method PutEndpoints(k: string, p: Place, ip: string, ghost f: Flight) returns (r: Progress<bool>)
      requires Valid() && Facing(k, f, LookSlice(p, ip)) && f.Creating?
      modifies this
      ensures Onward(r, k, f) && old(history) <= history
      ensures OfReconcile(k, history, |old(history)|, Calm(old(beats)) && r.Returned?)
      ensures Calm(old(beats)) && r.Returned? ==> Calm(beats)
    {
      var create :- LookUpSlice(k, p, ip, f);
      ghost var g := Creating(f.read, [WriteSlice(p, ip, create)] + f.todo[1..]);
      assert g.todo[1..] == f.todo[1..];
      r := PutSlice(k, p, ip, create, g);
    }

    /** The address of the edge's UPF pod, empty when there is none or the list failed. */
    method PodIP(k: string, edge: string, ghost f: Flight) returns (r: Progress<string>)
      requires Valid() && Facing(k, f, ReadPod) && f.Creating? && edge == f.read.spec.edge
      modifies this
      ensures Valid() && old(history) <= history
      ensures OfReconcile(k, history, |old(history)|, Calm(old(beats)) && r.Returned?)
      ensures Calm(old(beats)) && r.Returned? ==> Calm(beats)
      ensures if r.Crashed? then flights == map[] && beats == []
              else flights == Alone(k, Creating(f.read, Following(f.read.spec, r.value) + f.todo[1..]))
    {
      var o :- Await(k);
      ghost var was := View();
      var ip := "";
      if o.Done? && ClusterOf(edge) in pods { ip := pods[ClusterOf(edge)]; }
      RunOne(history, CallEnd(k, o));
      OneFlight(was, k, f, Following(f.read.spec, ip) + f.todo[1..]);
      assert ip == "" ==> Following(f.read.spec, ip) + f.todo[1..] == f.todo[1..];
      Ended(k, o, Step(was, CallEnd(k, o)), |old(history)|, Calm(old(beats)));
      return Returned(ip);
    }

    /** Credentials for the cleanup; without them the deletions that need them are skipped. */
    method CleanupAttempt(k: string, cluster: string, skips: nat, ghost f: Flight) returns (r: Progress<bool>)
      requires Valid() && Facing(k, f, CleanupClient(cluster, skips)) && f.Cleaning?
      modifies this
      ensures Valid() && old(history) <= history
      ensures OfReconcile(k, history, |old(history)|, Calm(old(beats)) && r.Returned?)
      ensures Calm(old(beats)) && r.Returned? ==> Calm(beats)
      ensures if r.Crashed? then flights == map[] && beats == []
              else flights == Alone(k, if r.value then Rest(f) else Cleaning(f.read, Drop(f.todo[1..], skips)))
    {
      var o :- Await(k);
      ghost var was := View();
      RunOne(history, CallEnd(k, o));
      ghost var next := if o.Done? then f.todo[1..] else Drop(f.todo[1..], skips);
      ghost var t := Step(was, CallEnd(k, o));
      OneFlight(was.(lostServices := t.lostServices, lostSlices := t.lostSlices), k, f, next);
      Ended(k, o, t, |old(history)|, Calm(old(beats)));
      return Returned(o.Done?);
    }

    /** Errors are swallowed. */
    method RemoveService(k: string, p: Place, ghost f: Flight) returns (r: Progress<bool>)
      requires Valid() && Facing(k, f, DeleteService(p)) && f.Cleaning?
      modifies this
      ensures Onward(r, k, f) && (r.Returned? ==> r.value) && old(history) <= history
        && OfReconcile(k, history, |old(history)|, Calm(old(beats)) && r.Returned?)
      ensures Calm(old(beats)) && r.Returned? ==> Calm(beats)
    {
      var o :- Await(k);
      ghost var was := View();
      if o.Effective() { services := Without(services, p); }
      RunOne(history, CallEnd(k, o));
      ghost var t := Step(was, CallEnd(k, o));
      OneFlight(was.(services := t.services, lostServices := t.lostServices), k, f, f.todo[1..]);
      Ended(k, o, t, |old(history)|, Calm(old(beats)));
      return Returned(true);
    }

    method RemoveSlice(k: string, p: Place, ghost f: Flight) returns (r: Progress<bool>)
      requires Valid() && Facing(k, f, DeleteSlice(p)) && f.Cleaning?
      modifies this
      ensures Onward(r, k, f) && (r.Returned? ==> r.value) && old(history) <= history
        && OfReconcile(k, history, |old(history)|, Calm(old(beats)) && r.Returned?)
      ensures Calm(old(beats)) && r.Returned? ==> Calm(beats)
    {
      var o :- Await(k);
      ghost var was := View();
      if o.Effective() { slices := Without(slices, p); }
      RunOne(history, CallEnd(k, o));
      ghost var t := Step(was, CallEnd(k, o));
      OneFlight(was.(slices := t.slices, lostSlices := t.lostSlices), k, f, f.todo[1..]);
      Ended(k, o, t, |old(history)|, Calm(old(beats)));
      return Returned(true);
    }

    /** Write the link back with the finalizer set; refused when the object changed since it was read. */
    method UpdateGuarded(k: string, read: Link, ghost f: Flight) returns (r: Progress<bool>)
      requires Valid() && Facing(k, f, AddFinalizer) && f.Creating? && f.read == read
      modifies this
      ensures Onward(r, k, f) && old(history) <= history
      ensures OfReconcile(k, history, |old(history)|, Calm(old(beats)) && r.Returned?)
      ensures Calm(old(beats)) && r.Returned? ==> Calm(beats)
    {
      var o :- Await(k);
      ghost var was := View();
      var fits := k in links && links[k].rev == read.rev;
      if fits && o.Effective() { Store(k, links[k].(finalizer := true)); }
      RunOne(history, CallEnd(k, o));
      FinalizerCall(was, k, f, o);
      Ended(k, o, Step(was, CallEnd(k, o)), |old(history)|, Calm(old(beats)));
      return Returned(fits && o.Done?);
    }

    method UpdateReleased(k: string, read: Link, ghost f: Flight) returns (r: Progress<bool>)
      requires Valid() && Facing(k, f, ReleaseFinalizer) && f.Cleaning? && f.read == read
      modifies this
      ensures Valid() && old(history) <= history && flights == map[]
      ensures OfReconcile(k, history, |old(history)|, Calm(old(beats)) && r.Returned?)
      ensures Calm(old(beats)) && r.Returned? ==> Calm(beats)
      ensures if r.Crashed? then beats == [] else r.value ==> k !in links || !links[k].finalizer
    {
      var o :- Await(k);
      ghost var was := View();
      var fits := k in links && links[k].rev == read.rev;
      if fits && o.Effective() { Store(k, links[k].(finalizer := false)); }
      RunOne(history, CallEnd(k, o));
      FinalizerCall(was, k, f, o);
      Ended(k, o, Step(was, CallEnd(k, o)), |old(history)|, Calm(old(beats)));
      return Returned(fits && o.Done?);
    }

    method UpdateStatus(k: string, ghost f: Flight) returns (r: Progress<bool>)
      requires Valid() && Facing(k, f, WriteStatus)
      modifies this
      ensures Valid() && old(history) <= history && flights == map[]
      ensures OfReconcile(k, history, |old(history)|, Calm(old(beats)) && r.Returned?)
      ensures Calm(old(beats)) && r.Returned? ==> Calm(beats)
      ensures r.Crashed? ==> beats == []
    {
      var o :- Await(k);
      ghost var was := View();
      RunOne(history, CallEnd(k, o));
      OneFlight(was, k, f, f.todo[1..]);
      Ended(k, o, Step(was, CallEnd(k, o)), |old(history)|, Calm(old(beats)));
      return Returned(true);
    }

    /** The control plane's half of the cleanup. */
    method CleanupControlPlane(k: string, read: Link) returns (r: Progress<bool>)
      requires Valid() && flights == map[k := Cleaning(read, CleanupProgram(read.spec))]
      modifies this
      ensures Valid() && old(history) <= history
      ensures OfReconcile(k, history, |old(history)|, Calm(old(beats)) && r.Returned?)
      ensures Calm(old(beats)) && r.Returned? ==> Calm(beats)
      ensures if r.Crashed? then flights == map[] && beats == []
        else flights == map[k := Cleaning(read, CleanupProgram(read.spec)[4..])]
    {
      ghost var f := Cleaning(read, CleanupProgram(read.spec));
      var reached :- CleanupAttempt(k, ClusterOf(read.spec.controlPlane), 3, f);
      if !reached {
        assert Drop(f.todo[1..], 3) == f.todo[4..];
        return Returned(true);
      }
      var _ :- RemoveN4(k, read);
      f := Cleaning(read, CleanupProgram(read.spec)[3..]);
      var _ :- RemoveService(k, CpAmf(read.spec), f);
      assert Rest(f).todo == CleanupProgram(read.spec)[4..];
      return Returned(true);
    }

    method RemoveN4(k: string, read: Link) returns (r: Progress<bool>)
      requires Valid() && flights == map[k := Cleaning(read, CleanupProgram(read.spec)[1..])]
      modifies this
      ensures Valid() && old(history) <= history
      ensures OfReconcile(k, history, |old(history)|, Calm(old(beats)) && r.Returned?)
      ensures Calm(old(beats)) && r.Returned? ==> Calm(beats)
      ensures if r.Crashed? then flights == map[] && beats == []
        else flights == map[k := Cleaning(read, CleanupProgram(read.spec)[3..])]
    {
      ghost var f := Cleaning(read, CleanupProgram(read.spec)[1..]);
      var _ :- RemoveService(k, CpUpf(read.spec), f);
      f := Rest(f);
      r := RemoveSlice(k, CpSlice(read.spec), f);
      assert Rest(f).todo == CleanupProgram(read.spec)[3..];
    }

    /** Best effort: whatever the peers do, it ends with the update still to make. */
    method CleanupRemote(k: string, read: Link) returns (r: Progress<bool>)
      requires Valid() && flights == map[k := Cleaning(read, CleanupProgram(read.spec))]
      modifies this
      ensures Valid() && old(history) <= history
      ensures OfReconcile(k, history, |old(history)|, Calm(old(beats)) && r.Returned?)
      ensures Calm(old(beats)) && r.Returned? ==> Calm(beats)
      ensures if r.Crashed? then flights == map[] && beats == []
        else flights == map[k := Cleaning(read, [ReleaseFinalizer])]
    {
      var _ :- CleanupControlPlane(k, read);
      ghost var f := Cleaning(read, CleanupProgram(read.spec)[4..]);
      assert f.todo == [CleanupClient(ClusterOf(read.spec.edge), 1), DeleteService(EdgeAmf(read.spec)),
        ReleaseFinalizer];
      var reached :- CleanupAttempt(k, ClusterOf(read.spec.edge), 1, f);
      if reached {
        var _ :- RemoveService(k, EdgeAmf(read.spec), Rest(f));
      }
      return Returned(true);
    }

    method EnsureN4Endpoint(k: string, spec: LinkSpec, ip: string, ghost f: Flight) returns (r: Progress<bool>)
      requires Valid() && ip != "" && f.Creating? && f.todo == Following(spec, ip) + [WriteStatus]
        && flights == map[k := f]
      modifies this
      ensures Valid() && old(history) <= history
      ensures OfReconcile(k, history, |old(history)|, Calm(old(beats)) && r.Returned?)
      ensures Calm(old(beats)) && r.Returned? ==> Calm(beats)
      ensures if r.Crashed? then flights == map[] && beats == []
              else flights == if r.value then map[k := Creating(f.read, [WriteStatus])] else map[]
    {
      var ok :- Apply(k, CpUpf(spec), N4Port, f);
      if !ok { return Returned(false); }
      ok :- PutEndpoints(k, CpSlice(spec), ip, Rest(f));
      return Returned(ok);
    }

    /** One reconcile of link `k`; others may act before each of its calls. */
    method Reconcile(k: string) returns (r: Progress<bool>)
      requires Valid() && flights == map[]
      modifies this
      ensures Valid() && flights == map[] && (r.Crashed? ==> beats == [])
      ensures old(history) + [Begin(k)] <= history
      ensures OfReconcile(k, history, |old(history)| + 1, Calm(old(beats)) && r.Returned?)
      ensures k in old(links) && old(links)[k].deleting && r == Returned(true) ==> k !in links || !links[k].finalizer
      // Where nothing comes between its calls and all of them end well, the clusters are as the link asks.
      ensures Calm(old(beats)) && r.Returned? ==> MeshOutcome.LeavesAsAsked(old(View()), View(), k)
    {
      ghost var before := history;
      r := MakeCalls(k);
      if Calm(old(beats)) && r.Returned? { CalmOutcome(k, before, history); }
    }

    /** The calls of one reconcile. */
    method MakeCalls(k: string) returns (r: Progress<bool>)
      requires Valid() && flights == map[]
      modifies this
      ensures Valid() && flights == map[] && (r.Crashed? ==> beats == [])
      ensures old(history) + [Begin(k)] <= history
      ensures OfReconcile(k, history, |old(history)| + 1, Calm(old(beats)) && r.Returned?)
      ensures k in old(links) && old(links)[k].deleting && r == Returned(true) ==> k !in links || !links[k].finalizer
    {
      ghost var was := View();
      flights := Started(was, k).flights;
      Note(Begin(k), was);
      if k !in links { return Returned(true); }
      var read := links[k];
      if read.deleting {
        if read.finalizer {
          assert flights == map[k := Cleaning(read, CleanupProgram(read.spec))];
          var _ :- CleanupRemote(k, read);
          r := UpdateReleased(k, read, Cleaning(read, [ReleaseFinalizer]));
          return r;
        }
        return Returned(true);
      }
      r := Wire(k, read);
    }

    /** Clients for both clusters and the mesh between them. */
    method Connect(k: string, read: Link) returns (r: Progress<bool>)
      requires Valid() && flights == map[k := Creating(read, CreateTail(read.spec))]
      modifies this
      ensures Valid() && old(history) <= history
      ensures OfReconcile(k, history, |old(history)|, Calm(old(beats)) && r.Returned?)
      ensures Calm(old(beats)) && r.Returned? ==> Calm(beats)
      ensures if r.Crashed? then flights == map[] && beats == []
              else flights == if r.value then map[k := Creating(read, CreateTail(read.spec)[3..])] else map[]
    {
      ghost var f := Creating(read, CreateTail(read.spec));
      var edge :- Attempt(k, Client(ClusterOf(read.spec.edge)), f);
      if !edge { return Returned(false); }
      f := Rest(f);
      var cp :- Attempt(k, Client(ClusterOf(read.spec.controlPlane)), f);
      if !cp { return Returned(false); }
      f := Rest(f);
      r := Attempt(k, EnsureMesh, f);
    }

    /** N2: the control plane exports amf-cp, the edge consumes it. */
    method EnsureAmfGlobal(k: string, read: Link) returns (r: Progress<bool>)
      requires Valid() && flights == map[k := Creating(read, CreateTail(read.spec)[3..])]
      modifies this
      ensures Valid() && old(history) <= history
      ensures OfReconcile(k, history, |old(history)|, Calm(old(beats)) && r.Returned?)
      ensures Calm(old(beats)) && r.Returned? ==> Calm(beats)
      ensures if r.Crashed? then flights == map[] && beats == []
              else flights == if r.value then map[k := Creating(read, [ReadPod, WriteStatus])] else map[]
    {
      ghost var f := Creating(read, CreateTail(read.spec)[3..]);
      var exported :- Apply(k, CpAmf(read.spec), AmfGlobal(true), f);
      if !exported { return Returned(false); }
      f := Rest(f);
      r := Apply(k, EdgeAmf(read.spec), AmfGlobal(false), f);
      assert Rest(f).todo == [ReadPod, WriteStatus];
    }

    /** N4: the control plane gets the live address of the edge's UPF pod. */
    method WireN4(k: string, read: Link) returns (r: Progress<bool>)
      requires Valid() && flights == map[k := Creating(read, [ReadPod, WriteStatus])]
      modifies this
      ensures Valid() && flights == map[] && (r.Crashed? ==> beats == [])
      ensures old(history) <= history && OfReconcile(k, history, |old(history)|, Calm(old(beats)) && r.Returned?)
      ensures Calm(old(beats)) && r.Returned? ==> Calm(beats)
    {
      ghost var f := Creating(read, [ReadPod, WriteStatus]);
      var ip :- PodIP(k, read.spec.edge, f);
      assert f.todo[1..] == [WriteStatus];
      if ip != "" {
        var wired :- EnsureN4Endpoint(k, read.spec, ip, Creating(read, Following(read.spec, ip) + [WriteStatus]));
        if !wired { return Returned(false); }
      } else {
        assert Following(read.spec, ip) + [WriteStatus] == [WriteStatus];
      }
      r := UpdateStatus(k, Creating(read, [WriteStatus]));
    }

    method Wire(k: string, read: Link) returns (r: Progress<bool>)
      requires Valid() && flights == map[k := Creating(read, CreateProgram(read))]
      modifies this
      ensures Valid() && flights == map[] && (r.Crashed? ==> beats == [])
      ensures old(history) <= history && OfReconcile(k, history, |old(history)|, Calm(old(beats)) && r.Returned?)
      ensures Calm(old(beats)) && r.Returned? ==> Calm(beats)
    {
      if !read.finalizer {
        ghost var f := Creating(read, CreateProgram(read));
        var guarded :- UpdateGuarded(k, read, f);
        if !guarded { return Returned(false); }
        assert Rest(f).todo == CreateTail(read.spec);
      }
      var connected :- Connect(k, read);
      if !connected { return Returned(false); }
      var global :- EnsureAmfGlobal(k, read);
      if !global { return Returned(false); }
      r := WireN4(k, read);
    }
  }
}

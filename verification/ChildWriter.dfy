/**
 * The emitting half of the EdgeSite reconciler as it runs: a straight line of calls that stops at the first one that
 * fails, that others' actions may come between, and that a crash may cut short. Every state it passes through is a
 * state of the machine.
 */
module ChildWriter {
  import opened Calls
  import opened Text
  import opened Sites
  import opened Children
  import opened ChildRuns

  /** What others do to children. */
  predicate ByOthers(e: Event) {
    !e.Begin? && !e.CallEnd? && !e.Crash?
  }

  type Outside = e: Event | ByOthers(e) witness Touch(ChildKey(IPClaim, "", ""))

  /** What happens before one call of the reconciler, and how that call ends. */
  datatype Beat = Beat(others: seq<Outside>, outcome: Outcome)

  datatype Answer = Failed | Absent | Live(stored: Stored)

  lemma RunOne(history: seq<Event>, e: Event, c: Config)
    ensures Run(EMPTY, history + [e], c) == Step(Run(EMPTY, history, c), e, c)
  {
    RunAppend(EMPTY, history, [e], c);
    assert [e][1..] == [];
  }

  /** The events of one reconcile of the site, after its Begin. */
  predicate OfReconcile(site: Key, events: seq<Event>, start: nat) {
    forall i | start <= i < |events| :: ByOthers(events[i]) || events[i] == Crash
      || (events[i].CallEnd? && events[i].site == site)
  }

  function Alone(site: Key, f: Flight, todo: seq<Call>): map<Key, Flight> {
    map[site := f.(todo := todo)]
  }

  /** What is to do after a child was read. */
  function AfterLook(x: Child, answer: Answer, rest: seq<Call>): seq<Call>
    requires !answer.Failed?
  {
    if answer.Absent? then [Put(x, None)] + rest
    else if x.key.kind.Compared() && answer.stored.content == x.content then rest
    else [Put(x, Some(answer.stored.rev))] + rest
  }

  /** How the flight of the site goes on after its next call. */
  lemma CallEnds(s: State, site: Key, f: Flight, call: Call, rest: seq<Call>, o: Outcome, c: Config)
    requires s.flights == Alone(site, f, [call] + rest)
    ensures Step(s, CallEnd(site, o), c) == Performed(s, site, f.(todo := [call] + rest), call, rest, o)
  {
    assert ([call] + rest)[1..] == rest;
  }

  lemma GoesOn(t: State, site: Key, f: Flight, todo: seq<Call>, next: seq<Call>)
    requires t.flights == Alone(site, f, todo) && next != []
    ensures Continue(t, site, f.(todo := todo), next).flights == Alone(site, f, next) && Abort(t, site).flights == map[]
  {
  }

  lemma {:induction false} CallsAppend(a: seq<Task>, b: seq<Task>)
    ensures CallsOf(a + b) == CallsOf(a) + CallsOf(b)
    decreases |a|
  {
    if |a| == 0 {
      assert a + b == b;
    } else {
      assert (a + b)[1..] == a[1..] + b;
      CallsAppend(a[1..], b);
    }
  }

  lemma CallsFirst(step: Task, rest: seq<Task>)
    ensures CallsOf([step] + rest) == [CallOf(step)] + CallsOf(rest)
  {
    assert ([step] + rest)[1..] == rest;
  }

  /** What is to do from each part of the reconcile on. */
  function FromMesh(site: Key, i: Intent): seq<Call> {
    CallsOf(MeshSteps(site, i)) + [Plain]
  }

  function FromNfs(site: Key, i: Intent, c: Config): seq<Call> {
    CallsOf(NfSteps(site, i, c)) + FromMesh(site, i)
  }

  function FromCore(site: Key, i: Intent, c: Config): seq<Call> {
    CallsOf(CoreSteps(site, i, c)) + FromNfs(site, i, c)
  }

  function FromClaims(site: Key, i: Intent, c: Config): seq<Call> {
    CallsOf(ClaimSteps(site)) + FromCore(site, i, c)
  }

  lemma Sections(cluster: seq<Task>, claims: seq<Task>, core: seq<Task>, nfs: seq<Task>, mesh: seq<Task>)
    ensures CallsOf([Other] + cluster + (claims + (core + (nfs + mesh)))) ==
      [Plain] + (CallsOf(cluster) + (CallsOf(claims) + (CallsOf(core) + (CallsOf(nfs) + CallsOf(mesh)))))
  {
    var late := core + (nfs + mesh);
    CallsAppend(nfs, mesh);
    CallsAppend(core, nfs + mesh);
    Beginning(cluster, claims, late);
  }

  lemma Beginning(cluster: seq<Task>, claims: seq<Task>, late: seq<Task>)
    ensures CallsOf([Other] + cluster + (claims + late)) ==
      [Plain] + (CallsOf(cluster) + (CallsOf(claims) + CallsOf(late)))
  {
    CallsAppend(claims, late);
    CallsAppend(cluster, claims + late);
    CallsFirst(Other, cluster + (claims + late));
    assert [Other] + cluster + (claims + late) == [Other] + (cluster + (claims + late));
  }

  lemma Regroup(a: seq<Call>, b: seq<Call>, d: seq<Call>, e: seq<Call>, g: seq<Call>)
    ensures [Plain] + (a + (b + (d + (e + g)))) + [Plain] == [Plain] + (a + (b + (d + (e + (g + [Plain])))))
  {
  }

  lemma Parts(site: Key, i: Intent, c: Config)
    ensures Program(site, i, c) == [Plain] + (CallsOf(ClusterSteps(site, i, c)) + FromClaims(site, i, c))
  {
    var cluster, claims, core := ClusterSteps(site, i, c), ClaimSteps(site), CoreSteps(site, i, c);
    var nfs, mesh := NfSteps(site, i, c), MeshSteps(site, i);
    Sections(cluster, claims, core, nfs, mesh);
    Regroup(CallsOf(cluster), CallsOf(claims), CallsOf(core), CallsOf(nfs), CallsOf(mesh));
  }

  class Writer {
    const config: Config
    var objects: map<ChildKey, Stored>
    var writes: map<ChildKey, nat>
    var clock: nat
    /** How the coming calls will go; the process dies when it runs out. */
    var beats: seq<Beat>
    ghost var flights: map<Key, Flight>
    ghost var history: seq<Event>

    ghost function View(): State
      reads this
    {
      State(objects, writes, flights, clock)
    }

    /** The fields are exactly what the machine holds after everything that has happened. */
    ghost predicate Valid()
      reads this
    {
      View() == Run(EMPTY, history, config)
    }

    /** The next call is made, the flight goes on with the rest, or it is over. */
    ghost predicate Onward(r: Progress<bool>, site: Key, f: Flight, rest: seq<Call>)
      reads this
    {
      Valid() && if r.Crashed? then flights == map[] && beats == []
                 else flights == if r.value then Alone(site, f, rest) else map[]
    }

    constructor (c: Config)
      ensures config == c && Valid() && history == [] && flights == map[]
    {
      config, objects, writes, clock, beats := c, map[], map[], 0, [];
      flights, history := map[], [];
    }

    ghost method Note(e: Event, was: State)
      requires was == Run(EMPTY, history, config) && View() == Step(was, e, config)
      modifies this`history
      ensures Valid() && history == old(history) + [e]
    {
      RunOne(history, e, config);
      history := history + [e];
    }

    /** An object changes under a new revision, and goes once it is being deleted and nothing holds it. */
    method Store(k: ChildKey, o: Stored)
      modifies this`objects, this`clock
      ensures View() == Changed(old(View()), k, o)
    {
      if k in objects && objects[k] == o { return; }
      if o.deleting && o.finalizers == {} {
        objects := map j | j in objects && j != k :: objects[j];
      } else {
        objects := objects[k := o.(rev := clock)];
        clock := clock + 1;
      }
    }

    method Happen(e: Outside)
      requires Valid()
      modifies this`objects, this`clock, this`history
      ensures Valid() && history == old(history) + [e]
    {
      ghost var was := View();
      if e.key in objects {
        var o := objects[e.key];
        match e {
          case Drift(k, content) => Store(k, o.(content := content));
          case Touch(k) =>
            objects := objects[k := o.(rev := clock)];
            clock := clock + 1;
          case Hold(k, f) => if !o.deleting { Store(k, o.(finalizers := o.finalizers + {f})); }
          case Release(k, f) => Store(k, o.(finalizers := o.finalizers - {f}));
          case Removal(k) => Store(k, o.(deleting := true));
        }
      }
      Note(e, was);
    }

    /** Others act, then either the process dies or the call is told how it ends. */
    method Await(site: Key) returns (r: Progress<Outcome>)
      requires Valid()
      modifies this
      ensures Valid() && old(history) <= history && OfReconcile(site, history, |old(history)|)
      ensures if r.Crashed? then flights == map[] && beats == [] else flights == old(flights)
    {
      if |beats| == 0 {
        ghost var was := View();
        flights := map[];
        Note(Crash, was);
        return Crashed;
      }
      var beat := beats[0];
      beats := beats[1..];
      for i := 0 to |beat.others|
        invariant Valid() && flights == old(flights) && old(history) <= history
        invariant OfReconcile(site, history, |old(history)|)
      {
        Happen(beat.others[i]);
      }
      return Returned(beat.outcome);
    }

    /** The call at the head of the flight has ended: the ghost state follows the machine. */
    ghost method Ended(site: Key, o: Outcome, t: State)
      requires t == Run(EMPTY, history + [CallEnd(site, o)], config)
      requires objects == t.objects && writes == t.writes && clock == t.clock
      modifies this`flights, this`history
      ensures Valid() && history == old(history) + [CallEnd(site, o)] && View() == t
    {
      flights, history := t.flights, history + [CallEnd(site, o)];
    }

    /** Derive addressing, deliver to Git, or report: calls that write no child. */
    method Attempt(site: Key, ghost f: Flight, ghost rest: seq<Call>) returns (r: Progress<bool>)
      requires Valid() && flights == Alone(site, f, [Plain] + rest) && rest != []
      modifies this
      ensures Onward(r, site, f, rest) && old(history) <= history && OfReconcile(site, history, |old(history)|)
    {
      var o :- Await(site);
      ghost var was := View();
      RunOne(history, CallEnd(site, o), config);
      CallEnds(was, site, f, Plain, rest, o, config);
      GoesOn(was, site, f, [Plain] + rest, rest);
      Ended(site, o, Step(was, CallEnd(site, o), config));
      return Returned(o.Done?);
    }

    method Get(site: Key, x: Child, ghost f: Flight, ghost rest: seq<Call>) returns (r: Progress<Answer>)
      requires Valid() && flights == Alone(site, f, [Look(x)] + rest) && rest != []
      modifies this
      ensures Valid() && old(history) <= history && OfReconcile(site, history, |old(history)|)
      ensures if r.Crashed? then flights == map[] && beats == []
              else flights == if r.value.Failed? then map[] else Alone(site, f, AfterLook(x, r.value, rest))
    {
      var o :- Await(site);
      ghost var was := View();
      var answer := if !o.Done? then Failed else if x.key in objects then Live(objects[x.key]) else Absent;
      RunOne(history, CallEnd(site, o), config);
      CallEnds(was, site, f, Look(x), rest, o, config);
      if !answer.Failed? { GoesOn(was, site, f, [Look(x)] + rest, AfterLook(x, answer, rest)); }
      GoesOn(was, site, f, [Look(x)] + rest, rest);
      Ended(site, o, Step(was, CallEnd(site, o), config));
      return Returned(answer);
    }

    /** The whole object is written: nothing of what is stored survives, and no finalizer does. */
    method Write(x: Child, read: Option<nat>, owner: nat, o: Outcome) returns (fits: bool)
      modifies this`objects, this`writes, this`clock
      ensures fits == Fits(old(View()), x.key, read)
      ensures View() == if fits && o.Effective() then Written(old(View()), owner, x) else old(View())
    {
      fits := if read.None? then x.key !in objects else x.key in objects && objects[x.key].rev == read.value;
      if fits && o.Effective() {
        Store(x.key, if x.key in objects then objects[x.key].(owner := owner, content := x.content, finalizers := {})
                     else Stored(owner, x.content, clock, {}, false));
        writes := writes[x.key := (if x.key in writes then writes[x.key] else 0) + 1];
      }
    }

    method Put(site: Key, x: Child, read: Option<nat>, owner: nat, ghost f: Flight, ghost rest: seq<Call>)
      returns (r: Progress<bool>)
      requires Valid() && flights == Alone(site, f, [Call.Put(x, read)] + rest) && rest != [] && f.uid == owner
      modifies this
      ensures Onward(r, site, f, rest) && old(history) <= history && OfReconcile(site, history, |old(history)|)
    {
      var o :- Await(site);
      ghost var was := View();
      var fits := Write(x, read, owner, o);
      RunOne(history, CallEnd(site, o), config);
      CallEnds(was, site, f, Call.Put(x, read), rest, o, config);
      GoesOn(if fits && o.Effective() then Written(was, owner, x) else was, site, f, [Call.Put(x, read)] + rest, rest);
      GoesOn(was, site, f, [Call.Put(x, read)] + rest, rest);
      Ended(site, o, Step(was, CallEnd(site, o), config));
      return Returned(fits && o.Done?);
    }

    /** Read the child, and create it or replace it unless it is compared and already says what it should. */
    method ApplyOwned(site: Key, x: Child, owner: nat, ghost f: Flight, ghost rest: seq<Call>)
      returns (r: Progress<bool>)
      requires Valid() && flights == Alone(site, f, [Look(x)] + rest) && rest != [] && f.uid == owner
      modifies this
      ensures Onward(r, site, f, rest) && old(history) <= history && OfReconcile(site, history, |old(history)|)
    {
      var cur :- Get(site, x, f, rest);
      match cur
      case Failed => return Returned(false);
      case Absent => r := Put(site, x, None, owner, f, rest);
      case Live(stored) =>
        if x.key.kind.Compared() && stored.content == x.content { return Returned(true); }
        r := Put(site, x, Some(stored.rev), owner, f, rest);
    }

    method IPClaims(site: Key, owner: nat, ghost f: Flight, ghost rest: seq<Call>) returns (r: Progress<bool>)
      requires Valid() && flights == Alone(site, f, CallsOf(ClaimSteps(site)) + rest) && rest != [] && f.uid == owner
      modifies this
      ensures Onward(r, site, f, rest) && old(history) <= history && OfReconcile(site, history, |old(history)|)
    {
      var names := [("pod", "network"), ("access", "network"), ("core", "network"), ("uepool", "pool")];
      ghost var all := ClaimSteps(site);
      assert all[0..] == all;
      for i := 0 to |names|
        invariant Valid() && flights == Alone(site, f, CallsOf(all[i..]) + rest)
        invariant old(history) <= history && OfReconcile(site, history, |old(history)|)
      {
        var child := ClaimOf(site, names[i].0, names[i].1);
        assert all[i] == Emit(child) && all[i..][1..] == all[i + 1..];
        assert CallsOf(all[i..]) + rest == [Look(child)] + (CallsOf(all[i + 1..]) + rest);
        var ok :- ApplyOwned(site, child, owner, f, CallsOf(all[i + 1..]) + rest);
        if !ok { return Returned(false); }
      }
      assert CallsOf(all[|names|..]) + rest == rest;
      return Returned(true);
    }

    /** A cluster of its own unless the site is colocated. */
    method Provision(site: Key, i: Intent, owner: nat, ghost f: Flight, ghost rest: seq<Call>)
      returns (r: Progress<bool>)
      requires Valid() && flights == Alone(site, f, CallsOf(ClusterSteps(site, i, config)) + rest)
      requires rest != [] && f.uid == owner
      modifies this
      ensures Onward(r, site, f, rest) && old(history) <= history && OfReconcile(site, history, |old(history)|)
    {
      if i.colocated {
        assert CallsOf(ClusterSteps(site, i, config)) + rest == rest;
        return Returned(true);
      }
      ClusterCalls(site, i, config, rest);
      r := ApplyOwned(site, ClusterVariant(site, config), owner, f, rest);
    }

    /** The control plane, its exposure and its slice, and the radio if there is one. */
    method ControlPlane(site: Key, i: Intent, owner: nat, ghost f: Flight, ghost rest: seq<Call>)
      returns (r: Progress<bool>)
      requires Valid() && flights == Alone(site, f, CallsOf(CoreSteps(site, i, config)) + rest)
      requires rest != [] && f.uid == owner
      modifies this
      ensures Onward(r, site, f, rest) && old(history) <= history && OfReconcile(site, history, |old(history)|)
    {
      if i.role != "cp+upf" {
        assert CallsOf(CoreSteps(site, i, config)) + rest == rest;
        return Returned(true);
      }
      ghost var ran: seq<Call> := if i.ran then [Plain] else [];
      CoreCalls(site, i, config, rest);
      var ok :- ApplyOwned(site, CpVariant(site, i, config), owner, f, [Plain] + ([Plain] + (ran + rest)));
      if !ok { return Returned(false); }
      ok :- Attempt(site, f, [Plain] + (ran + rest));
      if !ok { return Returned(false); }
      ok :- Attempt(site, f, ran + rest);
      if !ok || !i.ran {
        assert !i.ran ==> ran + rest == rest;
        return Returned(ok);
      }
      r := Attempt(site, f, rest);
    }

    method NetworkFunctions(site: Key, i: Intent, owner: nat, ghost f: Flight, ghost rest: seq<Call>)
      returns (r: Progress<bool>)
      requires Valid() && flights == Alone(site, f, CallsOf(NfSteps(site, i, config)) + rest)
      requires rest != [] && f.uid == owner
      modifies this
      ensures Onward(r, site, f, rest) && old(history) <= history && OfReconcile(site, history, |old(history)|)
    {
      var multus, upf, datapath := MultusVariant(site, i, config), UpfVariant(site, i, config),
        DatapathVariant(site, i, config);
      NfCalls(site, i, config, rest);
      var ok :- ApplyOwned(site, multus, owner, f, [Look(upf)] + ([Look(datapath)] + rest));
      if !ok { return Returned(false); }
      ok :- ApplyOwned(site, upf, owner, f, [Look(datapath)] + rest);
      if !ok { return Returned(false); }
      r := ApplyOwned(site, datapath, owner, f, rest);
    }

    method Mesh(site: Key, i: Intent, owner: nat, ghost f: Flight, ghost rest: seq<Call>) returns (r: Progress<bool>)
      requires Valid() && flights == Alone(site, f, CallsOf(MeshSteps(site, i)) + rest) && rest != [] && f.uid == owner
      modifies this
      ensures Onward(r, site, f, rest) && old(history) <= history && OfReconcile(site, history, |old(history)|)
    {
      if i.role != "upf-only" {
        assert CallsOf(MeshSteps(site, i)) + rest == rest;
        return Returned(true);
      }
      var link, slice := MeshLinkOf(site, i), SliceOf(site, i);
      MeshCalls(site, i, rest);
      var ok :- ApplyOwned(site, link, owner, f, [Look(slice)] + rest);
      if !ok { return Returned(false); }
      r := ApplyOwned(site, slice, owner, f, rest);
    }

    /** Network functions, mesh, and the report. */
    method Deploy(site: Key, i: Intent, owner: nat, ghost f: Flight) returns (r: Progress<bool>)
      requires Valid() && flights == Alone(site, f, FromCore(site, i, config)) && f.uid == owner
      modifies this
      ensures Valid() && flights == map[] && (r.Crashed? ==> beats == [])
      ensures old(history) <= history && OfReconcile(site, history, |old(history)|)
    {
      var ok :- ControlPlane(site, i, owner, f, FromNfs(site, i, config));
      if !ok { return Returned(false); }
      ok :- NetworkFunctions(site, i, owner, f, FromMesh(site, i));
      if !ok { return Returned(false); }
      ok :- Mesh(site, i, owner, f, [Plain]);
      if !ok { return Returned(false); }
      r := Report(site, f);
    }

    /** The status is the last thing a reconcile writes. */
    method Report(site: Key, ghost f: Flight) returns (r: Progress<bool>)
      requires Valid() && flights == Alone(site, f, [Plain])
      modifies this
      ensures Valid() && flights == map[] && (r.Crashed? ==> beats == [])
      ensures old(history) <= history && OfReconcile(site, history, |old(history)|)
    {
      var o :- Await(site);
      ghost var was := View();
      RunOne(history, CallEnd(site, o), config);
      assert [Plain] + [] == [Plain];
      CallEnds(was, site, f, Plain, [], o, config);
      Ended(site, o, Step(was, CallEnd(site, o), config));
      return Returned(o.Done?);
    }

    /** One reconcile of a site; others may act before each of its calls. */
    method Reconcile(site: Key, uid: nat, i: Intent) returns (r: Progress<bool>)
      requires Valid() && flights == map[]
      modifies this
      ensures Valid() && flights == map[] && (r.Crashed? ==> beats == [])
      ensures old(history) + [Begin(site, uid, i)] <= history && OfReconcile(site, history, |old(history)| + 1)
    {
      ghost var was := View();
      ghost var f := Flight(uid, i, Program(site, i, config));
      flights := map[site := f];
      Note(Begin(site, uid, i), was);
      Parts(site, i, config);
      var ok :- Attempt(site, f, CallsOf(ClusterSteps(site, i, config)) + FromClaims(site, i, config));
      if !ok { return Returned(false); }
      ok :- Provision(site, i, uid, f, FromClaims(site, i, config));
      if !ok { return Returned(false); }
      ok :- IPClaims(site, uid, f, FromCore(site, i, config));
      if !ok { return Returned(false); }
      r := Deploy(site, i, uid, f);
    }
  }

  lemma ClusterCalls(site: Key, i: Intent, c: Config, rest: seq<Call>)
    requires !i.colocated
    ensures CallsOf(ClusterSteps(site, i, c)) + rest == [Look(ClusterVariant(site, c))] + rest
  {
    var step := Emit(ClusterVariant(site, c));
    assert ClusterSteps(site, i, c) == [step] == [step] + [];
    CallsFirst(step, []);
  }

  lemma DeliveryCalls(first: Task, ran: seq<Task>, rest: seq<Call>)
    ensures CallsOf([first] + ([Other] + ([Other] + ran))) + rest ==
      [CallOf(first)] + ([Plain] + ([Plain] + (CallsOf(ran) + rest)))
  {
    CallsFirst(first, [Other] + ([Other] + ran));
    CallsFirst(Other, [Other] + ran);
    CallsFirst(Other, ran);
  }

  lemma CoreCalls(site: Key, i: Intent, c: Config, rest: seq<Call>)
    requires i.role == "cp+upf"
    ensures CallsOf(CoreSteps(site, i, c)) + rest ==
      [Look(CpVariant(site, i, c))] + ([Plain] + ([Plain] + ((if i.ran then [Plain] else []) + rest)))
  {
    var ran: seq<Task> := if i.ran then [Other] else [];
    CallsFirst(Other, []);
    assert [Other] + [] == [Other];
    assert CoreSteps(site, i, c) == [Emit(CpVariant(site, i, c))] + ([Other] + ([Other] + ran));
    DeliveryCalls(Emit(CpVariant(site, i, c)), ran, rest);
  }

  lemma NfCalls(site: Key, i: Intent, c: Config, rest: seq<Call>)
    ensures CallsOf(NfSteps(site, i, c)) + rest ==
      [Look(MultusVariant(site, i, c))]
      + ([Look(UpfVariant(site, i, c))] + ([Look(DatapathVariant(site, i, c))] + rest))
  {
    var multus, upf := Emit(MultusVariant(site, i, c)), Emit(UpfVariant(site, i, c));
    var last := [Emit(DatapathVariant(site, i, c))] + [];
    assert NfSteps(site, i, c) == [multus] + ([upf] + last);
    CallsFirst(multus, [upf] + last);
    CallsFirst(upf, last);
    CallsFirst(Emit(DatapathVariant(site, i, c)), []);
  }

  lemma MeshCalls(site: Key, i: Intent, rest: seq<Call>)
    requires i.role == "upf-only"
    ensures CallsOf(MeshSteps(site, i)) + rest == [Look(MeshLinkOf(site, i))] + ([Look(SliceOf(site, i))] + rest)
  {
    var last := [Emit(SliceOf(site, i))] + [];
    assert MeshSteps(site, i) == [Emit(MeshLinkOf(site, i))] + last;
    CallsFirst(Emit(MeshLinkOf(site, i)), last);
    CallsFirst(Emit(SliceOf(site, i)), []);
  }
}

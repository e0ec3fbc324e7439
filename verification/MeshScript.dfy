/** One reconcile of a link that nothing disturbs, call by call. */
module MeshScript {
  import opened Calls
  import opened MeshLink
  import opened MeshSafety

  /** With `n` from fourteen up every call gets made, and further ends find nothing to do. */
  function Script(k: string, n: nat): seq<Event> {
    [Begin(k)] + CallEnds(k, seq(n, _ => Done))
  }

  function Iterate(f: State -> State, s: State, n: nat): State
    decreases n
  {
    if n == 0 then s else Iterate(f, f(s), n - 1)
  }

  /** `f` ends the next call of link `k` well. */
  ghost predicate EndsWell(f: State -> State, k: string) {
    forall s {:trigger Step(s, CallEnd(k, Done))} :: f(s) == Step(s, CallEnd(k, Done))
  }

  lemma {:induction false} RunIterates(f: State -> State, s: State, k: string, n: nat)
    requires EndsWell(f, k)
    ensures Run(s, CallEnds(k, seq(n, _ => Done))) == Iterate(f, s, n)
    decreases n
  {
    if n > 0 {
      var events := CallEnds(k, seq(n, _ => Done));
      assert events[1..] == CallEnds(k, seq(n - 1, _ => Done));
      RunIterates(f, Step(s, CallEnd(k, Done)), k, n - 1);
    }
  }

  lemma {:induction false} IterateIdle(f: State -> State, s: State, k: string, n: nat)
    requires EndsWell(f, k) && k !in s.flights
    ensures Iterate(f, s, n) == s
    decreases n
  {
    if n > 0 {
      assert Step(s, CallEnd(k, Done)) == s;
      IterateIdle(f, s, k, n - 1);
    }
  }

  function Flying(s: State, k: string, read: Link, todo: seq<Call>): State {
    s.(flights := s.flights[k := Creating(read, todo)])
  }

  function PodOf(s: State, spec: LinkSpec): string {
    var edge := ClusterOf(spec.edge);
    if edge in s.pods then s.pods[edge] else ""
  }

  lemma Going(s: State, k: string, read: Link, todo: seq<Call>, next: seq<Call>)
    requires next != []
    ensures Continue(Flying(s, k, read, todo), k, Creating(read, todo), next) == Flying(s, k, read, next)
  {
    assert s.flights[k := Creating(read, todo)][k := Creating(read, next)] == s.flights[k := Creating(read, next)];
  }

  lemma PassStep(f: State -> State, s: State, k: string, read: Link, call: Call, rest: seq<Call>)
    requires EndsWell(f, k) && (call.Client? || call.EnsureMesh?) && rest != []
    ensures f(Flying(s, k, read, [call] + rest)) == Flying(s, k, read, rest)
  {
    var x := Flying(s, k, read, [call] + rest);
    assert f(x) == Step(x, CallEnd(k, Done));
    assert ([call] + rest)[1..] == rest;
    Going(s, k, read, [call] + rest, rest);
  }

  lemma LookStep(f: State -> State, s: State, k: string, read: Link, p: Place, c: Content, rest: seq<Call>)
    requires EndsWell(f, k)
    ensures f(Flying(s, k, read, [LookService(p, c)] + rest)) ==
            Flying(s, k, read, [WriteService(p, c, p !in s.services)] + rest)
  {
    var todo, next := [LookService(p, c)] + rest, [WriteService(p, c, p !in s.services)] + rest;
    var x := Flying(s, k, read, todo);
    assert f(x) == Step(x, CallEnd(k, Done));
    assert todo[1..] == rest;
    Going(s, k, read, todo, next);
  }

  lemma WriteStep(f: State -> State, s: State, k: string, read: Link, p: Place, c: Content, rest: seq<Call>)
    requires EndsWell(f, k) && rest != []
    ensures f(Flying(s, k, read, [WriteService(p, c, p !in s.services)] + rest)) ==
      Flying(Applied(s, k, p, c), k, read, rest)
  {
    var todo := [WriteService(p, c, p !in s.services)] + rest;
    var x := Flying(s, k, read, todo);
    assert f(x) == Step(x, CallEnd(k, Done));
    assert todo[1..] == rest;
    Going(Applied(s, k, p, c), k, read, todo, rest);
  }

  lemma LookSliceStep(f: State -> State, s: State, k: string, read: Link, p: Place, ip: string, rest: seq<Call>)
    requires EndsWell(f, k)
    ensures f(Flying(s, k, read, [LookSlice(p, ip)] + rest)) ==
            Flying(s, k, read, [WriteSlice(p, ip, p !in s.slices)] + rest)
  {
    var todo, next := [LookSlice(p, ip)] + rest, [WriteSlice(p, ip, p !in s.slices)] + rest;
    var x := Flying(s, k, read, todo);
    assert f(x) == Step(x, CallEnd(k, Done));
    assert todo[1..] == rest;
    Going(s, k, read, todo, next);
  }

  lemma WriteSliceStep(f: State -> State, s: State, k: string, read: Link, p: Place, ip: string, rest: seq<Call>)
    requires EndsWell(f, k) && rest != []
    ensures f(Flying(s, k, read, [WriteSlice(p, ip, p !in s.slices)] + rest)) ==
      Flying(Sliced(s, k, p, ip), k, read, rest)
  {
    var todo := [WriteSlice(p, ip, p !in s.slices)] + rest;
    var x := Flying(s, k, read, todo);
    assert f(x) == Step(x, CallEnd(k, Done));
    assert todo[1..] == rest;
    Going(Sliced(s, k, p, ip), k, read, todo, rest);
  }

  lemma ReadStep(f: State -> State, s: State, k: string, read: Link, rest: seq<Call>)
    requires EndsWell(f, k) && PodOf(s, read.spec) != ""
    ensures f(Flying(s, k, read, [ReadPod] + rest)) ==
      Flying(s, k, read, Endpoint(read.spec, PodOf(s, read.spec)) + rest)
  {
    var todo, next := [ReadPod] + rest, Endpoint(read.spec, PodOf(s, read.spec)) + rest;
    var x := Flying(s, k, read, todo);
    assert f(x) == Step(x, CallEnd(k, Done));
    assert todo[1..] == rest;
    Going(s, k, read, todo, next);
  }

  /** A service looked up and written. */
  lemma ServiceDone(f: State -> State, s: State, k: string, read: Link, p: Place, c: Content, rest: seq<Call>, n: nat)
    requires EndsWell(f, k) && rest != [] && n >= 2
    ensures Iterate(f, Flying(s, k, read, [LookService(p, c)] + rest), n) ==
            Iterate(f, Flying(Applied(s, k, p, c), k, read, rest), n - 2)
  {
    LookStep(f, s, k, read, p, c, rest);
    WriteStep(f, s, k, read, p, c, rest);
  }

  lemma SliceDone(f: State -> State, s: State, k: string, read: Link, p: Place, ip: string, rest: seq<Call>, n: nat)
    requires EndsWell(f, k) && rest != [] && n >= 2
    ensures Iterate(f, Flying(s, k, read, [LookSlice(p, ip)] + rest), n) ==
            Iterate(f, Flying(Sliced(s, k, p, ip), k, read, rest), n - 2)
  {
    LookSliceStep(f, s, k, read, p, ip, rest);
    WriteSliceStep(f, s, k, read, p, ip, rest);
  }

  lemma StatusDone(f: State -> State, s: State, k: string, read: Link, n: nat)
    requires EndsWell(f, k) && n > 0 && k !in s.flights
    ensures Iterate(f, Flying(s, k, read, [WriteStatus]), n) == s
  {
    assert f(Flying(s, k, read, [WriteStatus])) == Step(Flying(s, k, read, [WriteStatus]), CallEnd(k, Done));
    assert Without(s.flights[k := Creating(read, [WriteStatus])], k) == s.flights;
    IterateIdle(f, s, k, n - 1);
  }

  /** The shared amf-cp, exported and consumed. */
  function Exported(s: State, k: string, spec: LinkSpec): State {
    Applied(Applied(s, k, CpAmf(spec), AmfGlobal(true)), k, EdgeAmf(spec), AmfGlobal(false))
  }

  /** What a successful reconcile leaves behind. */
  function Wired(s: State, k: string, spec: LinkSpec, ip: string): State {
    Sliced(Applied(Exported(s, k, spec), k, CpUpf(spec), N4Port), k, CpSlice(spec), ip)
  }

  lemma ConnectDone(f: State -> State, s: State, k: string, read: Link, c: Call, d: Call, rest: seq<Call>, n: nat)
    requires EndsWell(f, k) && n >= 3 && rest != [] && c.Client? && d.Client?
    ensures Iterate(f, Flying(s, k, read, [c] + ([d] + ([EnsureMesh] + rest))), n) ==
      Iterate(f, Flying(s, k, read, rest), n - 3)
  {
    PassDone(f, s, k, read, c, [d] + ([EnsureMesh] + rest), n);
    PassDone(f, s, k, read, d, [EnsureMesh] + rest, n - 1);
    PassDone(f, s, k, read, EnsureMesh, rest, n - 2);
  }

  lemma PassDone(f: State -> State, s: State, k: string, read: Link, call: Call, rest: seq<Call>, n: nat)
    requires EndsWell(f, k) && (call.Client? || call.EnsureMesh?) && rest != [] && n > 0
    ensures Iterate(f, Flying(s, k, read, [call] + rest), n) == Iterate(f, Flying(s, k, read, rest), n - 1)
  {
    PassStep(f, s, k, read, call, rest);
  }

  lemma ExportDone(f: State -> State, s: State, k: string, read: Link, rest: seq<Call>, n: nat)
    requires EndsWell(f, k) && n >= 4 && rest != []
    ensures var spec := read.spec;
      Iterate(f, Flying(s, k, read, [LookService(CpAmf(spec), AmfGlobal(true))] +
                                    ([LookService(EdgeAmf(spec), AmfGlobal(false))] + rest)), n) ==
      Iterate(f, Flying(Exported(s, k, spec), k, read, rest), n - 4)
  {
    var spec := read.spec;
    ServiceDone(f, s, k, read, CpAmf(spec), AmfGlobal(true), [LookService(EdgeAmf(spec), AmfGlobal(false))] + rest, n);
    ServiceDone(f, Applied(s, k, CpAmf(spec), AmfGlobal(true)), k, read, EdgeAmf(spec), AmfGlobal(false), rest, n - 2);
  }

  lemma EndpointDone(f: State -> State, t: State, k: string, read: Link, n: nat)
    requires EndsWell(f, k) && n >= 6 && k !in t.flights && PodOf(t, read.spec) != ""
    ensures Iterate(f, Flying(t, k, read, [ReadPod] + [WriteStatus]), n) ==
      Sliced(Applied(t, k, CpUpf(read.spec), N4Port), k, CpSlice(read.spec), PodOf(t, read.spec))
  {
    var spec, ip := read.spec, PodOf(t, read.spec);
    ReadStep(f, t, k, read, [WriteStatus]);
    assert Endpoint(spec, ip) + [WriteStatus] == [LookService(CpUpf(spec), N4Port)]
      + ([LookSlice(CpSlice(spec), ip)] + [WriteStatus]);
    ServiceDone(f, t, k, read, CpUpf(spec), N4Port, [LookSlice(CpSlice(spec), ip)] + [WriteStatus], n - 1);
    var u := Applied(t, k, CpUpf(spec), N4Port);
    SliceDone(f, u, k, read, CpSlice(spec), ip, [WriteStatus], n - 3);
    StatusDone(f, Sliced(u, k, CpSlice(spec), ip), k, read, n - 5);
  }

  lemma TailDone(f: State -> State, s: State, k: string, read: Link, n: nat)
    requires EndsWell(f, k) && n >= 13 && k !in s.flights && PodOf(s, read.spec) != ""
    ensures Iterate(f, Flying(s, k, read, CreateTail(read.spec)), n) == Wired(s, k, read.spec, PodOf(s, read.spec))
  {
    var spec := read.spec;
    var pod: seq<Call> := [ReadPod] + [WriteStatus];
    var writes := [LookService(CpAmf(spec), AmfGlobal(true))] + ([LookService(EdgeAmf(spec), AmfGlobal(false))] + pod);
    assert CreateTail(spec) == [Client(ClusterOf(spec.edge))]
      + ([Client(ClusterOf(spec.controlPlane))] + ([EnsureMesh] + writes));
    ConnectDone(f, s, k, read, Client(ClusterOf(spec.edge)), Client(ClusterOf(spec.controlPlane)), writes, n);
    ExportDone(f, s, k, read, pod, n - 3);
    EndpointDone(f, Exported(s, k, spec), k, read, n - 7);
  }

  /** The link after its finalizer is in place. */
  function Guarded(s: State, k: string): State
    requires k in s.links
  {
    if s.links[k].finalizer then s else Guard(s, k)
  }

  lemma FinalizerStep(f: State -> State, s: State, k: string, l: Link, tail: seq<Call>)
    requires EndsWell(f, k)
    requires k in s.links && s.links[k] == l && !l.finalizer && !l.deleting && tail != []
    ensures f(Flying(s, k, l, [AddFinalizer] + tail)) == Flying(Guarded(s, k), k, l, tail)
  {
    var x := Flying(s, k, l, [AddFinalizer] + tail);
    assert f(x) == Step(x, CallEnd(k, Done));
    assert ([AddFinalizer] + tail)[1..] == tail;
    Going(Guarded(s, k), k, l, [AddFinalizer] + tail, tail);
  }

  lemma ProgramDone(f: State -> State, s: State, k: string, l: Link, n: nat)
    requires EndsWell(f, k)
    requires n >= 14 && k in s.links && s.links[k] == l && k !in s.flights && !l.deleting && PodOf(s, l.spec) != ""
    ensures Iterate(f, Flying(s, k, l, CreateProgram(l)), n) == Wired(Guarded(s, k), k, l.spec, PodOf(s, l.spec))
  {
    if l.finalizer {
      TailDone(f, s, k, l, n);
    } else {
      FinalizerStep(f, s, k, l, CreateTail(l.spec));
      TailDone(f, Guarded(s, k), k, l, n - 1);
    }
  }

  /** One undisturbed reconcile: exactly the writes of its link, and nothing in flight afterwards. */
  lemma ScriptWires(s: State, k: string, n: nat)
    requires n >= 14
    requires k in s.links && k !in s.flights && !s.links[k].deleting && PodOf(s, s.links[k].spec) != ""
    ensures Run(s, Script(k, n)) == Wired(Guarded(s, k), k, s.links[k].spec, PodOf(s, s.links[k].spec))
  {
    var f := (x: State) => Step(x, CallEnd(k, Done));
    assert Script(k, n)[1..] == CallEnds(k, seq(n, _ => Done));
    RunIterates(f, Started(s, k), k, n);
    ProgramDone(f, s, k, s.links[k], n);
  }

  /** A rewrite keeps the address the cluster gave a service. */
  lemma RewiringKeepsAddresses(s: State, k: string, spec: LinkSpec, ip: string, p: Place)
    requires p in s.services
    ensures p in Wired(s, k, spec, ip).services && Wired(s, k, spec, ip).services[p].clusterIP ==
      s.services[p].clusterIP
  {
  }
}

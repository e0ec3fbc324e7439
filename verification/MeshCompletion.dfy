/** A reconcile that nothing disturbs completes, so the courses that convergence speaks of exist. */
module MeshCompletion {
  import opened Calls
  import opened MeshLink
  import opened MeshScript
  import opened MeshConvergence

  /** That many calls of the link end well in a row. */
  function Dones(k: string, n: nat): seq<Event> {
    seq(n, _ => CallEnd(k, Done))
  }

  /** They lead from one state to the other, the link staying in flight. */
  predicate Leads(s: State, k: string, n: nat, t: State) {
    InFlight(s, Dones(k, n), k) && Run(s, Dones(k, n)) == t
  }

  lemma LeadsNowhere(s: State, k: string)
    requires k in s.flights
    ensures Leads(s, k, 0, s)
  {
  }

  lemma LeadsMore(s: State, u: State, t: State, k: string, n: nat)
    requires n > 0 && k in s.flights && Step(s, CallEnd(k, Done)) == u && Leads(u, k, n - 1, t)
    ensures Leads(s, k, n, t)
  {
    assert Dones(k, n)[0] == CallEnd(k, Done) && Dones(k, n)[1..] == Dones(k, n - 1);
  }

  /** One call from a flying link. */
  lemma OneCall(f: State -> State, s: State, k: string, read: Link, todo: seq<Call>, next: State, t: State, n: nat)
    requires EndsWell(f, k) && n > 0 && f(Flying(s, k, read, todo)) == next && Leads(next, k, n - 1, t)
    ensures Leads(Flying(s, k, read, todo), k, n, t)
  {
    assert f(Flying(s, k, read, todo)) == Step(Flying(s, k, read, todo), CallEnd(k, Done));
    LeadsMore(Flying(s, k, read, todo), next, t, k, n);
  }

  lemma ServiceLeads(f: State -> State, s: State, k: string, read: Link, p: Place, c: Content, rest: seq<Call>,
                     t: State, n: nat)
    requires EndsWell(f, k) && rest != [] && n >= 2 && Leads(Flying(Applied(s, k, p, c), k, read, rest), k, n - 2, t)
    ensures Leads(Flying(s, k, read, [LookService(p, c)] + rest), k, n, t)
  {
    var write := [WriteService(p, c, p !in s.services)] + rest;
    WriteStep(f, s, k, read, p, c, rest);
    OneCall(f, s, k, read, write, Flying(Applied(s, k, p, c), k, read, rest), t, n - 1);
    LookStep(f, s, k, read, p, c, rest);
    OneCall(f, s, k, read, [LookService(p, c)] + rest, Flying(s, k, read, write), t, n);
  }

  lemma SliceLeads(f: State -> State, s: State, k: string, read: Link, p: Place, ip: string, rest: seq<Call>,
                   t: State, n: nat)
    requires EndsWell(f, k) && rest != [] && n >= 2 && Leads(Flying(Sliced(s, k, p, ip), k, read, rest), k, n - 2, t)
    ensures Leads(Flying(s, k, read, [LookSlice(p, ip)] + rest), k, n, t)
  {
    var write := [WriteSlice(p, ip, p !in s.slices)] + rest;
    WriteSliceStep(f, s, k, read, p, ip, rest);
    OneCall(f, s, k, read, write, Flying(Sliced(s, k, p, ip), k, read, rest), t, n - 1);
    LookSliceStep(f, s, k, read, p, ip, rest);
    OneCall(f, s, k, read, [LookSlice(p, ip)] + rest, Flying(s, k, read, write), t, n);
  }

  lemma ExportLeads(f: State -> State, s: State, k: string, read: Link, n: nat)
    requires EndsWell(f, k) && n == 4
    ensures var spec := read.spec;
      Leads(Flying(s, k, read, [LookService(CpAmf(spec), AmfGlobal(true))] +
                               ([LookService(EdgeAmf(spec), AmfGlobal(false))] + [ReadPod, WriteStatus])), k, n,
            Flying(Exported(s, k, spec), k, read, [ReadPod, WriteStatus]))
  {
    var spec, pod := read.spec, [ReadPod, WriteStatus];
    var one, end := Applied(s, k, CpAmf(spec), AmfGlobal(true)),
      Flying(Exported(s, k, spec), k, read, [ReadPod, WriteStatus]);
    LeadsNowhere(end, k);
    ServiceLeads(f, one, k, read, EdgeAmf(spec), AmfGlobal(false), pod, end, n - 2);
    ServiceLeads(f, s, k, read, CpAmf(spec), AmfGlobal(true), [LookService(EdgeAmf(spec), AmfGlobal(false))]
      + pod, end, n);
  }

  lemma TailLeads(f: State -> State, s: State, k: string, read: Link, n: nat)
    requires EndsWell(f, k) && n == 7
    ensures Leads(Flying(s, k, read, CreateTail(read.spec)), k, n,
      Flying(Exported(s, k, read.spec), k, read, [ReadPod, WriteStatus]))
  {
    var spec := read.spec;
    var end := Flying(Exported(s, k, spec), k, read, [ReadPod, WriteStatus]);
    var writes := [LookService(CpAmf(spec), AmfGlobal(true))] +
                  ([LookService(EdgeAmf(spec), AmfGlobal(false))] + [ReadPod, WriteStatus]);
    var cp, edge := Client(ClusterOf(spec.controlPlane)), Client(ClusterOf(spec.edge));
    assert CreateTail(spec) == [edge] + ([cp] + ([EnsureMesh] + writes));
    ExportLeads(f, s, k, read, n - 3);
    PassStep(f, s, k, read, EnsureMesh, writes);
    OneCall(f, s, k, read, [EnsureMesh] + writes, Flying(s, k, read, writes), end, n - 2);
    PassStep(f, s, k, read, cp, [EnsureMesh] + writes);
    OneCall(f, s, k, read, [cp] + ([EnsureMesh] + writes), Flying(s, k, read, [EnsureMesh] + writes), end, n - 1);
    PassStep(f, s, k, read, edge, [cp] + ([EnsureMesh] + writes));
    OneCall(f, s, k, read, CreateTail(spec), Flying(s, k, read, [cp] + ([EnsureMesh] + writes)), end, n);
  }

  lemma ProgramLeads(f: State -> State, s: State, k: string, l: Link, n: nat)
    requires EndsWell(f, k) && k in s.links && s.links[k] == l && !l.deleting && n == (if l.finalizer then 7 else 8)
    ensures Leads(Flying(s, k, l, CreateProgram(l)), k, n,
                  Flying(Exported(Guarded(s, k), k, l.spec), k, l, [ReadPod, WriteStatus]))
  {
    var end := Flying(Exported(Guarded(s, k), k, l.spec), k, l, [ReadPod, WriteStatus]);
    if l.finalizer {
      TailLeads(f, s, k, l, n);
    } else {
      TailLeads(f, Guarded(s, k), k, l, n - 1);
      FinalizerStep(f, s, k, l, CreateTail(l.spec));
      OneCall(f, s, k, l, CreateProgram(l), Flying(Guarded(s, k), k, l, CreateTail(l.spec)), end, n);
    }
  }

  lemma EndpointLeads(f: State -> State, t: State, k: string, read: Link, ip: string, n: nat)
    requires EndsWell(f, k) && n == 4
    ensures Leads(Flying(t, k, read, Endpoint(read.spec, ip) + [WriteStatus]), k, n,
                  Flying(Sliced(Applied(t, k, CpUpf(read.spec), N4Port), k, CpSlice(read.spec), ip), k, read,
                    [WriteStatus]))
  {
    var spec := read.spec;
    var u := Applied(t, k, CpUpf(spec), N4Port);
    var end := Flying(Sliced(u, k, CpSlice(spec), ip), k, read, [WriteStatus]);
    LeadsNowhere(end, k);
    SliceLeads(f, u, k, read, CpSlice(spec), ip, [WriteStatus], end, n - 2);
    assert Endpoint(spec, ip) + [WriteStatus] == [LookService(CpUpf(spec), N4Port)]
      + ([LookSlice(CpSlice(spec), ip)] + [WriteStatus]);
    ServiceLeads(f, t, k, read, CpUpf(spec), N4Port, [LookSlice(CpSlice(spec), ip)] + [WriteStatus], end, n);
  }

  /** Whatever went before and comes after, a link whose pod is up completes if nothing comes between its calls. */
  lemma UndisturbedCompletes(s: State, before: seq<Event>, after: seq<Event>, k: string)
    returns (c: Course)
    requires var t := Run(s, before);
      k in t.links && k !in t.flights && !t.links[k].deleting && PodOf(t, t.links[k].spec) != ""
    ensures Completes(s, c, k) && c.after == after && c.before == before + [Begin(k)]
  {
    var t := Run(s, before);
    var l := t.links[k];
    var f := (x: State) => Step(x, CallEnd(k, Done));
    var n: nat := if l.finalizer then 7 else 8;
    c := Course(before + [Begin(k)], Dones(k, n), Dones(k, 4), after);
    RunAppend(s, before, [Begin(k)]);
    assert [Begin(k)][1..] == [];
    assert Run(s, c.before) == Started(t, k) == Flying(t, k, l, CreateProgram(l));
    ProgramLeads(f, t, k, l, n);
    var exported, ip := Exported(Guarded(t, k), k, l.spec), PodOf(t, l.spec);
    assert [ReadPod, WriteStatus] == [ReadPod] + [WriteStatus];
    ReadStep(f, exported, k, l, [WriteStatus]);
    var reading := Flying(exported, k, l, [ReadPod, WriteStatus]);
    assert f(reading) == Step(reading, CallEnd(k, Done));
    EndpointLeads(f, exported, k, l, ip, 4);
  }
}

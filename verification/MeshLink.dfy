/**
 * The MeshLink protocol as a machine of single calls. A reconcile reads its link, then works through a list of calls;
 * between any two calls the process may crash, users may act, and reconciles of other links may run.
 */
module MeshLink {
  import opened Calls

  datatype LinkSpec = LinkSpec(edge: string, controlPlane: string, upfName: string)

  /** `others` tells whether somebody else's finalizer also holds the object. */
  datatype Link = Link(rev: nat, finalizer: bool, others: bool, deleting: bool, spec: LinkSpec)

  datatype Place = Place(cluster: string, name: string)

  datatype Content = AmfGlobal(shared: bool) | N4Port

  datatype Service = Service(content: Content, clusterIP: nat)

  const AMF := "amf-cp"

  /** The empty name is the management cluster itself. */
  function ClusterOf(name: string): string {
    if name == "" then "mgmt" else name
  }

  function UpfName(s: LinkSpec): string {
    if s.upfName == "" then "upf-" + s.edge else s.upfName
  }

  function EdgeAmf(s: LinkSpec): Place { Place(ClusterOf(s.edge), AMF) }
  function CpAmf(s: LinkSpec): Place { Place(ClusterOf(s.controlPlane), AMF) }
  function CpUpf(s: LinkSpec): Place { Place(ClusterOf(s.controlPlane), UpfName(s)) }
  function CpSlice(s: LinkSpec): Place { Place(ClusterOf(s.controlPlane), UpfName(s) + "-x") }

  function ServicePlaces(s: LinkSpec): set<Place> { {EdgeAmf(s), CpAmf(s), CpUpf(s)} }

  datatype Call =
    | AddFinalizer
    | Client(cluster: string)
    | CleanupClient(cluster: string, skips: nat)
    | EnsureMesh
    | LookService(place: Place, content: Content)
    | WriteService(place: Place, content: Content, create: bool)
    | ReadPod
    | LookSlice(place: Place, ip: string)
    | WriteSlice(place: Place, ip: string, create: bool)
    | DeleteService(place: Place)
    | DeleteSlice(place: Place)
    | ReleaseFinalizer
    | WriteStatus

  /** A reconcile under way: the link as it was read, and the calls still to make. */
  datatype Flight = Creating(read: Link, todo: seq<Call>) | Cleaning(read: Link, todo: seq<Call>)

  /**
   * Why something is there that no link answers for. Cleanup: its deletion was skipped or failed. Repointed: its link
   * was pointed elsewhere. Stripped: its link went while its finalizer was off because the site had rewritten it.
   */
  datatype Cause = Cleanup | Repointed | Stripped

  datatype Excuse = Excuse(link: string, place: Place, cause: Cause)

  /** `stripped` are the links that their sites have rewritten since they last took their finalizer. */
  datatype State = State(
    links: map<string, Link>, services: map<Place, Service>, slices: map<Place, string>, pods: map<string, string>,
    flights: map<string, Flight>, clock: nat, lostServices: set<Excuse>, lostSlices: set<Excuse>, stripped: set<string>)

  ghost predicate Excused(lost: set<Excuse>, p: Place) {
    exists x :: x in lost && x.place == p
  }

  /** Some link gave up on it. */
  ghost predicate GivenUp(lost: set<Excuse>, p: Place) {
    exists x :: x in lost && x.place == p && x.cause != Stripped
  }

  /** Some link went while its site's rewrite had taken its finalizer off. */
  ghost predicate Orphaned(lost: set<Excuse>, p: Place) {
    exists x :: x in lost && x.place == p && x.cause == Stripped
  }

  /** Once the object is gone nothing is owed any more. */
  function Forgiven(lost: set<Excuse>, p: Place): set<Excuse> {
    set x | x in lost && x.place != p
  }

  /** Link `k` leaves behind those of the places where something is. */
  function Blamed(k: string, places: set<Place>, present: set<Place>, cause: Cause): set<Excuse> {
    set p | p in places && p in present :: Excuse(k, p, cause)
  }

  function CreateTail(s: LinkSpec): seq<Call> {
    [Client(ClusterOf(s.edge)), Client(ClusterOf(s.controlPlane)), EnsureMesh,
     LookService(CpAmf(s), AmfGlobal(true)), LookService(EdgeAmf(s), AmfGlobal(false)), ReadPod, WriteStatus]
  }

  function CreateProgram(l: Link): seq<Call> {
    if l.finalizer then CreateTail(l.spec) else [AddFinalizer] + CreateTail(l.spec)
  }

  function CleanupProgram(s: LinkSpec): seq<Call> {
    [CleanupClient(ClusterOf(s.controlPlane), 3), DeleteService(CpUpf(s)), DeleteSlice(CpSlice(s)),
     DeleteService(CpAmf(s)),
     CleanupClient(ClusterOf(s.edge), 1), DeleteService(EdgeAmf(s)), ReleaseFinalizer]
  }

  datatype Event =
    | Begin(key: string)
    | CallEnd(key: string, outcome: Outcome)
    | Crash
    | CreateLink(key: string, others: bool, spec: LinkSpec)
    | DeleteLink(key: string)
    | EditLink(key: string, spec: LinkSpec)
    | SiteApplies(key: string, spec: LinkSpec)
    | SiteRepeats(key: string)
    | OthersRelease(key: string)
    | SetPod(cluster: string, ip: string)
    | ForeignDelete(place: Place)

  function Without<K, V>(m: map<K, V>, k: K): map<K, V> {
    map j | j in m && j != k :: m[j]
  }

  function Continue(s: State, k: string, f: Flight, todo: seq<Call>): State {
    s.(flights := if todo == [] then Without(s.flights, k)
                  else s.flights[k := if f.Creating? then Creating(f.read, todo) else Cleaning(f.read, todo)])
  }

  function Abort(s: State, k: string): State {
    s.(flights := Without(s.flights, k))
  }

  function Deletes(todo: seq<Call>): set<Place> {
    set i | 0 <= i < |todo| && todo[i].DeleteService? :: todo[i].place
  }

  function SliceDeletes(todo: seq<Call>): set<Place> {
    set i | 0 <= i < |todo| && todo[i].DeleteSlice? :: todo[i].place
  }

  function Drop(todo: seq<Call>, n: nat): seq<Call> {
    if n <= |todo| then todo[n..] else []
  }

  function Take(todo: seq<Call>, n: nat): seq<Call> {
    if n <= |todo| then todo[..n] else todo
  }

  /** A reconcile that began earlier puts something where its link is no longer pointed, or when its link has gone. */
  function Astray(s: State, k: string, p: Place, places: LinkSpec -> set<Place>): set<Excuse> {
    if k !in s.links then {Excuse(k, p, Stripped)}
    else if p !in places(s.links[k].spec) then {Excuse(k, p, Repointed)}
    else {}
  }

  /** An existing service keeps its cluster address; only the content the operator owns is rewritten. */
  function Applied(s: State, k: string, p: Place, content: Content): State {
    s.(services := s.services[p := Service(content, if p in s.services then s.services[p].clusterIP else s.clock)],
       clock := s.clock + 1,
       lostServices := s.lostServices + Astray(s, k, p, ServicePlaces))
  }

  function SlicePlaces(s: LinkSpec): set<Place> { {CpSlice(s)} }

  function Sliced(s: State, k: string, p: Place, ip: string): State {
    s.(slices := s.slices[p := ip], lostSlices := s.lostSlices + Astray(s, k, p, SlicePlaces))
  }

  /** The calls that follow a pod address. */
  function Endpoint(s: LinkSpec, ip: string): seq<Call> {
    [LookService(CpUpf(s), N4Port), LookSlice(CpSlice(s), ip)]
  }

  /** What a link leaves behind when it goes. */
  function LeftBehind(s: State, k: string, places: set<Place>, present: set<Place>): set<Excuse> {
    if k in s.stripped then Blamed(k, places, present, Stripped) else {}
  }

  /** The object changes under a new revision, or goes away once nothing holds it. */
  function StoreLink(s: State, k: string, l: Link): State {
    if l.deleting && !l.finalizer && !l.others then
      s.(links := Without(s.links, k),
         lostServices := s.lostServices + LeftBehind(s, k, ServicePlaces(l.spec), s.services.Keys),
         lostSlices := s.lostSlices + LeftBehind(s, k, SlicePlaces(l.spec), s.slices.Keys))
    else s.(links := s.links[k := l.(rev := s.clock)], clock := s.clock + 1)
  }

  /** The object takes the finalizer. */
  function Guard(s: State, k: string): State
    requires k in s.links
  {
    StoreLink(s, k, s.links[k].(finalizer := true)).(stripped := s.stripped - {k})
  }

  /** The object gets another spec. */
  function Repoint(s: State, k: string, spec: LinkSpec, l: Link): State
    requires k in s.links
  {
    var t, was := StoreLink(s, k, l), s.links[k].spec;
    t.(lostServices := t.lostServices + Blamed(k, ServicePlaces(was) - ServicePlaces(spec), s.services.Keys, Repointed),
       lostSlices := t.lostSlices + Blamed(k, SlicePlaces(was) - SlicePlaces(spec), s.slices.Keys, Repointed))
  }

  /**
   * The site's reconcile writes its link: it creates a bare one, or replaces the stored one, which takes every
   * finalizer off. A link that was being deleted goes at once.
   */
  function SiteApplied(s: State, k: string, spec: LinkSpec): State {
    if k !in s.links then s.(links := s.links[k := Link(s.clock, false, false, false, spec)], clock := s.clock + 1)
    else
      var l := s.links[k].(finalizer := false, others := false, spec := spec);
      if l == s.links[k] then s
      else Repoint(s.(stripped := if s.links[k].finalizer then s.stripped + {k} else s.stripped), k, spec, l)
  }

  predicate Unchanged(s: State, k: string, read: Link) {
    k in s.links && s.links[k].rev == read.rev
  }

  /** One call of a reconcile ends. */
  function PerformCall(s: State, k: string, f: Flight, call: Call, rest: seq<Call>, o: Outcome): State {
    match call
    case AddFinalizer =>
      if Unchanged(s, k, f.read) && o.Effective() then
        var t := Guard(s, k);
        if o.Done? then Continue(t, k, f, rest) else Abort(t, k)
      else Abort(s, k)
    case Client(_) => if o.Done? then Continue(s, k, f, rest) else Abort(s, k)
    case CleanupClient(_, n) =>
      if o.Done? then Continue(s, k, f, rest)
      else
        var skipped := Take(rest, n);
        Continue(s.(lostServices := s.lostServices + Blamed(k, Deletes(skipped), s.services.Keys, Cleanup),
                    lostSlices := s.lostSlices + Blamed(k, SliceDeletes(skipped), s.slices.Keys, Cleanup)),
                 k, f, Drop(rest, n))
    case EnsureMesh => if o.Done? then Continue(s, k, f, rest) else Abort(s, k)
    // A read that fails for another reason than absence leads to the update as well.
    case LookService(p, content) => Continue(s, k, f, [WriteService(p, content, o.Done? && p !in s.services)] + rest)
    case WriteService(p, content, create) =>
      if create != (p !in s.services) then Abort(s, k)
      else
        var t := if o.Effective() then Applied(s, k, p, content) else s;
        if o.Done? then Continue(t, k, f, rest) else Abort(t, k)
    case ReadPod =>
      var edge := ClusterOf(f.read.spec.edge);
      if o.Done? && edge in s.pods && s.pods[edge] != ""
      then Continue(s, k, f, Endpoint(f.read.spec, s.pods[edge]) + rest)
      else Continue(s, k, f, rest)
    case LookSlice(p, ip) => Continue(s, k, f, [WriteSlice(p, ip, o.Done? && p !in s.slices)] + rest)
    case WriteSlice(p, ip, create) =>
      if create != (p !in s.slices) then Abort(s, k)
      else
        var t := if o.Effective() then Sliced(s, k, p, ip) else s;
        if o.Done? then Continue(t, k, f, rest) else Abort(t, k)
    case DeleteService(p) =>
      Continue(if o.Effective() then s.(services := Without(s.services, p), lostServices := Forgiven(s.lostServices, p))
               else s.(lostServices := s.lostServices + Blamed(k, {p}, s.services.Keys, Cleanup)), k, f, rest)
    case DeleteSlice(p) =>
      Continue(if o.Effective() then s.(slices := Without(s.slices, p), lostSlices := Forgiven(s.lostSlices, p))
               else s.(lostSlices := s.lostSlices + Blamed(k, {p}, s.slices.Keys, Cleanup)), k, f, rest)
    case ReleaseFinalizer =>
      if Unchanged(s, k, f.read) && o.Effective() then Abort(StoreLink(s, k, s.links[k].(finalizer := false)), k)
      else Abort(s, k)
    case WriteStatus => Abort(s, k)
  }

  function Started(s: State, k: string): State {
    if k !in s.links || k in s.flights then s
    else
      var l := s.links[k];
      if l.deleting then if l.finalizer then s.(flights := s.flights[k := Cleaning(l, CleanupProgram(l.spec))]) else s
      else s.(flights := s.flights[k := Creating(l, CreateProgram(l))])
  }

  function Step(s: State, e: Event): State {
    match e
    case Begin(k) => Started(s, k)
    case CallEnd(k, o) =>
      if k !in s.flights then s
      else if s.flights[k].todo == [] then Abort(s, k)
      else PerformCall(s, k, s.flights[k], s.flights[k].todo[0], s.flights[k].todo[1..], o)
    case Crash => s.(flights := map[])
    case CreateLink(k, others, spec) =>
      if k in s.links then s
      else s.(links := s.links[k := Link(s.clock, false, others, false, spec)], clock := s.clock + 1)
    case DeleteLink(k) => if k in s.links then StoreLink(s, k, s.links[k].(deleting := true)) else s
    case EditLink(k, spec) => if k in s.links then Repoint(s, k, spec, s.links[k].(spec := spec)) else s
    case SiteApplies(k, spec) => SiteApplied(s, k, spec)
    case SiteRepeats(k) => if k in s.links then SiteApplied(s, k, s.links[k].spec) else s
    case OthersRelease(k) => if k in s.links then StoreLink(s, k, s.links[k].(others := false)) else s
    case SetPod(c, ip) => s.(pods := s.pods[c := ip])
    case ForeignDelete(p) =>
      s.(services := Without(s.services, p), slices := Without(s.slices, p),
         lostServices := Forgiven(s.lostServices, p), lostSlices := Forgiven(s.lostSlices, p))
  }

  function Run(s: State, events: seq<Event>): State
    decreases |events|
  {
    if |events| == 0 then s else Run(Step(s, events[0]), events[1..])
  }

  lemma {:induction false} RunAppend(s: State, first: seq<Event>, second: seq<Event>)
    ensures Run(s, first + second) == Run(Run(s, first), second)
    decreases |first|
  {
    if |first| == 0 {
      assert first + second == second;
    } else {
      assert (first + second)[1..] == first[1..] + second;
      RunAppend(Step(s, first[0]), first[1..], second);
    }
  }

  const EMPTY := State(map[], map[], map[], map[], map[], 0, {}, {}, {})
}

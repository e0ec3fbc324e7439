/**
 * Runs of the two site controllers and of everybody else who touches EdgeSites, in any interleaving. Derivation reads
 * the cluster and writes its result back in two separate steps, so anything may happen in between; the write goes
 * through only if the object is still at the revision that was read.
 */
module SiteRuns {
  import opened Text
  import opened Calls
  import opened Sites
  import opened VipPool
  import opened EdgeSites
  import opened Fleet
  import opened Collections

  /** A derivation between its reads and its write: the object it read, and the spec it is about to write. */
  datatype Derivation = Derivation(key: Key, rev: nat, read: Body, next: Spec)

  datatype World = World(sites: Store, clock: nat, pending: Option<Derivation>)

  datatype Event =
    | Create(key: Key, held: bool, spec: Spec)
    | Edit(key: Key, server: string, user: string, role: string, ran: nat)
    | ApplyEntry(key: Key, fleet: string, entry: Entry, write: Outcome)
    | Delete(key: Key, call: Outcome)
    | Vanish(key: Key)
    | BeginDerive(key: Key, listed: bool, nodeAddress: string)
    | CommitDerive(write: Outcome)

  function Stored(w: World, k: Key, body: Body): World {
    if k in w.sites && w.sites[k].body == body then w
    else w.(sites := Put(w.sites, k, body, w.clock), clock := w.clock + 1)
  }

  function Removed(sites: Store, k: Key): Store {
    map j | j in sites && j != k :: sites[j]
  }

  ghost function Step(w: World, e: Event): World {
    match e
    case Create(k, held, spec) => if k in w.sites then w else Stored(w, k, Body(None, held, false, spec))
    case Edit(k, server, user, role, ran) =>
      if k !in w.sites then w
      else
        var b := w.sites[k].body;
        Stored(w, k, b.(spec := b.spec.(server := server, user := user, role := role, ran := ran)))
    case ApplyEntry(k, fleet, entry, write) =>
      if write.Effective() then Stored(w, k, Applied(Lookup(BodiesOf(w.sites), k), fleet, entry)) else w
    case Delete(k, call) =>
      if k !in w.sites || !call.Effective() then w
      else if w.sites[k].body.held then Stored(w, k, w.sites[k].body.(deleting := true))
      else w.(sites := Removed(w.sites, k))
    case Vanish(k) =>
      if k in w.sites && w.sites[k].body.deleting then w.(sites := Removed(w.sites, k)) else w
    case BeginDerive(k, listed, nodeAddress) =>
      if k !in w.sites then w
      else
        var site := w.sites[k];
        w.(pending := Some(Derivation(k, site.rev, site.body,
          Derived(site.body.spec, k.name, w.sites, listed, nodeAddress))))
    case CommitDerive(write) =>
      if w.pending.None? then w
      else
        var d := w.pending.value;
        var quiet := w.(pending := None);
        if Commits(w, d) && write.Effective() then Stored(quiet, d.key, d.read.(spec := d.next)) else quiet
  }

  predicate Commits(w: World, d: Derivation) {
    d.key in w.sites && w.sites[d.key].rev == d.rev
  }

  ghost function Run(w: World, events: seq<Event>): World
    decreases |events|
  {
    if |events| == 0 then w else Run(Step(w, events[0]), events[1..])
  }

  lemma {:induction false} RunAppend(w: World, first: seq<Event>, second: seq<Event>)
    ensures Run(w, first + second) == Run(Run(w, first), second)
    decreases |first|
  {
    if |first| == 0 {
      assert first + second == second;
    } else {
      assert (first + second)[1..] == first[1..] + second;
      RunAppend(Step(w, first[0]), first[1..], second);
    }
  }

  // ----- what is asked of the surroundings -----

  ghost predicate NameFree(w: World, k: Key) {
    forall j | j in w.sites :: j.name == k.name ==> j == k
  }

  /**
   * Names are unique in the cluster, nobody sets a VIP by hand, derivations can list, and at most 14 cores stand
   * alone.
   */
  ghost predicate Allowed(w: World, e: Event) {
    match e
    case Create(k, _, spec) => NameFree(w, k) && spec.n2VIP == ""
    case ApplyEntry(k, _, _, _) => NameFree(w, k)
    case BeginDerive(_, listed, _) => listed && |NonColocated(w.sites)| <= SLOTS
    case _ => true
  }

  ghost predicate AllAllowed(w: World, events: seq<Event>)
    decreases |events|
  {
    |events| == 0 || (Allowed(w, events[0]) && AllAllowed(Step(w, events[0]), events[1..]))
  }

  // ----- the invariant -----

  ghost predicate Fresh(w: World) {
    && (forall k | k in w.sites :: w.sites[k].rev < w.clock && w.sites[k].uid < w.clock)
    && (w.pending.Some? ==> w.pending.value.rev < w.clock)
  }

  ghost predicate UniqueNames(w: World) {
    forall j, k | j in w.sites && k in w.sites :: j.name == k.name ==> j == k
  }

  /** An unset address, the reserved octet for a colocated core, or a pool octet for a core of its own. */
  ghost predicate VipShape(spec: Spec) {
    spec.n2VIP != "" ==>
      OctetOf(spec.n2VIP).Some?
      && if spec.colocated then OctetOf(spec.n2VIP).value == RESERVED else InPool(OctetOf(spec.n2VIP).value)
  }

  ghost predicate Shapes(w: World) {
    forall k | k in w.sites :: VipShape(w.sites[k].body.spec)
  }

  predicate HasOwnVip(site: Site) {
    !site.body.spec.colocated && site.body.spec.n2VIP != ""
  }

  ghost predicate DistinctOctets(w: World) {
    forall j, k | j in w.sites && k in w.sites && j != k && HasOwnVip(w.sites[j]) && HasOwnVip(w.sites[k]) ::
      OctetOf(w.sites[j].body.spec.n2VIP) != OctetOf(w.sites[k].body.spec.n2VIP)
  }

  /** What a derivation about to commit has read is what is stored, and its address is nobody else's. */
  ghost predicate PendingFits(w: World) {
    w.pending.Some? && Commits(w, w.pending.value) ==>
      var d := w.pending.value;
      && w.sites[d.key].body == d.read
      && Keeps(d.read.spec, d.next) && SameDeclared(d.read.spec, d.next) && VipShape(d.next)
      && (!d.next.colocated ==> forall j | j in w.sites && j != d.key && HasOwnVip(w.sites[j]) ::
            OctetOf(w.sites[j].body.spec.n2VIP) != OctetOf(d.next.n2VIP))
  }

  ghost predicate Invariant(w: World) {
    Fresh(w) && UniqueNames(w) && Shapes(w) && DistinctOctets(w) && PendingFits(w)
  }

  /** With at most fourteen standing alone, some pool octet is left for one of them that has none yet. */
  lemma SlotLeft(w: World, k: Key)
    requires Invariant(w) && k in w.sites && |NonColocated(w.sites)| <= SLOTS
    requires !w.sites[k].body.spec.colocated
    ensures !forall octet | InPool(octet) :: Taken(w.sites, true, k.name, octet)
  {
    var holders := set j | j in w.sites && j.name != k.name && HoldsPoolVip(w.sites[j].body.spec);
    forall j | j in holders ensures j in NonColocated(w.sites) - {k} {
      assert VipShape(w.sites[j].body.spec);
    }
    SubsetNoLarger(holders, NonColocated(w.sites) - {k});
    if forall octet | InPool(octet) :: Taken(w.sites, true, k.name, octet) {
      FullPoolNeedsFourteen(w.sites, k.name, holders);
    }
  }

  /** The address a derivation picks is well formed and free. */
  lemma ChoiceIsFree(w: World, k: Key, nodeAddress: string)
    requires Invariant(w) && k in w.sites && |NonColocated(w.sites)| <= SLOTS
    ensures var next := Derived(w.sites[k].body.spec, k.name, w.sites, true, nodeAddress);
      && Keeps(w.sites[k].body.spec, next) && SameDeclared(w.sites[k].body.spec, next) && VipShape(next)
      && (!next.colocated ==> forall j | j in w.sites && j != k && HasOwnVip(w.sites[j]) ::
            OctetOf(w.sites[j].body.spec.n2VIP) != OctetOf(next.n2VIP))
  {
    var spec := w.sites[k].body.spec;
    OnePassSettles(spec, k.name, w.sites, true, nodeAddress, w.sites, true, nodeAddress);
    var next := Derived(spec, k.name, w.sites, true, nodeAddress);
    if spec.n2VIP != "" {
      assert next.n2VIP == spec.n2VIP;
      assert VipShape(spec);
    } else if spec.colocated {
      ColocatedVip(spec, k.name, w.sites, true, nodeAddress);
    } else {
      StandaloneVip(spec, k.name, w.sites, nodeAddress);
      SlotLeft(w, k);
      forall j | j in w.sites && j != k && HasOwnVip(w.sites[j])
        ensures OctetOf(w.sites[j].body.spec.n2VIP) != OctetOf(next.n2VIP)
      {
        assert !Blocks(j, w.sites[j], k.name, OctetOf(next.n2VIP).value);
      }
    }
  }

  /** The stored object has the same address as before, or none. */
  ghost predicate SameAddress(w: World, k: Key, body: Body) {
    if k in w.sites
    then body.spec.n2VIP == w.sites[k].body.spec.n2VIP && body.spec.colocated == w.sites[k].body.spec.colocated
    else body.spec.n2VIP == ""
  }

  lemma StoringFacts(w: World, k: Key, body: Body)
    requires Fresh(w)
    ensures var v := Stored(w, k, body);
      && v.sites.Keys == w.sites.Keys + {k} && v.clock >= w.clock && v.pending == w.pending
      && (forall j | j in v.sites && j != k :: v.sites[j] == w.sites[j])
      && v.sites[k].body == body
      && (v.sites[k].rev == w.clock || (k in w.sites && v.sites[k] == w.sites[k]))
      && Fresh(v)
  {
  }

  lemma StoringKeepsOctets(w: World, v: World, k: Key, body: Body)
    requires Shapes(w) && DistinctOctets(w) && SameAddress(w, k, body)
    requires v.sites.Keys == w.sites.Keys + {k} && v.sites[k].body == body
    requires forall j | j in v.sites && j != k :: v.sites[j] == w.sites[j]
    ensures Shapes(v) && DistinctOctets(v)
  {
    forall i, j | i in v.sites && j in v.sites && i != j && HasOwnVip(v.sites[i]) && HasOwnVip(v.sites[j])
      ensures OctetOf(v.sites[i].body.spec.n2VIP) != OctetOf(v.sites[j].body.spec.n2VIP)
    {
      assert HasOwnVip(w.sites[i]) && HasOwnVip(w.sites[j]);
    }
  }

  lemma StoringKeepsPending(w: World, v: World, k: Key, body: Body)
    requires Fresh(w) && PendingFits(w) && SameAddress(w, k, body) && v.pending == w.pending
    requires v.sites.Keys == w.sites.Keys + {k} && v.sites[k].body == body
    requires v.sites[k].rev == w.clock || (k in w.sites && v.sites[k] == w.sites[k])
    requires forall j | j in v.sites && j != k :: v.sites[j] == w.sites[j]
    ensures PendingFits(v)
  {
    if v.pending.Some? && Commits(v, v.pending.value) {
      var d := v.pending.value;
      assert Commits(w, d);
      forall j | j in v.sites && j != d.key && HasOwnVip(v.sites[j]) && !d.next.colocated
        ensures OctetOf(v.sites[j].body.spec.n2VIP) != OctetOf(d.next.n2VIP)
      {
        assert HasOwnVip(w.sites[j]);
      }
    }
  }

  /** Storing content with the same address, or no address, keeps the invariant. */
  lemma StoringKeeps(w: World, k: Key, body: Body)
    requires Invariant(w) && NameFree(w, k) && SameAddress(w, k, body)
    ensures Invariant(Stored(w, k, body))
  {
    var v := Stored(w, k, body);
    StoringFacts(w, k, body);
    StoringKeepsOctets(w, v, k, body);
    StoringKeepsPending(w, v, k, body);
  }

  lemma RemovingKeeps(w: World, k: Key)
    requires Invariant(w)
    ensures Invariant(w.(sites := Removed(w.sites, k)))
  {
    var v := w.(sites := Removed(w.sites, k));
    assert forall j | j in v.sites :: j in w.sites && v.sites[j] == w.sites[j];
  }

  lemma CommittedOctets(w: World, v: World, d: Derivation)
    requires Invariant(w) && w.pending == Some(d) && Commits(w, d)
    requires v.sites.Keys == w.sites.Keys && v.sites[d.key].body == d.read.(spec := d.next)
    requires forall j | j in v.sites && j != d.key :: v.sites[j] == w.sites[j]
    ensures Shapes(v) && DistinctOctets(v)
  {
    forall i, j | i in v.sites && j in v.sites && i != j && HasOwnVip(v.sites[i]) && HasOwnVip(v.sites[j])
      ensures OctetOf(v.sites[i].body.spec.n2VIP) != OctetOf(v.sites[j].body.spec.n2VIP)
    {
      if i != d.key { assert HasOwnVip(w.sites[i]); }
      if j != d.key { assert HasOwnVip(w.sites[j]); }
    }
  }

  lemma CommittingKeeps(w: World, write: Outcome)
    requires Invariant(w)
    ensures Invariant(Step(w, CommitDerive(write)))
  {
    if w.pending.Some? && Commits(w, w.pending.value) && write.Effective() {
      var d := w.pending.value;
      var quiet := w.(pending := None);
      StoringFacts(quiet, d.key, d.read.(spec := d.next));
      CommittedOctets(w, Stored(quiet, d.key, d.read.(spec := d.next)), d);
    }
  }

  lemma StepKeeps(w: World, e: Event)
    requires Invariant(w) && Allowed(w, e)
    ensures Invariant(Step(w, e))
  {
    match e
    case Create(k, held, spec) =>
      if k !in w.sites { StoringKeeps(w, k, Body(None, held, false, spec)); }
    case Edit(k, server, user, role, ran) =>
      if k in w.sites {
        var b := w.sites[k].body;
        StoringKeeps(w, k, b.(spec := b.spec.(server := server, user := user, role := role, ran := ran)));
      }
    case ApplyEntry(k, fleet, entry, write) =>
      StoringKeeps(w, k, Applied(Lookup(BodiesOf(w.sites), k), fleet, entry));
    case Delete(k, call) =>
      if k in w.sites {
        StoringKeeps(w, k, w.sites[k].body.(deleting := true));
        RemovingKeeps(w, k);
      }
    case Vanish(k) => RemovingKeeps(w, k);
    case BeginDerive(k, listed, nodeAddress) =>
      if k in w.sites { ChoiceIsFree(w, k, nodeAddress); }
    case CommitDerive(write) => CommittingKeeps(w, write);
  }

  const EMPTY := World(map[], 0, None)

  lemma {:induction false} RunKeeps(w: World, events: seq<Event>)
    requires Invariant(w) && AllAllowed(w, events)
    ensures Invariant(Run(w, events))
    decreases |events|
  {
    if |events| > 0 {
      StepKeeps(w, events[0]);
      RunKeeps(Step(w, events[0]), events[1..]);
    }
  }

  /**
   * In every reachable state, two different standalone sites that hold an address hold different last octets,
   * both in 241..254; a colocated core holds 240.
   */
  lemma VipsNeverCollide(events: seq<Event>, j: Key, k: Key)
    requires AllAllowed(EMPTY, events)
    requires var w := Run(EMPTY, events); j in w.sites && k in w.sites && j != k
                                          && w.sites[j].body.spec.n2VIP != "" && w.sites[k].body.spec.n2VIP != ""
    ensures var w := Run(EMPTY, events);
      var x, y := OctetOf(w.sites[j].body.spec.n2VIP), OctetOf(w.sites[k].body.spec.n2VIP);
      && x.Some? && y.Some?
      && (if w.sites[j].body.spec.colocated then x.value == RESERVED else InPool(x.value))
      && (if w.sites[k].body.spec.colocated then y.value == RESERVED else InPool(y.value))
      && (!w.sites[j].body.spec.colocated || !w.sites[k].body.spec.colocated ==> x != y)
  {
    RunKeeps(EMPTY, events);
    var w := Run(EMPTY, events);
    assert VipShape(w.sites[j].body.spec) && VipShape(w.sites[k].body.spec);
    assert HasOwnVip(w.sites[j]) || w.sites[j].body.spec.colocated;
  }

  /** The bound is sharp: more than fourteen standalone cores with pool addresses always collide. */
  lemma FifteenCollide(w: World, holders: set<Key>)
    requires Shapes(w) && holders == set k | k in w.sites && HasOwnVip(w.sites[k])
    requires |holders| > SLOTS
    ensures !DistinctOctets(w)
  {
    if DistinctOctets(w) {
      var octets := map k | k in holders :: OctetOf(w.sites[k].body.spec.n2VIP).value;
      assert forall k | k in holders :: VipShape(w.sites[k].body.spec) && octets[k] in POOL by {
        forall k | k in holders ensures VipShape(w.sites[k].body.spec) && octets[k] in POOL {
          PoolOctets(octets[k]);
        }
      }
      PoolOctets(FIRST);
      InjectionNoLarger(holders, POOL, octets);
    }
  }

  // ----- addressing is written once -----

  /** Revisions and identities only grow, so an identity seen again is the same object. */
  ghost predicate Stamped(w: World) {
    && Fresh(w)
    && (w.pending.Some? && Commits(w, w.pending.value) ==>
          w.sites[w.pending.value.key].body == w.pending.value.read
          && Keeps(w.pending.value.read.spec, w.pending.value.next))
  }

  lemma StepStamped(w: World, e: Event)
    requires Stamped(w)
    ensures Stamped(Step(w, e)) && Step(w, e).clock >= w.clock
  {
    if e.BeginDerive? && e.key in w.sites {
      OnePassSettles(w.sites[e.key].body.spec, e.key.name, w.sites, e.listed, e.nodeAddress, w.sites, e.listed,
        e.nodeAddress);
    }
  }

  lemma {:induction false} RunStamped(w: World, events: seq<Event>)
    requires Stamped(w)
    ensures Stamped(Run(w, events))
    decreases |events|
  {
    if |events| > 0 {
      StepStamped(w, events[0]);
      RunStamped(Step(w, events[0]), events[1..]);
    }
  }

  /** One step either keeps an object and every set address of it, or removes it, or it is a newer object. */
  lemma StepKeepsAddressing(w: World, e: Event, k: Key)
    requires Stamped(w) && k in w.sites
    ensures var v := Step(w, e);
      k in v.sites ==> v.sites[k].uid == w.sites[k].uid && Keeps(w.sites[k].body.spec, v.sites[k].body.spec)
  {
  }

  lemma StepMakesNew(w: World, e: Event, k: Key)
    requires Stamped(w) && k !in w.sites && k in Step(w, e).sites
    ensures Step(w, e).sites[k].uid >= w.clock
  {
  }

  /** Newer objects stay newer. */
  lemma {:induction false} NewerStaysNewer(w: World, events: seq<Event>, k: Key, uid: nat)
    requires Stamped(w) && uid < w.clock && (k in w.sites ==> w.sites[k].uid > uid)
    requires k in Run(w, events).sites
    ensures Run(w, events).sites[k].uid > uid
    decreases |events|
  {
    if |events| > 0 {
      var v := Step(w, events[0]);
      StepStamped(w, events[0]);
      if k in v.sites {
        if k in w.sites { StepKeepsAddressing(w, events[0], k); } else { StepMakesNew(w, events[0], k); }
      }
      NewerStaysNewer(v, events[1..], k, uid);
    }
  }

  /**
   * Whatever happens, and however the server, role, user or radio of an entry change: as long as it is the same
   * object, an addressing field that is set never changes.
   */
  lemma {:induction false} AddressingWrittenOnce(w: World, events: seq<Event>, k: Key)
    requires Stamped(w) && k in w.sites && k in Run(w, events).sites
    requires Run(w, events).sites[k].uid == w.sites[k].uid
    ensures Keeps(w.sites[k].body.spec, Run(w, events).sites[k].body.spec)
    decreases |events|
  {
    if |events| > 0 {
      var v := Step(w, events[0]);
      StepStamped(w, events[0]);
      if k in v.sites {
        StepKeepsAddressing(w, events[0], k);
        AddressingWrittenOnce(v, events[1..], k);
        KeepsTransitive(w.sites[k].body.spec, v.sites[k].body.spec, Run(w, events).sites[k].body.spec);
      } else {
        NewerStaysNewer(v, events[1..], k, w.sites[k].uid);
      }
    }
  }

  /** So it is from any reachable state on. */
  lemma AddressingNeverRewritten(history: seq<Event>, events: seq<Event>, k: Key)
    requires var w := Run(EMPTY, history);
      k in w.sites && k in Run(w, events).sites && Run(w, events).sites[k].uid == w.sites[k].uid
    ensures var w := Run(EMPTY, history); Keeps(w.sites[k].body.spec, Run(w, events).sites[k].body.spec)
  {
    RunStamped(EMPTY, history);
    AddressingWrittenOnce(Run(EMPTY, history), events, k);
  }
}

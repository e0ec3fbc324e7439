/** The Fleet reconcile as it runs: collect the declared set, write in sorted order past failures, then prune. */
module FleetController {
  import opened Text
  import opened Calls
  import opened Sites
  import opened Fleet
  import opened SiteRuns
  import opened SiteControllers
  import Sorting

  /** The declared sites by name. */
  method CollectDesired(entries: seq<Entry>) returns (desired: map<string, Entry>)
    ensures desired == Desired(entries)
  {
    desired := map[];
    for i := 0 to |entries|
      invariant desired == Desired(entries[..i])
    {
      assert entries[..i + 1][..i] == entries[..i];
      if entries[i].server != "" {
        desired := desired[EntryName(entries[i]) := entries[i]];
      }
    }
    assert entries[..|entries|] == entries;
  }

  /** The content under `k` once the declared names in `done` have been written. */
  ghost predicate WrittenUpTo(before: Bodies, now: Bodies, f: FleetObject, calls: PassCalls, done: set<string>) {
    forall k: Key :: Lookup(now, k) ==
      if k.ns == f.ns && k.name in done then After(before, f, calls, k) else Lookup(before, k)
  }

  /** The content under `k` once, after all writes, the objects in `seen` have been considered for deletion. */
  ghost predicate PrunedUpTo(before: Bodies, now: Bodies, f: FleetObject, calls: PassCalls, seen: set<Key>) {
    forall k: Key :: Lookup(now, k) ==
      if (k.ns == f.ns && k.name in Desired(f.entries)) || k in seen then After(before, f, calls, k)
        else Lookup(before, k)
  }

  lemma StoredBodies(w: World, k: Key, body: Body)
    ensures BodiesOf(Stored(w, k, body).sites) == BodiesOf(w.sites)[k := body]
  {
  }

  lemma RemovedBodies(w: World, k: Key, call: Outcome)
    requires k in w.sites && call.Effective()
    ensures var v := BodiesOf(Step(w, Delete(k, call)).sites);
      forall j: Key :: Lookup(v, j) ==
        if j != k then Lookup(BodiesOf(w.sites), j)
        else if w.sites[k].body.held then Some(w.sites[k].body.(deleting := true)) else None
  {
  }

  lemma RunOneMore(w: World, events: seq<Event>, e: Event)
    ensures Run(w, events + [e]) == Step(Run(w, events), e)
  {
    RunAppend(w, events, [e]);
    var v := Run(w, events);
    assert Run(v, [e]) == Run(Step(v, e), []);
  }

  /** The site events a pass is made of. */
  predicate IsFleetEvent(e: Event) {
    e.ApplyEntry? || e.Delete?
  }

  ghost predicate AllFleetEvents(events: seq<Event>) {
    forall i | 0 <= i < |events| :: IsFleetEvent(events[i])
  }

  /** One declared site: read it, then create it or reassert its declared fields. */
  method ApplyEdgeSite(api: ApiServer, f: FleetObject, name: string, e: Entry, get: bool, write: Outcome)
    returns (ok: bool, ghost events: seq<Event>)
    modifies api
    ensures api.View() == Run(old(api.View()), events) && AllFleetEvents(events)
    ensures ok == (get && write.Done?)
    ensures BodiesOf(api.sites) ==
      if get && write.Effective()
      then old(BodiesOf(api.sites))[Key(f.ns, name) :=
        Applied(Lookup(old(BodiesOf(api.sites)), Key(f.ns, name)), f.name, e)]
      else old(BodiesOf(api.sites))
    ensures get && write.Effective() ==>
      Key(f.ns, name) in BodiesOf(api.sites)
      && AsDeclared(Lookup(old(BodiesOf(api.sites)), Key(f.ns, name)), BodiesOf(api.sites)[Key(f.ns, name)], f.name, e)
  {
    ghost var w := api.View();
    var k := Key(f.ns, name);
    AppliedAsDeclared(Lookup(BodiesOf(api.sites), k), f.name, e);
    if !get {
      return false, [];
    }
    var current := if k in api.sites then Some(api.sites[k].body) else None;
    assert current == Lookup(BodiesOf(api.sites), k);
    var body := Applied(current, f.name, e);
    events := [ApplyEntry(k, f.name, e, write)];
    RunOneMore(w, [], events[0]);
    assert [] + events == events;
    StoredBodies(w, k, body);
    ok := api.Write(k, body, write);
  }

  ghost predicate WriteState(before: Bodies, now: Bodies, f: FleetObject, calls: PassCalls, done: set<string>,
                             ok: bool) {
    WrittenUpTo(before, now, f, calls, done) && (ok <==> forall n | n in done :: calls.get(n) && calls.write(n).Done?)
  }

  lemma WrittenMore(before: Bodies, now: Bodies, next: Bodies, f: FleetObject, calls: PassCalls, done: set<string>,
                    name: string, ok: bool, one: bool)
    requires WriteState(before, now, f, calls, done, ok) && name in Desired(f.entries) && name !in done
    requires one == (calls.get(name) && calls.write(name).Done?)
    requires var k := Key(f.ns, name);
      next == if calls.get(name) && calls.write(name).Effective()
              then now[k := Applied(Lookup(now, k), f.name, Desired(f.entries)[name])] else now
    ensures WriteState(before, next, f, calls, done + {name}, ok && one)
  {
    assert Lookup(now, Key(f.ns, name)) == Lookup(before, Key(f.ns, name));
  }

  /** Writes every declared site in sorted order; a failing one does not stop the rest. */
  method ApplyAll(api: ApiServer, f: FleetObject, calls: PassCalls) returns (ok: bool, ghost events: seq<Event>)
    modifies api
    ensures api.View() == Run(old(api.View()), events) && AllFleetEvents(events)
    ensures ok <==> forall n | n in Desired(f.entries) :: calls.get(n) && calls.write(n).Done?
    ensures WrittenUpTo(old(BodiesOf(api.sites)), BodiesOf(api.sites), f, calls, Desired(f.entries).Keys)
  {
    var desired := CollectDesired(f.entries);
    var names := Sorting.SortNames(desired.Keys);
    ok, events := true, [];
    ghost var done := {};
    ghost var before := BodiesOf(api.sites);
    for i := 0 to |names|
      invariant api.View() == Run(old(api.View()), events) && AllFleetEvents(events)
      invariant done == set j | 0 <= j < i :: names[j]
      invariant WriteState(before, BodiesOf(api.sites), f, calls, done, ok)
    {
      var name := names[i];
      assert name in desired;
      assert name !in done by { SortedApart(names, i); }
      ghost var now := BodiesOf(api.sites);
      var one, more := ApplyEdgeSite(api, f, name, desired[name], calls.get(name), calls.write(name));
      WrittenMore(before, now, BodiesOf(api.sites), f, calls, done, name, ok, one);
      EventsAppend(old(api.View()), events, more);
      ok, events, done := ok && one, events + more, done + {name};
    }
    AllNames(names, desired.Keys, done);
  }

  lemma SortedApart(names: seq<string>, i: nat)
    requires Sorting.Sorted(names) && i < |names|
    ensures forall j | 0 <= j < i :: names[j] != names[i]
  {
    forall j | 0 <= j < i ensures names[j] != names[i] {
      assert Sorting.Before(names[j], names[i]);
      Sorting.BeforeOrders(names[i], names[i], names[i]);
    }
  }

  lemma AllNames(names: seq<string>, wanted: set<string>, done: set<string>)
    requires forall n: string :: n in names <==> n in wanted
    requires done == set j | 0 <= j < |names| :: names[j]
    ensures done == wanted
  {
    forall n | n in wanted ensures n in done {
      assert n in names;
    }
  }

  /** Nothing went wrong in a pass. */
  ghost predicate Clean(before: Bodies, f: FleetObject, calls: PassCalls) {
    && calls.list
    && (forall n | n in Desired(f.entries) :: calls.get(n) && calls.write(n).Done?)
    && AllDeleted(before, f, calls, before.Keys)
  }

  predicate Stray(k: Key, body: Body, f: FleetObject) {
    k.ns == f.ns && k.name !in Desired(f.entries) && Prunable(body, f.name)
  }

  /** The effect of considering one listed object. */
  ghost predicate IsDelete(now: Bodies, next: Bodies, f: FleetObject, k: Key, body: Body, call: Outcome) {
    forall j: Key :: (
      Lookup(next, j) ==
      if j == k && Stray(j, body, f) && call.Effective()
      then if body.held then Some(body.(deleting := true)) else None
      else Lookup(now, j))
  }

  ghost predicate AllDeleted(before: Bodies, f: FleetObject, calls: PassCalls, seen: set<Key>) {
    forall k | k in seen && k in before && Stray(k, before[k], f) :: calls.delete(k.name).Done?
  }

  ghost predicate Untouched(listed: Bodies, now: Bodies, seen: set<Key>) {
    forall k: Key | k !in seen :: Lookup(now, k) == Lookup(listed, k)
  }

  lemma ItemFresh(items: seq<Item>, sites: Store, now: Store, i: nat)
    requires Lists(items, sites) && i < |items|
    requires Untouched(BodiesOf(sites), BodiesOf(now), KeysUpTo(items, i))
    ensures items[i].key !in KeysUpTo(items, i) && Lookup(BodiesOf(sites), items[i].key) == Some(items[i].site.body)
    ensures items[i].key in now && now[items[i].key].body == items[i].site.body
  {
    assert Lookup(BodiesOf(sites), items[i].key) == Lookup(BodiesOf(now), items[i].key);
  }

  lemma OneMoreDeleted(before: Bodies, f: FleetObject, calls: PassCalls, seen: set<Key>, k: Key, body: Body)
    requires k.ns != f.ns || k.name !in Desired(f.entries) ==> Lookup(before, k) == Some(body)
    ensures AllDeleted(before, f, calls, seen + {k}) <==>
      AllDeleted(before, f, calls, seen) && (Stray(k, body, f) ==> calls.delete(k.name).Done?)
  {
    if AllDeleted(before, f, calls, seen + {k}) && Stray(k, body, f) {
      assert k in seen + {k} && before[k] == body;
    }
  }

  /** Considers one listed object for deletion. */
  method PruneOne(api: ApiServer, f: FleetObject, desired: map<string, Entry>, item: Item, call: Outcome)
    returns (ok: bool, ghost events: seq<Event>)
    requires desired == Desired(f.entries)
    requires item.key in api.sites && api.sites[item.key].body == item.site.body
    modifies api
    ensures api.View() == Run(old(api.View()), events) && AllFleetEvents(events)
    ensures ok <==> (Stray(item.key, item.site.body, f) ==> call.Done?)
    ensures IsDelete(old(BodiesOf(api.sites)), BodiesOf(api.sites), f, item.key, item.site.body, call)
  {
    ok, events := true, [];
    var k, body := item.key, item.site.body;
    if k.ns == f.ns && body.fleet == Some(f.name) && k.name !in desired && !body.deleting {
      ghost var w := api.View();
      if call.Effective() { RemovedBodies(w, k, call); }
      RunOneMore(w, [], Delete(k, call));
      events := [Delete(k, call)];
      assert [] + events == events;
      ok := api.Remove(k, call);
    }
  }

  ghost predicate PruneState(before: Bodies, listed: Bodies, now: Bodies, f: FleetObject, calls: PassCalls,
                             seen: set<Key>, ok: bool) {
    PrunedUpTo(before, now, f, calls, seen) && Untouched(listed, now, seen)
      && (ok <==> AllDeleted(before, f, calls, seen))
  }

  ghost function KeysUpTo(items: seq<Item>, i: nat): set<Key>
    requires i <= |items|
  {
    set j | 0 <= j < i :: items[j].key
  }

  lemma OneMoreKey(items: seq<Item>, i: nat)
    requires i < |items|
    ensures KeysUpTo(items, i + 1) == KeysUpTo(items, i) + {items[i].key}
  {
  }

  /** One round of the prune loop. */
  method PruneNext(api: ApiServer, f: FleetObject, desired: map<string, Entry>, item: Item, calls: PassCalls,
                   soFar: bool, ghost before: Bodies, ghost listed: Bodies, ghost seen: set<Key>)
    returns (ok: bool, ghost events: seq<Event>)
    requires desired == Desired(f.entries) && calls.list
    requires WrittenUpTo(before, listed, f, calls, desired.Keys)
    requires PruneState(before, listed, BodiesOf(api.sites), f, calls, seen, soFar)
    requires item.key !in seen && Lookup(listed, item.key) == Some(item.site.body)
    modifies api
    ensures api.View() == Run(old(api.View()), events) && AllFleetEvents(events)
    ensures PruneState(before, listed, BodiesOf(api.sites), f, calls, seen + {item.key}, ok)
  {
    ghost var now := BodiesOf(api.sites);
    assert Lookup(now, item.key) == Lookup(listed, item.key);
    UnwrittenStays(before, listed, f, calls, item.key);
    ok, events := PruneOne(api, f, desired, item, calls.delete(item.key.name));
    ghost var next := BodiesOf(api.sites);
    PrunedMore(before, now, next, f, calls, seen, item.key, item.site.body);
    OneMoreDeleted(before, f, calls, seen, item.key, item.site.body);
    UntouchedMore(listed, now, next, f, seen, item.key, item.site.body, calls.delete(item.key.name));
    ok := ok && soFar;
  }

  lemma PruneBegins(before: Bodies, listed: Bodies, f: FleetObject, calls: PassCalls, items: seq<Item>)
    requires WrittenUpTo(before, listed, f, calls, Desired(f.entries).Keys)
    ensures PruneState(before, listed, listed, f, calls, KeysUpTo(items, 0), true)
  {
  }

  lemma StateUntouched(before: Bodies, listed: Bodies, now: Bodies, f: FleetObject, calls: PassCalls, seen: set<Key>,
                       ok: bool)
    requires PruneState(before, listed, now, f, calls, seen, ok)
    ensures Untouched(listed, now, seen)
  {
  }

  /**
   * Deletes every live object labelled for the fleet and no longer declared; a failing delete does not stop the rest.
   */
  method Prune(api: ApiServer, f: FleetObject, calls: PassCalls, ghost before: Bodies)
    returns (ok: bool, ghost events: seq<Event>)
    requires calls.list && WrittenUpTo(before, BodiesOf(api.sites), f, calls, Desired(f.entries).Keys)
    modifies api
    ensures api.View() == Run(old(api.View()), events) && AllFleetEvents(events)
    ensures IsPass(before, BodiesOf(api.sites), f, calls)
    ensures ok <==> AllDeleted(before, f, calls, before.Keys)
  {
    var desired := CollectDesired(f.entries);
    var items := api.List();
    ghost var listed := api.sites;
    ok, events := true, [];
    PruneBegins(before, BodiesOf(listed), f, calls, items);
    for i := 0 to |items|
      invariant api.View() == Run(old(api.View()), events) && AllFleetEvents(events)
      invariant PruneState(before, BodiesOf(listed), BodiesOf(api.sites), f, calls, KeysUpTo(items, i), ok)
    {
      StateUntouched(before, BodiesOf(listed), BodiesOf(api.sites), f, calls, KeysUpTo(items, i), ok);
      ItemFresh(items, listed, api.sites, i);
      OneMoreKey(items, i);
      ghost var more;
      ok, more := PruneNext(api, f, desired, items[i], calls, ok, before, BodiesOf(listed), KeysUpTo(items, i));
      EventsAppend(old(api.View()), events, more);
      events := events + more;
    }
    SeenAll(items, listed);
    PrunedEverything(before, BodiesOf(listed), BodiesOf(api.sites), f, calls, KeysUpTo(items, |items|), ok);
  }

  lemma EventsAppend(w: World, events: seq<Event>, more: seq<Event>)
    requires AllFleetEvents(events) && AllFleetEvents(more)
    ensures Run(w, events + more) == Run(Run(w, events), more) && AllFleetEvents(events + more)
  {
    RunAppend(w, events, more);
  }

  lemma UnwrittenStays(before: Bodies, written: Bodies, f: FleetObject, calls: PassCalls, k: Key)
    requires WrittenUpTo(before, written, f, calls, Desired(f.entries).Keys)
    ensures k.ns != f.ns || k.name !in Desired(f.entries) ==> Lookup(before, k) == Lookup(written, k)
  {
    assert Lookup(written, k) == if k.ns == f.ns && k.name in Desired(f.entries).Keys then After(before, f, calls, k)
      else Lookup(before, k);
  }

  lemma UntouchedMore(listed: Bodies, now: Bodies, next: Bodies, f: FleetObject, seen: set<Key>, k: Key, body: Body,
                      call: Outcome)
    requires Untouched(listed, now, seen) && IsDelete(now, next, f, k, body, call)
    ensures Untouched(listed, next, seen + {k})
  {
  }

  lemma PrunedMore(before: Bodies, now: Bodies, next: Bodies, f: FleetObject, calls: PassCalls, seen: set<Key>,
                   k: Key, body: Body)
    requires calls.list && PrunedUpTo(before, now, f, calls, seen) && k !in seen
    requires k.ns != f.ns || k.name !in Desired(f.entries) ==> Lookup(before, k) == Some(body)
    requires IsDelete(now, next, f, k, body, calls.delete(k.name))
    ensures PrunedUpTo(before, next, f, calls, seen + {k})
  {
  }

  lemma PrunedEverything(before: Bodies, written: Bodies, now: Bodies, f: FleetObject, calls: PassCalls,
                         seen: set<Key>, ok: bool)
    requires calls.list && WrittenUpTo(before, written, f, calls, Desired(f.entries).Keys)
    requires PruneState(before, written, now, f, calls, seen, ok) && seen == written.Keys
    ensures IsPass(before, now, f, calls)
    ensures ok <==> AllDeleted(before, f, calls, before.Keys)
  {
    forall k: Key ensures Lookup(now, k) == After(before, f, calls, k) {
      assert Lookup(written, k) == if k.ns == f.ns && k.name in Desired(f.entries) then After(before, f, calls, k)
        else Lookup(before, k);
    }
    forall k | k in before && Stray(k, before[k], f) ensures k in seen {
      assert Lookup(written, k) == Lookup(before, k);
    }
  }

  /** One Fleet reconcile: its effect on every object, the site events it consists of, and when it reports success. */
  method Reconcile(api: ApiServer, f: FleetObject, calls: PassCalls) returns (ready: bool, ghost events: seq<Event>)
    modifies api
    ensures IsPass(old(BodiesOf(api.sites)), BodiesOf(api.sites), f, calls)
    ensures api.View() == Run(old(api.View()), events) && AllFleetEvents(events)
    ensures ready <==> Clean(old(BodiesOf(api.sites)), f, calls)
    // Whatever fails: what each site says afterwards, entry by entry.
    ensures forall k: Key :: Leaves(old(BodiesOf(api.sites)), BodiesOf(api.sites), f, calls, k)
    // Sites neither labelled for the fleet nor named in it are untouched, whatever fails.
    ensures forall k: Key | NotOfFleet(old(BodiesOf(api.sites)), f, k) ::
      Lookup(BodiesOf(api.sites), k) == Lookup(old(BodiesOf(api.sites)), k)
  {
    ghost var before := BodiesOf(api.sites);
    ready, events := Pass(api, f, calls);
    PassMeans(before, BodiesOf(api.sites), f, calls);
  }

  lemma PassMeans(before: Bodies, after: Bodies, f: FleetObject, calls: PassCalls)
    requires IsPass(before, after, f, calls)
    ensures forall k: Key :: Leaves(before, after, f, calls, k)
    ensures forall k: Key | NotOfFleet(before, f, k) :: Lookup(after, k) == Lookup(before, k)
  {
    forall k: Key ensures Leaves(before, after, f, calls, k) { PassLeaves(before, after, f, calls, k); }
    forall k: Key | NotOfFleet(before, f, k) ensures Lookup(after, k) == Lookup(before, k) {
      OthersUntouched(before, after, f, calls, k);
    }
  }

  /** Writes, then deletions unless the list fails. */
  method Pass(api: ApiServer, f: FleetObject, calls: PassCalls) returns (ready: bool, ghost events: seq<Event>)
    modifies api
    ensures IsPass(old(BodiesOf(api.sites)), BodiesOf(api.sites), f, calls)
    ensures api.View() == Run(old(api.View()), events) && AllFleetEvents(events)
    ensures ready <==> Clean(old(BodiesOf(api.sites)), f, calls)
  {
    ghost var before := BodiesOf(api.sites);
    ghost var w := api.View();
    ready, events := ApplyAll(api, f, calls);
    if !calls.list {
      return false, events;
    }
    var ok, more := Prune(api, f, calls, before);
    RunAppend(w, events, more);
    ready, events := ready && ok, events + more;
  }

  lemma SeenAll(items: seq<Item>, sites: Store)
    requires Lists(items, sites)
    ensures KeysUpTo(items, |items|) == sites.Keys
  {
    forall k | k in sites ensures k in KeysUpTo(items, |items|) {
      var j :| 0 <= j < |items| && items[j] == Item(k, sites[k]);
      assert items[j].key == k;
    }
  }
}
